/**
 * The workspace face of a pixel display world: the world's image source,
 * which consumes pixels, and its sensor matrices, which produce them.
 */
module PixelDisplay {

  import opened Wrappers
  import opened Strings

  datatype ImageSource = ImageSource(id: nat)

  datatype SensorMatrix = SensorMatrix(id: nat, name: string)

  /** Something couplings can attach to. */
  datatype AttributeContainer = Emitter(source: ImageSource) | Sensor(matrix: SensorMatrix)

  datatype PixelDisplayWorld = PixelDisplayWorld(imageSource: ImageSource, sensorMatrices: seq<SensorMatrix>)

  /** The image source first, then every sensor matrix in world order. */
  function AttributeContainers(world: PixelDisplayWorld): (r: seq<AttributeContainer>)
    ensures |r| == 1 + |world.sensorMatrices|
    ensures r[0] == Emitter(world.imageSource)
    ensures forall i :: 0 <= i < |world.sensorMatrices| ==> r[i + 1] == Sensor(world.sensorMatrices[i])
  {
    [Emitter(world.imageSource)] + seq(|world.sensorMatrices|, i requires 0 <= i < |world.sensorMatrices| =>
      Sensor(world.sensorMatrices[i]))
  }

  /** The containers are exactly the image source and the sensor matrices: nothing else, nothing missing. */
  lemma AttributeContainersAreWorldParts(world: PixelDisplayWorld, c: AttributeContainer)
    ensures c in AttributeContainers(world) <==>
      c == Emitter(world.imageSource) || (c.Sensor? && c.matrix in world.sensorMatrices)
  {
    var r := AttributeContainers(world);
    if c.Sensor? && c.matrix in world.sensorMatrices {
      var i :| 0 <= i < |world.sensorMatrices| && world.sensorMatrices[i] == c.matrix;
      assert r[i + 1] == c;
    }
    if c in r && c != Emitter(world.imageSource) {
      var k :| 0 <= k < |r| && r[k] == c;
      assert k != 0;
      assert world.sensorMatrices[k - 1] == c.matrix;
    }
  }

  /** The first sensor matrix whose name is exactly `key`, case included. */
  function FindSensor(sensors: seq<SensorMatrix>, key: string): (r: Option<nat>)
    ensures r.Some? ==> r.value < |sensors| && sensors[r.value].name == key
    ensures r.Some? ==> forall j :: 0 <= j < r.value ==> sensors[j].name != key
    ensures r.None? <==> forall j :: 0 <= j < |sensors| ==> sensors[j].name != key
  {
    if sensors == [] then None
    else if sensors[0].name == key then Some(0)
    else match FindSensor(sensors[1..], key)
      case None => None
      case Some(k) => Some(k + 1)
  }

  const EmitterKey: string := "EmitterMatrix"

  /**
   * The image source answers to "EmitterMatrix" in any letter case, ahead of
   * any sensor; otherwise the first sensor whose name matches exactly; else
   * nothing (null).
   */
  function ObjectFromKey(world: PixelDisplayWorld, key: string): (r: Option<AttributeContainer>)
    ensures EqualsIgnoreCase(key, EmitterKey) ==> r == Some(Emitter(world.imageSource))
    ensures !EqualsIgnoreCase(key, EmitterKey) && r.Some? ==>
      exists k :: 0 <= k < |world.sensorMatrices| && r == Some(Sensor(world.sensorMatrices[k]))
        && world.sensorMatrices[k].name == key
        && forall j :: 0 <= j < k ==> world.sensorMatrices[j].name != key
    ensures r.None? <==>
      !EqualsIgnoreCase(key, EmitterKey) && forall j :: 0 <= j < |world.sensorMatrices| ==> world.sensorMatrices[j].name != key
  {
    if EqualsIgnoreCase(key, EmitterKey) then Some(Emitter(world.imageSource))
    else match FindSensor(world.sensorMatrices, key)
      case None => None
      case Some(k) => Some(Sensor(world.sensorMatrices[k]))
  }

  /** Any result of a lookup is one of the world's containers. */
  lemma ObjectFromKeyIsContainer(world: PixelDisplayWorld, key: string)
    ensures ObjectFromKey(world, key).Some? ==> ObjectFromKey(world, key).value in AttributeContainers(world)
  {
    var r := ObjectFromKey(world, key);
    if r.Some? {
      AttributeContainersAreWorldParts(world, r.value);
    }
  }

  /** A sensor matrix named "EmitterMatrix" can never be looked up: the image source shadows it. */
  lemma EmitterKeyShadowsSensor(world: PixelDisplayWorld, i: nat)
    requires i < |world.sensorMatrices| && world.sensorMatrices[i].name == EmitterKey
    ensures ObjectFromKey(world, world.sensorMatrices[i].name) == Some(Emitter(world.imageSource))
  {
    assert EqualsIgnoreCase(EmitterKey, EmitterKey);
  }

  /** The emitter key is matched in every letter case, e.g. all lower case. */
  lemma LowerCasedEmitterKeyFindsSource(world: PixelDisplayWorld)
    ensures ObjectFromKey(world, LowerString(EmitterKey)) == Some(Emitter(world.imageSource))
  {
    EqualsIgnoreCaseOfLowered(EmitterKey);
    EqualsIgnoreCaseSymmetric(EmitterKey, LowerString(EmitterKey));
  }
}
