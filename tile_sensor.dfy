/**
 * An odor-world sensor that reports a fixed output amount while its parent
 * entity stands on a tile of a given id, and 0 otherwise.
 */
module OdorWorld {

  import opened Wrappers
  import opened Strings
  import Peripheral

  /** A Java `int`. */
  newtype Int32 = x: int | -0x8000_0000 <= x < 0x8000_0000

  /** The parent entity, as far as a tile sensor looks at it. */
  datatype Entity = Entity(name: string, centerX: real, centerY: real)

  /**
   * The state the Sensor superclass leaves behind after its constructor:
   * the parent (null for the no-argument constructor), the label and the id.
   */
  datatype SensorBase = SensorBase(parent: Option<Entity>, sensorLabel: string, id: string)

  const DefaultLabelPrefix: string := "Sense tile id "

  /** The label a tile sensor shows when none was set. */
  function DefaultLabel(tileId: Int32): (r: string)
    ensures |r| > |DefaultLabelPrefix| && r[..|DefaultLabelPrefix|] == DefaultLabelPrefix
    ensures var digits := r[|DefaultLabelPrefix|..];
      CanonicalDecimal(digits) && ParseDecimal(digits) == tileId as int
  {
    IntToDecimalRoundTrip(tileId as int);
    var digits := IntToDecimal(tileId as int);
    var r := DefaultLabelPrefix + digits;
    assert r[|DefaultLabelPrefix|..] == digits;
    r
  }

  /** Sensors of different tile ids never share a default label. */
  lemma DefaultLabelInjective(a: Int32, b: Int32)
    requires a != b
    ensures DefaultLabel(a) != DefaultLabel(b)
  {
  }

  class TileSensor {
    var value: real
    var outputAmount: real
    var tileIdToSense: Int32
    var parent: Option<Entity>
    var sensorLabel: string
    const id: string

    /**
     * TileSensor(parent) and TileSensor(): the field initialisers on top of
     * whatever the Sensor constructor set up.
     */
    constructor (base: SensorBase)
      ensures value == 0.0 && outputAmount == 1.0 && tileIdToSense == 0
      ensures parent == base.parent && sensorLabel == base.sensorLabel && id == base.id
    {
      value := 0.0;
      outputAmount := 1.0;
      tileIdToSense := 0;
      parent := base.parent;
      sensorLabel := base.sensorLabel;
      id := base.id;
    }

    /** TileSensor(parent, tileId): senses the given tile id. */
    constructor WithTileId(base: SensorBase, tileId: Int32)
      ensures value == 0.0 && outputAmount == 1.0 && tileIdToSense == tileId
      ensures parent == base.parent && sensorLabel == base.sensorLabel && id == base.id
    {
      value := 0.0;
      outputAmount := 1.0;
      tileIdToSense := tileId;
      parent := base.parent;
      sensorLabel := base.sensorLabel;
      id := base.id;
    }

    /** The copy constructor: output amount and tile id are copied, the value starts at 0. */
    constructor CopyOf(other: TileSensor, base: SensorBase)
      ensures value == 0.0
      ensures outputAmount == other.outputAmount && tileIdToSense == other.tileIdToSense
      ensures parent == base.parent && sensorLabel == base.sensorLabel && id == base.id
    {
      value := 0.0;
      outputAmount := other.outputAmount;
      tileIdToSense := other.tileIdToSense;
      parent := base.parent;
      sensorLabel := base.sensorLabel;
      id := base.id;
    }

    /**
     * Resets the value, then sets it to the output amount when the tile map
     * has a tile of the sensed id under the parent's centre. Without a parent
     * the source dereferences null after the reset: `ok` is false and the
     * value stays 0.
     */
    method Update(hasTileIdAtPixel: (Int32, real, real) -> bool) returns (ok: bool)
      modifies this`value
      ensures ok <==> parent.Some?
      ensures CurrentValue() ==
        if ok && hasTileIdAtPixel(tileIdToSense, parent.value.centerX, parent.value.centerY)
        then outputAmount else 0.0
      ensures CurrentValue() == 0.0 || CurrentValue() == outputAmount
    {
      value := 0.0;
      if parent.None? {
        return false;
      }
      ok := true;
      if hasTileIdAtPixel(tileIdToSense, parent.value.centerX, parent.value.centerY) {
        value := outputAmount;
      }
    }

    /** The value left by the last update. */
    function CurrentValue(): real
      reads this
    {
      value
    }

    method SetParent(parent: Option<Entity>)
      modifies this`parent
      ensures this.parent == parent
    {
      this.parent := parent;
    }

    function Name(): string
    {
      "Tile Sensor"
    }

    /** The inherited label, or the default naming the tile id when that is empty. */
    function Label(): (r: string)
      reads this
      ensures sensorLabel != "" ==> r == sensorLabel
      ensures sensorLabel == "" ==> r == DefaultLabel(tileIdToSense)
    {
      if sensorLabel == "" then DefaultLabel(tileIdToSense) else sensorLabel
    }

    /**
     * The coupling description, built on the overriding Label. None stands for
     * the null dereference of a missing parent.
     */
    function AttributeDescription(): (r: Option<string>)
      reads this
      ensures r.Some? <==> parent.Some?
      ensures r.Some? ==> r.value == Peripheral.AttributeDescription(parent.value.name, id, Label())
    {
      if parent.None? then None
      else Some(Peripheral.AttributeDescription(parent.value.name, id, Label()))
    }
  }

  /** With no colon in the parent's name or the id, the description reads back into its three parts. */
  lemma DescriptionReadsBack(s: TileSensor)
    requires s.parent.Some? && ':' !in s.parent.value.name && ':' !in s.id
    ensures Peripheral.ParseDescription(s.AttributeDescription().value) == Some((s.parent.value.name, s.id, s.Label()))
  {
    Peripheral.ParseDescriptionRoundTrip(s.parent.value.name, s.id, s.Label());
  }

  /**
   * A sensor with no label of its own is described by its parent's name, its
   * id and the default label, which names the sensed tile id.
   */
  lemma DescriptionOfUnlabelledSensor(s: TileSensor)
    requires s.parent.Some? && s.sensorLabel == ""
    ensures var d := s.AttributeDescription().value;
      var tail := DefaultLabel(s.tileIdToSense);
      |d| >= |tail| && d[|d| - |tail|..] == tail
      && d[..|s.parent.value.name|] == s.parent.value.name
  {
  }
}
