# Simbrain workspace scheduling core, in Dafny

This project models and proves the core of Simbrain's workspace scheduling and a handful of
the small attribute and parameter classes that feed its coupling layer.

- **Update action manager** (`update_action_manager.dfy`, module `UpdateActions`). One
  workspace iteration (a *tick*) runs the manager's ordered list of update actions. The
  manager appends, removes, swaps and clears entries. It restores the default two-entry
  schedule: update all components, then synchronize couplings. It also keeps a
  component-to-action map and a coupling-to-action map in step with the workspace's
  lifecycle callbacks. `UpdateActionManager` is a class whose methods reassign its fields.
  - Actions are objects compared by identity, so two actions built for the same component
    are two different actions. "## Left out" states the assumption behind this.
  - Listener callbacks (`actionAdded`, `actionRemoved`, `actionOrderChanged`) go into a
    ghost log of deliveries: one entry per registered listener, in registration order.
  - The workspace and coupling-manager callbacks form a `WorkspaceEvent` datatype, which
    `HandleEvent` dispatches.
  - The enumeration of addable actions and the case-insensitive lookup are methods with
    loops. They are proved against the specification functions `AvailableSpecs` and
    `FindDescription`.
- **Pixel display component** (`pixel_display_component.dfy`, module `PixelDisplay`). This
  covers how the image source and the sensor matrices are listed as attribute containers,
  and how a key is looked up: "EmitterMatrix" in any letter case comes first, then the
  first sensor whose name matches exactly. Both are pure functions.
- **Tile sensor** (`tile_sensor.dfy`, module `OdorWorld`). A sensor worth 0 or its output
  amount, depending on whether the tile map has the sensed tile id under the parent
  entity's centre. Its label falls back to `Sense tile id <n>`.
- **Peripheral attribute description** (`peripheral_attribute.dfy`, module `Peripheral`).
  The `name:id:label` string, together with a parser that reads it back.
- **Pareto distribution parameters** (`pareto_distribution.dfy`, module `Pareto`).
  - Field defaults.
  - The guarded floor and ceiling setters, which keep "floor >= min, ceiling > min".
  - The unguarded `setMin`, which can break that invariant.
  - The field-by-field deep copy and the builder.
- **NEAT node gene** (`node_gene.dfy`, module `Neat`). Mutation perturbs the prototype's
  bias by a random amount that the caller passes in, then applies the two clamps to
  ±maxBias. `setType` installs a linear rule on non-hidden nodes. `copy` deep-copies the
  prototype and shares the configuration.

Support modules:
- `lists.dfy`: Java's `List.remove(Object)` (first occurrence) and `Collections.swap`.
- `strings.dfy`: `equalsIgnoreCase`, shown to be equality of the lower-cased strings, and
  `Integer.toString`, with its round trip.
- `doubles.dfy`: Java comparisons on `double`, including infinity and NaN. The Pareto
  ceiling defaults to +∞.
- `wrappers.dfy`: `Option`.

Two behaviours of the code worth knowing:
- **Removing an absent action still notifies.** When a map has no entry, `null` is passed to
  `removeAction`, and every listener still gets `actionRemoved`, even though the list is
  unchanged (UpdateActionManager.java:137, 152, 219-224).
- **Each reset builds a new update-all action.** Every call of `setDefaultUpdateActions`
  creates a new update-all action. `SetDefaultUpdateActions` establishes `IsDefaultSchedule`
  (two entries: update-all, then coupling sync) from any prior state, so repeated calls give
  the same two-entry shape.

## Model

| member | source | states |
|---|---|---|
| Lists.FirstIndex | src/main/java/org/simbrain/workspace/updater/UpdateActionManager.java:220 | the position `List.remove(Object)` deletes: it holds `x`, and no earlier position does |
| Lists.RemoveFirst | src/main/java/org/simbrain/workspace/updater/UpdateActionManager.java:220 | an absent element leaves the list unchanged; a present one shortens it by exactly one |
| Lists.RemoveFirstMultiset | src/main/java/org/simbrain/workspace/updater/UpdateActionManager.java:220 | removal takes out exactly one occurrence of `x` and nothing else (multiset difference) |
| Lists.RemoveFirstCutsAtFirstIndex | src/main/java/org/simbrain/workspace/updater/UpdateActionManager.java:219-224 | only the first occurrence is cut out; the entries before and after it keep their order |
| Lists.RemoveFirstOfHead | src/main/java/org/simbrain/workspace/updater/UpdateActionManager.java:230-231 | removing the list's own head (the next snapshot entry) drops exactly the head |
| Lists.Swapped | src/main/java/org/simbrain/workspace/updater/UpdateActionManager.java:196 | the entries at `i` and `j` change places; every other position is unchanged |
| Lists.SwappedIsPermutation | src/main/java/org/simbrain/workspace/updater/UpdateActionManager.java:196 | a swap preserves the multiset of actions |
| Lists.SwappedTwiceIsIdentity | src/main/java/org/simbrain/workspace/updater/UpdateActionManager.java:196 | swapping the same pair twice restores the list |
| Strings.EqualsIgnoreCase | src/main/java/org/simbrain/workspace/updater/UpdateActionManager.java:254 | a string matches itself, and only strings of equal length match |
| Strings.EqualsIgnoreCaseIsLoweredEquality | src/main/java/org/simbrain/world/imageworld/PixelDisplayComponent.java:75 | two strings match ignoring case exactly when their lower-cased forms are equal |
| Strings.EqualsIgnoreCaseSymmetric | src/main/java/org/simbrain/workspace/updater/UpdateActionManager.java:254 | the description match ignoring case is symmetric |
| Strings.EqualsIgnoreCaseTransitive | src/main/java/org/simbrain/workspace/updater/UpdateActionManager.java:254 | the description match ignoring case is transitive |
| Strings.EqualsIgnoreCaseOfLowered | src/main/java/org/simbrain/world/imageworld/PixelDisplayComponent.java:75 | every string matches its lower-cased form ignoring case |
| Strings.NatToDecimal | src/main/java/org/simbrain/world/odorworld/sensors/TileSensor.java:108 | canonical digits: non-empty, all digits, no leading zero unless the value is 0, and more than one digit exactly from 10 upwards |
| Strings.IntToDecimal | src/main/java/org/simbrain/world/odorworld/sensors/TileSensor.java:108 | canonical text: canonical digits, with a leading '-' exactly for negative values and never before 0 |
| Strings.NatToDecimalRoundTrip | src/main/java/org/simbrain/world/odorworld/sensors/TileSensor.java:108 | the digits read back as the same natural number |
| Strings.IntToDecimalRoundTrip | src/main/java/org/simbrain/world/odorworld/sensors/TileSensor.java:108 | the rendering of any int parses back to that int |
| Strings.IntToDecimalInjective | src/main/java/org/simbrain/world/odorworld/sensors/TileSensor.java:108 | different ints render differently |
| Strings.CanonicalDigitsAreRendered | src/main/java/org/simbrain/world/odorworld/sensors/TileSensor.java:108 | every canonical digit string is the rendering of the value it denotes |
| Strings.CanonicalDecimalIsRendered | src/main/java/org/simbrain/world/odorworld/sensors/TileSensor.java:108 | every canonical text is the rendering of the int it parses to, so the rendering is a bijection onto canonical texts |
| Doubles.Trichotomy | src/main/java/org/simbrain/util/math/ProbDistributions/ParetoDistribution.java:114 | away from NaN, exactly one of `<`, `==`, `>` holds |
| Doubles.NaNComparesFalse | src/main/java/org/simbrain/util/math/ProbDistributions/ParetoDistribution.java:120 | every comparison involving NaN is false |
| Doubles.LessTransitive | src/main/java/org/simbrain/util/math/ProbDistributions/ParetoDistribution.java:114 | `<` on doubles is transitive |
| Doubles.GreaterIsStrictAtLeast | src/main/java/org/simbrain/util/math/ProbDistributions/ParetoDistribution.java:114-120 | `>` implies `>=`, and `>=` without equality is `>` |
| UpdateActions.BroadcastReachesEachListener | src/main/java/org/simbrain/workspace/updater/UpdateActionManager.java:209-211 | a notification reaches every registered listener exactly once, in registration order |
| UpdateActions.Lookup | src/main/java/org/simbrain/workspace/updater/UpdateActionManager.java:137 | `HashMap.remove`'s result: null exactly when the key has no mapping, otherwise the mapped action |
| UpdateActions.Unmapped | src/main/java/org/simbrain/workspace/updater/UpdateActionManager.java:157-159 | one `HashMap.remove` result per coupling of the batch |
| UpdateActions.UnmappedAt | src/main/java/org/simbrain/workspace/updater/UpdateActionManager.java:157-159 | each coupling's result is its mapped action, or null when it is unmapped or already removed earlier in the batch |
| UpdateActions.BatchRemovalStep | src/main/java/org/simbrain/workspace/updater/UpdateActionManager.java:157-159 | handling one more coupling of a batch extends the map, list and log invariants of the loop by that coupling |
| UpdateActions.Present | src/main/java/org/simbrain/workspace/updater/UpdateActionManager.java:156-160 | the non-null removal results, never more than there were removals |
| UpdateActions.RemoveEachMultiset | src/main/java/org/simbrain/workspace/updater/UpdateActionManager.java:156-160 | removing a batch one by one takes each non-null result out once and leaves every other action in place (multiset) |
| UpdateActions.RemoveEachPrefixLeavesSuffix | src/main/java/org/simbrain/workspace/updater/UpdateActionManager.java:229-233 | removing the first `i` snapshot entries one by one leaves exactly the remaining snapshot entries |
| UpdateActions.SnapshotRemovalEmpties | src/main/java/org/simbrain/workspace/updater/UpdateActionManager.java:229-233 | removing every snapshot entry in turn empties the list, duplicates included |
| UpdateActions.AvailableSpecs | src/main/java/org/simbrain/workspace/updater/UpdateActionManager.java:287-305 | `2 + |components| + |couplings|` entries; each component's and each coupling's entry carries its description |
| UpdateActions.AvailableSpecsLayout | src/main/java/org/simbrain/workspace/updater/UpdateActionManager.java:287-305 | `2 + |components| + |couplings|` entries: update-all, delay, one per component, one per coupling, in that order |
| UpdateActions.FindDescription | src/main/java/org/simbrain/workspace/updater/UpdateActionManager.java:252-259 | the first entry whose description equals the key ignoring case; None exactly when no entry matches |
| UpdateActions.UpdateAllFoundFirst | src/main/java/org/simbrain/workspace/updater/UpdateActionManager.java:252-259 | a key matching the update-all description finds update-all, whatever components and couplings are live |
| UpdateActions.UpdateActionManager.constructor | src/main/java/org/simbrain/workspace/updater/UpdateActionManager.java:101-105 | a new manager keeps the given sync action and descriptions and holds exactly [fresh update-all with the given description, that sync action], empty maps, and has notified no one |
| UpdateActions.UpdateActionManager.Notify | src/main/java/org/simbrain/workspace/updater/UpdateActionManager.java:197-199 | the loop over listeners delivers the notice to each listener in order |
| UpdateActions.UpdateActionManager.AddListener | src/main/java/org/simbrain/workspace/updater/UpdateActionManager.java:169-171 | the listener is appended |
| UpdateActions.UpdateActionManager.RemoveListener | src/main/java/org/simbrain/workspace/updater/UpdateActionManager.java:178-180 | the first registration of the listener is removed |
| UpdateActions.UpdateActionManager.SwapElements | src/main/java/org/simbrain/workspace/updater/UpdateActionManager.java:195-200 | valid indices: the two entries are exchanged, the multiset is kept and actionOrderChanged goes to each listener; otherwise nothing changes |
| UpdateActions.UpdateActionManager.AddAction | src/main/java/org/simbrain/workspace/updater/UpdateActionManager.java:207-212 | the action is appended, earlier entries are unchanged, and actionAdded goes to each listener |
| UpdateActions.UpdateActionManager.RemoveAction | src/main/java/org/simbrain/workspace/updater/UpdateActionManager.java:219-224 | the first occurrence is removed (null or absent: list unchanged), and actionRemoved goes to each listener regardless |
| UpdateActions.UpdateActionManager.Clear | src/main/java/org/simbrain/workspace/updater/UpdateActionManager.java:229-233 | the list ends empty, and one actionRemoved per snapshot entry goes to each listener, in snapshot order |
| UpdateActions.UpdateActionManager.SetDefaultUpdateActions | src/main/java/org/simbrain/workspace/updater/UpdateActionManager.java:239-243 | from any state: exactly [fresh update-all, coupling sync], after the clear's removals and two additions are notified |
| UpdateActions.UpdateActionManager.OnComponentAdded | src/main/java/org/simbrain/workspace/updater/UpdateActionManager.java:130-133 | a fresh action updating the component, with the component's description, is filed in the map; the schedule and the log are untouched |
| UpdateActions.UpdateActionManager.OnComponentRemoved | src/main/java/org/simbrain/workspace/updater/UpdateActionManager.java:136-138 | the entry leaves the map, its action (or null) is removed from the schedule, and the removal is notified; a removed action is the component's own update action |
| UpdateActions.UpdateActionManager.OnCouplingAdded | src/main/java/org/simbrain/workspace/updater/UpdateActionManager.java:145-148 | a fresh action updating the coupling, with the coupling's description, is filed in the map; the schedule and the log are untouched |
| UpdateActions.UpdateActionManager.OnCouplingRemoved | src/main/java/org/simbrain/workspace/updater/UpdateActionManager.java:151-153 | the entry leaves the map, its action (or null) is removed from the schedule, and the removal is notified; a removed action is the coupling's own update action |
| UpdateActions.UpdateActionManager.OnCouplingsRemoved | src/main/java/org/simbrain/workspace/updater/UpdateActionManager.java:156-160 | every key of the batch leaves the map; the schedule and the log show each successive `HashMap.remove` result being removed, in batch order |
| UpdateActions.UpdateActionManager.HandleEvent | src/main/java/org/simbrain/workspace/updater/UpdateActionManager.java:119-161 | each callback has the effect above, an added key getting its own update action with its description, and leaves the other map alone; cleared/opened change nothing; the map invariant is kept |
| UpdateActions.UpdateActionManager.GetAvailableActionList | src/main/java/org/simbrain/workspace/updater/UpdateActionManager.java:287-305 | fresh, pairwise distinct actions whose kinds and descriptions are the enumeration, entry by entry |
| UpdateActions.UpdateActionManager.GetAction | src/main/java/org/simbrain/workspace/updater/UpdateActionManager.java:252-259 | null exactly when no available description matches ignoring case; otherwise a newly built action that is the first match |
| UpdateActions.UpdateActionManager.GetUpdateAction | src/main/java/org/simbrain/workspace/updater/UpdateActionManager.java:273-280 | the same first-match search ignoring case over newly built actions, or null when nothing matches |
| PixelDisplay.AttributeContainers | src/main/java/org/simbrain/world/imageworld/PixelDisplayComponent.java:64-71 | `1 + |sensors|` containers: the image source first, then each sensor matrix in world order |
| PixelDisplay.AttributeContainersAreWorldParts | src/main/java/org/simbrain/world/imageworld/PixelDisplayComponent.java:64-71 | the containers are exactly the image source and the world's sensor matrices |
| PixelDisplay.FindSensor | src/main/java/org/simbrain/world/imageworld/PixelDisplayComponent.java:78-82 | the first sensor whose name equals the key exactly; None exactly when none does |
| PixelDisplay.ObjectFromKey | src/main/java/org/simbrain/world/imageworld/PixelDisplayComponent.java:74-84 | "EmitterMatrix" in any case gives the image source; otherwise the first exactly named sensor; null exactly when neither matches |
| PixelDisplay.ObjectFromKeyIsContainer | src/main/java/org/simbrain/world/imageworld/PixelDisplayComponent.java:74-84 | whatever the lookup returns is one of the listed containers |
| PixelDisplay.EmitterKeyShadowsSensor | src/main/java/org/simbrain/world/imageworld/PixelDisplayComponent.java:75-80 | a sensor named "EmitterMatrix" is shadowed by the image source |
| PixelDisplay.LowerCasedEmitterKeyFindsSource | src/main/java/org/simbrain/world/imageworld/PixelDisplayComponent.java:75-77 | the lower-cased key "emittermatrix" also finds the image source |
| Peripheral.AttributeDescription | src/main/java/org/simbrain/world/odorworld/entities/PeripheralAttribute.java:33-35 | the parent's name, a colon, the id, a colon, then the label, at the stated positions and length |
| Peripheral.DescriptionHasTwoColons | src/main/java/org/simbrain/world/odorworld/entities/PeripheralAttribute.java:34 | every description holds at least two ':' characters |
| Peripheral.ParseDescriptionSound | src/main/java/org/simbrain/world/odorworld/entities/PeripheralAttribute.java:34 | whatever parses is the description of its parts; a string with fewer than two colons never parses |
| Peripheral.ParseDescriptionRoundTrip | src/main/java/org/simbrain/world/odorworld/entities/PeripheralAttribute.java:33-35 | with no colon in name or id, the description parses back to name, id and label |
| OdorWorld.DefaultLabel | src/main/java/org/simbrain/world/odorworld/sensors/TileSensor.java:108 | "Sense tile id " followed by canonical decimal text (no leading zero) that parses back to the tile id |
| OdorWorld.DefaultLabelInjective | src/main/java/org/simbrain/world/odorworld/sensors/TileSensor.java:108 | different tile ids never share a default label |
| OdorWorld.TileSensor.constructor | src/main/java/org/simbrain/world/odorworld/sensors/TileSensor.java:37-39 | value 0, output amount 1, tile id 0, on top of the Sensor state |
| OdorWorld.TileSensor.WithTileId | src/main/java/org/simbrain/world/odorworld/sensors/TileSensor.java:47-50 | as the plain constructor, but sensing the given tile id |
| OdorWorld.TileSensor.CopyOf | src/main/java/org/simbrain/world/odorworld/sensors/TileSensor.java:57-61 | output amount and tile id copied; value starts at 0 |
| OdorWorld.TileSensor.Update | src/main/java/org/simbrain/world/odorworld/sensors/TileSensor.java:75-83 | the value becomes the output amount exactly when the tile map reports the tile under the parent's centre, else 0; only the value changes; no parent fails after the reset |
| OdorWorld.TileSensor.SetParent | src/main/java/org/simbrain/world/odorworld/sensors/TileSensor.java:91-93 | the parent is replaced; nothing else changes |
| OdorWorld.TileSensor.Label | src/main/java/org/simbrain/world/odorworld/sensors/TileSensor.java:106-112 | the inherited label when non-empty, otherwise the default label naming the tile id |
| OdorWorld.TileSensor.AttributeDescription | src/main/java/org/simbrain/world/odorworld/entities/PeripheralAttribute.java:33-35 | fails exactly without a parent; otherwise the `name:id:label` description with the overriding label |
| OdorWorld.DescriptionReadsBack | src/main/java/org/simbrain/world/odorworld/entities/PeripheralAttribute.java:33-35 | with no colon in the parent's name or the id, the description parses back to the name, the id and the overriding label |
| OdorWorld.DescriptionOfUnlabelledSensor | src/main/java/org/simbrain/world/odorworld/entities/PeripheralAttribute.java:34 | an unlabelled tile sensor's description begins with the parent's name and ends with "Sense tile id <n>" |
| Pareto.AcceptedCeil | src/main/java/org/simbrain/util/math/ProbDistributions/ParetoDistribution.java:113-116 | the new ceiling exactly when it is above the minimum, else the old one |
| Pareto.AcceptedFloor | src/main/java/org/simbrain/util/math/ProbDistributions/ParetoDistribution.java:119-122 | the new floor exactly when it is at or above the minimum, else the old one |
| Pareto.AcceptedBoundsKeepInvariant | src/main/java/org/simbrain/util/math/ProbDistributions/ParetoDistribution.java:112-122 | neither guarded setter can break "floor >= min and ceiling > min" |
| Pareto.NaNBoundsRefused | src/main/java/org/simbrain/util/math/ProbDistributions/ParetoDistribution.java:112-122 | a NaN floor or ceiling is always refused |
| Pareto.DefaultsRespectBounds | src/main/java/org/simbrain/util/math/ProbDistributions/ParetoDistribution.java:22-44 | the defaults satisfy "floor >= min and ceiling > min" |
| Pareto.ParetoDistribution.constructor | src/main/java/org/simbrain/util/math/ProbDistributions/ParetoDistribution.java:15-59 | slope 2, min 1, floor 1, ceiling +∞, no clipping, polarity BOTH |
| Pareto.ParetoDistribution.SetSlope | src/main/java/org/simbrain/util/math/ProbDistributions/ParetoDistribution.java:90-92 | only the slope changes |
| Pareto.ParetoDistribution.SetMin | src/main/java/org/simbrain/util/math/ProbDistributions/ParetoDistribution.java:98-100 | only the minimum changes, with no check against the bounds |
| Pareto.ParetoDistribution.SetClipping | src/main/java/org/simbrain/util/math/ProbDistributions/ParetoDistribution.java:108-110 | only the clipping flag changes |
| Pareto.ParetoDistribution.SetPolarity | src/main/java/org/simbrain/util/math/ProbDistributions/ParetoDistribution.java:129-131 | only the polarity changes |
| Pareto.ParetoDistribution.SetUpperBound | src/main/java/org/simbrain/util/math/ProbDistributions/ParetoDistribution.java:113-116 | the ceiling follows the guard and no other field changes; the bounds invariant is kept |
| Pareto.ParetoDistribution.SetLowerBound | src/main/java/org/simbrain/util/math/ProbDistributions/ParetoDistribution.java:119-122 | the floor follows the guard and no other field changes; the bounds invariant is kept |
| Pareto.ParetoDistribution.SetCeil | src/main/java/org/simbrain/util/math/ProbDistributions/ParetoDistribution.java:124 | the same effect as setUpperBound |
| Pareto.ParetoDistribution.SetFloor | src/main/java/org/simbrain/util/math/ProbDistributions/ParetoDistribution.java:126 | the same effect as setLowerBound |
| Pareto.ParetoDistribution.DeepCopy | src/main/java/org/simbrain/util/math/ProbDistributions/ParetoDistribution.java:76-84 | a new object with the same slope, min, floor, ceiling and clipping, and polarity BOTH whatever the original's |
| Pareto.SetMinCanBreakBounds | src/main/java/org/simbrain/util/math/ProbDistributions/ParetoDistribution.java:33 | raising the minimum of a default distribution to 2 leaves the floor below it |
| Pareto.ParetoDistributionBuilder.constructor | src/main/java/org/simbrain/util/math/ProbDistributions/ParetoDistribution.java:151 | the builder owns one fresh default product |
| Pareto.ParetoDistributionBuilder.Slope | src/main/java/org/simbrain/util/math/ProbDistributions/ParetoDistribution.java:153-156 | sets the product's slope and returns the same builder |
| Pareto.ParetoDistributionBuilder.Min | src/main/java/org/simbrain/util/math/ProbDistributions/ParetoDistribution.java:158-161 | sets the product's minimum and returns the same builder |
| Pareto.ParetoDistributionBuilder.Build | src/main/java/org/simbrain/util/math/ProbDistributions/ParetoDistribution.java:164-166 | returns that same product object |
| Neat.Clamp | src/main/java/org/simbrain/util/neat2/NodeGene.java:81-86 | within ±maxBias when maxBias >= 0; unchanged when already in range; maxBias itself when maxBias < 0 |
| Neat.ClampIdempotent | src/main/java/org/simbrain/util/neat2/NodeGene.java:81-86 | clamping twice is clamping once; out-of-range values go to the nearer limit |
| Neat.ClampMovesAtMostDelta | src/main/java/org/simbrain/util/neat2/NodeGene.java:76-86 | starting in range, the stored bias moves by no more than the largest mutation |
| Neat.Neuron.DeepCopy | src/main/java/org/simbrain/util/neat2/NodeGene.java:97 | a new neuron with the same update rule |
| Neat.NodeGene.constructor | src/main/java/org/simbrain/util/neat2/NodeGene.java:38-40 | a hidden gene with a fresh default prototype and no configuration |
| Neat.NodeGene.OfType | src/main/java/org/simbrain/util/neat2/NodeGene.java:47-51 | a gene of the given type with a fresh default prototype |
| Neat.NodeGene.SetConfiguration | src/main/java/org/simbrain/util/neat2/NodeGene.java:114-116 | only the configuration reference changes |
| Neat.NodeGene.Mutate | src/main/java/org/simbrain/util/neat2/NodeGene.java:71-91 | no change when not mutable or not biased; otherwise bias := the two clamps of old bias + d, inside ±maxBias when maxBias >= 0; a missing configuration fails before any write |
| Neat.NodeGene.SetType | src/main/java/org/simbrain/util/neat2/NodeGene.java:107-112 | records the type, and installs a new linear rule exactly when the type is not hidden |
| Neat.NodeGene.Copy | src/main/java/org/simbrain/util/neat2/NodeGene.java:93-101 | a new gene of the same type, sharing the configuration, with its own fresh prototype holding the same rule |

## Left out

- Concurrency. The `CopyOnWriteArrayList` schedule is modelled as a sequence. Its only
  visible effect, `clear` iterating over a snapshot, is modelled. Ticks and the worker pool
  are not part of this model.
- Listener wiring: `addListeners` registering with the workspace and coupling manager, and
  `postAddInit`. The callbacks are fed in through `HandleEvent`. `getActionList` hands out
  the list itself, which is just a field read here.
- `WorkspaceUpdater`, `UpdateAllAction`, `UpdateComponent`, `UpdateCoupling` and
  `WorkspaceDelayAction` are not part of this model. Actions are opaque objects with a kind
  and a description. The updater's sync action and the descriptions of update-all and delay
  are constructor parameters. The live components and couplings are parameters of
  `GetAvailableActionList`.
- Action equality: actions are compared by identity. `List.remove` and `HashMap` in Java
  use `equals`, and `UpdateComponent`/`UpdateCoupling` are not part of this model, so the
  model assumes they do not override it. As a consequence, the removal callbacks only take
  out the very action filed in the map. An equal-looking action obtained from
  `getAvailableActionList` and added to the schedule stays in it.
- UpdateActions.UpdateActionManager.AddAction: takes a non-null action. Java's list would
  also accept null, which no caller in the core passes.
- `equalsIgnoreCase` is modelled for ASCII letters only. Unicode case mappings beyond ASCII
  are not modelled.
- Doubles: finite values are reals, so rounding, overflow and the sign of zero are not
  modelled. The node gene's bias and the tile sensor's amounts are plain reals, with no NaN
  or infinity.
- `ParetoDistribution.nextRand`/`nextRandInt` draw from an external random library. The
  getters and `getName` are field reads and a constant. `create()` is the constructor.
- The randomizer of `NodeGene` is left out. The draw of `mutate` is the parameter `d`, and
  the model does not constrain it to ±nodeMaxBiasMutation. `copy` installing a new seeded
  randomizer is not modelled. `getPrototype`/`getType` are field reads.
- Neat.NodeGene.Mutate: the update rule is a value held by the neuron. If the Java rule
  object were shared by several neurons, `setBias` would change all of them; the model
  changes only this prototype.
- `Neuron`, `LinearRule`, `Gene` and `NetworkGenome.Configuration` are not part of this
  model. Assumptions: a new neuron's rule is a linear rule with bias 0, which is also what
  `new LinearRule()` gives; a gene is mutable from construction.
- `Sensor` and `OdorWorldEntity` are not part of this model. The state Sensor's
  constructors leave (parent, label, id) is a constructor parameter. `setLabel` and `copy()`
  belong to Sensor or reuse the copy constructor.
- OdorWorld.TileSensor.Update: the parent entity is held as a value (name and centre), so
  `Update` reads the centre given at construction or by `SetParent`, where Java reads the
  live entity's centre on every update. A parent that moves must be re-supplied through
  `SetParent`.
- The tile map is an abstract predicate passed to `Update`. A world without a tile map is
  not modelled.
- OdorWorld.TileSensor.Name is the constant "Tile Sensor" and carries no contract.
  OdorWorld.TileSensor.CurrentValue is the stored value; `Update` states what it returns.
- `PixelDisplayComponent`'s constructors, `open`, `save`, `getXStream`, `update` and
  `getWorld` are serialization I/O and world stepping. The world is a value: an image
  source and a sequence of named sensor matrices.
