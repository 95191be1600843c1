# Par-rates market data function, modelled in Dafny

This project models `ParRatesMarketDataFunction` of the Strata market data
layer: the function that supplies the par rates a curve is calibrated from.
It has two jobs.

- **requirements**: find the curve group in the market data configuration,
  then the curve in the group. If either is missing, or the curve is not an
  interpolated nodal curve, ask for nothing. Otherwise collect every node's
  market data keys into one set, qualify each key with the id's market data
  feed, and ask for those ids.
- **build**: find the group and the curve, failing when either is missing.
  Resolve each node key to a market data box, and take the valuation date
  box. If every box holds a single value, give one `ParRates`. If any box is
  per-scenario, agree on one scenario count (`scenarioCount`). Then give one
  `ParRates` per scenario: scenario i pairs the rates at index i with the
  curve metadata for the valuation date at index i. Single values are shared
  by every scenario.

Modules:

- `Wrappers` (wrappers.dfy): `Option` and `Result`. A thrown exception is a
  `Failure` value.
- `MarketDataBox` (market_data_box.dfy): `Box<T> = Single(value) | Scenario(values)`.
  It also fixes how the par-rates function reads a box.
- `CurveTypes` (curve_types.dfy): configuration, curve definitions, ids,
  the calculation environment, `ParRates` and the failure kinds.
- `KeySets` (key_sets.dfy): insertion-ordered sets as sequences without
  repetition. This is what collecting into an immutable set or map gives.
- `ScenarioCounting` (scenario_count.dfy): `scenarioCount`. It is a method
  with a loop, proved against the function `ScenarioCountOf`. Lemmas state
  what that function computes.
- `ParRatesFunction` (par_rates_function.dfy): `requirements`, `build` and
  their helpers as functions, plus lemmas about `build`.

Assumptions about code that is not part of this model:

- The box library is not part of this model. `getValue(i)` of a single box
  is taken to be its one value for every i. `getValue(i)` of a per-scenario
  box is taken to be its i-th value, failing when i is out of range.
  `getScenarioCount` is taken to be the number of values.
- `MarketDataConfig.get`, `CurveGroupDefinition.findEntry`,
  `node.requirements()`, `toMarketDataId`, `metadata(date)` and
  `CalculationEnvironment.getValue` are opaque. They are maps, datatype
  fields or function parameters.
- A node's requirement set is a sequence in its iteration order. The rate
  map's iteration order is the order in which the node keys are collected
  into a set. The key a mismatch names depends on that order.

Behaviour of the code worth knowing:

- `build` makes no check on the kind of nodal definition, unlike
  `requirements`. An interpolated or any other nodal definition is built the
  same way (`BuildIgnoresDefinitionKind`).
- `scenarioCount` uses 0 to mean "no count yet". The source comments that
  its final "cannot count the scenarios" failure "shouldn't happen", because
  the multi-scenario path is taken only when some input is per-scenario.
  That holds when every per-scenario box has at least one value: then
  neither that failure nor an out-of-range read can happen
  (`BuildNeverLacksScenarios`).
- If the box library allows a per-scenario box with no values, the 0
  sentinel has further effects:
  - such a box, met before any count is set, is skipped; met later, it is a
    mismatch;
  - "cannot count the scenarios" is then reachable from `build`. It happens
    exactly when some input is per-scenario and every per-scenario input is
    empty (`BuildNoScenarioDataIff`);
  - a skipped empty box is later read at index 0, and `build` then fails
    with an index out of range (`BuildIndexOutOfRangeIff`);
  - whether `scenarioCount` succeeds can depend on the map's iteration
    order (`EmptyScenarioBoxIsOrderSensitive`). `build` fails either way
    (`BuildFailsWithEmptyScenarioBox`); only the kind of failure changes.
- The valuation date is looked at first, so a mismatch always names a rate
  key, never the valuation date.
- With no empty box, whether `build` succeeds, and the count it agrees on,
  do not depend on the map's iteration order
  (`ScenarioCountOrderIndependent`, `BuildFailsIffCountsDisagree`). The key a mismatch names does depend on
  that order.

## Model

| member | source | states |
|---|---|---|
| `MarketDataBox.Box.ValueAt` | modules/function/src/main/java/com/opengamma/strata/function/marketdata/curve/ParRatesMarketDataFunction.java:145-150 | reading index i: a single box gives its one value at every index; a per-scenario box gives its i-th value, and only when i is below its count |
| `KeySets.AddAll` | modules/function/src/main/java/com/opengamma/strata/function/marketdata/curve/ParRatesMarketDataFunction.java:201-205 | collecting into an immutable set: the result has no repetition, holds exactly the old elements and the new ones, and keeps the old ones first and in order |
| `KeySets.Dedup` | modules/function/src/main/java/com/opengamma/strata/function/marketdata/curve/ParRatesMarketDataFunction.java:202-204 | `collect(toImmutableSet())`: the collected keys have no repetition, and a key is collected iff it is in the stream |
| `KeySets.DedupOfDistinct` | modules/function/src/main/java/com/opengamma/strata/function/marketdata/curve/ParRatesMarketDataFunction.java:201-205 | a stream without repetition is collected in its own order |
| `ParRatesFunction.FlattenHasNodeKeys` | modules/function/src/main/java/com/opengamma/strata/function/marketdata/curve/ParRatesMarketDataFunction.java:202-203 | the flat-mapped stream holds exactly the keys that some node requires |
| `ParRatesFunction.NodeRequirements` | modules/function/src/main/java/com/opengamma/strata/function/marketdata/curve/ParRatesMarketDataFunction.java:201-205 | `nodeRequirements` lists each key once, and a key is listed iff some node of the curve requires it |
| `ParRatesFunction.FindCurve` | modules/function/src/main/java/com/opengamma/strata/function/marketdata/curve/ParRatesMarketDataFunction.java:80-92 | the definition is found iff the group is configured and holds the curve, and it is that entry; otherwise the failure names the missing group, or the missing curve and its group |
| `ParRatesFunction.Requirements` | modules/function/src/main/java/com/opengamma/strata/function/marketdata/curve/ParRatesMarketDataFunction.java:46-70 | empty when the group is missing, when the curve is missing from the group, or when the definition is not interpolated nodal; otherwise an id is required iff it is the feed-qualified id of a key some node requires |
| `ParRatesFunction.RequirementsSize` | modules/function/src/main/java/com/opengamma/strata/function/marketdata/curve/ParRatesMarketDataFunction.java:64-69 | when qualifying with the feed keeps keys apart, there are exactly as many requirements as distinct keys across all nodes |
| `ParRatesFunction.GetMarketDataValues` | modules/function/src/main/java/com/opengamma/strata/function/marketdata/curve/ParRatesMarketDataFunction.java:207-213 | the rate map's keys are exactly the requirement keys, in their order; each maps to the environment's box for its feed-qualified id |
| `ParRatesFunction.BuildSingleRates` | modules/function/src/main/java/com/opengamma/strata/function/marketdata/curve/ParRatesMarketDataFunction.java:145-150 | the rates of scenario i keep every key; a single box gives its value (broadcast), a per-scenario box its i-th value |
| `ParRatesFunction.BuildSingleParRates` | modules/function/src/main/java/com/opengamma/strata/function/marketdata/curve/ParRatesMarketDataFunction.java:106-118 | one set of par rates; boxing its rates again gives back the input map (round trip); the metadata is that of the single valuation date |
| `ParRatesFunction.NoEmptyScenarioCovers` | modules/function/src/main/java/com/opengamma/strata/function/marketdata/curve/ParRatesMarketDataFunction.java:127-136 | once a count n is agreed, every box can be read at every index below n iff no per-scenario box is empty |
| `ParRatesFunction.BuildMultipleParRates` | modules/function/src/main/java/com/opengamma/strata/function/marketdata/curve/ParRatesMarketDataFunction.java:120-143 | fails as `scenarioCount` does; otherwise gives exactly N sets of par rates, where set i has the keys of the rate map, each box's value at i, and the metadata for the valuation date at i; with no empty box, it cannot fail after the count is agreed |
| `ParRatesFunction.Build` | modules/function/src/main/java/com/opengamma/strata/function/marketdata/curve/ParRatesMarketDataFunction.java:78-90 | fails with an unknown curve group when the group is missing, and with an unknown curve naming curve and group when the curve is missing from the group |
| `ParRatesFunction.BuildIgnoresDefinitionKind` | modules/function/src/main/java/com/opengamma/strata/function/marketdata/curve/ParRatesMarketDataFunction.java:91-95 | `build` gives the same result whatever the kind of nodal definition (no subtype check, unlike `requirements`) |
| `ParRatesFunction.BuildModeChoice` | modules/function/src/main/java/com/opengamma/strata/function/marketdata/curve/ParRatesMarketDataFunction.java:97-103 | with no per-scenario input the result is one set of par rates; with one, a successful result is per-scenario |
| `ParRatesFunction.BuildSingle` | modules/function/src/main/java/com/opengamma/strata/function/marketdata/curve/ParRatesMarketDataFunction.java:111-117 | single inputs give one set of par rates keyed by exactly the keys the nodes need, each holding that key's single value, with the metadata for the valuation date |
| `ParRatesFunction.BuildPerScenario` | modules/function/src/main/java/com/opengamma/strata/function/marketdata/curve/ParRatesMarketDataFunction.java:127-142 | when every per-scenario input has n > 0 values, the result is exactly n sets; set i is keyed by exactly the keys the nodes need, holds each box's value at i, and has the metadata for the valuation date at i |
| `ParRatesFunction.BuildBroadcasts` | modules/function/src/main/java/com/opengamma/strata/function/marketdata/curve/ParRatesMarketDataFunction.java:129-149 | in a per-scenario result a single box gives the same value to every scenario, a per-scenario box its i-th value to scenario i, and a single valuation date the same metadata to every scenario |
| `ParRatesFunction.BuildFailsIffCountsDisagree` | modules/function/src/main/java/com/opengamma/strata/function/marketdata/curve/ParRatesMarketDataFunction.java:158-181 | with no empty box and some per-scenario input, `build` fails iff two per-scenario inputs differ in count, and then with a mismatch naming a rate whose count differs from the expected one |
| `ParRatesFunction.BuildNoScenarioDataIff` | modules/function/src/main/java/com/opengamma/strata/function/marketdata/curve/ParRatesMarketDataFunction.java:182-187 | "cannot count the scenarios" happens iff some input is per-scenario and every per-scenario input is empty (the 0 sentinel) |
| `ParRatesFunction.BuildNeverLacksScenarios` | modules/function/src/main/java/com/opengamma/strata/function/marketdata/curve/ParRatesMarketDataFunction.java:185-187 | with no empty box, `build` never fails for lack of scenarios or for an index out of range |
| `ParRatesFunction.BuildIndexOutOfRangeIff` | modules/function/src/main/java/com/opengamma/strata/function/marketdata/curve/ParRatesMarketDataFunction.java:129-136 | reading out of range happens iff some input is per-scenario, the count is agreed, and some per-scenario box is empty |
| `ParRatesFunction.BuildFailsWithEmptyScenarioBox` | modules/function/src/main/java/com/opengamma/strata/function/marketdata/curve/ParRatesMarketDataFunction.java:127-136 | once some per-scenario box is empty, `build` always fails, whatever the map's order (only the kind of failure depends on it) |
| `ParRatesFunction.BuildKeysMatchRequirements` | modules/function/src/main/java/com/opengamma/strata/function/marketdata/curve/ParRatesMarketDataFunction.java:64-69 | for an interpolated nodal curve, the keys of every set of par rates, qualified with the feed, are exactly the ids `requirements` asks for |
| `ScenarioCounting.ScenarioCount` | modules/function/src/main/java/com/opengamma/strata/function/marketdata/curve/ParRatesMarketDataFunction.java:152-188 | the loop over the rate map computes `ScenarioCountOf`, and any count it returns is positive |
| `ScenarioCounting.InitialCount` | modules/function/src/main/java/com/opengamma/strata/function/marketdata/curve/ParRatesMarketDataFunction.java:156-160 | the running count starts unset (0) unless the valuation date is a non-empty scenario box, and then starts at its count |
| `ScenarioCounting.CountFrom` | modules/function/src/main/java/com/opengamma/strata/function/marketdata/curve/ParRatesMarketDataFunction.java:161-187 | from any point of the loop, a returned count is positive and keeps a running count that was already set; a mismatch names a visited key and two different counts |
| `ScenarioCounting.ScenarioCountOf` | modules/function/src/main/java/com/opengamma/strata/function/marketdata/curve/ParRatesMarketDataFunction.java:152-188 | `scenarioCount` as a function: a returned count is positive, and it is the valuation date's count when that is a non-empty scenario box |
| `ScenarioCounting.CountFromSound` | modules/function/src/main/java/com/opengamma/strata/function/marketdata/curve/ParRatesMarketDataFunction.java:161-184 | from any point of the loop, a returned count is positive, equals the running count if that was set, agrees with every non-empty box visited, and is the count of some input |
| `ScenarioCounting.CountFromComplete` | modules/function/src/main/java/com/opengamma/strata/function/marketdata/curve/ParRatesMarketDataFunction.java:161-184 | from any point of the loop, if every remaining per-scenario box has n values and n is set or still to come, the loop returns n |
| `ScenarioCounting.CountFromNoData` | modules/function/src/main/java/com/opengamma/strata/function/marketdata/curve/ParRatesMarketDataFunction.java:161-187 | from any point of the loop, it ends with "cannot count" iff the running count is unset and every remaining per-scenario box is empty |
| `ScenarioCounting.CountFromMismatch` | modules/function/src/main/java/com/opengamma/strata/function/marketdata/curve/ParRatesMarketDataFunction.java:165-179 | a mismatch is raised at a visited key whose count differs from the expected one; the expected count was set first, and every earlier non-empty box agrees with it |
| `ScenarioCounting.CountFromFailureKinds` | modules/function/src/main/java/com/opengamma/strata/function/marketdata/curve/ParRatesMarketDataFunction.java:171-187 | the loop fails only with a mismatch or with "cannot count" |
| `ScenarioCounting.ScenarioCountAgreed` | modules/function/src/main/java/com/opengamma/strata/function/marketdata/curve/ParRatesMarketDataFunction.java:156-184 | a returned count is positive, is the count of some input, and every non-empty per-scenario input has it |
| `ScenarioCounting.ScenarioCountOfAgreeing` | modules/function/src/main/java/com/opengamma/strata/function/marketdata/curve/ParRatesMarketDataFunction.java:156-184 | if some input is per-scenario and every per-scenario input has n > 0 values, the count is n |
| `ScenarioCounting.NoScenarioDataIff` | modules/function/src/main/java/com/opengamma/strata/function/marketdata/curve/ParRatesMarketDataFunction.java:182-187 | "cannot count the scenarios" iff every per-scenario input is empty, including when there is none |
| `ScenarioCounting.ScenarioCountMismatchReported` | modules/function/src/main/java/com/opengamma/strata/function/marketdata/curve/ParRatesMarketDataFunction.java:165-179 | a mismatch carries a rate key whose box has the reported count, and an expected count that differs from it; the expected count is another input's, and it is the valuation date's when that is a non-empty scenario box (first one wins) |
| `ScenarioCounting.ScenarioCountFailureKinds` | modules/function/src/main/java/com/opengamma/strata/function/marketdata/curve/ParRatesMarketDataFunction.java:171-187 | `scenarioCount` fails only with a mismatch or with "cannot count" |
| `ScenarioCounting.ScenarioCountIff` | modules/function/src/main/java/com/opengamma/strata/function/marketdata/curve/ParRatesMarketDataFunction.java:152-188 | with no empty box, the count is n iff some input is per-scenario and every per-scenario input has n > 0 values |
| `ScenarioCounting.ScenarioCountFailsIffDisagree` | modules/function/src/main/java/com/opengamma/strata/function/marketdata/curve/ParRatesMarketDataFunction.java:161-181 | with no empty box and some per-scenario input, `scenarioCount` fails iff two per-scenario inputs differ in count, and then with a mismatch |
| `ScenarioCounting.ScenarioCountOrderIndependent` | modules/function/src/main/java/com/opengamma/strata/function/marketdata/curve/ParRatesMarketDataFunction.java:161-181 | with no empty box, success and the count returned do not depend on the rate map's iteration order |
| `ScenarioCounting.EmptyScenarioBoxIsOrderSensitive` | modules/function/src/main/java/com/opengamma/strata/function/marketdata/curve/ParRatesMarketDataFunction.java:165-179 | an empty scenario box is skipped when it comes before a one-value box (count 1), and is a mismatch (0 against 1) when it comes after |

## Left out

- `SwapLegPricerFn` is left out. It is an interface of abstract methods that price with floating point, and it has no logic.
- `getMarketDataIdType` is left out. It returns a Java class object and has no behaviour to state.
- Error message text (`Messages.format`) is left out. A failure carries only its kind and the names, key and counts the message would show.
- `CalculationEnvironment.getValue` is a total function of the id. What the environment does for an id it has no value for is not part of this model.
- `ParRatesFunction.BuildMultipleParRates`: a read out of range is one failure kind. The model does not say which box was read, nor whether the metadata list or the rate maps were being built.
- `ParRatesFunction.BuildSingleParRates` requires single boxes. `getSingleValue` would throw on a per-scenario box, but `build` never calls it with one.
- Counts are unbounded naturals. Java's `int` cannot overflow here, because a count is the size of a list.
- `MarketDataRequirements` and its builder are a set of ids. Java generics, wildcards and the immutable collection builders are plain Dafny sets, maps and sequences.
- Calling `build` twice with equal inputs gives equal results, because every operation here is a function. No separate lemma states this.
