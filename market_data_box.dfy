/**
 * MarketDataBox: a piece of market data that holds either one value shared by
 * every scenario, or one value per scenario.
 *
 * The box library itself is not part of this model. What the par-rates
 * function relies on is modelled here as an assumption about it:
 *  - `isScenarioValue` is true exactly for the per-scenario form;
 *  - `getScenarioCount` of a per-scenario box is the number of its values;
 *  - `getValue(i)` of a single box is its one value for every index i, and of
 *    a per-scenario box is the i-th value, failing when i is out of range.
 * A per-scenario box with no values is representable, so the effect of such
 * a box on the scenario count can be stated.
 */
module MarketDataBox {
  import opened Wrappers

  datatype Box<T> = Single(value: T) | Scenario(values: seq<T>) {

    predicate IsScenarioValue() {
      Scenario?
    }

    /** `getValue(i)`: None stands for the out-of-range failure. */
    function ValueAt(i: nat): (r: Option<T>)
      ensures Single? ==> r == Some(value)
      ensures Scenario? ==> (r.Some? <==> i < |values|)
      ensures Scenario? && i < |values| ==> r.value == values[i]
    {
      match this
      case Single(v) => Some(v)
      case Scenario(vs) => if i < |vs| then Some(vs[i]) else None
    }

    /** True when every index below n can be read from this box. */
    predicate Covers(n: nat) {
      Scenario? ==> n <= |values|
    }
  }
}
