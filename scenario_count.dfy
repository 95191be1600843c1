/**
 * `scenarioCount`: the number of scenarios that the per-scenario inputs of
 * the par-rates function agree on.
 *
 * The valuation date is looked at first, then each rate in the iteration
 * order of the rate map. The running count starts at 0, which stands for
 * "not yet known": the first per-scenario input whose count is not 0 sets it,
 * and every later per-scenario input must have exactly that count, or the
 * computation fails at it. A per-scenario input with no values met while the
 * count is still 0 leaves it at 0. If the count is still 0 at the end, it
 * fails because there was nothing to count.
 */
module ScenarioCounting {
  import opened Wrappers
  import opened MarketDataBox
  import opened CurveTypes
  import opened KeySets

  /** Every key listed is a key of the rate map. */
  predicate KeysIn(keys: seq<SimpleKey>, rates: map<SimpleKey, Box<Quote>>) {
    forall i :: 0 <= i < |keys| ==> keys[i] in rates
  }

  /** keys lists each key of the rate map once: the iteration order of an immutable map. */
  predicate IsOrderOf(keys: seq<SimpleKey>, rates: map<SimpleKey, Box<Quote>>) {
    Distinct(keys) && KeysIn(keys, rates) && forall k :: k in rates ==> k in keys
  }

  /** The box is per-scenario and has n values. */
  predicate HasCount<T>(box: Box<T>, n: nat) {
    box.Scenario? && |box.values| == n
  }

  /** Every per-scenario input, the valuation date and each rate, has n values. */
  ghost predicate AllCountsAre(valuationDate: Box<Date>, rates: map<SimpleKey, Box<Quote>>, n: nat) {
    && (valuationDate.Scenario? ==> |valuationDate.values| == n)
    && forall k :: k in rates && rates[k].Scenario? ==> |rates[k].values| == n
  }

  /** Some input is per-scenario (what sends `build` down its multi-scenario path). */
  ghost predicate SomeScenario(valuationDate: Box<Date>, rates: map<SimpleKey, Box<Quote>>) {
    valuationDate.Scenario? || exists k :: k in rates && rates[k].Scenario?
  }

  /** No per-scenario input is empty: the invariant of the box library that a scenario box has at least one value. */
  ghost predicate NoEmptyScenario(valuationDate: Box<Date>, rates: map<SimpleKey, Box<Quote>>) {
    && (valuationDate.Scenario? ==> |valuationDate.values| > 0)
    && forall k :: k in rates && rates[k].Scenario? ==> |rates[k].values| > 0
  }

  /** Two per-scenario inputs have different counts. */
  ghost predicate CountsDisagree(valuationDate: Box<Date>, rates: map<SimpleKey, Box<Quote>>) {
    exists k :: k in rates && rates[k].Scenario? &&
      ((valuationDate.Scenario? && |valuationDate.values| != |rates[k].values|) ||
       exists k' :: k' in rates && rates[k'].Scenario? && |rates[k'].values| != |rates[k].values|)
  }

  /** The count before the rates are looked at: that of the valuation date, or 0 for "not yet known". */
  function InitialCount(valuationDate: Box<Date>): (count: nat)
    ensures count == 0 <==> !valuationDate.Scenario? || |valuationDate.values| == 0
    ensures count != 0 ==> HasCount(valuationDate, count)
  {
    if valuationDate.IsScenarioValue() then |valuationDate.values| else 0
  }

  /** The loop over the rates, from running count `count`, as a function of what is left to visit. */
  function CountFrom(count: nat, keys: seq<SimpleKey>, rates: map<SimpleKey, Box<Quote>>): (r: Result<nat, BuildError>)
    requires KeysIn(keys, rates)
    ensures r.Success? ==> r.value > 0 && (count > 0 ==> r.value == count)
    ensures r.Failure? && r.error.ScenarioCountMismatch? ==> r.error.key in keys && r.error.actual != r.error.expected
    decreases |keys|
  {
    if keys == [] then
      if count != 0 then Success(count) else Failure(NoScenarioData)
    else
      var box := rates[keys[0]];
      if !box.IsScenarioValue() then CountFrom(count, keys[1..], rates)
      else if count == 0 then CountFrom(|box.values|, keys[1..], rates)
      else if count != |box.values| then Failure(ScenarioCountMismatch(keys[0], |box.values|, count))
      else CountFrom(count, keys[1..], rates)
  }

  /** What `scenarioCount(valuationDate, rates)` computes, with keys the iteration order of rates. */
  function ScenarioCountOf(valuationDate: Box<Date>, keys: seq<SimpleKey>, rates: map<SimpleKey, Box<Quote>>): (r: Result<nat, BuildError>)
    requires KeysIn(keys, rates)
    ensures r.Success? ==> r.value > 0
    ensures valuationDate.Scenario? && |valuationDate.values| > 0 && r.Success? ==> r.value == |valuationDate.values|
  {
    CountFrom(InitialCount(valuationDate), keys, rates)
  }

  /** `scenarioCount`: the loop over the rate map, with its early failure and its 0 sentinel. */
  method ScenarioCount(valuationDate: Box<Date>, keys: seq<SimpleKey>, rates: map<SimpleKey, Box<Quote>>)
    returns (r: Result<nat, BuildError>)
    requires IsOrderOf(keys, rates)
    ensures r == ScenarioCountOf(valuationDate, keys, rates)
    ensures r.Success? ==> r.value > 0
  {
    var count: nat := 0;
    if valuationDate.IsScenarioValue() {
      count := |valuationDate.values|;
    }
    var j := 0;
    while j < |keys|
      invariant 0 <= j <= |keys|
      invariant CountFrom(count, keys[j..], rates) == ScenarioCountOf(valuationDate, keys, rates)
    {
      assert keys[j..][0] == keys[j] && keys[j..][1..] == keys[j + 1..];
      var box := rates[keys[j]];
      if box.IsScenarioValue() {
        var boxCount := |box.values|;
        if count == 0 {
          count := boxCount;
        } else if count != boxCount {
          return Failure(ScenarioCountMismatch(keys[j], boxCount, count));
        }
      }
      j := j + 1;
    }
    if count != 0 {
      return Success(count);
    }
    return Failure(NoScenarioData);
  }

  // Properties of the loop, for any running count and any remaining keys.

  /** On success, the count is positive, agrees with every non-empty box visited and is the count of the running value or of a visited box. */
  lemma {:induction false} CountFromSound(count: nat, keys: seq<SimpleKey>, rates: map<SimpleKey, Box<Quote>>, n: nat)
    requires KeysIn(keys, rates)
    requires CountFrom(count, keys, rates) == Success(n)
    ensures n > 0 && (count > 0 ==> n == count)
    ensures forall i :: 0 <= i < |keys| && rates[keys[i]].Scenario? && |rates[keys[i]].values| > 0 ==> |rates[keys[i]].values| == n
    ensures count == n || exists i :: 0 <= i < |keys| && HasCount(rates[keys[i]], n)
    decreases |keys|
  {
    if keys != [] {
      var box := rates[keys[0]];
      var next := if box.Scenario? && count == 0 then |box.values| else count;
      assert CountFrom(next, keys[1..], rates) == Success(n);
      CountFromSound(next, keys[1..], rates, n);
      forall i | 1 <= i < |keys|
        ensures keys[i] == keys[1..][i - 1]
      {
      }
      if next != n {
        var i :| 0 <= i < |keys[1..]| && HasCount(rates[keys[1..][i]], n);
        assert HasCount(rates[keys[i + 1]], n);
      } else if count != n {
        assert HasCount(rates[keys[0]], n);
      }
    }
  }

  /** When every box still to be visited has count n, and the running count is n or is unset with a box still to come, the loop ends with n. */
  lemma {:induction false} CountFromComplete(count: nat, keys: seq<SimpleKey>, rates: map<SimpleKey, Box<Quote>>, n: nat)
    requires KeysIn(keys, rates)
    requires n > 0 && (count == 0 || count == n)
    requires forall i :: 0 <= i < |keys| && rates[keys[i]].Scenario? ==> |rates[keys[i]].values| == n
    requires count == n || exists i :: 0 <= i < |keys| && rates[keys[i]].Scenario?
    ensures CountFrom(count, keys, rates) == Success(n)
    decreases |keys|
  {
    if keys != [] {
      var box := rates[keys[0]];
      var next := if box.Scenario? && count == 0 then |box.values| else count;
      forall i | 1 <= i < |keys|
        ensures keys[i] == keys[1..][i - 1]
      {
      }
      if next != n {
        var i :| 0 <= i < |keys| && rates[keys[i]].Scenario?;
        assert i != 0;
        assert rates[keys[1..][i - 1]].Scenario?;
      }
      CountFromComplete(next, keys[1..], rates, n);
    }
  }

  /** The loop ends with "nothing to count" exactly when the running count is unset and every box still to be visited is empty or single. */
  lemma {:induction false} CountFromNoData(count: nat, keys: seq<SimpleKey>, rates: map<SimpleKey, Box<Quote>>)
    requires KeysIn(keys, rates)
    ensures CountFrom(count, keys, rates) == Failure(NoScenarioData) <==>
      count == 0 && forall i :: 0 <= i < |keys| && rates[keys[i]].Scenario? ==> |rates[keys[i]].values| == 0
    decreases |keys|
  {
    if keys != [] {
      var box := rates[keys[0]];
      var next := if box.Scenario? && count == 0 then |box.values| else count;
      forall i | 1 <= i < |keys|
        ensures keys[i] == keys[1..][i - 1]
      {
      }
      CountFromNoData(next, keys[1..], rates);
      if box.Scenario? && count != 0 && count != |box.values| {
        assert CountFrom(count, keys, rates).error.ScenarioCountMismatch?;
      }
    }
  }

  /**
   * A mismatch is reported at a visited key whose box has a different count
   * from the expected one, and the expected count is the first one set:
   * the running count, or, when that was unset, the count of an earlier box,
   * with which every earlier non-empty box agrees.
   */
  lemma {:induction false} CountFromMismatch(count: nat, keys: seq<SimpleKey>, rates: map<SimpleKey, Box<Quote>>, k: SimpleKey, actual: nat, expected: nat)
    requires KeysIn(keys, rates)
    requires CountFrom(count, keys, rates) == Failure(ScenarioCountMismatch(k, actual, expected))
    ensures actual != expected && expected > 0 && k in keys && HasCount(rates[k], actual)
    ensures count == 0 || count == expected
    ensures exists i :: (0 <= i < |keys| && keys[i] == k &&
      (forall j :: 0 <= j < i && rates[keys[j]].Scenario? && |rates[keys[j]].values| > 0 ==> |rates[keys[j]].values| == expected) &&
      (count == expected || exists j :: 0 <= j < i && HasCount(rates[keys[j]], expected)))
    decreases |keys|
  {
    var box := rates[keys[0]];
    if box.Scenario? && count != 0 && count != |box.values| {
      assert keys[0] == k;
    } else {
      var next := if box.Scenario? && count == 0 then |box.values| else count;
      forall i | 1 <= i < |keys|
        ensures keys[i] == keys[1..][i - 1]
      {
      }
      CountFromMismatch(next, keys[1..], rates, k, actual, expected);
      var i' :| 0 <= i' < |keys[1..]| && keys[1..][i'] == k &&
        (forall j :: 0 <= j < i' && rates[keys[1..][j]].Scenario? && |rates[keys[1..][j]].values| > 0 ==> |rates[keys[1..][j]].values| == expected) &&
        (next == expected || exists j :: 0 <= j < i' && HasCount(rates[keys[1..][j]], expected));
      var i := i' + 1;
      assert keys[i] == k;
      if next != expected {
        var j :| 0 <= j < i' && HasCount(rates[keys[1..][j]], expected);
        assert HasCount(rates[keys[j + 1]], expected);
      } else if count != expected {
        assert HasCount(rates[keys[0]], expected);
      }
      assert forall j :: 1 <= j < i && rates[keys[j]].Scenario? && |rates[keys[j]].values| > 0 ==> |rates[keys[j]].values| == expected by {
        forall j | 1 <= j < i && rates[keys[j]].Scenario? && |rates[keys[j]].values| > 0
          ensures |rates[keys[j]].values| == expected
        {
          assert keys[j] == keys[1..][j - 1];
        }
      }
    }
  }

  /** The loop only ever fails with a mismatch or with nothing to count. */
  lemma {:induction false} CountFromFailureKinds(count: nat, keys: seq<SimpleKey>, rates: map<SimpleKey, Box<Quote>>)
    requires KeysIn(keys, rates)
    ensures CountFrom(count, keys, rates).Failure? ==>
      CountFrom(count, keys, rates).error.ScenarioCountMismatch? || CountFrom(count, keys, rates).error.NoScenarioData?
    decreases |keys|
  {
    if keys != [] {
      var box := rates[keys[0]];
      var next := if box.Scenario? && count == 0 then |box.values| else count;
      CountFromFailureKinds(next, keys[1..], rates);
    }
  }

  // Properties of `scenarioCount` over the whole input.

  /** A count that is returned is positive, is the count of some input, and every non-empty per-scenario input has it. */
  lemma ScenarioCountAgreed(valuationDate: Box<Date>, keys: seq<SimpleKey>, rates: map<SimpleKey, Box<Quote>>, n: nat)
    requires IsOrderOf(keys, rates)
    requires ScenarioCountOf(valuationDate, keys, rates) == Success(n)
    ensures n > 0
    ensures valuationDate.Scenario? && |valuationDate.values| > 0 ==> |valuationDate.values| == n
    ensures forall k :: k in rates && rates[k].Scenario? && |rates[k].values| > 0 ==> |rates[k].values| == n
    ensures HasCount(valuationDate, n) || exists k :: k in rates && HasCount(rates[k], n)
  {
    CountFromSound(InitialCount(valuationDate), keys, rates, n);
    forall k | k in rates && rates[k].Scenario? && |rates[k].values| > 0
      ensures |rates[k].values| == n
    {
      var i :| 0 <= i < |keys| && keys[i] == k;
    }
    if !HasCount(valuationDate, n) {
      var i :| 0 <= i < |keys| && HasCount(rates[keys[i]], n);
    }
  }

  /** When every per-scenario input has n > 0 values and there is one, the count is n. */
  lemma ScenarioCountOfAgreeing(valuationDate: Box<Date>, keys: seq<SimpleKey>, rates: map<SimpleKey, Box<Quote>>, n: nat)
    requires IsOrderOf(keys, rates)
    requires n > 0 && AllCountsAre(valuationDate, rates, n) && SomeScenario(valuationDate, rates)
    ensures ScenarioCountOf(valuationDate, keys, rates) == Success(n)
  {
    if !valuationDate.Scenario? {
      var k :| k in rates && rates[k].Scenario?;
      var i :| 0 <= i < |keys| && keys[i] == k;
    }
    CountFromComplete(InitialCount(valuationDate), keys, rates, n);
  }

  /** "Nothing to count" is the outcome exactly when no input is per-scenario with a value. */
  lemma NoScenarioDataIff(valuationDate: Box<Date>, keys: seq<SimpleKey>, rates: map<SimpleKey, Box<Quote>>)
    requires IsOrderOf(keys, rates)
    ensures ScenarioCountOf(valuationDate, keys, rates) == Failure(NoScenarioData) <==> AllCountsAre(valuationDate, rates, 0)
  {
    CountFromNoData(InitialCount(valuationDate), keys, rates);
    if AllCountsAre(valuationDate, rates, 0) {
      assert forall i :: 0 <= i < |keys| && rates[keys[i]].Scenario? ==> |rates[keys[i]].values| == 0;
    }
  }

  /**
   * A mismatch names a rate whose count differs from the expected one; the
   * expected count is that of another input, and is the valuation date's
   * when the valuation date is per-scenario and not empty (first one wins).
   */
  lemma ScenarioCountMismatchReported(valuationDate: Box<Date>, keys: seq<SimpleKey>, rates: map<SimpleKey, Box<Quote>>, k: SimpleKey, actual: nat, expected: nat)
    requires IsOrderOf(keys, rates)
    requires ScenarioCountOf(valuationDate, keys, rates) == Failure(ScenarioCountMismatch(k, actual, expected))
    ensures k in rates && HasCount(rates[k], actual) && actual != expected && expected > 0
    ensures valuationDate.Scenario? && |valuationDate.values| > 0 ==> expected == |valuationDate.values|
    ensures HasCount(valuationDate, expected) || exists k' :: k' in rates && k' != k && HasCount(rates[k'], expected)
  {
    CountFromMismatch(InitialCount(valuationDate), keys, rates, k, actual, expected);
    if !HasCount(valuationDate, expected) {
      var i :| 0 <= i < |keys| && keys[i] == k &&
        (InitialCount(valuationDate) == expected || exists j :: 0 <= j < i && HasCount(rates[keys[j]], expected));
      var j :| 0 <= j < i && HasCount(rates[keys[j]], expected);
      assert keys[j] != k;
    }
  }

  /** `scenarioCount` fails only with a mismatch or with nothing to count. */
  lemma ScenarioCountFailureKinds(valuationDate: Box<Date>, keys: seq<SimpleKey>, rates: map<SimpleKey, Box<Quote>>)
    requires IsOrderOf(keys, rates)
    ensures ScenarioCountOf(valuationDate, keys, rates).Failure? ==>
      ScenarioCountOf(valuationDate, keys, rates).error.ScenarioCountMismatch? ||
      ScenarioCountOf(valuationDate, keys, rates).error.NoScenarioData?
  {
    CountFromFailureKinds(InitialCount(valuationDate), keys, rates);
  }

  /** With no empty per-scenario box, the count is n exactly when some input is per-scenario and all per-scenario inputs have n values. */
  lemma ScenarioCountIff(valuationDate: Box<Date>, keys: seq<SimpleKey>, rates: map<SimpleKey, Box<Quote>>, n: nat)
    requires IsOrderOf(keys, rates)
    requires NoEmptyScenario(valuationDate, rates)
    ensures ScenarioCountOf(valuationDate, keys, rates) == Success(n) <==>
      n > 0 && SomeScenario(valuationDate, rates) && AllCountsAre(valuationDate, rates, n)
  {
    if ScenarioCountOf(valuationDate, keys, rates) == Success(n) {
      ScenarioCountAgreed(valuationDate, keys, rates, n);
    }
    if n > 0 && SomeScenario(valuationDate, rates) && AllCountsAre(valuationDate, rates, n) {
      ScenarioCountOfAgreeing(valuationDate, keys, rates, n);
    }
  }

  /** With no empty per-scenario box and some per-scenario input, `scenarioCount` fails exactly when two per-scenario inputs disagree, and then with a mismatch. */
  lemma ScenarioCountFailsIffDisagree(valuationDate: Box<Date>, keys: seq<SimpleKey>, rates: map<SimpleKey, Box<Quote>>)
    requires IsOrderOf(keys, rates)
    requires NoEmptyScenario(valuationDate, rates) && SomeScenario(valuationDate, rates)
    ensures ScenarioCountOf(valuationDate, keys, rates).Failure? <==> CountsDisagree(valuationDate, rates)
    ensures ScenarioCountOf(valuationDate, keys, rates).Failure? ==> ScenarioCountOf(valuationDate, keys, rates).error.ScenarioCountMismatch?
  {
    var r := ScenarioCountOf(valuationDate, keys, rates);
    ScenarioCountFailureKinds(valuationDate, keys, rates);
    NoScenarioDataIff(valuationDate, keys, rates);
    if r.Success? {
      ScenarioCountAgreed(valuationDate, keys, rates, r.value);
    } else {
      if r.error.NoScenarioData? {
        assert false;
      }
      var k, a, e := r.error.key, r.error.actual, r.error.expected;
      ScenarioCountMismatchReported(valuationDate, keys, rates, k, a, e);
    }
    if !CountsDisagree(valuationDate, rates) {
      var n: nat;
      if valuationDate.Scenario? {
        n := |valuationDate.values|;
      } else {
        var k :| k in rates && rates[k].Scenario?;
        n := |rates[k].values|;
      }
      ScenarioCountOfAgreeing(valuationDate, keys, rates, n);
    }
  }

  /** With no empty per-scenario box, whether `scenarioCount` succeeds, and the count it returns, do not depend on the iteration order of the rates. */
  lemma ScenarioCountOrderIndependent(valuationDate: Box<Date>, keys1: seq<SimpleKey>, keys2: seq<SimpleKey>, rates: map<SimpleKey, Box<Quote>>)
    requires IsOrderOf(keys1, rates) && IsOrderOf(keys2, rates)
    requires NoEmptyScenario(valuationDate, rates)
    ensures ScenarioCountOf(valuationDate, keys1, rates).Success? == ScenarioCountOf(valuationDate, keys2, rates).Success?
    ensures ScenarioCountOf(valuationDate, keys1, rates).Success? ==>
      ScenarioCountOf(valuationDate, keys1, rates).value == ScenarioCountOf(valuationDate, keys2, rates).value
  {
    var r1 := ScenarioCountOf(valuationDate, keys1, rates);
    if r1.Success? {
      ScenarioCountIff(valuationDate, keys1, rates, r1.value);
      ScenarioCountIff(valuationDate, keys2, rates, r1.value);
    }
    var r2 := ScenarioCountOf(valuationDate, keys2, rates);
    if r2.Success? {
      ScenarioCountIff(valuationDate, keys2, rates, r2.value);
      ScenarioCountIff(valuationDate, keys1, rates, r2.value);
    }
  }

  /**
   * The 0 sentinel makes an empty per-scenario box order-sensitive: visited
   * before a box with one value it is skipped, visited after it is a mismatch.
   */
  lemma EmptyScenarioBoxIsOrderSensitive(date: Date, k1: SimpleKey, k2: SimpleKey, q: Quote)
    requires k1 != k2
    ensures var rates := map[k1 := Scenario([]), k2 := Scenario([q])];
      && ScenarioCountOf(Single(date), [k1, k2], rates) == Success(1)
      && ScenarioCountOf(Single(date), [k2, k1], rates) == Failure(ScenarioCountMismatch(k1, 0, 1))
  {
    var rates := map[k1 := Scenario([]), k2 := Scenario([q])];
    assert [k1, k2][1..] == [k2] && [k2][1..] == [] && [k2, k1][1..] == [k1] && [k1][1..] == [];
    assert CountFrom(1, [], rates) == Success(1);
    assert CountFrom(0, [k2], rates) == CountFrom(1, [], rates);
    assert CountFrom(0, [k1, k2], rates) == CountFrom(0, [k2], rates);
    assert CountFrom(1, [k1], rates) == Failure(ScenarioCountMismatch(k1, 0, 1));
    assert CountFrom(0, [k2, k1], rates) == CountFrom(1, [k1], rates);
  }
}
