/**
 * The par-rates market data function: which quotes a curve's calibration
 * needs (`requirements`), and the par rates built from those quotes, one
 * set per scenario (`build`).
 */
module ParRatesFunction {
  import opened Wrappers
  import opened MarketDataBox
  import opened CurveTypes
  import opened KeySets
  import opened ScenarioCounting

  /** Some node of the curve lists k among its requirements. */
  ghost predicate NodeNeeds(nodes: seq<CurveNode>, k: SimpleKey) {
    exists i, j :: 0 <= i < |nodes| && 0 <= j < |nodes[i].requirements| && nodes[i].requirements[j] == k
  }

  /** The requirements of the nodes one after the other (the stream before it is collected). */
  function Flatten(nodes: seq<CurveNode>): seq<SimpleKey> {
    if nodes == [] then [] else nodes[0].requirements + Flatten(nodes[1..])
  }

  lemma {:induction false} FlattenHasNodeKeys(nodes: seq<CurveNode>)
    ensures forall k :: k in Flatten(nodes) <==> NodeNeeds(nodes, k)
  {
    if nodes != [] {
      FlattenHasNodeKeys(nodes[1..]);
      forall k | NodeNeeds(nodes, k)
        ensures k in Flatten(nodes)
      {
        var i, j :| 0 <= i < |nodes| && 0 <= j < |nodes[i].requirements| && nodes[i].requirements[j] == k;
        if i > 0 {
          assert nodes[1..][i - 1] == nodes[i];
          assert NodeNeeds(nodes[1..], k);
        }
      }
      forall k | k in Flatten(nodes)
        ensures NodeNeeds(nodes, k)
      {
        if k !in nodes[0].requirements {
          assert k in Flatten(nodes[1..]);
          var i, j :| 0 <= i < |nodes[1..]| && 0 <= j < |nodes[1..][i].requirements| && nodes[1..][i].requirements[j] == k;
          assert nodes[i + 1] == nodes[1..][i];
        } else {
          var j :| 0 <= j < |nodes[0].requirements| && nodes[0].requirements[j] == k;
        }
      }
    }
  }

  /**
   * `nodeRequirements`: the keys of market data the nodes need, each once, in
   * the order in which collecting the nodes' lists into a set keeps them.
   */
  function NodeRequirements(nodes: seq<CurveNode>): (keys: seq<SimpleKey>)
    ensures Distinct(keys)
    ensures forall k :: k in keys <==> NodeNeeds(nodes, k)
  {
    FlattenHasNodeKeys(nodes);
    Dedup(Flatten(nodes))
  }

  /** `marketDataConfig.get` followed by `findEntry`, failing as `build` does. */
  function FindCurve(id: ParRatesId, config: MarketDataConfig): (r: Result<NodalCurveDefinition, BuildError>)
    ensures r.Success? <==> id.curveGroupName in config.curveGroups && id.curveName in config.curveGroups[id.curveGroupName].entries
    ensures r.Success? ==> r.value == config.curveGroups[id.curveGroupName].entries[id.curveName]
    ensures r.Failure? ==> (r.error.UnknownCurveGroup? || r.error.UnknownCurveInGroup?) && r.error.groupName == id.curveGroupName
    ensures r.Failure? ==> (r.error.UnknownCurveGroup? <==> id.curveGroupName !in config.curveGroups)
    ensures r.Failure? && r.error.UnknownCurveInGroup? ==> r.error.curveName == id.curveName
  {
    if id.curveGroupName !in config.curveGroups then
      Failure(UnknownCurveGroup(id.curveGroupName))
    else if id.curveName !in config.curveGroups[id.curveGroupName].entries then
      Failure(UnknownCurveInGroup(id.curveName, id.curveGroupName))
    else
      Success(config.curveGroups[id.curveGroupName].entries[id.curveName])
  }

  /**
   * `requirements`: the feed-qualified ids of the quotes the curve's nodes
   * need, or none when the group, the curve or an interpolated nodal
   * definition is missing.
   */
  function Requirements(id: ParRatesId, config: MarketDataConfig, toMarketDataId: (SimpleKey, MarketDataFeed) -> MarketDataId): (r: set<MarketDataId>)
    ensures id.curveGroupName !in config.curveGroups ==> r == {}
    ensures id.curveGroupName in config.curveGroups && id.curveName !in config.curveGroups[id.curveGroupName].entries ==> r == {}
    ensures FindCurve(id, config).Success? && FindCurve(id, config).value.kind != InterpolatedNodal ==> r == {}
    ensures FindCurve(id, config).Success? && FindCurve(id, config).value.kind == InterpolatedNodal ==>
      forall mid :: mid in r <==> exists k :: NodeNeeds(FindCurve(id, config).value.nodes, k) && mid == toMarketDataId(k, id.marketDataFeed)
  {
    match FindCurve(id, config)
    case Failure(_) => {}
    case Success(curveDefn) =>
      if curveDefn.kind != InterpolatedNodal then {}
      else
        var requirementKeys := NodeRequirements(curveDefn.nodes);
        set k | k in requirementKeys :: toMarketDataId(k, id.marketDataFeed)
  }

  /**
   * When the feed-qualified id tells keys apart, there are as many
   * requirements as distinct keys listed by the nodes.
   */
  lemma RequirementsSize(id: ParRatesId, config: MarketDataConfig, toMarketDataId: (SimpleKey, MarketDataFeed) -> MarketDataId)
    requires FindCurve(id, config).Success? && FindCurve(id, config).value.kind == InterpolatedNodal
    requires forall k1, k2 :: toMarketDataId(k1, id.marketDataFeed) == toMarketDataId(k2, id.marketDataFeed) ==> k1 == k2
    ensures |Requirements(id, config, toMarketDataId)| == |set k | k in Flatten(FindCurve(id, config).value.nodes)|
  {
    var nodes := FindCurve(id, config).value.nodes;
    var keys := NodeRequirements(nodes);
    var qualify := k => toMarketDataId(k, id.marketDataFeed);
    FlattenHasNodeKeys(nodes);
    InjectiveImageSize(keys, qualify);
    assert Requirements(id, config, toMarketDataId) == set k | k in keys :: toMarketDataId(k, id.marketDataFeed);
    assert (set k | k in keys :: toMarketDataId(k, id.marketDataFeed)) == set k | k in keys :: qualify(k);
    DistinctSetSize(keys);
    assert (set k | k in keys) == set k | k in Flatten(nodes);
  }

  /** `getMarketDataValues`: the box of each key, looked up under its feed-qualified id; keys is the map's iteration order. */
  function GetMarketDataValues(env: CalculationEnvironment, keys: seq<SimpleKey>, feed: MarketDataFeed, toMarketDataId: (SimpleKey, MarketDataFeed) -> MarketDataId)
    : (rates: map<SimpleKey, Box<Quote>>)
    requires Distinct(keys)
    ensures IsOrderOf(keys, rates)
    ensures forall k :: k in rates ==> rates[k] == env.getValue(toMarketDataId(k, feed))
  {
    map k | k in keys :: env.getValue(toMarketDataId(k, feed))
  }

  /** Whether every box can be read at every index below count. */
  predicate AllCover(valuationDate: Box<Date>, rates: map<SimpleKey, Box<Quote>>, count: nat) {
    valuationDate.Covers(count) && forall k :: k in rates ==> rates[k].Covers(count)
  }

  /** `buildSingleRates`: the rates of one scenario; a single box gives its one value to every scenario. */
  function BuildSingleRates(rates: map<SimpleKey, Box<Quote>>, scenarioIndex: nat): (r: map<SimpleKey, Quote>)
    requires forall k :: k in rates ==> rates[k].ValueAt(scenarioIndex).Some?
    ensures r.Keys == rates.Keys
    ensures forall k :: k in rates && rates[k].Single? ==> r[k] == rates[k].value
    ensures forall k :: k in rates && rates[k].Scenario? ==> scenarioIndex < |rates[k].values| && r[k] == rates[k].values[scenarioIndex]
  {
    map k | k in rates :: rates[k].ValueAt(scenarioIndex).value
  }

  /** `buildSingleParRates`: one set of par rates from single boxes, with the metadata for the one valuation date. */
  function BuildSingleParRates(curveDefn: NodalCurveDefinition, rates: map<SimpleKey, Box<Quote>>, valuationDate: Box<Date>)
    : (r: Box<ParRates>)
    requires valuationDate.Single? && forall k :: k in rates ==> rates[k].Single?
    ensures r.Single?
    ensures r.value.curveMetadata == curveDefn.metadata(valuationDate.value)
    ensures (map k | k in r.value.rates :: Single(r.value.rates[k])) == rates
  {
    var curveMetadata := curveDefn.metadata(valuationDate.value);
    var singleRates := map k | k in rates :: rates[k].value;
    Single(ParRates(singleRates, curveMetadata))
  }

  /**
   * `buildMultipleParRates`: one set of par rates per scenario, pairing the
   * rates of scenario i with the metadata for the valuation date of scenario i.
   */
  function BuildMultipleParRates(curveDefn: NodalCurveDefinition, keys: seq<SimpleKey>, rates: map<SimpleKey, Box<Quote>>, valuationDate: Box<Date>)
    : (r: Result<Box<ParRates>, BuildError>)
    requires IsOrderOf(keys, rates)
    ensures ScenarioCountOf(valuationDate, keys, rates).Failure? ==> r == Failure(ScenarioCountOf(valuationDate, keys, rates).error)
    ensures ScenarioCountOf(valuationDate, keys, rates).Success? && NoEmptyScenario(valuationDate, rates) ==> r.Success?
    ensures r.Failure? ==> r.error.ScenarioCountMismatch? || r.error.NoScenarioData? || r.error.ScenarioIndexOutOfRange?
    ensures r.Success? ==>
      && ScenarioCountOf(valuationDate, keys, rates).Success?
      && r.value.Scenario?
      && |r.value.values| == ScenarioCountOf(valuationDate, keys, rates).value
      && forall i :: 0 <= i < |r.value.values| ==>
        && r.value.values[i].rates.Keys == rates.Keys
        && (forall k :: k in rates ==> rates[k].ValueAt(i) == Some(r.value.values[i].rates[k]))
        && valuationDate.ValueAt(i).Some?
        && r.value.values[i].curveMetadata == curveDefn.metadata(valuationDate.ValueAt(i).value)
  {
    ScenarioCountFailureKinds(valuationDate, keys, rates);
    match ScenarioCountOf(valuationDate, keys, rates)
    case Failure(e) => Failure(e)
    case Success(scenarioCount) =>
      if !AllCover(valuationDate, rates, scenarioCount) then
        NoEmptyScenarioCovers(valuationDate, keys, rates, scenarioCount);
        Failure(ScenarioIndexOutOfRange)
      else
        var parRates := seq(scenarioCount, i requires 0 <= i < scenarioCount =>
          ParRates(BuildSingleRates(rates, i), curveDefn.metadata(valuationDate.ValueAt(i).value)));
        assert forall i :: 0 <= i < scenarioCount ==> parRates[i].rates == BuildSingleRates(rates, i);
        Success(Scenario(parRates))
  }

  /** Once the count n is agreed, boxes with no empty scenario can all be read below n. */
  lemma NoEmptyScenarioCovers(valuationDate: Box<Date>, keys: seq<SimpleKey>, rates: map<SimpleKey, Box<Quote>>, n: nat)
    requires IsOrderOf(keys, rates)
    requires ScenarioCountOf(valuationDate, keys, rates) == Success(n)
    ensures AllCover(valuationDate, rates, n) <==> NoEmptyScenario(valuationDate, rates)
  {
    ScenarioCountAgreed(valuationDate, keys, rates, n);
  }

  /** The rate map `build` resolves for a curve definition. */
  function ResolvedRates(id: ParRatesId, env: CalculationEnvironment, curveDefn: NodalCurveDefinition, toMarketDataId: (SimpleKey, MarketDataFeed) -> MarketDataId)
    : map<SimpleKey, Box<Quote>>
  {
    GetMarketDataValues(env, NodeRequirements(curveDefn.nodes), id.marketDataFeed, toMarketDataId)
  }

  /**
   * `build`: the par rates of the curve, one set when every input is a single
   * value and one set per scenario when any input is per-scenario.
   */
  function Build(id: ParRatesId, env: CalculationEnvironment, config: MarketDataConfig, toMarketDataId: (SimpleKey, MarketDataFeed) -> MarketDataId)
    : (r: Result<Box<ParRates>, BuildError>)
    ensures id.curveGroupName !in config.curveGroups ==> r == Failure(UnknownCurveGroup(id.curveGroupName))
    ensures id.curveGroupName in config.curveGroups && id.curveName !in config.curveGroups[id.curveGroupName].entries ==>
      r == Failure(UnknownCurveInGroup(id.curveName, id.curveGroupName))
  {
    match FindCurve(id, config)
    case Failure(e) => Failure(e)
    case Success(curveDefn) =>
      var requirements := NodeRequirements(curveDefn.nodes);
      var rates := ResolvedRates(id, env, curveDefn, toMarketDataId);
      var valuationDate := env.valuationDate;
      var multipleRatesValues := exists k | k in rates :: rates[k].IsScenarioValue();
      var multipleValuationDates := valuationDate.IsScenarioValue();
      if multipleRatesValues || multipleValuationDates then
        BuildMultipleParRates(curveDefn, requirements, rates, valuationDate)
      else
        Success(BuildSingleParRates(curveDefn, rates, valuationDate))
  }

  // Properties of `build`, for a curve that the configuration holds.

  /** The sets of par rates a `build` result holds, in scenario order. */
  function Snapshots(box: Box<ParRates>): seq<ParRates> {
    match box
    case Single(p) => [p]
    case Scenario(ps) => ps
  }

  /** `build` looks at no subtype of the nodal definition: an interpolated or any other nodal definition gives the same result. */
  lemma BuildIgnoresDefinitionKind(id: ParRatesId, env: CalculationEnvironment, config: MarketDataConfig,
                                   toMarketDataId: (SimpleKey, MarketDataFeed) -> MarketDataId, kind: CurveDefinitionKind)
    requires FindCurve(id, config).Success?
    ensures var group := config.curveGroups[id.curveGroupName];
      var curveDefn := group.entries[id.curveName];
      var config' := MarketDataConfig(config.curveGroups[id.curveGroupName :=
        CurveGroupDefinition(group.entries[id.curveName := curveDefn.(kind := kind)])]);
      Build(id, env, config', toMarketDataId) == Build(id, env, config, toMarketDataId)
  {
  }

  /** A single result exactly when no input is per-scenario; a per-scenario input gives a per-scenario result or a failure. */
  lemma BuildModeChoice(id: ParRatesId, env: CalculationEnvironment, config: MarketDataConfig,
                        toMarketDataId: (SimpleKey, MarketDataFeed) -> MarketDataId)
    requires FindCurve(id, config).Success?
    ensures var rates := ResolvedRates(id, env, FindCurve(id, config).value, toMarketDataId);
      var r := Build(id, env, config, toMarketDataId);
      && (!SomeScenario(env.valuationDate, rates) ==> r.Success? && r.value.Single?)
      && (SomeScenario(env.valuationDate, rates) && r.Success? ==> r.value.Scenario?)
  {
  }

  /**
   * With single inputs only, `build` gives one set of par rates: keyed by
   * exactly the keys the nodes need, each holding the value of that key's
   * box, with the metadata for the valuation date.
   */
  lemma BuildSingle(id: ParRatesId, env: CalculationEnvironment, config: MarketDataConfig,
                    toMarketDataId: (SimpleKey, MarketDataFeed) -> MarketDataId)
    requires FindCurve(id, config).Success?
    requires !SomeScenario(env.valuationDate, ResolvedRates(id, env, FindCurve(id, config).value, toMarketDataId))
    ensures var r := Build(id, env, config, toMarketDataId);
      var curveDefn := FindCurve(id, config).value;
      && r.Success? && r.value.Single?
      && (forall k :: k in r.value.value.rates <==> NodeNeeds(curveDefn.nodes, k))
      && (forall k :: k in r.value.value.rates ==> env.getValue(toMarketDataId(k, id.marketDataFeed)) == Single(r.value.value.rates[k]))
      && env.valuationDate.Single?
      && r.value.value.curveMetadata == curveDefn.metadata(env.valuationDate.value)
  {
    var curveDefn := FindCurve(id, config).value;
    var rates := ResolvedRates(id, env, curveDefn, toMarketDataId);
    var p := BuildSingleParRates(curveDefn, rates, env.valuationDate).value;
    assert Build(id, env, config, toMarketDataId) == Success(Single(p));
    assert p.rates.Keys == rates.Keys by {
      assert (map k | k in p.rates :: Single(p.rates[k])).Keys == p.rates.Keys;
    }
    forall k | k in p.rates
      ensures env.getValue(toMarketDataId(k, id.marketDataFeed)) == Single(p.rates[k])
    {
      assert (map k | k in p.rates :: Single(p.rates[k]))[k] == rates[k];
    }
  }

  /**
   * When the per-scenario inputs all have n > 0 values, `build` gives n sets
   * of par rates; set i holds, for exactly the keys the nodes need, the value
   * at index i of each key's box, with the metadata for the valuation date at
   * index i.
   */
  lemma BuildPerScenario(id: ParRatesId, env: CalculationEnvironment, config: MarketDataConfig,
                         toMarketDataId: (SimpleKey, MarketDataFeed) -> MarketDataId, n: nat)
    requires FindCurve(id, config).Success?
    requires var rates := ResolvedRates(id, env, FindCurve(id, config).value, toMarketDataId);
      && n > 0
      && SomeScenario(env.valuationDate, rates)
      && AllCountsAre(env.valuationDate, rates, n)
    ensures var r := Build(id, env, config, toMarketDataId);
      var curveDefn := FindCurve(id, config).value;
      && r.Success? && r.value.Scenario? && |r.value.values| == n
      && forall i :: 0 <= i < n ==>
        && (forall k :: k in r.value.values[i].rates <==> NodeNeeds(curveDefn.nodes, k))
        && (forall k :: k in r.value.values[i].rates ==>
              env.getValue(toMarketDataId(k, id.marketDataFeed)).ValueAt(i) == Some(r.value.values[i].rates[k]))
        && env.valuationDate.ValueAt(i).Some?
        && r.value.values[i].curveMetadata == curveDefn.metadata(env.valuationDate.ValueAt(i).value)
  {
    var curveDefn := FindCurve(id, config).value;
    var keys := NodeRequirements(curveDefn.nodes);
    var rates := ResolvedRates(id, env, curveDefn, toMarketDataId);
    ScenarioCountOfAgreeing(env.valuationDate, keys, rates, n);
    assert NoEmptyScenario(env.valuationDate, rates);
    assert Build(id, env, config, toMarketDataId) == BuildMultipleParRates(curveDefn, keys, rates, env.valuationDate);
  }

  /**
   * In a per-scenario result, a single box gives its value to every scenario,
   * a per-scenario box gives its i-th value to scenario i, and a single
   * valuation date gives the same metadata to every scenario.
   */
  lemma BuildBroadcasts(id: ParRatesId, env: CalculationEnvironment, config: MarketDataConfig,
                        toMarketDataId: (SimpleKey, MarketDataFeed) -> MarketDataId)
    requires FindCurve(id, config).Success?
    requires Build(id, env, config, toMarketDataId).Success? && Build(id, env, config, toMarketDataId).value.Scenario?
    ensures var ps := Build(id, env, config, toMarketDataId).value.values;
      var curveDefn := FindCurve(id, config).value;
      && (forall i, k :: 0 <= i < |ps| && k in ps[i].rates && env.getValue(toMarketDataId(k, id.marketDataFeed)).Single? ==>
            ps[i].rates[k] == env.getValue(toMarketDataId(k, id.marketDataFeed)).value)
      && (forall i, k :: 0 <= i < |ps| && k in ps[i].rates && env.getValue(toMarketDataId(k, id.marketDataFeed)).Scenario? ==>
            i < |env.getValue(toMarketDataId(k, id.marketDataFeed)).values| &&
            ps[i].rates[k] == env.getValue(toMarketDataId(k, id.marketDataFeed)).values[i])
      && (env.valuationDate.Single? ==> forall i :: 0 <= i < |ps| ==> ps[i].curveMetadata == curveDefn.metadata(env.valuationDate.value))
  {
    var curveDefn := FindCurve(id, config).value;
    var keys := NodeRequirements(curveDefn.nodes);
    var rates := ResolvedRates(id, env, curveDefn, toMarketDataId);
    assert Build(id, env, config, toMarketDataId) == BuildMultipleParRates(curveDefn, keys, rates, env.valuationDate);
  }

  /**
   * With no empty per-scenario box and some per-scenario input, `build` fails
   * exactly when two per-scenario inputs have different counts, and then
   * with a mismatch naming a rate and both counts.
   */
  lemma BuildFailsIffCountsDisagree(id: ParRatesId, env: CalculationEnvironment, config: MarketDataConfig,
                                    toMarketDataId: (SimpleKey, MarketDataFeed) -> MarketDataId)
    requires FindCurve(id, config).Success?
    requires var rates := ResolvedRates(id, env, FindCurve(id, config).value, toMarketDataId);
      NoEmptyScenario(env.valuationDate, rates) && SomeScenario(env.valuationDate, rates)
    ensures var rates := ResolvedRates(id, env, FindCurve(id, config).value, toMarketDataId);
      var r := Build(id, env, config, toMarketDataId);
      && (r.Failure? <==> CountsDisagree(env.valuationDate, rates))
      && (r.Failure? ==>
            && r.error.ScenarioCountMismatch?
            && r.error.key in rates
            && HasCount(rates[r.error.key], r.error.actual)
            && r.error.actual != r.error.expected)
  {
    var curveDefn := FindCurve(id, config).value;
    var keys := NodeRequirements(curveDefn.nodes);
    var rates := ResolvedRates(id, env, curveDefn, toMarketDataId);
    var count := ScenarioCountOf(env.valuationDate, keys, rates);
    assert Build(id, env, config, toMarketDataId) == BuildMultipleParRates(curveDefn, keys, rates, env.valuationDate);
    ScenarioCountFailsIffDisagree(env.valuationDate, keys, rates);
    if count.Failure? {
      ScenarioCountMismatchReported(env.valuationDate, keys, rates, count.error.key, count.error.actual, count.error.expected);
    }
  }

  /**
   * The "cannot count the scenarios" failure happens exactly when some input
   * is per-scenario and every per-scenario input is empty: the 0 count of an
   * empty box is taken for "not yet known".
   */
  lemma BuildNoScenarioDataIff(id: ParRatesId, env: CalculationEnvironment, config: MarketDataConfig,
                               toMarketDataId: (SimpleKey, MarketDataFeed) -> MarketDataId)
    requires FindCurve(id, config).Success?
    ensures var rates := ResolvedRates(id, env, FindCurve(id, config).value, toMarketDataId);
      Build(id, env, config, toMarketDataId) == Failure(NoScenarioData) <==>
        SomeScenario(env.valuationDate, rates) && AllCountsAre(env.valuationDate, rates, 0)
  {
    var curveDefn := FindCurve(id, config).value;
    var keys := NodeRequirements(curveDefn.nodes);
    var rates := ResolvedRates(id, env, curveDefn, toMarketDataId);
    NoScenarioDataIff(env.valuationDate, keys, rates);
    if SomeScenario(env.valuationDate, rates) {
      assert Build(id, env, config, toMarketDataId) == BuildMultipleParRates(curveDefn, keys, rates, env.valuationDate);
    }
  }

  /**
   * With no empty per-scenario box, `build` never fails for want of
   * scenarios to count nor for an index out of range: the multi-scenario
   * path is taken only when some input is per-scenario.
   */
  lemma BuildNeverLacksScenarios(id: ParRatesId, env: CalculationEnvironment, config: MarketDataConfig,
                                 toMarketDataId: (SimpleKey, MarketDataFeed) -> MarketDataId)
    requires FindCurve(id, config).Success?
    requires NoEmptyScenario(env.valuationDate, ResolvedRates(id, env, FindCurve(id, config).value, toMarketDataId))
    ensures Build(id, env, config, toMarketDataId) != Failure(NoScenarioData)
    ensures Build(id, env, config, toMarketDataId) != Failure(ScenarioIndexOutOfRange)
  {
    var curveDefn := FindCurve(id, config).value;
    var keys := NodeRequirements(curveDefn.nodes);
    var rates := ResolvedRates(id, env, curveDefn, toMarketDataId);
    BuildModeChoice(id, env, config, toMarketDataId);
    if SomeScenario(env.valuationDate, rates) {
      assert Build(id, env, config, toMarketDataId) == BuildMultipleParRates(curveDefn, keys, rates, env.valuationDate);
      ScenarioCountFailsIffDisagree(env.valuationDate, keys, rates);
    }
  }

  /**
   * An empty per-scenario box met after the count is set is a mismatch; one
   * met before is skipped, and reading it at index 0 then fails: `build`
   * fails with an index out of range exactly when the count is agreed but
   * some per-scenario input is empty.
   */
  lemma BuildIndexOutOfRangeIff(id: ParRatesId, env: CalculationEnvironment, config: MarketDataConfig,
                                toMarketDataId: (SimpleKey, MarketDataFeed) -> MarketDataId)
    requires FindCurve(id, config).Success?
    ensures var curveDefn := FindCurve(id, config).value;
      var keys := NodeRequirements(curveDefn.nodes);
      var rates := ResolvedRates(id, env, curveDefn, toMarketDataId);
      Build(id, env, config, toMarketDataId) == Failure(ScenarioIndexOutOfRange) <==>
        && SomeScenario(env.valuationDate, rates)
        && ScenarioCountOf(env.valuationDate, keys, rates).Success?
        && !NoEmptyScenario(env.valuationDate, rates)
  {
    var curveDefn := FindCurve(id, config).value;
    var keys := NodeRequirements(curveDefn.nodes);
    var rates := ResolvedRates(id, env, curveDefn, toMarketDataId);
    var count := ScenarioCountOf(env.valuationDate, keys, rates);
    BuildModeChoice(id, env, config, toMarketDataId);
    if SomeScenario(env.valuationDate, rates) {
      assert Build(id, env, config, toMarketDataId) == BuildMultipleParRates(curveDefn, keys, rates, env.valuationDate);
      if count.Success? {
        NoEmptyScenarioCovers(env.valuationDate, keys, rates, count.value);
      } else {
        ScenarioCountFailureKinds(env.valuationDate, keys, rates);
      }
    }
  }

  /**
   * For an interpolated nodal curve, every set of par rates `build` gives is
   * keyed by exactly the keys whose feed-qualified ids `requirements` asked for.
   */
  lemma BuildKeysMatchRequirements(id: ParRatesId, env: CalculationEnvironment, config: MarketDataConfig,
                                   toMarketDataId: (SimpleKey, MarketDataFeed) -> MarketDataId)
    requires FindCurve(id, config).Success? && FindCurve(id, config).value.kind == InterpolatedNodal
    requires Build(id, env, config, toMarketDataId).Success?
    ensures var ps := Snapshots(Build(id, env, config, toMarketDataId).value);
      forall i :: 0 <= i < |ps| ==>
        (set k | k in ps[i].rates :: toMarketDataId(k, id.marketDataFeed)) == Requirements(id, config, toMarketDataId)
  {
    var curveDefn := FindCurve(id, config).value;
    var keys := NodeRequirements(curveDefn.nodes);
    var rates := ResolvedRates(id, env, curveDefn, toMarketDataId);
    var r := Build(id, env, config, toMarketDataId);
    var ps := Snapshots(r.value);
    if SomeScenario(env.valuationDate, rates) {
      assert r == BuildMultipleParRates(curveDefn, keys, rates, env.valuationDate);
      assert forall i :: 0 <= i < |ps| ==> ps[i].rates.Keys == rates.Keys;
    } else {
      BuildSingle(id, env, config, toMarketDataId);
      assert ps[0].rates.Keys == rates.Keys;
    }
    forall i | 0 <= i < |ps|
      ensures (set k | k in ps[i].rates :: toMarketDataId(k, id.marketDataFeed)) == Requirements(id, config, toMarketDataId)
    {
      assert ps[i].rates.Keys == rates.Keys;
      assert (set k | k in ps[i].rates :: toMarketDataId(k, id.marketDataFeed)) == set k | k in keys :: toMarketDataId(k, id.marketDataFeed);
    }
  }

  /**
   * Once some per-scenario box is empty, `build` cannot succeed: depending
   * on the rate map's order it fails with a mismatch, with an index out of
   * range, or for want of scenarios to count.
   */
  lemma BuildFailsWithEmptyScenarioBox(id: ParRatesId, env: CalculationEnvironment, config: MarketDataConfig,
                                       toMarketDataId: (SimpleKey, MarketDataFeed) -> MarketDataId)
    requires FindCurve(id, config).Success?
    requires !NoEmptyScenario(env.valuationDate, ResolvedRates(id, env, FindCurve(id, config).value, toMarketDataId))
    ensures Build(id, env, config, toMarketDataId).Failure?
  {
    var curveDefn := FindCurve(id, config).value;
    var keys := NodeRequirements(curveDefn.nodes);
    var rates := ResolvedRates(id, env, curveDefn, toMarketDataId);
    BuildModeChoice(id, env, config, toMarketDataId);
    assert Build(id, env, config, toMarketDataId) == BuildMultipleParRates(curveDefn, keys, rates, env.valuationDate);
    var count := ScenarioCountOf(env.valuationDate, keys, rates);
    if count.Success? {
      NoEmptyScenarioCovers(env.valuationDate, keys, rates, count.value);
    }
  }
}
