/**
 * The values the par-rates function reads and produces. Types whose internals
 * belong to other parts of the system (names, feeds, keys, ids, dates, curve
 * metadata, quotes) are opaque; the calls this function makes on them are
 * fields of function type or parameters.
 */
module CurveTypes {
  import opened MarketDataBox

  type CurveGroupName(==)
  type CurveName(==)
  type MarketDataFeed
  /** A key of one raw quote needed by a curve node (`SimpleMarketDataKey`). */
  type SimpleKey(==, !new)
  /** A feed-qualified identifier of market data (`MarketDataId`). */
  type MarketDataId(==, !new)
  type Date
  type CurveMetadata
  /** The value of one quote, as the market data store holds it. */
  type Quote

  /** A curve node, seen only through `requirements()`, listed in the iteration order of its set. */
  datatype CurveNode = CurveNode(requirements: seq<SimpleKey>)

  /** Whether a nodal definition is an `InterpolatedNodalCurveDefinition` or another nodal kind. */
  datatype CurveDefinitionKind = InterpolatedNodal | OtherNodal

  /** A nodal curve definition: its nodes and `metadata(valuationDate)`. */
  datatype NodalCurveDefinition = NodalCurveDefinition(
    kind: CurveDefinitionKind,
    nodes: seq<CurveNode>,
    metadata: Date -> CurveMetadata)

  /** A curve group: `findEntry(curveName)` is a lookup in `entries`. */
  datatype CurveGroupDefinition = CurveGroupDefinition(entries: map<CurveName, NodalCurveDefinition>)

  /** Market data configuration: `get(CurveGroupDefinition.class, name)` is a lookup in `curveGroups`. */
  datatype MarketDataConfig = MarketDataConfig(curveGroups: map<CurveGroupName, CurveGroupDefinition>)

  /** The identifier of the par rates of one curve. */
  datatype ParRatesId = ParRatesId(curveGroupName: CurveGroupName, curveName: CurveName, marketDataFeed: MarketDataFeed)

  /** The market data available to `build`: the valuation date and `getValue(id)`. */
  datatype CalculationEnvironment = CalculationEnvironment(
    valuationDate: Box<Date>,
    getValue: MarketDataId -> Box<Quote>)

  /** The calibration input of one curve in one scenario. */
  datatype ParRates = ParRates(rates: map<SimpleKey, Quote>, curveMetadata: CurveMetadata)

  /** The exceptions `build` can end with. */
  datatype BuildError =
    | UnknownCurveGroup(groupName: CurveGroupName)
    | UnknownCurveInGroup(curveName: CurveName, groupName: CurveGroupName)
    | ScenarioCountMismatch(key: SimpleKey, actual: nat, expected: nat)
    | NoScenarioData
    | ScenarioIndexOutOfRange
}
