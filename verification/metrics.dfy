/**
  The data the plugin works on: its command-line arguments, the metric
  definitions returned by the `metricDefinitions` endpoint and the time series
  returned by the `metrics` endpoint, as plain JSON-like values.
 */
module Metrics {
  import opened Wrappers

  /** A `{"value": …, "localizedValue": …}` object of the metrics API. */
  datatype LocalizableString = LocalizableString(value: string, localizedValue: string)

  /**
    One entry of the definitions response. An absent `dimensions` or
    `supportedAggregationTypes` list is the empty sequence, as the plugin
    reads both with `.get(key, [])`.
   */
  datatype MetricDefinition = MetricDefinition(
    name: LocalizableString,
    unit: string,
    primaryAggregationType: string,
    supportedAggregationTypes: seq<string>,
    dimensions: seq<LocalizableString>,
    isDimensionRequired: bool)

  /** One `metadatavalues` entry of a time series: a dimension and its value. */
  datatype MetadataValue = MetadataValue(name: LocalizableString, value: string)

  /**
    One data point: the aggregation keys it carries (`average`, `maximum`, …)
    and their samples. Samples are only copied, so their type is a parameter.
   */
  type DataPoint<V> = map<string, V>

  /** One series of the values response, data points ordered oldest first. */
  datatype TimeSeries<V> = TimeSeries(metadatavalues: seq<MetadataValue>, data: seq<DataPoint<V>>)

  /** The options the checks read; `None` is an option left off the command line. */
  datatype Arguments = Arguments(
    resource: string,
    metric: string,
    aggregation: Option<string>,
    filter: Option<string>,
    dimension: Option<string>,
    dimensionValue: Option<string>)

  /** Python's `bool(option)`: the option is given and is not the empty string. */
  predicate Truthy(option: Option<string>)
  {
    option.Some? && option.value != ""
  }

  /** Python's `'{}'.format(option)`: a missing value prints as `None`. */
  function Format(option: Option<string>): string
  {
    match option
    case Some(s) => s
    case None => "None"
  }

  /** The names of the metric definitions, one per definition, in their order. */
  function MetricIds(definitions: seq<MetricDefinition>): seq<string>
  {
    seq(|definitions|, i requires 0 <= i < |definitions| => definitions[i].name.value)
  }

  /** A name is listed exactly when some definition carries it. */
  lemma MetricIdsNameEveryDefinition(definitions: seq<MetricDefinition>, x: string)
    ensures x in MetricIds(definitions) <==> exists i | 0 <= i < |definitions| :: definitions[i].name.value == x
  {
    var ids := MetricIds(definitions);
    assert forall i | 0 <= i < |definitions| :: ids[i] == definitions[i].name.value;
  }

  /** The dimension names of a definition, one per dimension, in their order. */
  function DimensionIds(definition: MetricDefinition): seq<string>
  {
    seq(|definition.dimensions|, i requires 0 <= i < |definition.dimensions| => definition.dimensions[i].value)
  }

  /** A dimension name is listed exactly when some dimension of the definition carries it. */
  lemma DimensionIdsNameEveryDimension(definition: MetricDefinition, x: string)
    ensures x in DimensionIds(definition) <==> exists i | 0 <= i < |definition.dimensions| :: definition.dimensions[i].value == x
  {
    var ids := DimensionIds(definition);
    assert forall i | 0 <= i < |definition.dimensions| :: ids[i] == definition.dimensions[i].value;
  }

  /** The fixed table of unit symbols appended to performance data. */
  const UnitSymbols: map<string, string> := map[
    "Percent" := "%",
    "Bytes" := "B",
    "Seconds" := "s",
    "MilliSeconds" := "ms",
    "BytesPerSecond" := "B/s",
    "CountPerSecond" := "/s"]

  /** The symbol of a definition's unit; a unit missing from the table has none. */
  function UnitSymbol(unit: string): (symbol: string)
    ensures unit in UnitSymbols ==> symbol == UnitSymbols[unit]
    ensures unit !in UnitSymbols ==> symbol == ""
  {
    if unit in UnitSymbols then UnitSymbols[unit] else ""
  }

  /** Every unit in the table has a non-empty symbol, so an empty symbol means an unknown unit. */
  lemma UnitSymbolEmptyIffUnknown(unit: string)
    ensures UnitSymbol(unit) == "" <==> unit !in UnitSymbols
  {
  }

  /** The UNKNOWN message used when the values response holds no time series. */
  function NoValueMessage(metric: string, dimension: Option<string>): (message: string)
    ensures var prefix := "No value available for metric " + metric;
      && |prefix| <= |message|
      && message[..|prefix|] == prefix
      && (dimension.None? <==> message == prefix)
      && (dimension.Some? ==> message[|prefix|..] == " and dimension " + dimension.value)
  {
    var message := "No value available for metric " + metric;
    if dimension.Some? then message + " and dimension " + dimension.value else message
  }
}
