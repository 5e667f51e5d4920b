/**
  The plugin object: `activate` checks the arguments and keeps the metric
  definitions and the requested metric's properties in its fields;
  `check_metric` builds the values query, reduces the response and picks the
  unit symbol or the no-value message.
 */
module Monitor {
  import opened Wrappers
  import opened Strings
  import opened Metrics
  import opened Validation
  import opened Series

  /** What `check_metric` hands on: the UNKNOWN message, or the labelled values and their unit. */
  datatype CheckOutcome<V> = NoValue(message: string) | Report(values: map<string, Option<V>>, unit: string)

  /**
    The inner scan of `_get_metric_values`: the data points of one series,
    newest first, until one carries the aggregation key. The label starts
    out bound to `None`, which stays when no point carries the key.
   */
  method FindLatest<V>(data: seq<DataPoint<V>>, key: string) returns (latest: Option<V>)
    ensures latest == LatestValue(data, key)
  {
    latest := None;
    var j := |data|;
    assert data[..j] == data;
    while j > 0
      invariant 0 <= j <= |data|
      invariant LatestValue(data, key) == LatestValue(data[..j], key)
      invariant latest.None?
    {
      j := j - 1;
      LatestValueStep(data, key, j);
      if key in data[j] {
        latest := Some(data[j][key]);
        break;
      }
    }
  }

  class AzureResourceMonitor {
    const args: Arguments
    var metricDefinitions: seq<MetricDefinition>
    var metricProperties: Option<MetricDefinition>

    constructor (args: Arguments)
      ensures this.args == args
      ensures metricDefinitions == [] && metricProperties == None
    {
      this.args := args;
      metricDefinitions := [];
      metricProperties := None;
    }

    /** `_get_metric_properties`: scan the definitions for the requested metric. */
    method GetMetricProperties() returns (properties: Option<MetricDefinition>)
      ensures properties == FindDefinition(metricDefinitions, args.metric)
    {
      for i := 0 to |metricDefinitions|
        invariant FindDefinition(metricDefinitions, args.metric) == FindDefinition(metricDefinitions[i..], args.metric)
      {
        assert metricDefinitions[i..][1..] == metricDefinitions[i + 1..];
        if metricDefinitions[i].name.value == args.metric {
          return Some(metricDefinitions[i]);
        }
      }
      return None;
    }

    /**
      The checks of `activate`. `resourceIdValid` is the verdict of the
      resource-ID parser; `definitions` is the `metricDefinitions` response.
      The definitions are stored only once the argument-only checks pass.
     */
    method Activate(resourceIdValid: bool, definitions: seq<MetricDefinition>) returns (r: Result<MetricDefinition>)
      modifies this
      ensures r == Validate(args, resourceIdValid, definitions)
      ensures !ArgumentsConsistent(args, resourceIdValid) ==>
        metricDefinitions == old(metricDefinitions) && metricProperties == old(metricProperties)
      ensures ArgumentsConsistent(args, resourceIdValid) ==> metricDefinitions == definitions
      ensures ArgumentsConsistent(args, resourceIdValid) && args.metric in MetricIds(definitions) ==>
        metricProperties == FindDefinition(definitions, args.metric)
      ensures args.metric !in MetricIds(definitions) ==> metricProperties == old(metricProperties)
      ensures r.Ok? ==> metricProperties == Some(r.value) && r.value.name.value == args.metric
    {
      if !resourceIdValid {
        return Error(InvalidResourceIdMessage);
      }
      if Truthy(args.dimension) != Truthy(args.dimensionValue) {
        return Error(DimensionPairingMessage);
      }
      if Truthy(args.filter) && Truthy(args.dimension) {
        return Error(FilterExclusiveMessage);
      }

      metricDefinitions := definitions;

      var metricIds := MetricIds(metricDefinitions);
      if args.metric !in metricIds {
        return Error(UnknownMetricMessage(args.metric, metricIds));
      }
      metricProperties := GetMetricProperties();
      var properties := metricProperties.value;

      var dimensionIds := DimensionIds(properties);
      if properties.isDimensionRequired && args.dimension.None? && args.filter.None? {
        return Error(DimensionRequiredMessage(args.metric, dimensionIds));
      }
      if args.dimension.Some? && args.dimension.value !in dimensionIds {
        return Error(UnknownDimensionMessage(args.dimension.value, args.metric, dimensionIds));
      }

      var aggregationIds := properties.supportedAggregationTypes;
      if args.aggregation.Some? && args.aggregation.value !in aggregationIds {
        return Error(UnsupportedAggregationMessage(args.aggregation.value, args.metric, aggregationIds));
      }
      return Ok(properties);
    }

    /** The path and query parameters of the `metrics` request. */
    method BuildQuery() returns (path: string, query: map<string, string>)
      ensures path == args.resource + "/providers/Microsoft.Insights/metrics/"
      ensures query.Keys <= {"metricnames", "$filter", "aggregation"}
      ensures "metricnames" in query && query["metricnames"] == args.metric
      ensures "$filter" in query <==> args.dimension.Some? || args.filter.Some?
      ensures args.dimension.Some? ==>
        "$filter" in query && query["$filter"] == args.dimension.value + " eq '" + Format(args.dimensionValue) + "'"
      ensures args.dimension.None? && args.filter.Some? ==>
        "$filter" in query && query["$filter"] == args.filter.value
      ensures "aggregation" in query <==> args.aggregation.Some?
      ensures args.aggregation.Some? ==> "aggregation" in query && query["aggregation"] == args.aggregation.value
    {
      query := map["metricnames" := args.metric];
      path := args.resource + "/providers/Microsoft.Insights/metrics/";

      if args.dimension.Some? {
        query := query["$filter" := args.dimension.value + " eq '" + Format(args.dimensionValue) + "'"];
      } else if args.filter.Some? {
        query := query["$filter" := args.filter.value];
      }
      if args.aggregation.Some? {
        query := query["aggregation" := args.aggregation.value];
      }
    }

    /**
      The reduction half of `_get_metric_values`: `timeseries` is the
      `timeseries` list of the response. No series gives no map at all;
      otherwise each series label is bound to its newest sample under the
      aggregation key.
     */
    method GetMetricValues<V>(timeseries: seq<TimeSeries<V>>) returns (values: Option<map<string, Option<V>>>)
      requires metricProperties.Some?
      ensures values.None? <==> |timeseries| == 0
      ensures values.Some? ==>
        values.value == Collect(timeseries,
                                AggregationKey(args.aggregation, metricProperties.value.primaryAggregationType),
                                metricProperties.value.name.value)
    {
      if |timeseries| == 0 {
        return None;
      }

      var aggregationType;
      if args.aggregation.Some? {
        aggregationType := Lower(args.aggregation.value);
      } else {
        aggregationType := Lower(metricProperties.value.primaryAggregationType);
      }
      ghost var metricName := metricProperties.value.name.value;

      var metricValues: map<string, Option<V>> := map[];
      for s := 0 to |timeseries|
        invariant metricValues == Collect(timeseries[..s], aggregationType, metricName)
      {
        var series := timeseries[s];
        var metricNameIds := MetadataIds(series.metadatavalues);
        var name;
        if |metricNameIds| > 0 {
          name := Join("_", metricNameIds);
        } else {
          name := metricProperties.value.name.value;
        }

        var latest := FindLatest(series.data, aggregationType);
        metricValues := metricValues[name := latest];
        CollectStep(timeseries, s, aggregationType, metricName);
      }
      assert timeseries[..|timeseries|] == timeseries;
      return Some(metricValues);
    }

    /**
      `check_metric` up to the threshold evaluation: the unit symbol of the
      metric and its labelled values, or the UNKNOWN message when the
      response holds no series.
     */
    method CheckMetric<V>(timeseries: seq<TimeSeries<V>>) returns (outcome: CheckOutcome<V>)
      requires metricProperties.Some?
      ensures |timeseries| == 0 ==> outcome == NoValue(NoValueMessage(args.metric, args.dimension))
      ensures |timeseries| > 0 ==>
        && outcome.Report?
        && outcome.unit == UnitSymbol(metricProperties.value.unit)
        && outcome.values == Collect(timeseries,
                                     AggregationKey(args.aggregation, metricProperties.value.primaryAggregationType),
                                     metricProperties.value.name.value)
        && |outcome.values| > 0
    {
      var metricValues := GetMetricValues(timeseries);
      var unit := UnitSymbol(metricProperties.value.unit);

      if metricValues.None? {
        var message := "No value available for metric " + args.metric;
        if args.dimension.Some? {
          message := message + " and dimension " + args.dimension.value;
        }
        return NoValue(message);
      }
      CollectNonEmpty(timeseries,
                      AggregationKey(args.aggregation, metricProperties.value.primaryAggregationType),
                      metricProperties.value.name.value);
      return Report(metricValues.value, unit);
    }
  }
}
