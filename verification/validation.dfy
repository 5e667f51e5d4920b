/**
  The argument checks of `activate`: a fixed, ordered list of rules, each of
  which either lets the arguments through or stops the plugin with a usage
  message. The first three look at the arguments alone and run before the
  metric definitions are fetched; the rest need the definitions.
 */
module Validation {
  import opened Wrappers
  import opened Strings
  import opened Metrics

  /** `_get_metric_properties`: the first definition whose name is `metric`. */
  function FindDefinition(definitions: seq<MetricDefinition>, metric: string): (found: Option<MetricDefinition>)
    ensures found.None? <==> metric !in MetricIds(definitions)
    ensures found.Some? ==> found.value in definitions && found.value.name.value == metric
    decreases |definitions|
  {
    if |definitions| == 0 then None
    else
      assert MetricIds(definitions) == [definitions[0].name.value] + MetricIds(definitions[1..]);
      if definitions[0].name.value == metric then Some(definitions[0])
      else FindDefinition(definitions[1..], metric)
  }

  /** Index `i` holds the first definition named `metric`. */
  ghost predicate IsFirstNamed(definitions: seq<MetricDefinition>, metric: string, i: int)
  {
    && 0 <= i < |definitions|
    && definitions[i].name.value == metric
    && forall j | 0 <= j < i :: definitions[j].name.value != metric
  }

  /** The definition found is the first one carrying the metric's name, never a later duplicate. */
  lemma {:induction false} FindDefinitionIsFirstMatch(definitions: seq<MetricDefinition>, metric: string)
    requires metric in MetricIds(definitions)
    ensures exists i :: IsFirstNamed(definitions, metric, i) && FindDefinition(definitions, metric) == Some(definitions[i])
    decreases |definitions|
  {
    if definitions[0].name.value == metric {
      assert IsFirstNamed(definitions, metric, 0);
    } else {
      assert MetricIds(definitions) == [definitions[0].name.value] + MetricIds(definitions[1..]);
      FindDefinitionIsFirstMatch(definitions[1..], metric);
      var i :| IsFirstNamed(definitions[1..], metric, i) && FindDefinition(definitions[1..], metric) == Some(definitions[1..][i]);
      assert IsFirstNamed(definitions, metric, i + 1);
    }
  }

  /** The rules of `activate`, in the order it applies them. */
  datatype Rule =
    | ResourceIdValid        // the resource ID is well formed
    | DimensionPairing       // --dimension and --dimension-value come together
    | FilterExclusive        // --filter and --dimension are not both given
    | KnownMetric            // the metric is among the definitions
    | DimensionWhenRequired  // a dimension or filter is given when the metric requires one
    | KnownDimension         // the dimension is one of the metric's dimensions
    | SupportedAggregation   // the aggregation is one the metric supports

  const Rules: seq<Rule> := [ResourceIdValid, DimensionPairing, FilterExclusive, KnownMetric,
                             DimensionWhenRequired, KnownDimension, SupportedAggregation]

  /**
    Whether `rule` lets the arguments through. The last three rules are about
    the definition found for the metric; `KnownMetric` precedes them, so they
    hold vacuously when there is none.
   */
  predicate Holds(rule: Rule, args: Arguments, resourceIdValid: bool, definitions: seq<MetricDefinition>)
  {
    var properties := FindDefinition(definitions, args.metric);
    match rule
    case ResourceIdValid => resourceIdValid
    case DimensionPairing => Truthy(args.dimension) == Truthy(args.dimensionValue)
    case FilterExclusive => !(Truthy(args.filter) && Truthy(args.dimension))
    case KnownMetric => args.metric in MetricIds(definitions)
    case DimensionWhenRequired =>
      properties.Some? && properties.value.isDimensionRequired ==> args.dimension.Some? || args.filter.Some?
    case KnownDimension =>
      properties.Some? && args.dimension.Some? ==> args.dimension.value in DimensionIds(properties.value)
    case SupportedAggregation =>
      properties.Some? && args.aggregation.Some? ==> args.aggregation.value in properties.value.supportedAggregationTypes
  }

  /**
    The rules `activate` checks before it contacts the API. They do not read
    the definitions, so none are passed.
   */
  predicate ArgumentsConsistent(args: Arguments, resourceIdValid: bool)
  {
    && Holds(ResourceIdValid, args, resourceIdValid, [])
    && Holds(DimensionPairing, args, resourceIdValid, [])
    && Holds(FilterExclusive, args, resourceIdValid, [])
  }

  /** Every rule holds. */
  predicate Accepted(args: Arguments, resourceIdValid: bool, definitions: seq<MetricDefinition>)
  {
    && Holds(ResourceIdValid, args, resourceIdValid, definitions)
    && Holds(DimensionPairing, args, resourceIdValid, definitions)
    && Holds(FilterExclusive, args, resourceIdValid, definitions)
    && Holds(KnownMetric, args, resourceIdValid, definitions)
    && Holds(DimensionWhenRequired, args, resourceIdValid, definitions)
    && Holds(KnownDimension, args, resourceIdValid, definitions)
    && Holds(SupportedAggregation, args, resourceIdValid, definitions)
  }

  const InvalidResourceIdMessage := "invalid resource ID"
  const DimensionPairingMessage := "--dimension and --dimension-value must be used together"
  const FilterExclusiveMessage := "--dimension and --filter are exclusives"

  function UnknownMetricMessage(metric: string, metricIds: seq<string>): string
  {
    "Unknown metric " + metric + " for specified resource. Supported metrics are: " + Join(", ", metricIds)
  }

  function DimensionRequiredMessage(metric: string, dimensionIds: seq<string>): string
  {
    "Dimension of Filter required for metric " + metric + ". Supported dimensions/filters are: " + Join(", ", dimensionIds)
  }

  function UnknownDimensionMessage(dimension: string, metric: string, dimensionIds: seq<string>): string
  {
    "Unknown dimension " + dimension + " for metric " + metric + ". Supported dimensions are: " + Join(", ", dimensionIds)
  }

  function UnsupportedAggregationMessage(aggregation: string, metric: string, aggregationIds: seq<string>): string
  {
    "Unsupported aggregation " + aggregation + " for metric " + metric + ". Supported aggregations are: " + Join(", ", aggregationIds)
  }

  /** The message `activate` reports when `rule` is the one that fails. */
  function Message(rule: Rule, args: Arguments, definitions: seq<MetricDefinition>): string
  {
    var properties := FindDefinition(definitions, args.metric);
    var dimensionIds := if properties.Some? then DimensionIds(properties.value) else [];
    match rule
    case ResourceIdValid => InvalidResourceIdMessage
    case DimensionPairing => DimensionPairingMessage
    case FilterExclusive => FilterExclusiveMessage
    case KnownMetric => UnknownMetricMessage(args.metric, MetricIds(definitions))
    case DimensionWhenRequired => DimensionRequiredMessage(args.metric, dimensionIds)
    case KnownDimension => UnknownDimensionMessage(Format(args.dimension), args.metric, dimensionIds)
    case SupportedAggregation =>
      UnsupportedAggregationMessage(Format(args.aggregation), args.metric,
                                    if properties.Some? then properties.value.supportedAggregationTypes else [])
  }

  /**
    The checks of `activate`, in its order. On success the result is the
    metric's properties, the definition later steps read.
   */
  function Validate(args: Arguments, resourceIdValid: bool, definitions: seq<MetricDefinition>): (r: Result<MetricDefinition>)
    ensures r.Ok? <==> Accepted(args, resourceIdValid, definitions)
    ensures r.Ok? ==> FindDefinition(definitions, args.metric) == Some(r.value) && r.value.name.value == args.metric
  {
    if !resourceIdValid then Error(InvalidResourceIdMessage)
    else if Truthy(args.dimension) != Truthy(args.dimensionValue) then Error(DimensionPairingMessage)
    else if Truthy(args.filter) && Truthy(args.dimension) then Error(FilterExclusiveMessage)
    else
      var metricIds := MetricIds(definitions);
      if args.metric !in metricIds then Error(UnknownMetricMessage(args.metric, metricIds))
      else
        var properties := FindDefinition(definitions, args.metric).value;
        var dimensionIds := DimensionIds(properties);
        if properties.isDimensionRequired && args.dimension.None? && args.filter.None? then
          Error(DimensionRequiredMessage(args.metric, dimensionIds))
        else if args.dimension.Some? && args.dimension.value !in dimensionIds then
          Error(UnknownDimensionMessage(args.dimension.value, args.metric, dimensionIds))
        else if args.aggregation.Some? && args.aggregation.value !in properties.supportedAggregationTypes then
          Error(UnsupportedAggregationMessage(args.aggregation.value, args.metric, properties.supportedAggregationTypes))
        else
          Ok(properties)
  }

  /** Rule `k` is the first in the list to fail. */
  ghost predicate FirstViolated(k: int, args: Arguments, resourceIdValid: bool, definitions: seq<MetricDefinition>)
  {
    && 0 <= k < |Rules|
    && !Holds(Rules[k], args, resourceIdValid, definitions)
    && forall j | 0 <= j < k :: Holds(Rules[j], args, resourceIdValid, definitions)
  }

  /** When `Validate` rejects, its message is that of the first rule that fails. */
  ghost predicate ReportsFirstViolated(args: Arguments, resourceIdValid: bool, definitions: seq<MetricDefinition>)
  {
    Validate(args, resourceIdValid, definitions).Error? ==>
      exists k :: FirstViolated(k, args, resourceIdValid, definitions)
        && Validate(args, resourceIdValid, definitions).message == Message(Rules[k], args, definitions)
  }

  /** The case where one of the rules on the arguments alone fails. */
  lemma ArgumentRuleReported(args: Arguments, resourceIdValid: bool, definitions: seq<MetricDefinition>)
    requires !ArgumentsConsistent(args, resourceIdValid)
    ensures ReportsFirstViolated(args, resourceIdValid, definitions)
  {
    if !Holds(ResourceIdValid, args, resourceIdValid, definitions) {
      assert FirstViolated(0, args, resourceIdValid, definitions)
        && Validate(args, resourceIdValid, definitions).message == Message(Rules[0], args, definitions);
    } else if !Holds(DimensionPairing, args, resourceIdValid, definitions) {
      assert FirstViolated(1, args, resourceIdValid, definitions)
        && Validate(args, resourceIdValid, definitions).message == Message(Rules[1], args, definitions);
    } else {
      assert FirstViolated(2, args, resourceIdValid, definitions)
        && Validate(args, resourceIdValid, definitions).message == Message(Rules[2], args, definitions);
    }
  }

  /** The case where the metric is unknown, or lacks the dimension it requires. */
  lemma MetricRuleReported(args: Arguments, resourceIdValid: bool, definitions: seq<MetricDefinition>)
    requires ArgumentsConsistent(args, resourceIdValid)
    requires !Holds(KnownMetric, args, resourceIdValid, definitions) || !Holds(DimensionWhenRequired, args, resourceIdValid, definitions)
    ensures ReportsFirstViolated(args, resourceIdValid, definitions)
  {
    if !Holds(KnownMetric, args, resourceIdValid, definitions) {
      assert Validate(args, resourceIdValid, definitions)
          == Error(UnknownMetricMessage(args.metric, MetricIds(definitions)));
      assert FirstViolated(3, args, resourceIdValid, definitions)
        && Validate(args, resourceIdValid, definitions).message == Message(Rules[3], args, definitions);
    } else {
      var properties := FindDefinition(definitions, args.metric).value;
      assert Validate(args, resourceIdValid, definitions)
          == Error(DimensionRequiredMessage(args.metric, DimensionIds(properties)));
      assert FirstViolated(4, args, resourceIdValid, definitions)
        && Validate(args, resourceIdValid, definitions).message == Message(Rules[4], args, definitions);
    }
  }

  /** The case where the dimension or the aggregation is not among the metric's. */
  lemma OptionRuleReported(args: Arguments, resourceIdValid: bool, definitions: seq<MetricDefinition>)
    requires ArgumentsConsistent(args, resourceIdValid)
    requires Holds(KnownMetric, args, resourceIdValid, definitions) && Holds(DimensionWhenRequired, args, resourceIdValid, definitions)
    ensures ReportsFirstViolated(args, resourceIdValid, definitions)
  {
    var properties := FindDefinition(definitions, args.metric).value;
    if !Holds(KnownDimension, args, resourceIdValid, definitions) {
      assert Validate(args, resourceIdValid, definitions)
          == Error(UnknownDimensionMessage(args.dimension.value, args.metric, DimensionIds(properties)));
      assert FirstViolated(5, args, resourceIdValid, definitions)
        && Validate(args, resourceIdValid, definitions).message == Message(Rules[5], args, definitions);
    } else if !Holds(SupportedAggregation, args, resourceIdValid, definitions) {
      assert Validate(args, resourceIdValid, definitions)
          == Error(UnsupportedAggregationMessage(args.aggregation.value, args.metric, properties.supportedAggregationTypes));
      assert FirstViolated(6, args, resourceIdValid, definitions)
        && Validate(args, resourceIdValid, definitions).message == Message(Rules[6], args, definitions);
    }
  }

  /** A rejection names the first rule that fails, whatever the later rules say. */
  lemma ValidateReportsFirstViolatedRule(args: Arguments, resourceIdValid: bool, definitions: seq<MetricDefinition>)
    ensures Validate(args, resourceIdValid, definitions).Error? ==>
      exists k :: FirstViolated(k, args, resourceIdValid, definitions)
        && Validate(args, resourceIdValid, definitions).message == Message(Rules[k], args, definitions)
  {
    if !ArgumentsConsistent(args, resourceIdValid) {
      ArgumentRuleReported(args, resourceIdValid, definitions);
    } else if !Holds(KnownMetric, args, resourceIdValid, definitions) || !Holds(DimensionWhenRequired, args, resourceIdValid, definitions) {
      MetricRuleReported(args, resourceIdValid, definitions);
    } else {
      OptionRuleReported(args, resourceIdValid, definitions);
    }
  }

  /** A rejected metric name is answered with the full list of known names. */
  lemma UnknownMetricMessageListsEveryMetric(args: Arguments, resourceIdValid: bool, definitions: seq<MetricDefinition>, i: int)
    requires ArgumentsConsistent(args, resourceIdValid)
    requires args.metric !in MetricIds(definitions)
    requires 0 <= i < |definitions|
    ensures Validate(args, resourceIdValid, definitions) == Error(UnknownMetricMessage(args.metric, MetricIds(definitions)))
    ensures IsInfix(definitions[i].name.value, Validate(args, resourceIdValid, definitions).message)
  {
    var ids := MetricIds(definitions);
    JoinContainsParts(", ", ids, i);
    InfixOfExtended(ids[i], "Unknown metric " + args.metric + " for specified resource. Supported metrics are: ", Join(", ", ids), "");
    assert "Unknown metric " + args.metric + " for specified resource. Supported metrics are: " + Join(", ", ids) + ""
        == UnknownMetricMessage(args.metric, ids);
  }

  /**
    Once validation has passed, a non-empty dimension comes with its value, so
    the filter built from them never prints a missing value as `None`.
   */
  lemma ValidatedDimensionHasValue(args: Arguments, resourceIdValid: bool, definitions: seq<MetricDefinition>)
    requires Validate(args, resourceIdValid, definitions).Ok?
    requires Truthy(args.dimension)
    ensures args.dimensionValue.Some? && Format(args.dimensionValue) == args.dimensionValue.value != ""
  {
  }

  /** A definition that requires a dimension is never accepted with neither dimension nor filter. */
  lemma RequiredDimensionIsEnforced(args: Arguments, resourceIdValid: bool, definitions: seq<MetricDefinition>)
    requires FindDefinition(definitions, args.metric).Some?
    requires FindDefinition(definitions, args.metric).value.isDimensionRequired
    requires args.dimension.None? && args.filter.None?
    ensures Validate(args, resourceIdValid, definitions).Error?
  {
  }
}
