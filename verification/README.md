# Azure resource monitoring plugin — verified model of its core

The plugin `check_azure_resource.py` is a Nagios/Centreon check for one metric of one Azure
resource. It fetches the resource's metric definitions, checks its command-line arguments
against them, asks the Azure Monitor metrics API for the metric's time series, and keeps the
newest available sample of each series before handing the values to a threshold library.

This project models the logic between the two REST calls. The two API responses are inputs.

- `Metrics` (metrics.dfy): the data. This covers the arguments, metric definitions, time series
  and data points, the unit-symbol table and the "no value" message. Python's `bool(option)` is
  `Truthy` (given and non-empty). Python's `'{}'.format(option)` is `Format`, which prints a
  missing value as `None`.
- `Validation` (validation.dfy): the rules of `activate` as an ordered list of `Rule`s.
  `Validate` applies them in the source's order. It accepts exactly when every rule holds, and a
  rejection carries the message of the first rule that fails. The first three rules read only
  the arguments; the rest read the definition found for the metric.
- `Series` (series.dfy): the reduction of a values response.
  - `SeriesName` labels a series with its `_`-joined dimension values, or with the metric's name
    when it has none.
  - `AggregationKey` is the requested or primary aggregation, lower-cased.
  - `LatestValue` is the sample of the newest data point that carries that key.
  - `Collect` is the label-to-value map. A later series with the same label overwrites an
    earlier one.
- `Monitor` (monitor.dfy): the class `AzureResourceMonitor`. Its fields are those `activate`
  sets (the definitions and the metric properties). Its methods are the imperative code:
  - `Activate`: early returns, in the source's order;
  - `GetMetricProperties`: a scan with an early return;
  - `BuildQuery`: the query map, built key by key;
  - `GetMetricValues`: a loop over the series;
  - `FindLatest`: the inner newest-first scan of one series, with its `break`;
  - `CheckMetric`.

  Each method is proved against the functions above. `_is_dimension_required` is only a read of
  the stored properties' `isDimensionRequired` field, so `Activate` reads that field directly.
  Its effect is stated by `Validate` and `RequiredDimensionIsEnforced`.
- `Strings` (strings.dfy): `sep.join` and ASCII lower-casing. It also proves that a joined
  list contains each of its parts, and that a join with a one-character separator is injective
  when no part contains the separator.

Edge cases kept from the code:
- A dimension given as the empty string counts as not given for the pairing and exclusivity
  checks at lines 116-120, because Python's `bool("")` is false. So it is accepted alone, with an
  empty value, or beside a filter, and rejected with a non-empty value. The later `is None`
  checks count it as given: it meets the dimension-required rule and must be a listed id.
- If such an empty dimension is a listed id, the filter is built from it and the raw filter is
  dropped. The filter reads ` eq 'None'` when the value is absent and ` eq ''` when the value is
  empty.
- An empty `--filter` also counts as given for the dimension-required rule. It is sent as an
  empty `$filter`.
- A series none of whose data points carries the aggregation key is reported as a `None` entry
  in the map passed on. It does not get the "No value available" message, which is reserved for
  a response with no series at all.

## Model

| member | source | states |
|---|---|---|
| `Validation.FindDefinition` | check_azure_resource.py:188-195 | no definition is found exactly when the metric is not among the definitions' names; a found definition is one of them and carries the metric's name |
| `Validation.FindDefinitionIsFirstMatch` | check_azure_resource.py:191-193 | when several definitions share the name, the first one is returned |
| `Validation.Validate` | check_azure_resource.py:113-177 | the arguments are accepted exactly when all seven rules hold (valid resource ID, dimension paired with value, filter excludes dimension, known metric, dimension or filter when required, known dimension, supported aggregation); an accepted run's properties are the first definition named by the metric |
| `Validation.ValidateReportsFirstViolatedRule` | check_azure_resource.py:113-177 | a rejection carries the message of the first rule, in the source's order, that fails |
| `Validation.UnknownMetricMessageListsEveryMetric` | check_azure_resource.py:150-155 | an unknown metric is rejected with the "Unknown metric" message, and every known metric name appears in it |
| `Validation.ValidatedDimensionHasValue` | check_azure_resource.py:116-117 | after validation, a non-empty dimension always has a non-empty value, so the filter never prints `None` |
| `Validation.RequiredDimensionIsEnforced` | check_azure_resource.py:159-163 | a metric that requires a dimension is never accepted with neither a dimension nor a filter |
| `Monitor.AzureResourceMonitor.constructor` | check_azure_resource.py:108 | a plugin takes the parsed command-line options; its definitions and metric properties start empty |
| `Monitor.AzureResourceMonitor.GetMetricProperties` | check_azure_resource.py:188-195 | the scan returns the first definition named by the metric, or none |
| `Monitor.AzureResourceMonitor.Activate` | check_azure_resource.py:106-177 | the outcome is `Validate`'s; definitions are stored only after the argument-only checks pass; properties are set once the metric is known, and on success they are the accepted definition |
| `Monitor.AzureResourceMonitor.BuildQuery` | check_azure_resource.py:205-216 | the query always has `metricnames` = the metric; `$filter` is `<dim> eq '<val>'` with a dimension, else the raw filter, else absent; `aggregation` is present exactly when requested; no other key |
| `Monitor.AzureResourceMonitor.GetMetricValues` | check_azure_resource.py:229-257 | no series gives no map (not an empty one); otherwise the result is `Collect` of the series under the aggregation key |
| `Monitor.FindLatest` | check_azure_resource.py:250-254 | scanning the data points newest first and stopping at the first that carries the key gives `LatestValue`: that point's sample, or `None` when no point carries the key |
| `Monitor.AzureResourceMonitor.CheckMetric` | check_azure_resource.py:264-275 | no series gives the "No value available" message; otherwise the unit symbol of the metric's unit and a non-empty label-to-value map |
| `Series.AggregationKey` | check_azure_resource.py:233-237 | the key is the requested aggregation, or else the primary aggregation type, with each ASCII capital lower-cased |
| `Series.SeriesName` | check_azure_resource.py:242-247 | a series without dimension values is labelled with the metric name; a series with one dimension value is labelled with that value |
| `Series.Collect` | check_azure_resource.py:240-257 | the label-to-value map, built series by series; its keys and values are stated by `Series.CollectKeys` and `Series.CollectValue` |
| `Series.SeriesNameInjective` | check_azure_resource.py:242-245 | two split series whose dimension values contain no `_` share a label only if they have the same dimension values |
| `Series.LatestValue` | check_azure_resource.py:250-254 | the value of a series; it is absent exactly when none of its data points carries the aggregation key |
| `Series.LatestValueIsNewest` | check_azure_resource.py:251-254 | a value found is the sample of the newest data point carrying the key |
| `Series.CollectKeys` | check_azure_resource.py:240-250 | the map's keys are exactly the labels of the series |
| `Series.CollectValue` | check_azure_resource.py:240-254 | each label maps to the latest value of the last series with that label (later series overwrite earlier ones) |
| `Series.CollectNonEmpty` | check_azure_resource.py:229-257 | a response with at least one series never reduces to an empty map |
| `Strings.JoinContainsParts` | check_azure_resource.py:154 | every element of a `sep.join` list occurs unbroken in the joined string |
| `Strings.JoinInjective` | check_azure_resource.py:245 | with a one-character separator absent from every part, equal joins of non-empty lists come from equal lists |
| `Series.AggregationKeyIsLowerCase` | check_azure_resource.py:234-237 | the aggregation key contains no ASCII capital, and asking for the key itself gives the same key back |
| `Metrics.MetricIdsNameEveryDefinition` | check_azure_resource.py:150 | a name is in the list of metric ids exactly when some definition carries it |
| `Metrics.DimensionIdsNameEveryDimension` | check_azure_resource.py:158 | a name is in the list of dimension ids exactly when some dimension of the definition carries it |
| `Metrics.UnitSymbol` | check_azure_resource.py:78-83 | a unit in the fixed table gets its symbol; any other unit gets `''` |
| `Metrics.UnitSymbolEmptyIffUnknown` | check_azure_resource.py:266-268 | the symbol is empty exactly when the unit is not in the table |
| `Metrics.NoValueMessage` | check_azure_resource.py:272-274 | the message is `No value available for metric M`, followed by ` and dimension D` exactly when a dimension was given |

## Left out

- The REST calls are not modelled. This covers `_call_arm_rest_api`, `_get_metric_definitions`,
  the credentials and client set-up, and the handling of HTTP errors and malformed JSON. Both
  responses are inputs: `definitions` is the `value` list, and `timeseries` is
  `value[0].timeseries`.
- The resource-ID check is a library call whose code is not part of this model. Its verdict is
  the parameter `resourceIdValid` of `Validate` and `Activate`.
- Timeout parsing is not modelled. It is a float conversion, and it runs between the
  argument-only rules and the definitions fetch, so its usage error is not among the modelled
  outcomes.
- The default API host is not modelled. It is configuration.
- `load_config`, the logging set-up and the registration of the command-line options are not
  modelled. They are configuration plumbing.
- The threshold evaluation, the performance-data output and the summary are not modelled. They
  are `PluginHelper`'s `add_metric`, `check_all_metrics`, `add_summary` and `exit`, and that
  library is not part of this model. `CheckMetric` stops at the values and unit it would pass on.
- Process exit (`parser.error`, `nagios_exit`) is modelled as an `Error` result or a `NoValue`
  outcome. The exit status is not modelled.
- The order of the label-to-value dictionary is not modelled. It only decides the order in
  which series are reported, and the model's map records no order.
- `Series.AggregationKey`: lower-casing covers only ASCII letters. Python's `str.lower` also
  maps non-ASCII capitals, and aggregation names are ASCII.
- `Series.SeriesName`: strings are modelled as sequences of characters, with no encoding step.
  The source is Python 2, where the JSON responses give `unicode` strings. Formatting a non-ASCII
  one into a byte-string template raises `UnicodeEncodeError`. That crash is dropped in two places:
  - the series label at line 245, where the model labels a series whose dimension values are
    non-ASCII;
  - the usage messages at lines 152-176, where the model builds the message when a listed id,
    the metric, the dimension or the aggregation is non-ASCII.
- A definition without an `isDimensionRequired` entry would raise `KeyError` in the source. The
  model gives every definition that flag.
- A series without a `data` entry would raise `KeyError` in the source. The model gives every
  series a data list.
- Other missing entries would also raise `KeyError` in the source. The model gives each of these
  a value and drops the crash:
  - a definition's `primaryAggregationType` (line 237) and `unit` (line 266);
  - a definition's `name` (lines 150, 192, 247);
  - the `value` of a dimension or metadata entry (lines 158, 243).
- `Monitor.AzureResourceMonitor.GetMetricValues` and `CheckMetric` require the metric
  properties to be set. The source calls them only after a successful `activate`.
