/**
  The reduction of a values response to one latest sample per series: how a
  series is named, which aggregation key is read, and which data point gives
  the value.
 */
module Series {
  import opened Wrappers
  import opened Strings
  import opened Metrics

  /** `[d['value'] for d in series.get('metadatavalues', [])]` */
  function MetadataIds(metadata: seq<MetadataValue>): seq<string>
  {
    seq(|metadata|, i requires 0 <= i < |metadata| => metadata[i].value)
  }

  /**
    The label of a series: its dimension values joined by `_`, or the metric's
    own name for a series without dimension values.
   */
  function SeriesName<V>(series: TimeSeries<V>, metricName: string): (name: string)
    ensures |series.metadatavalues| == 0 ==> name == metricName
    ensures |series.metadatavalues| == 1 ==> name == series.metadatavalues[0].value
  {
    if |series.metadatavalues| > 0 then Join("_", MetadataIds(series.metadatavalues)) else metricName
  }

  /**
    Two split series whose dimension values contain no `_` get the same label
    only when they have the same dimension values, so neither overwrites the other.
   */
  lemma SeriesNameInjective<V>(s: TimeSeries<V>, t: TimeSeries<V>, metricName: string)
    requires |s.metadatavalues| > 0 && |t.metadatavalues| > 0
    requires Avoids(MetadataIds(s.metadatavalues), '_') && Avoids(MetadataIds(t.metadatavalues), '_')
    requires SeriesName(s, metricName) == SeriesName(t, metricName)
    ensures MetadataIds(s.metadatavalues) == MetadataIds(t.metadatavalues)
  {
    JoinInjective('_', MetadataIds(s.metadatavalues), MetadataIds(t.metadatavalues));
  }

  /**
    The key read from each data point: the requested aggregation, or else the
    metric's primary aggregation type, lower-cased.
   */
  function AggregationKey(aggregation: Option<string>, primaryAggregationType: string): (key: string)
    ensures var chosen := if aggregation.Some? then aggregation.value else primaryAggregationType;
      && |key| == |chosen|
      && forall i | 0 <= i < |key| :: key[i] == LowerChar(chosen[i])
  {
    Lower(if aggregation.Some? then aggregation.value else primaryAggregationType)
  }

  /**
    The key contains no ASCII capital, and asking again for the key itself
    gives the same key back.
   */
  lemma AggregationKeyIsLowerCase(aggregation: Option<string>, primaryAggregationType: string)
    ensures var key := AggregationKey(aggregation, primaryAggregationType);
      && (forall i | 0 <= i < |key| :: !('A' <= key[i] <= 'Z'))
      && AggregationKey(Some(key), primaryAggregationType) == key
  {
  }

  /** Scanning one data point further back, newest first. */
  lemma LatestValueStep<V>(data: seq<DataPoint<V>>, key: string, j: int)
    requires 0 <= j < |data|
    ensures key in data[j] ==> LatestValue(data[..j + 1], key) == Some(data[j][key])
    ensures key !in data[j] ==> LatestValue(data[..j + 1], key) == LatestValue(data[..j], key)
  {
    assert data[..j + 1][..j] == data[..j];
  }

  /** Index `i` is the newest data point that carries `key`. */
  ghost predicate IsLatestWithKey<V>(data: seq<DataPoint<V>>, key: string, i: int)
  {
    && 0 <= i < |data|
    && key in data[i]
    && forall j | i < j < |data| :: key !in data[j]
  }

  /**
    The sample of the newest data point carrying `key`. A series has no value
    exactly when none of its data points carries the key.
   */
  function LatestValue<V>(data: seq<DataPoint<V>>, key: string): (latest: Option<V>)
    ensures latest.None? <==> forall i | 0 <= i < |data| :: key !in data[i]
    decreases |data|
  {
    if |data| == 0 then None
    else if key in data[|data| - 1] then Some(data[|data| - 1][key])
    else
      var prefix := data[..|data| - 1];
      assert forall i | 0 <= i < |prefix| :: prefix[i] == data[i];
      LatestValue(prefix, key)
  }

  /** A value found is the sample of the newest data point carrying the key. */
  lemma {:induction false} LatestValueIsNewest<V>(data: seq<DataPoint<V>>, key: string)
    requires LatestValue(data, key).Some?
    ensures exists i :: IsLatestWithKey(data, key, i) && data[i][key] == LatestValue(data, key).value
    decreases |data|
  {
    var n := |data|;
    if key in data[n - 1] {
      assert IsLatestWithKey(data, key, n - 1);
    } else {
      var prefix := data[..n - 1];
      LatestValueIsNewest(prefix, key);
      var i :| IsLatestWithKey(prefix, key, i) && prefix[i][key] == LatestValue(prefix, key).value;
      assert IsLatestWithKey(data, key, i);
    }
  }

  /**
    The map `_get_metric_values` builds: series by series, the label of each
    series is bound to its latest value, a later series overwriting an earlier
    one of the same label.
   */
  function Collect<V>(timeseries: seq<TimeSeries<V>>, key: string, metricName: string): map<string, Option<V>>
    decreases |timeseries|
  {
    if |timeseries| == 0 then map[]
    else
      var last := timeseries[|timeseries| - 1];
      Collect(timeseries[..|timeseries| - 1], key, metricName)[SeriesName(last, metricName) := LatestValue(last.data, key)]
  }

  /** Taking one more series binds its label to its latest value. */
  lemma CollectStep<V>(timeseries: seq<TimeSeries<V>>, s: int, key: string, metricName: string)
    requires 0 <= s < |timeseries|
    ensures Collect(timeseries[..s + 1], key, metricName)
         == Collect(timeseries[..s], key, metricName)[SeriesName(timeseries[s], metricName) := LatestValue(timeseries[s].data, key)]
  {
    assert timeseries[..s + 1][..s] == timeseries[..s];
  }

  /** The labels of all series. */
  function SeriesNames<V>(timeseries: seq<TimeSeries<V>>, metricName: string): set<string>
  {
    set i | 0 <= i < |timeseries| :: SeriesName(timeseries[i], metricName)
  }

  /** The result has one entry per series label, and no other. */
  lemma {:induction false} CollectKeys<V>(timeseries: seq<TimeSeries<V>>, key: string, metricName: string)
    ensures Collect(timeseries, key, metricName).Keys == SeriesNames(timeseries, metricName)
    decreases |timeseries|
  {
    if |timeseries| > 0 {
      var n := |timeseries|;
      var prefix := timeseries[..n - 1];
      CollectKeys(prefix, key, metricName);
      assert forall i | 0 <= i < n - 1 :: prefix[i] == timeseries[i];
      assert SeriesNames(timeseries, metricName)
          == SeriesNames(prefix, metricName) + {SeriesName(timeseries[n - 1], metricName)};
    }
  }

  /** Series `i` is the last one carrying its label. */
  ghost predicate IsLastNamed<V>(timeseries: seq<TimeSeries<V>>, metricName: string, i: int)
  {
    && 0 <= i < |timeseries|
    && forall j | i < j < |timeseries| :: SeriesName(timeseries[j], metricName) != SeriesName(timeseries[i], metricName)
  }

  /** Each label holds the latest value of the last series carrying that label. */
  lemma {:induction false} CollectValue<V>(timeseries: seq<TimeSeries<V>>, key: string, metricName: string, i: int)
    requires IsLastNamed(timeseries, metricName, i)
    ensures var name := SeriesName(timeseries[i], metricName);
      name in Collect(timeseries, key, metricName)
      && Collect(timeseries, key, metricName)[name] == LatestValue(timeseries[i].data, key)
    decreases |timeseries|
  {
    var n := |timeseries|;
    if i < n - 1 {
      var prefix := timeseries[..n - 1];
      assert IsLastNamed(prefix, metricName, i);
      CollectValue(prefix, key, metricName, i);
    }
  }

  /** A response with at least one series never reduces to an empty map. */
  lemma CollectNonEmpty<V>(timeseries: seq<TimeSeries<V>>, key: string, metricName: string)
    requires |timeseries| > 0
    ensures |Collect(timeseries, key, metricName)| > 0
  {
  }
}
