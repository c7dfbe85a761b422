/** The read-only `find` and single-group queries of the data analyzer
    (data_analyzer.py), as functions over the collection's documents. The
    current time `now` is a parameter; windows are closed intervals of
    timestamps in seconds. */
module Queries {
  import opened Common
  import opened Documents
  import opened Stats

  predicate InWindow(start: int, end: int, d: Doc)
  {
    start <= d.timestamp <= end
  }

  /** Optional metadata filters; an empty string stands for an argument left
      at None (or given as ""), which adds no condition. */
  datatype MetaFilter = MetaFilter(location: string, building: string, room: string, sensorId: string)

  predicate MatchesFilter(f: MetaFilter, d: Doc)
  {
    && (f.location == "" || d.metadata.location == f.location)
    && (f.building == "" || d.metadata.building == f.building)
    && (f.room == "" || d.metadata.room == f.room)
    && (f.sensorId == "" || d.metadata.sensorId == Some(f.sensorId))
  }

  /** The query document `{timestamp: {$gte: start, $lte: end}, metadata.*: ...}`. */
  function WindowQuery(start: int, end: int, f: MetaFilter): Doc -> bool
  {
    d => InWindow(start, end, d) && MatchesFilter(f, d)
  }

  /** Sort keys: ascending timestamp, and descending timestamp as an ascending key. */
  function OldestFirst(d: Doc): int { d.timestamp }

  function NewestFirst(d: Doc): int { -d.timestamp }

  /** The documents of the last `hours` hours that match every given filter,
      newest first. */
  function QueryRecentData(docs: seq<Doc>, now: int, hours: int, location: string, building: string, room: string): (r: seq<Doc>)
    ensures forall i, j :: 0 <= i < j < |r| ==> r[i].timestamp >= r[j].timestamp
    ensures forall d :: multiset(r)[d] ==
                        (if now - hours * SecondsPerHour <= d.timestamp <= now && MatchesFilter(MetaFilter(location, building, room, ""), d)
                         then multiset(docs)[d] else 0)
  {
    var q := WindowQuery(now - hours * SecondsPerHour, now, MetaFilter(location, building, room, ""));
    SelectSorted(docs, q, NewestFirst);
    SortBy(Filter(docs, q), NewestFirst)
  }

  /** A document is returned by the recent-data query iff it is in the window
      and matches the filters. */
  lemma QueryRecentDataMembers(docs: seq<Doc>, now: int, hours: int, location: string, building: string, room: string, d: Doc)
    ensures d in QueryRecentData(docs, now, hours, location, building, room) <==>
      d in docs && now - hours * SecondsPerHour <= d.timestamp <= now
      && MatchesFilter(MetaFilter(location, building, room, ""), d)
  {
    var r := QueryRecentData(docs, now, hours, location, building, room);
    assert d in r <==> multiset(r)[d] > 0;
    assert d in docs <==> multiset(docs)[d] > 0;
  }

  /** An empty filter string adds no condition. */
  lemma EmptyFilterIgnored(d: Doc)
    ensures MatchesFilter(MetaFilter("", "", "", ""), d)
  {
  }

  /** The canonical optimal band, independent of the configured thresholds. */
  const OptimalTempMin := 63.0
  const OptimalTempMax := 80.0
  const OptimalHumidityMin := 40.0
  const OptimalHumidityMax := 60.0

  predicate Optimal(start: int, end: int, d: Doc)
  {
    && InWindow(start, end, d)
    && d.alertType.Null?
    && MetricValue(d, Temperature).Some?
    && OptimalTempMin <= MetricValue(d, Temperature).value <= OptimalTempMax
    && MetricValue(d, Humidity).Some?
    && OptimalHumidityMin <= MetricValue(d, Humidity).value <= OptimalHumidityMax
  }

  /** The alert-free readings of the last `days` days inside the optimal band,
      newest first. */
  function GetOptimalPeriods(docs: seq<Doc>, now: int, days: int): (r: seq<Doc>)
    ensures forall i, j :: 0 <= i < j < |r| ==> r[i].timestamp >= r[j].timestamp
    ensures forall d :: multiset(r)[d] ==
                        (if Optimal(now - days * SecondsPerDay, now, d) then multiset(docs)[d] else 0)
  {
    var q := d => Optimal(now - days * SecondsPerDay, now, d);
    SelectSorted(docs, q, NewestFirst);
    SortBy(Filter(docs, q), NewestFirst)
  }

  /** Documents matching the metadata filters, newest first, at most `limit`
      of them (0 meaning no limit); those left out are no newer than any
      returned. */
  function SearchByMetadata(docs: seq<Doc>, location: string, building: string, room: string, sensorId: string, limit: int): (r: seq<Doc>)
    ensures forall i, j :: 0 <= i < j < |r| ==> r[i].timestamp >= r[j].timestamp
    ensures forall i :: 0 <= i < |r| ==> r[i] in docs && MatchesFilter(MetaFilter(location, building, room, sensorId), r[i])
    ensures multiset(r) <= multiset(Filter(docs, d => MatchesFilter(MetaFilter(location, building, room, sensorId), d)))
    ensures limit != 0 ==> |r| <= Abs(limit)
    ensures |r| == if limit == 0 || Count(docs, d => MatchesFilter(MetaFilter(location, building, room, sensorId), d)) <= Abs(limit)
                   then Count(docs, d => MatchesFilter(MetaFilter(location, building, room, sensorId), d)) else Abs(limit)
    ensures forall d :: d in docs && MatchesFilter(MetaFilter(location, building, room, sensorId), d) && d !in r ==>
      forall i :: 0 <= i < |r| ==> r[i].timestamp >= d.timestamp
  {
    var f := MetaFilter(location, building, room, sensorId);
    var q := d => MatchesFilter(f, d);
    var sorted := SortBy(Filter(docs, q), NewestFirst);
    var r := Take(sorted, limit);
    LimitedSelection(docs, q, NewestFirst, limit);
    r
  }

  /** Documents of the window `[start, end]`, oldest first, at most `limit`
      of them (0 meaning no limit); those left out are no older than any
      returned. */
  function GetTimeRangeData(docs: seq<Doc>, start: int, end: int, limit: int): (r: seq<Doc>)
    ensures forall i, j :: 0 <= i < j < |r| ==> r[i].timestamp <= r[j].timestamp
    ensures forall i :: 0 <= i < |r| ==> r[i] in docs && start <= r[i].timestamp <= end
    ensures multiset(r) <= multiset(Filter(docs, d => InWindow(start, end, d)))
    ensures limit != 0 ==> |r| <= Abs(limit)
    ensures |r| == if limit == 0 || Count(docs, d => InWindow(start, end, d)) <= Abs(limit)
                   then Count(docs, d => InWindow(start, end, d)) else Abs(limit)
    ensures forall d :: d in docs && start <= d.timestamp <= end && d !in r ==>
      forall i :: 0 <= i < |r| ==> r[i].timestamp <= d.timestamp
  {
    var q := d => InWindow(start, end, d);
    LimitedSelection(docs, q, OldestFirst, limit);
    Take(SortBy(Filter(docs, q), OldestFirst), limit)
  }

  /** What a `find(q).sort(key).limit(n)` cursor returns: selected elements in
      key order, and the unreturned selected ones ranked after the returned. */
  lemma LimitedSelection(docs: seq<Doc>, q: Doc -> bool, key: Doc -> int, limit: int)
    ensures var r := Take(SortBy(Filter(docs, q), key), limit);
      && SortedBy(r, key)
      && (forall i :: 0 <= i < |r| ==> r[i] in docs && q(r[i]))
      && multiset(r) <= multiset(Filter(docs, q))
      && (forall d :: d in docs && q(d) && d !in r ==> forall i :: 0 <= i < |r| ==> key(r[i]) <= key(d))
  {
    var m := Filter(docs, q);
    var sorted := SortBy(m, key);
    var r := Take(sorted, limit);
    SelectSorted(docs, q, key);
    SortByCorrect(m, key);
    TakeSubMultiset(sorted, limit);
    assert r == sorted[..|r|];
    forall i | 0 <= i < |r| ensures r[i] in docs && q(r[i]) {
      assert r[i] == sorted[i];
      assert r[i] in multiset(sorted);
      FilterMultiset(docs, q, r[i]);
    }
    forall d | d in docs && q(d) && d !in r ensures forall i :: 0 <= i < |r| ==> key(r[i]) <= key(d) {
      FilterMultiset(docs, q, d);
      assert d in multiset(sorted);
      TopK(sorted, key, |r|, d);
    }
  }

  /** The present values of one metric, in document order. */
  function Values(docs: seq<Doc>, m: Metric): (vs: seq<real>)
    ensures |vs| <= |docs|
  {
    if docs == [] then []
    else
      (match MetricValue(docs[0], m) case Some(v) => [v] case None => []) + Values(docs[1..], m)
  }

  lemma {:induction false} ValuesPresent(docs: seq<Doc>, m: Metric)
    ensures Values(docs, m) != [] <==> exists i :: 0 <= i < |docs| && MetricValue(docs[i], m).Some?
  {
    if docs != [] {
      ValuesPresent(docs[1..], m);
      if MetricValue(docs[0], m).None? {
        assert (exists i :: 0 <= i < |docs| && MetricValue(docs[i], m).Some?) ==
               (exists i :: 0 <= i < |docs[1..]| && MetricValue(docs[1..][i], m).Some?) by {
          forall i | 0 < i < |docs| ensures docs[i] == docs[1..][i - 1] { }
        }
      }
    }
  }

  datatype MetricSummary = MetricSummary(avg: real, min: real, max: real)

  /** `$avg`, `$min` and `$max` of one metric: None when no document has it. */
  function Summarize(vs: seq<real>): (r: Option<MetricSummary>)
    ensures r.None? <==> vs == []
    ensures r.Some? ==> r.value.avg == Mean(vs)
    ensures r.Some? ==> r.value.min <= r.value.avg <= r.value.max
    ensures r.Some? ==> r.value.min in vs && r.value.max in vs
    ensures r.Some? ==> forall i :: 0 <= i < |vs| ==> r.value.min <= vs[i] <= r.value.max
  {
    if vs == [] then None
    else
      MeanBetween(vs);
      Some(MetricSummary(Mean(vs), Min(vs), Max(vs)))
  }

  datatype Aggregate = Aggregate(
    temperature: Option<MetricSummary>,
    humidity: Option<MetricSummary>,
    totalReadings: nat,
    alertCount: nat)

  predicate Alerted(d: Doc) { !d.alertType.Null? }

  /** The single-group summary of the documents matching the window and
      filters, or None when none matches. */
  function GetAggregatedMetrics(docs: seq<Doc>, start: int, end: int, location: string, building: string, room: string): (r: Option<Aggregate>)
    ensures r.None? <==> Filter(docs, WindowQuery(start, end, MetaFilter(location, building, room, ""))) == []
    ensures r.Some? ==> r.value.totalReadings == Count(docs, WindowQuery(start, end, MetaFilter(location, building, room, "")))
    ensures r.Some? ==> r.value.alertCount == Count(Filter(docs, WindowQuery(start, end, MetaFilter(location, building, room, ""))), Alerted)
    ensures r.Some? ==> 0 < r.value.totalReadings && r.value.alertCount <= r.value.totalReadings
    ensures r.Some? ==>
      && r.value.temperature == Summarize(Values(Filter(docs, WindowQuery(start, end, MetaFilter(location, building, room, ""))), Temperature))
      && r.value.humidity == Summarize(Values(Filter(docs, WindowQuery(start, end, MetaFilter(location, building, room, ""))), Humidity))
  {
    var matches := Filter(docs, WindowQuery(start, end, MetaFilter(location, building, room, "")));
    if matches == [] then None else Some(AggregateOf(matches))
  }

  /** The accumulators of the one group formed by the matching documents. */
  function AggregateOf(matches: seq<Doc>): (a: Aggregate)
    ensures a.totalReadings == |matches| && a.alertCount == Count(matches, Alerted)
    ensures a.temperature == Summarize(Values(matches, Temperature)) && a.humidity == Summarize(Values(matches, Humidity))
  {
    Aggregate(
      Summarize(Values(matches, Temperature)),
      Summarize(Values(matches, Humidity)),
      |matches|,
      Count(matches, Alerted))
  }

  /** The summary of one metric in an aggregate. */
  function MetricOf(a: Aggregate, m: Metric): Option<MetricSummary>
  {
    if m == Temperature then a.temperature else a.humidity
  }

  /** A metric's summary is present iff some matching document has that
      metric, and then lies between the minimum and the maximum. */
  lemma AggregateMetricPresence(matches: seq<Doc>, m: Metric)
    ensures var s := MetricOf(AggregateOf(matches), m);
      && (s.Some? <==> exists i :: 0 <= i < |matches| && MetricValue(matches[i], m).Some?)
      && s == Summarize(Values(matches, m))
      && (s.Some? ==> s.value.min <= s.value.avg <= s.value.max)
  {
    assert MetricOf(AggregateOf(matches), m) == Summarize(Values(matches, m));
    ValuesPresent(matches, m);
  }

  datatype Quality = Quality(
    periodDays: int,
    expectedReadings: int,
    actualReadings: nat,
    missingReadings: int,
    missingPercentage: real,
    anomalies: nat,
    dataCompleteness: real)

  /** The anomaly condition as the query writes it: both bounds on the same
      field, `{"$lt": 60, "$gt": 85}` and `{"$lt": 35, "$gt": 70}`. */
  predicate AnomalyAsWritten(d: Doc)
  {
    || (MetricValue(d, Temperature).Some? && MetricValue(d, Temperature).value < 60.0 && MetricValue(d, Temperature).value > 85.0)
    || (MetricValue(d, Humidity).Some? && MetricValue(d, Humidity).value < 35.0 && MetricValue(d, Humidity).value > 70.0)
  }

  /** Completeness against one reading per minute. Dividing by zero expected
      readings (`days == 0`) raises inside the query, which then yields None. */
  function GetDataQualityMetrics(docs: seq<Doc>, now: int, days: int): (r: Option<Quality>)
    ensures r.None? <==> days == 0
    ensures r.Some? ==>
      && r.value.expectedReadings == days * 1440
      && r.value.actualReadings == Count(docs, d => InWindow(now - days * SecondsPerDay, now, d))
      && r.value.missingReadings == r.value.expectedReadings - r.value.actualReadings
      && r.value.periodDays == days
      && r.value.dataCompleteness == (r.value.actualReadings as real / r.value.expectedReadings as real) * 100.0
      && r.value.missingPercentage == (r.value.missingReadings as real / r.value.expectedReadings as real) * 100.0
      && r.value.missingPercentage + r.value.dataCompleteness == 100.0
      && r.value.anomalies == 0
  {
    var expected := days * 24 * 60;
    if expected == 0 then None
    else
      var inWindow := Filter(docs, d => InWindow(now - days * SecondsPerDay, now, d));
      var actual := |inWindow|;
      PercentagesComplement(expected as real, actual as real);
      AnomalyAsWrittenNeverHolds(inWindow);
      Some(Quality(days, expected, actual, expected - actual,
                   ((expected - actual) as real / expected as real) * 100.0,
                   Count(inWindow, AnomalyAsWritten),
                   (actual as real / expected as real) * 100.0))
  }

  /** No document can satisfy the anomaly condition as written. */
  lemma AnomalyAsWrittenNeverHolds(docs: seq<Doc>)
    ensures Count(docs, AnomalyAsWritten) == 0
  {
    FilterNone(docs, AnomalyAsWritten);
  }

  lemma PercentagesComplement(expected: real, actual: real)
    requires expected != 0.0
    ensures ((expected - actual) / expected) * 100.0 + (actual / expected) * 100.0 == 100.0
  {
    assert (expected - actual) / expected + actual / expected == expected / expected;
  }

  /** The anomaly condition the query evidently intends: a reading outside the
      wider sanity band 60-85°F or 35-70%. */
  predicate Anomaly(d: Doc)
  {
    || (MetricValue(d, Temperature).Some? && (MetricValue(d, Temperature).value < 60.0 || MetricValue(d, Temperature).value > 85.0))
    || (MetricValue(d, Humidity).Some? && (MetricValue(d, Humidity).value < 35.0 || MetricValue(d, Humidity).value > 70.0))
  }

  /** The data-quality summary with the intended anomaly count. */
  function GetDataQualityMetricsIntended(docs: seq<Doc>, now: int, days: int): (r: Option<Quality>)
    ensures r.None? <==> days == 0
    ensures r.Some? ==>
      && r.value.expectedReadings == days * 1440
      && r.value.actualReadings == Count(docs, d => InWindow(now - days * SecondsPerDay, now, d))
      && r.value.missingReadings == r.value.expectedReadings - r.value.actualReadings
      && r.value.periodDays == days
      && r.value.dataCompleteness == (r.value.actualReadings as real / r.value.expectedReadings as real) * 100.0
      && r.value.missingPercentage == (r.value.missingReadings as real / r.value.expectedReadings as real) * 100.0
      && r.value.missingPercentage + r.value.dataCompleteness == 100.0
      && r.value.anomalies == Count(Filter(docs, d => InWindow(now - days * SecondsPerDay, now, d)), Anomaly)
      && r.value.anomalies <= r.value.actualReadings
  {
    var expected := days * 24 * 60;
    if expected == 0 then None
    else
      var inWindow := Filter(docs, d => InWindow(now - days * SecondsPerDay, now, d));
      var actual := |inWindow|;
      PercentagesComplement(expected as real, actual as real);
      Some(Quality(days, expected, actual, expected - actual,
                   ((expected - actual) as real / expected as real) * 100.0,
                   Count(inWindow, Anomaly),
                   (actual as real / expected as real) * 100.0))
  }

  /** A reading at 90°F in the window: the query as written reports no
      anomaly, the intended one reports it. */
  lemma AnomalyCounterexample(d: Doc, now: int)
    requires d.timestamp == now && MetricValue(d, Temperature) == Some(90.0)
    ensures GetDataQualityMetrics([d], now, 1).value.anomalies == 0
    ensures GetDataQualityMetricsIntended([d], now, 1).value.anomalies == 1
  {
    var inWindow := Filter([d], d => InWindow(now - SecondsPerDay, now, d));
    FilterSingleton(d, d => InWindow(now - SecondsPerDay, now, d));
    assert inWindow == [d];
    FilterSingleton(d, Anomaly);
  }
}
