# Server-room IoT time-series monitor, modelled in Dafny

The system simulates an environmental sensor in a server room and stores one
reading a minute in a MongoDB time-series collection. Each reading has a
temperature (°F) and a humidity (%). An alert manager checks every reading
against configurable bounds, and when a bound is crossed it writes
index-aligned lists of alert types, messages and severities into the reading.
The collection's schema step creates the query indexes and drops two indexes
left by an older schema. Once a day, maintenance inserts a health-status
document and deletes documents older than 30 days. A read-only analyzer
offers recent-data queries, an alert summary, hourly trends, an "optimal
conditions" filter, one summary over a window, data-quality figures, a
metadata search and a time-range query.

The model has these parts:

- `documents.dfy` (`Documents`): the stored document. `alert_type` and
  `severity` are `Null`, a single string, or a list of strings; the metrics
  are optional. It also defines the two document shapes the simulator
  produces.
- `alert_manager.dfy` (`AlertManagement`): the threshold checks as
  functions, and the `AlertManager` class whose four bounds
  `set_thresholds` overwrites.
- `time_series_collection.dfy` (`TimeSeries`): the `TimeSeriesCollection`
  class over an in-memory store. The store is the collection's documents in
  insertion order, a set of index key lists, and the names the database
  lists.
- `queries.dfy`, `trends.dfy`, `alert_summary.dfy`: each `find` query and
  aggregation pipeline of the analyzer, as a function over the sequence of
  documents.
- `main_simulation.dfy` (`Simulation`): the orchestrator class. It covers
  start-up, one ingestion cycle and the maintenance gate.
- `common.dfy` and `stats.dfy`: the filter, sort and limit of a cursor, and
  the `$sum`/`$min`/`$max`/`$avg` accumulators.

Parameters stand in for everything outside the program:

- the current time `now`, in seconds;
- the generated metric values;
- whether the connection and the database health probe succeed;
- the outcome of `create_collection`;
- which index drops fail;
- a `fault` flag for each call that catches a driver exception.

Timestamps are integer seconds. The calendar hour of a trend bucket is
`timestamp / 3600`, which orders like the `(year, month, day, hour)` group
key. Metric values are mathematical reals.

Some behaviour of the code is easy to misread:

- Schema-setup errors abort start-up. `setup()` re-raises them, and the
  exception handler of `initialize_system` then returns `False`
  (main_simulation.py:54, 77-79).
- The alert summary groups by the stored `alert_type` value, and on an
  alerted reading that value is a whole list. It then compares each pushed
  `severity` value with a string, so a reading's list of severities is never
  counted (see Findings).
- The data-quality anomaly condition cannot be met, so the anomaly count is
  always 0 (see Findings).
- Alert fields are not always lists. An alerted reading stores index-aligned
  lists, but the health-status document stores a single `HEALTH_STATUS`
  string and a single `INFO` string (sensor_simulator.py:115-116).
- Inverted bounds (`min >= max`) are stored and only produce a warning.

## Model

| member | source | states |
|---|---|---|
| AlertManagement.AlertManager.constructor | alert_manager.py:9-14 | the initial bounds are 63/80 °F and 40/60 % |
| AlertManagement.AlertManager.SetThresholds | alert_manager.py:32-37 | the four bounds are stored exactly as given, inverted or not |
| AlertManagement.AlertManager.GetThresholds | alert_manager.py:41-46 | returns the stored (min, max) pair of each metric |
| AlertManagement.DetermineSeverity | alert_manager.py:87-92 | WARNING iff the value is within 2 of the violated bound, else CRITICAL; never INFO; the critical-threshold argument has no effect |
| AlertManagement.CheckTemperature | alert_manager.py:48-65 | at most one alert; one iff the value is outside [min, max]; below min gives TEMPERATURE_LOW and otherwise above max gives TEMPERATURE_HIGH, with the value, the bound and the severity from the distance |
| AlertManagement.CheckHumidity | alert_manager.py:67-85 | the same for humidity, with HUMIDITY_LOW and HUMIDITY_HIGH |
| AlertManagement.CheckAll | alert_manager.py:94-110 | at most two alerts; none without `metrics`; never INFO or HEALTH_STATUS; temperature alerts come before humidity alerts |
| AlertManagement.CheckAllPartition | alert_manager.py:94-110 | the temperature alerts of the result are exactly the temperature check of a present temperature, and likewise for humidity |
| AlertManagement.CheckAllKinds | alert_manager.py:48-110 | for each of the four kinds, the result has that kind iff the metric is present and crosses that bound |
| AlertManagement.TestCaseTwoCriticalAlerts | test_modules.py:66-85 | 85 °F and 35 % against the server-room bounds give two alerts, a critical TEMPERATURE_HIGH then a critical HUMIDITY_LOW |
| AlertManagement.TestCaseSingleWarning | alert_manager.py:58-63 | 81 °F against a maximum of 80 gives one TEMPERATURE_HIGH warning |
| AlertManagement.ApplyAlerts | alert_manager.py:112-122 | empty alerts leave the document unchanged; otherwise the three fields become lists of the alerts' length whose i-th entries come from the i-th alert; no other field changes |
| AlertManagement.AlertManager.ApplyAlertsToData | alert_manager.py:112-122 | the held document is replaced by its annotated form |
| AlertManagement.ApplyAlertsRoundTrip | alert_manager.py:118-120 | reading the three stored lists back, entry by entry, gives the alerts that were applied |
| AlertManagement.ZipAlertsRoundTrip | alert_manager.py:118-120 | reading back the `Name()` lists of a sequence of alerts yields that same sequence |
| AlertManagement.ValidateThresholds | alert_manager.py:145-161 | at most four warnings in a fixed order; each warning is present iff its condition holds (range of each metric, `min >= max` of each metric) |
| AlertManagement.DefaultsValid | alert_manager.py:9-14 | the server-room bounds raise no warning |
| Documents.SensorReading | sensor_simulator.py:85-101 | a fresh reading has both metrics, the given time, no `_id`, null alert fields, and metadata holding the site's location, building, room, sensor id and sensor type |
| Documents.HealthStatus | sensor_simulator.py:105-117 | the health document has no metrics, scalar HEALTH_STATUS and INFO values and the `health_status` type tag |
| TimeSeries.IndexesAfterSetup | time_series_collection.py:51-81 | after the index step all five required indexes exist; every compatible index remains; nothing else is added; an incompatible index that existed remains iff its drop failed; so indexes on alert fields other than the two dropped key lists are kept |
| TimeSeries.RequiredAvoidAlertFields | time_series_collection.py:66-81 | none of the required indexes is on `alert_type`, `alert_message` or `severity` |
| TimeSeries.SetupRemovesIncompatible | time_series_collection.py:54-64 | when no drop fails, neither of the two dropped key lists, `[("alert_type", 1)]` and `[("severity", 1)]`, remains |
| TimeSeries.SetupIdempotent | time_series_collection.py:51-81 | after a run in which no drop failed, running the index step again changes nothing, whichever drops fail the second time |
| TimeSeries.TimeSeriesCollection.constructor | time_series_collection.py:10-13 | a handle over the given database state, with the collection reference unset |
| TimeSeries.TimeSeriesCollection.Setup | time_series_collection.py:15-49 | success iff the name is listed or creation succeeds or reports that the collection exists; on success the name is listed, the reference is set and the index step has run; on failure the state is unchanged |
| TimeSeries.TimeSeriesCollection.CreateIndexes | time_series_collection.py:51-81 | the loop over the existing indexes drops exactly the incompatible ones whose drop succeeds, then the five indexes are added |
| TimeSeries.TimeSeriesCollection.InsertDocument | time_series_collection.py:93-105 | (None, false) with nothing changed when uninitialised or on a driver error; otherwise a fresh id, the store gains the document under that id, and the id is then found |
| TimeSeries.TimeSeriesCollection.VerifyInsertion | time_series_collection.py:107-118 | true iff initialised, no driver error, and a stored document has that id |
| TimeSeries.TimeSeriesCollection.CleanupOldData | time_series_collection.py:120-140 | exactly the documents with `timestamp >= now - days` remain; the result is the number deleted, that is the number older than the cutoff; 0 and no change when uninitialised or on a driver error |
| TimeSeries.Retained | time_series_collection.py:129-133 | every document left by the `delete_many` is at or after the cutoff |
| TimeSeries.RetainedMembership | time_series_collection.py:129-133 | a document survives iff it is at or after the cutoff |
| TimeSeries.RetainedCount | time_series_collection.py:129-136 | the number removed is the number of documents before the cutoff |
| TimeSeries.RetainedIdempotent | time_series_collection.py:120-136 | a second pass with the same cutoff leaves the same documents and would delete 0 |
| TimeSeries.TimeSeriesCollection.GetCollectionStats | time_series_collection.py:142-169 | None iff uninitialised, empty or on a driver error; otherwise the first record is the least timestamp, the last the greatest, first <= last, and the total is the store size |
| Queries.QueryRecentData | data_analyzer.py:13-41 | results sorted by non-increasing timestamp; each document occurs as often as in the store if it lies in `[now - hours, now]` and matches every non-empty filter, and otherwise not at all |
| Queries.QueryRecentDataMembers | data_analyzer.py:13-37 | a document is returned iff it is stored, in the window and matches the filters |
| Queries.EmptyFilterIgnored | data_analyzer.py:25-30 | empty-string filters impose no condition |
| Queries.GetOptimalPeriods | data_analyzer.py:181-202 | sorted newest first; exactly the in-window documents with null `alert_type`, 63 <= temperature <= 80 and 40 <= humidity <= 60, a band fixed apart from the configured bounds |
| Queries.SearchByMetadata | data_analyzer.py:331-353 | newest first; each result is stored and matches the filters; the results are a sub-multiset of the matching documents, so none is repeated beyond its stored copies; at most `limit` (0 means no limit); as many as match up to the limit; every matching document left out is no newer than every returned one |
| Queries.GetTimeRangeData | data_analyzer.py:355-373 | oldest first; each result lies in `[start, end]`; the results are a sub-multiset of the in-window documents; at most `limit`; as many as match up to the limit; every in-window document left out is no older than every returned one |
| Queries.LimitedSelection | data_analyzer.py:345-346 | a sorted and limited cursor returns a sub-multiset of the selected documents in key order, ranked ahead of every selected one it leaves out |
| Queries.Summarize | data_analyzer.py:224-230 | `$avg`, `$min`, `$max` of a metric are absent iff no value is present; otherwise avg is the mean (sum over number) of the values, min <= avg <= max, and min and max are values that occur and bound every value |
| Queries.GetAggregatedMetrics | data_analyzer.py:204-255 | None iff no document matches the window and filters; otherwise the total is the match count, the alert count is the number of matches with a non-null `alert_type`, 0 < total and alerts <= total, and each metric's summary is `Summarize` of the matches' values of that metric, that is their mean, minimum and maximum |
| Queries.AggregateOf | data_analyzer.py:221-242 | the single group's total is the number of matching documents and its alert count the number of those with a non-null `alert_type`; the temperature and humidity summaries are the mean, minimum and maximum of the matches' values of that metric |
| Queries.AggregateMetricPresence | data_analyzer.py:224-230 | a metric's summary is the mean, minimum and maximum of the matches' values of that metric; it is present iff some match has that metric, and then min <= avg <= max |
| Queries.ValuesPresent | data_analyzer.py:224-230 | some values of a metric exist iff some document has that metric |
| Queries.GetDataQualityMetrics | data_analyzer.py:257-299 | None iff `days == 0` (division by zero); expected = days * 1440; actual = number in the window; missing = expected - actual; the period is `days`; completeness % = actual / expected * 100 and missing % = missing / expected * 100, so they add up to 100; anomalies = 0 |
| Queries.AnomalyAsWrittenNeverHolds | data_analyzer.py:276-282 | no document satisfies the anomaly condition as written |
| Queries.PercentagesComplement | data_analyzer.py:272-291 | the unrounded missing and completeness percentages add up to 100 |
| Queries.GetDataQualityMetricsIntended | data_analyzer.py:276-282 | the same figures with anomalies counting the in-window readings outside 60-85 °F or 35-70 %, never more than the actual readings |
| Queries.AnomalyCounterexample | data_analyzer.py:276-282 | a 90 °F reading in the window: 0 anomalies as written, 1 as intended |
| Trends.ReadingsOf | data_analyzer.py:106-111 | the readings passed on are as many as the in-window documents that have the metric |
| Trends.ReadingsPerHour | data_analyzer.py:106-123 | the values of an hour are as many as the selected documents of that hour |
| Trends.HourKeyBounds | data_analyzer.py:114-119 | a timestamp lies inside the hour its key names |
| Trends.Absorb | data_analyzer.py:120-123 | folding one more value into a bucket that summarizes some values gives the summary of the longer list |
| Trends.Add | data_analyzer.py:113-124 | routing a reading adds exactly its hour to the set of bucket hours |
| Trends.AddAscending | data_analyzer.py:126-128 | adding a reading keeps the buckets strictly ascending by hour |
| Trends.LookupAfterAdd | data_analyzer.py:113-124 | adding a reading changes only the bucket of its hour, which absorbs the value or is opened |
| Trends.GroupByHour | data_analyzer.py:113-128 | the buckets are strictly ascending by hour |
| Trends.GroupLookup | data_analyzer.py:113-124 | there is a bucket for an hour iff the hour has values, and it holds their count, sum, minimum and maximum |
| Trends.HourlyTrends | data_analyzer.py:99-138 | rows strictly ascending by hour; each row's count is the number of its hour's values and is at least 1; avg, min and max are the mean, minimum and maximum of those values |
| Trends.TrendsCover | data_analyzer.py:99-138 | an hour has a row iff some selected document falls in it; min <= avg <= max in every row |
| Trends.TrendsOrdered | data_analyzer.py:120-123 | in every row min <= avg <= max |
| Trends.TrendsTotal | data_analyzer.py:106-124 | the row counts add up to the number of selected documents |
| Trends.TemperatureTrends | data_analyzer.py:99-138 | rows of the last `days` days ascending by hour, each with a count of at least 1 and min <= avg <= max |
| Trends.HumidityTrends | data_analyzer.py:140-179 | the same for humidity |
| Stats.MeanBetween | data_analyzer.py:120-122 | the mean of a non-empty list lies between its minimum and maximum |
| AlertSummary.Push | data_analyzer.py:57-63 | routing a document adds exactly its key to the set of group keys |
| AlertSummary.PushDistinct | data_analyzer.py:57-63 | group keys stay distinct |
| AlertSummary.FindAfterPush | data_analyzer.py:57-63 | pushing changes only the group of the pushed key, which counts one more and pushes the severity last |
| AlertSummary.GroupAll | data_analyzer.py:57-63 | the groups have distinct keys and are no more than the documents |
| AlertSummary.GroupFind | data_analyzer.py:57-63 | there is a group for a key iff some document has it; its count is their number and its severity list is theirs in document order |
| AlertSummary.GroupTotal | data_analyzer.py:57-59 | the group counts add up to the number of matched documents |
| AlertSummary.Project | data_analyzer.py:66-86 | the critical count is the number of pushed values equal to the string CRITICAL, the warning count those equal to WARNING, and together they are at most the group count |
| AlertSummary.GetAlertSummary | data_analyzer.py:43-97 | the rows have distinct non-null stored `alert_type` values of the in-window documents (that every such value has a row is `AlertSummary.AlertSummaryCovers`); each row's count is the number of those documents with that value, its severity list is theirs, the critical and warning counts are the numbers of pushed values equal to CRITICAL and to WARNING, and critical + warning <= count |
| AlertSummary.AlertSummaryCovers | data_analyzer.py:51-63 | every non-null alert type of an in-window document has a row |
| AlertSummary.AlertSummaryTotal | data_analyzer.py:51-63 | the row counts add up to the number of in-window documents with a non-null `alert_type` |
| AlertSummary.SeverityCountCounterexample | data_analyzer.py:70-85 | one critical temperature alert stored as a list: critical count 0 as written, 1 as intended |
| AlertSummary.GetAlertSummaryIntended | data_analyzer.py:70-85 | the same groups; the critical and warning counts are the numbers of CRITICAL and WARNING entries over all pushed values, a list contributing each of its entries and a string itself; together at most the number of entries |
| AlertSummary.AsWrittenCountsZero | data_analyzer.py:70-85 | when every stored severity is a list, null or the string INFO, as the system writes them, every as-written row has critical and warning counts of 0 |
| AlertSummary.EntriesOfStrings | data_analyzer.py:70-85 | where every pushed severity is a single string the intended counts equal the as-written ones |
| Simulation.MaintenanceDue | main_simulation.py:126-127 | maintenance is due on the first run, and never again at or before the time of the last run |
| Simulation.AnnotatedReading | main_simulation.py:84-92 | the inserted reading has the current time, no `_id`, and the generated temperature and humidity |
| Simulation.MaintenanceDueAgain | main_simulation.py:126-127 | after a run at `now`, maintenance is due exactly from `now + 86400` |
| Simulation.AnnotatedReadingAlerts | main_simulation.py:84-92 | the inserted reading carries alert lists iff a bound is crossed; they read back as the threshold check's alerts; otherwise its alert fields stay null |
| Simulation.InBandReadingUnannotated | main_simulation.py:84-92 | under the server-room bounds an in-band reading is inserted unannotated |
| Simulation.Orchestrator.constructor | main_simulation.py:25-41 | default bounds and site, no maintenance yet, and a collection handle over the given database state |
| Simulation.Orchestrator.InitializeSystem | main_simulation.py:43-79 | success iff connected, setup succeeds and the probe passes; when connected, the catalog gains the collection name iff setup succeeds; on success the site is MCW/CBE/ServerRoom/SR001, the bounds are 63/80/40/60, and they raise no warning; on failure site and bounds are unchanged; no document changes |
| Simulation.Orchestrator.RunSimulationCycle | main_simulation.py:81-118 | success iff the insert succeeds, whatever the read-back finds; the store then gains the annotated reading under a fresh id; otherwise the store is unchanged |
| Simulation.Orchestrator.RunHealthMaintenance | main_simulation.py:120-145 | acts iff never run or a day has passed; when it acts, it inserts the health document, applies 30-day retention, and records `now`, and the new health document survives; otherwise nothing changes |

## Left out

- Connecting, pinging and the scratch-collection health probe
  (database_manager.py) are driver I/O. Their outcomes are the `connected`
  and `healthy` parameters of start-up.
- Random value generation in the simulator. The values are parameters, and
  so are the 2-decimal rounding of `round(...)` when values are generated and
  in the data-quality percentages.
- Alert message text and logging. A message is modelled by its content (the
  metric, the value, the bound and the side crossed).
- `export_data_to_json` (file output) and the console reports.
- The main loop `run_simulation`: its sleep, its interrupt handling and
  closing the connection.
- `TimeSeries.IndexesAfterSetup`: only the two exact key lists
  `[("alert_type", 1)]` and `[("severity", 1)]` are dropped, as in the code.
  Other indexes on alert fields, such as a descending or a compound one,
  survive setup.
- `create_index` failures are not modelled; creating an index is set
  insertion. `create_collection` failures are the `CreateOutcome` parameter.
- `TimeSeries.TimeSeriesCollection.InsertDocument`: only an `_id` the store
  assigns is modelled. A caller-supplied `_id` and duplicate-key errors are
  not.
- Floating point: metric values are exact reals, so no rounding error enters
  the averages.
- A metric stored as an explicit null is treated as absent. `$exists: true`
  would match it and count it in `readings_count`.
- `Queries.GetAggregatedMetrics`: a missing `alert_type` is modelled as null.
  The `$ne: ["$alert_type", null]` expression of the alert count would count
  a document lacking the field as alerted. The system always writes the
  field, so its own documents never lack it.
- `AlertSummary.GroupAll`: MongoDB leaves the order of `$group` results
  unspecified; the model returns groups in first-occurrence order.
- `AlertSummary.GetAlertSummary`: a pushed null severity is kept as `Null`.
  Documents with a non-null `alert_type` always carry a severity here, so
  this case does not arise from the system's own documents.
- `Queries.SearchByMetadata`: a negative `limit` is modelled as its absolute
  value.
- `Queries.GetTimeRangeData`: a negative `limit` is modelled as its absolute
  value.
- The analyzer's driver-exception handlers, which return an empty list or
  None, are not modelled. The only exception path modelled there is the
  division by zero in `Queries.GetDataQualityMetrics`.
- `Simulation.Orchestrator.RunHealthMaintenance`: the retention cutoff is
  computed from the same `now` as the maintenance check. The source reads
  the clock a second time a moment later.
- Start-up's own exception handler also catches errors in configuring the
  site and the bounds. Those steps cannot fail in the model.

## Findings

| source | as written | input that shows it | evidently intended | confidence | as-written member | corrected member |
|---|---|---|---|---|---|---|
| data_analyzer.py:276-282 | the anomaly condition puts `$lt: 60` and `$gt: 85` (and `$lt: 35`, `$gt: 70`) on the same field, which no value satisfies, so `anomalies` is always 0 | one reading at 90 °F in the window of a 1-day query | count readings below 60 or above 85 °F, or below 35 or above 70 % | not executed | Queries.AnomalyCounterexample | Queries.GetDataQualityMetricsIntended |
| data_analyzer.py:70-85 | `critical_count` and `warning_count` compare each pushed `severity` value with a string; an alerted reading's severity is a list, so its alerts are never counted | one in-window reading with `alert_type` `["TEMPERATURE_HIGH"]` and `severity` `["CRITICAL"]` | count the CRITICAL and WARNING entries of the pushed lists | not executed | AlertSummary.SeverityCountCounterexample | AlertSummary.GetAlertSummaryIntended |
