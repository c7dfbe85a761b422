/** The simulation orchestrator (main_simulation.py): system start-up, one
    ingestion cycle (generate, check thresholds, annotate, insert, verify) and
    the daily maintenance gate (health-status document and retention). The
    clock, the generated metric values, the outcome of connecting and of the
    database health probe, and driver failures are parameters. */
module Simulation {
  import opened Common
  import opened Documents
  import opened AlertManagement
  import opened TimeSeries

  /** Seconds between two maintenance runs (24 hours). */
  const HealthCheckInterval := 24 * 60 * 60
  /** The retention period maintenance applies. */
  const RetentionDays := DefaultRetentionDays

  /** Whether maintenance is due: never run, or last run at least a day ago.
      A first run is always due, and a run is never repeated at or before its
      own time. */
  predicate MaintenanceDue(last: Option<int>, now: int): (due: bool)
    ensures last.None? ==> due
    ensures last.Some? && now <= last.value ==> !due
  {
    last.None? || now - last.value >= HealthCheckInterval
  }

  /** After a run at `now` maintenance is due again exactly from a day later. */
  lemma MaintenanceDueAgain(now: int, later: int)
    ensures MaintenanceDue(Some(now), later) <==> later >= now + 86400
  {
  }

  /** The document one cycle inserts: the reading, annotated with its alerts
      under the current thresholds when there are any. */
  function AnnotatedReading(cfg: Thresholds, now: int, site: Site, temperature: real, humidity: real): (d: Doc)
    ensures d.timestamp == now && d.id.None?
    ensures MetricValue(d, Temperature) == Some(temperature) && MetricValue(d, Humidity) == Some(humidity)
  {
    var reading := SensorReading(now, site, temperature, humidity);
    ApplyAlerts(reading, CheckAll(cfg, reading))
  }

  /** The inserted reading carries alert lists iff some threshold is crossed,
      and then they are the threshold check's alerts in order; otherwise its
      alert fields stay null. */
  lemma AnnotatedReadingAlerts(cfg: Thresholds, now: int, site: Site, temperature: real, humidity: real)
    ensures var d := AnnotatedReading(cfg, now, site, temperature, humidity);
      var alerts := CheckAll(cfg, SensorReading(now, site, temperature, humidity));
      && (d.alertType.List? <==> alerts != [])
      && (alerts == [] ==> d.alertType.Null? && d.severity.Null? && d.alertMessage.None?)
      && (alerts != [] ==> StoredAlerts(d) == Some(alerts))
      && (d.alertType.List? <==>
            || temperature < cfg.tempMin || temperature > cfg.tempMax
            || humidity < cfg.humidityMin || humidity > cfg.humidityMax)
  {
    var reading := SensorReading(now, site, temperature, humidity);
    var alerts := CheckAll(cfg, reading);
    CheckAllKinds(cfg, reading);
    if alerts != [] {
      ApplyAlertsRoundTrip(reading, alerts);
    }
    if temperature < cfg.tempMin || temperature > cfg.tempMax {
      assert HasKind(alerts, TemperatureLow) || HasKind(alerts, TemperatureHigh);
    } else if humidity < cfg.humidityMin || humidity > cfg.humidityMax {
      assert HasKind(alerts, HumidityLow) || HasKind(alerts, HumidityHigh);
    }
  }

  /** With the server-room thresholds an in-band reading raises nothing. */
  lemma InBandReadingUnannotated(now: int, site: Site, temperature: real, humidity: real)
    requires 63.0 <= temperature <= 80.0 && 40.0 <= humidity <= 60.0
    ensures AnnotatedReading(Defaults, now, site, temperature, humidity) == SensorReading(now, site, temperature, humidity)
  {
    AnnotatedReadingAlerts(Defaults, now, site, temperature, humidity);
  }

  class Orchestrator {
    const alerts: AlertManager
    const store: TimeSeriesCollection
    /** The simulator's configuration. */
    var site: Site
    var lastHealthCheck: Option<int>

    ghost predicate Valid()
      reads this, store
    {
      store.Valid()
    }

    /** Fresh components over a database that may already hold the collection. */
    constructor (name: string, catalog: set<string>, stored: seq<Doc>, indexes: set<IndexSpec>)
      requires forall i :: 0 <= i < |stored| ==> stored[i].id.Some?
      ensures Valid() && fresh(alerts) && fresh(store)
      ensures alerts.Config() == Defaults && site == DefaultSite && lastHealthCheck.None?
      ensures store.name == name && store.catalog == catalog && store.docs == stored
      ensures store.indexes == indexes && !store.ready
    {
      alerts := new AlertManager();
      store := new TimeSeriesCollection(name, catalog, stored, indexes);
      site := DefaultSite;
      lastHealthCheck := None;
    }

    /** Connects, sets up the collection (a setup error propagates and fails
        start-up), probes the database, then configures the site and the
        server-room thresholds. Threshold warnings are only logged. */
    method InitializeSystem(connected: bool, outcome: CreateOutcome, dropFails: set<IndexSpec>, healthy: bool) returns (ok: bool)
      requires Valid()
      modifies this, alerts, store
      ensures Valid()
      ensures ok <==> connected && (store.name in old(store.catalog) || outcome != CreateFailed) && healthy
      ensures !connected ==>
        site == old(site) && alerts.Config() == old(alerts.Config())
        && store.ready == old(store.ready) && store.catalog == old(store.catalog) && store.indexes == old(store.indexes)
      ensures connected ==>
        (store.ready <==> old(store.ready) || store.name in old(store.catalog) || outcome != CreateFailed)
        && store.indexes == (if store.name in old(store.catalog) || outcome != CreateFailed
                             then IndexesAfterSetup(old(store.indexes), dropFails) else old(store.indexes))
        && store.catalog == old(store.catalog) + (if store.name in old(store.catalog) || outcome != CreateFailed then {store.name} else {})
      ensures ok ==>
        site == old(site).(location := "MCW", building := "CBE", room := "ServerRoom", sensorId := "SR001")
        && alerts.Config() == Defaults && ValidateThresholds(alerts.Config()) == []
      ensures !ok ==> site == old(site) && alerts.Config() == old(alerts.Config())
      ensures store.docs == old(store.docs) && store.nextId == old(store.nextId) && lastHealthCheck == old(lastHealthCheck)
    {
      if !connected {
        return false;
      }
      var setupOk := store.Setup(outcome, dropFails);
      if !setupOk || !healthy {
        return false;
      }
      site := Site("MCW", "CBE", "ServerRoom", "SR001", site.sensorType);
      alerts.SetThresholds(63.0, 80.0, 40.0, 60.0);
      DefaultsValid();
      var warnings := ValidateThresholds(alerts.Config());
      ok := true;
    }

    /** Reads the sensor, annotates the reading with any alerts, inserts it
        and reads it back. The result is whether the insertion succeeded; a
        failed read-back is only logged. */
    method RunSimulationCycle(now: int, temperature: real, humidity: real, insertFault: bool, verifyFault: bool) returns (success: bool)
      requires Valid()
      modifies store`docs, store`nextId
      ensures Valid()
      ensures success <==> store.ready && !insertFault
      ensures success ==>
        store.docs == old(store.docs) + [AnnotatedReading(alerts.Config(), now, site, temperature, humidity).(id := Some(old(store.nextId)))]
      ensures !success ==> store.docs == old(store.docs)
    {
      var sensorData := new DocumentRecord(SensorReading(now, site, temperature, humidity));
      var found := CheckAll(alerts.Config(), sensorData.doc);
      if found != [] {
        alerts.ApplyAlertsToData(sensorData, found);
      }
      var id;
      id, success := store.InsertDocument(sensorData.doc, insertFault);
      if success {
        var verified := store.VerifyInsertion(id, verifyFault);
      }
    }

    /** When maintenance is due: inserts a health-status document, deletes
        what is older than the retention period and records the time. Neither
        step's failure stops the other or the recording. */
    method RunHealthMaintenance(now: int, insertFault: bool, cleanupFault: bool)
      requires Valid()
      modifies this, store`docs, store`nextId
      ensures Valid()
      ensures !MaintenanceDue(old(lastHealthCheck), now) ==>
        lastHealthCheck == old(lastHealthCheck) && store.docs == old(store.docs) && store.nextId == old(store.nextId)
      ensures MaintenanceDue(old(lastHealthCheck), now) ==>
        var inserted := if store.ready && !insertFault
                        then old(store.docs) + [HealthStatus(now, site).(id := Some(old(store.nextId)))]
                        else old(store.docs);
        && lastHealthCheck == Some(now)
        && store.docs == (if store.ready && !cleanupFault then Retained(inserted, now - RetentionDays * SecondsPerDay) else inserted)
      ensures MaintenanceDue(old(lastHealthCheck), now) && store.ready && !insertFault ==> HasId(store.docs, old(store.nextId))
      ensures site == old(site)
    {
      if MaintenanceDue(lastHealthCheck, now) {
        var health := HealthStatus(now, site);
        var id, inserted := store.InsertDocument(health, insertFault);
        ghost var afterInsert := store.docs;
        var cleaned := store.CleanupOldData(now, RetentionDays, cleanupFault);
        if inserted && !cleanupFault {
          var last := afterInsert[|afterInsert| - 1];
          assert last.id == Some(old(store.nextId)) && last.timestamp == now;
          RetainedMembership(afterInsert, now - RetentionDays * SecondsPerDay, last);
        }
        lastHealthCheck := Some(now);
      }
    }
  }
}
