/** Threshold monitoring and alert generation (alert_manager.py).
    The evaluation itself is pure: it depends only on the reading and on the
    four configured bounds, which are passed in as a `Thresholds` value. The
    `AlertManager` class holds the bounds that `set_thresholds` overwrites. */
module AlertManagement {
  import opened Common
  import opened Documents

  datatype AlertKind = TemperatureLow | TemperatureHigh | HumidityLow | HumidityHigh | HealthStatusAlert
  {
    /** The string stored in `alert_type`. */
    function Name(): string
    {
      match this
      case TemperatureLow => "TEMPERATURE_LOW"
      case TemperatureHigh => "TEMPERATURE_HIGH"
      case HumidityLow => "HUMIDITY_LOW"
      case HumidityHigh => "HUMIDITY_HIGH"
      case HealthStatusAlert => "HEALTH_STATUS"
    }

    predicate OnTemperature() { this == TemperatureLow || this == TemperatureHigh }

    predicate OnHumidity() { this == HumidityLow || this == HumidityHigh }
  }

  datatype Severity = Warning | Critical | Info
  {
    /** The string stored in `severity`. */
    function Name(): string
    {
      match this
      case Warning => "WARNING"
      case Critical => "CRITICAL"
      case Info => "INFO"
    }
  }

  datatype Alert = Alert(kind: AlertKind, message: Message, severity: Severity)

  datatype Thresholds = Thresholds(tempMin: real, tempMax: real, humidityMin: real, humidityMax: real)

  /** The server-room bounds a new manager starts with (°F and %). */
  const Defaults := Thresholds(63.0, 80.0, 40.0, 60.0)

  function Distance(a: real, b: real): real
  {
    if a >= b then a - b else b - a
  }

  /** A violation within 2 units of the crossed bound is a warning, anything
      farther is critical; the third argument plays no part. */
  function DetermineSeverity(value: real, threshold: real, criticalThreshold: real): (s: Severity)
    ensures s != Info
    ensures s == Warning <==> Distance(value, threshold) <= 2.0
  {
    if Distance(value, threshold) <= 2.0 then Warning else Critical
  }

  /** At most one alert, LOW taking precedence over HIGH even when the bounds
      are inverted; bounds are inclusive. */
  function CheckTemperature(cfg: Thresholds, temperature: real): (r: seq<Alert>)
    ensures |r| <= 1
    ensures |r| == 1 <==> temperature < cfg.tempMin || temperature > cfg.tempMax
    ensures temperature < cfg.tempMin ==>
      |r| == 1 && r[0].kind == TemperatureLow && r[0].message == Below(Temperature, temperature, cfg.tempMin)
      && (r[0].severity == Warning <==> cfg.tempMin - temperature <= 2.0)
      && (r[0].severity == Critical <==> cfg.tempMin - temperature > 2.0)
    ensures cfg.tempMin <= temperature && cfg.tempMax < temperature ==>
      |r| == 1 && r[0].kind == TemperatureHigh && r[0].message == Above(Temperature, temperature, cfg.tempMax)
      && (r[0].severity == Warning <==> temperature - cfg.tempMax <= 2.0)
      && (r[0].severity == Critical <==> temperature - cfg.tempMax > 2.0)
  {
    if temperature < cfg.tempMin then
      [Alert(TemperatureLow, Below(Temperature, temperature, cfg.tempMin),
             DetermineSeverity(temperature, cfg.tempMin, cfg.tempMin - 5.0))]
    else if temperature > cfg.tempMax then
      [Alert(TemperatureHigh, Above(Temperature, temperature, cfg.tempMax),
             DetermineSeverity(temperature, cfg.tempMax, cfg.tempMax + 5.0))]
    else []
  }

  /** The same rule for humidity against its own pair of bounds. */
  function CheckHumidity(cfg: Thresholds, humidity: real): (r: seq<Alert>)
    ensures |r| <= 1
    ensures |r| == 1 <==> humidity < cfg.humidityMin || humidity > cfg.humidityMax
    ensures humidity < cfg.humidityMin ==>
      |r| == 1 && r[0].kind == HumidityLow && r[0].message == Below(Humidity, humidity, cfg.humidityMin)
      && (r[0].severity == Warning <==> cfg.humidityMin - humidity <= 2.0)
      && (r[0].severity == Critical <==> cfg.humidityMin - humidity > 2.0)
    ensures cfg.humidityMin <= humidity && cfg.humidityMax < humidity ==>
      |r| == 1 && r[0].kind == HumidityHigh && r[0].message == Above(Humidity, humidity, cfg.humidityMax)
      && (r[0].severity == Warning <==> humidity - cfg.humidityMax <= 2.0)
      && (r[0].severity == Critical <==> humidity - cfg.humidityMax > 2.0)
  {
    if humidity < cfg.humidityMin then
      [Alert(HumidityLow, Below(Humidity, humidity, cfg.humidityMin),
             DetermineSeverity(humidity, cfg.humidityMin, cfg.humidityMin - 5.0))]
    else if humidity > cfg.humidityMax then
      [Alert(HumidityHigh, Above(Humidity, humidity, cfg.humidityMax),
             DetermineSeverity(humidity, cfg.humidityMax, cfg.humidityMax + 5.0))]
    else []
  }

  /** The alerts a metric contributes: none when the metric is missing. */
  function TemperatureAlerts(cfg: Thresholds, d: Doc): seq<Alert>
  {
    match MetricValue(d, Temperature)
    case None => []
    case Some(t) => CheckTemperature(cfg, t)
  }

  function HumidityAlerts(cfg: Thresholds, d: Doc): seq<Alert>
  {
    match MetricValue(d, Humidity)
    case None => []
    case Some(h) => CheckHumidity(cfg, h)
  }

  predicate IsTemperatureAlert(a: Alert) { a.kind.OnTemperature() }

  predicate IsHumidityAlert(a: Alert) { a.kind.OnHumidity() }

  predicate HasKind(alerts: seq<Alert>, k: AlertKind)
  {
    exists i :: 0 <= i < |alerts| && alerts[i].kind == k
  }

  predicate ValueBelow(v: Option<real>, bound: real) { v.Some? && v.value < bound }

  predicate ValueAbove(v: Option<real>, bound: real) { v.Some? && v.value > bound }

  /** All threshold alerts of a document: its temperature alerts, then its
      humidity alerts. */
  function CheckAll(cfg: Thresholds, d: Doc): (r: seq<Alert>)
    ensures |r| <= 2
    ensures d.metrics.None? ==> r == []
    ensures forall i :: 0 <= i < |r| ==> r[i].severity != Info && !r[i].kind.HealthStatusAlert?
    ensures forall i, j :: 0 <= i < j < |r| ==> !(r[i].kind.OnHumidity() && r[j].kind.OnTemperature())
  {
    TemperatureAlerts(cfg, d) + HumidityAlerts(cfg, d)
  }

  /** The temperature alerts of a document are exactly those its temperature
      yields, and likewise for humidity. */
  lemma CheckAllPartition(cfg: Thresholds, d: Doc)
    ensures Filter(CheckAll(cfg, d), IsTemperatureAlert) == TemperatureAlerts(cfg, d)
    ensures Filter(CheckAll(cfg, d), IsHumidityAlert) == HumidityAlerts(cfg, d)
  {
    var t, h := TemperatureAlerts(cfg, d), HumidityAlerts(cfg, d);
    assert CheckAll(cfg, d) == t + h;
    FilterAppend(t, h, IsTemperatureAlert);
    FilterAppend(t, h, IsHumidityAlert);
    FilterAll(t, IsTemperatureAlert);
    FilterNone(h, IsTemperatureAlert);
    FilterNone(t, IsHumidityAlert);
    FilterAll(h, IsHumidityAlert);
  }

  /** Which alert kinds a document receives, stated on the metric values. */
  lemma CheckAllKinds(cfg: Thresholds, d: Doc)
    ensures HasKind(CheckAll(cfg, d), TemperatureLow) <==> ValueBelow(MetricValue(d, Temperature), cfg.tempMin)
    ensures HasKind(CheckAll(cfg, d), TemperatureHigh) <==>
      MetricValue(d, Temperature).Some? && !ValueBelow(MetricValue(d, Temperature), cfg.tempMin)
      && ValueAbove(MetricValue(d, Temperature), cfg.tempMax)
    ensures HasKind(CheckAll(cfg, d), HumidityLow) <==> ValueBelow(MetricValue(d, Humidity), cfg.humidityMin)
    ensures HasKind(CheckAll(cfg, d), HumidityHigh) <==>
      MetricValue(d, Humidity).Some? && !ValueBelow(MetricValue(d, Humidity), cfg.humidityMin)
      && ValueAbove(MetricValue(d, Humidity), cfg.humidityMax)
  {
    var t, h := TemperatureAlerts(cfg, d), HumidityAlerts(cfg, d);
    var r := CheckAll(cfg, d);
    assert r == t + h;
    forall k: AlertKind | k.OnTemperature() ensures HasKind(r, k) <==> HasKind(t, k) {
      if HasKind(r, k) {
        var i :| 0 <= i < |r| && r[i].kind == k;
      }
      if HasKind(t, k) { var i :| 0 <= i < |t| && t[i].kind == k; assert r[i] == t[i]; }
    }
    forall k: AlertKind | k.OnHumidity() ensures HasKind(r, k) <==> HasKind(h, k) {
      if HasKind(r, k) {
        var i :| 0 <= i < |r| && r[i].kind == k;
        assert h[i - |t|] == r[i];
      }
      if HasKind(h, k) { var i :| 0 <= i < |h| && h[i].kind == k; assert r[|t| + i] == h[i]; }
    }
  }

  /** The reading of the alert-manager test: 85°F and 35% against the default
      bounds give a critical TEMPERATURE_HIGH followed by a critical HUMIDITY_LOW. */
  lemma TestCaseTwoCriticalAlerts(d: Doc)
    requires MetricValue(d, Temperature) == Some(85.0) && MetricValue(d, Humidity) == Some(35.0)
    ensures CheckAll(Defaults, d) ==
      [Alert(TemperatureHigh, Above(Temperature, 85.0, 80.0), Critical),
       Alert(HumidityLow, Below(Humidity, 35.0, 40.0), Critical)]
  {
  }

  /** One degree above the default maximum is a warning, not a critical alert. */
  lemma TestCaseSingleWarning(d: Doc)
    requires MetricValue(d, Temperature) == Some(81.0) && MetricValue(d, Humidity).None?
    ensures CheckAll(Defaults, d) == [Alert(TemperatureHigh, Above(Temperature, 81.0, 80.0), Warning)]
  {
  }

  /** Annotates a reading with its alerts as three index-aligned lists; no other
      field is touched, and an empty alert list leaves the document as it is. */
  function ApplyAlerts(d: Doc, alerts: seq<Alert>): (r: Doc)
    ensures alerts == [] ==> r == d
    ensures alerts != [] ==>
      r.alertType.List? && |r.alertType.items| == |alerts|
      && r.alertMessage.Some? && |r.alertMessage.value| == |alerts|
      && r.severity.List? && |r.severity.items| == |alerts|
      && forall i :: 0 <= i < |alerts| ==>
           r.alertType.items[i] == alerts[i].kind.Name()
           && r.alertMessage.value[i] == alerts[i].message
           && r.severity.items[i] == alerts[i].severity.Name()
    ensures r.(alertType := d.alertType, alertMessage := d.alertMessage, severity := d.severity) == d
  {
    if alerts == [] then d
    else
      d.(alertType := List(seq(|alerts|, i requires 0 <= i < |alerts| => alerts[i].kind.Name())),
         alertMessage := Some(seq(|alerts|, i requires 0 <= i < |alerts| => alerts[i].message)),
         severity := List(seq(|alerts|, i requires 0 <= i < |alerts| => alerts[i].severity.Name())))
  }

  function ParseKind(s: string): (r: Option<AlertKind>)
    ensures r.Some? ==> r.value.Name() == s
  {
    if s == "TEMPERATURE_LOW" then Some(TemperatureLow)
    else if s == "TEMPERATURE_HIGH" then Some(TemperatureHigh)
    else if s == "HUMIDITY_LOW" then Some(HumidityLow)
    else if s == "HUMIDITY_HIGH" then Some(HumidityHigh)
    else if s == "HEALTH_STATUS" then Some(HealthStatusAlert)
    else None
  }

  function ParseSeverity(s: string): (r: Option<Severity>)
    ensures r.Some? ==> r.value.Name() == s
  {
    if s == "WARNING" then Some(Warning)
    else if s == "CRITICAL" then Some(Critical)
    else if s == "INFO" then Some(Info)
    else None
  }

  /** Reads the alerts back out of the three stored lists, entry by entry. */
  function ZipAlerts(types: seq<string>, messages: seq<Message>, severities: seq<string>): Option<seq<Alert>>
    requires |types| == |messages| == |severities|
  {
    if types == [] then Some([])
    else
      match (ParseKind(types[0]), ParseSeverity(severities[0]), ZipAlerts(types[1..], messages[1..], severities[1..]))
      case (Some(k), Some(s), Some(rest)) => Some([Alert(k, messages[0], s)] + rest)
      case _ => None
  }

  /** The alerts recorded in a stored document, if it carries aligned alert lists. */
  function StoredAlerts(d: Doc): Option<seq<Alert>>
  {
    if d.alertType.List? && d.alertMessage.Some? && d.severity.List?
       && |d.alertType.items| == |d.alertMessage.value| == |d.severity.items|
    then ZipAlerts(d.alertType.items, d.alertMessage.value, d.severity.items)
    else None
  }

  lemma {:induction false} ZipAlertsRoundTrip(alerts: seq<Alert>, types: seq<string>, messages: seq<Message>, severities: seq<string>)
    requires |types| == |messages| == |severities| == |alerts|
    requires forall i :: 0 <= i < |alerts| ==>
      types[i] == alerts[i].kind.Name() && messages[i] == alerts[i].message && severities[i] == alerts[i].severity.Name()
    ensures ZipAlerts(types, messages, severities) == Some(alerts)
  {
    if alerts != [] {
      ZipAlertsRoundTrip(alerts[1..], types[1..], messages[1..], severities[1..]);
      var a := alerts[0];
      assert ParseKind(a.kind.Name()) == Some(a.kind) by { match a.kind { case _ => } }
      assert ParseSeverity(a.severity.Name()) == Some(a.severity) by { match a.severity { case _ => } }
      assert alerts == [a] + alerts[1..];
    }
  }

  /** The annotation loses nothing: the alerts can be read back from the document. */
  lemma ApplyAlertsRoundTrip(d: Doc, alerts: seq<Alert>)
    requires alerts != []
    ensures StoredAlerts(ApplyAlerts(d, alerts)) == Some(alerts)
  {
    var r := ApplyAlerts(d, alerts);
    ZipAlertsRoundTrip(alerts, r.alertType.items, r.alertMessage.value, r.severity.items);
  }

  datatype ThresholdWarning = TemperatureOutOfRange | HumidityOutOfRange | TemperatureInverted | HumidityInverted
  {
    function Text(): string
    {
      match this
      case TemperatureOutOfRange => "Temperature thresholds are outside recommended range (50°F - 100°F)"
      case HumidityOutOfRange => "Humidity thresholds are outside recommended range (20% - 80%)"
      case TemperatureInverted => "Temperature minimum must be less than maximum"
      case HumidityInverted => "Humidity minimum must be less than maximum"
    }

    /** Position in the fixed order in which the checks run. */
    function Rank(): nat
    {
      match this
      case TemperatureOutOfRange => 0
      case HumidityOutOfRange => 1
      case TemperatureInverted => 2
      case HumidityInverted => 3
    }
  }

  /** Soft validation: a list of warnings, never a rejection. */
  function ValidateThresholds(cfg: Thresholds): (w: seq<ThresholdWarning>)
    ensures |w| <= 4
    ensures forall i, j :: 0 <= i < j < |w| ==> w[i].Rank() < w[j].Rank()
    ensures TemperatureOutOfRange in w <==> cfg.tempMin < 50.0 || cfg.tempMax > 100.0
    ensures HumidityOutOfRange in w <==> cfg.humidityMin < 20.0 || cfg.humidityMax > 80.0
    ensures TemperatureInverted in w <==> cfg.tempMin >= cfg.tempMax
    ensures HumidityInverted in w <==> cfg.humidityMin >= cfg.humidityMax
  {
    (if cfg.tempMin < 50.0 || cfg.tempMax > 100.0 then [TemperatureOutOfRange] else [])
    + (if cfg.humidityMin < 20.0 || cfg.humidityMax > 80.0 then [HumidityOutOfRange] else [])
    + (if cfg.tempMin >= cfg.tempMax then [TemperatureInverted] else [])
    + (if cfg.humidityMin >= cfg.humidityMax then [HumidityInverted] else [])
  }

  /** The default bounds raise no warning. */
  lemma DefaultsValid()
    ensures ValidateThresholds(Defaults) == []
  {
  }

  /** The process-wide threshold configuration. */
  class AlertManager {
    var tempMin: real
    var tempMax: real
    var humidityMin: real
    var humidityMax: real

    function Config(): Thresholds
      reads this
    {
      Thresholds(tempMin, tempMax, humidityMin, humidityMax)
    }

    constructor ()
      ensures Config() == Defaults
    {
      tempMin, tempMax := 63.0, 80.0;
      humidityMin, humidityMax := 40.0, 60.0;
    }

    /** Stores the four bounds as given, inverted or not. */
    method SetThresholds(tempMin: real, tempMax: real, humidityMin: real, humidityMax: real)
      modifies this
      ensures Config() == Thresholds(tempMin, tempMax, humidityMin, humidityMax)
    {
      this.tempMin, this.tempMax := tempMin, tempMax;
      this.humidityMin, this.humidityMax := humidityMin, humidityMax;
    }

    /** The configured bounds as (min, max) pairs per metric. */
    method GetThresholds() returns (temperature: (real, real), humidity: (real, real))
      ensures temperature == (Config().tempMin, Config().tempMax)
      ensures humidity == (Config().humidityMin, Config().humidityMax)
    {
      temperature := (tempMin, tempMax);
      humidity := (humidityMin, humidityMax);
    }

    /** Writes the alert lists into the document in place. */
    method ApplyAlertsToData(data: DocumentRecord, alerts: seq<Alert>)
      modifies data
      ensures data.doc == ApplyAlerts(old(data.doc), alerts)
    {
      data.doc := ApplyAlerts(data.doc, alerts);
    }
  }
}
