/** The shape of a document in the `serverRoomLogs` time-series collection:
    a sensor reading (sensor_simulator.py:85-101), possibly annotated with
    alert lists, or a daily health-status document (sensor_simulator.py:105-117). */
module Documents {
  import opened Common

  const SecondsPerHour := 3600
  const SecondsPerDay := 86400

  /** A field that the store keeps either as null/absent, as one string, or as
      an array of strings. `alert_type` and `severity` hold a list on an
      alerted reading and a single string on a health-status document. */
  datatype Field = Null | Str(text: string) | List(items: seq<string>)

  datatype Metric = Temperature | Humidity

  datatype Metadata = Metadata(
    location: string,
    building: string,
    room: string,
    sensorId: Option<string>,
    sensorType: Option<string>,
    docType: Option<string>)

  /** Each metric may be absent independently. */
  datatype Metrics = Metrics(temperature: Option<real>, humidity: Option<real>)

  /** The content of an alert message: which metric, its value, the bound it
      crossed and on which side. The formatted text itself is not modelled. */
  datatype Message = Below(metric: Metric, value: real, bound: real)
                   | Above(metric: Metric, value: real, bound: real)

  /** One stored document; `id` is the `_id` the driver adds on insertion and
      `timestamp` is in seconds since the epoch. */
  datatype Doc = Doc(
    id: Option<nat>,
    timestamp: int,
    metadata: Metadata,
    metrics: Option<Metrics>,
    alertType: Field,
    alertMessage: Option<seq<Message>>,
    severity: Field,
    status: Option<string>,
    message: Option<string>)

  /** The value of `metrics.<metric>`, or None when the document has no such field. */
  function MetricValue(d: Doc, m: Metric): (r: Option<real>)
    ensures d.metrics.None? ==> r.None?
  {
    match d.metrics
    case None => None
    case Some(ms) => if m == Temperature then ms.temperature else ms.humidity
  }

  /** The sensor configuration a simulator stamps into its documents. */
  datatype Site = Site(location: string, building: string, room: string, sensorId: string, sensorType: string)

  /** The simulator's configuration before it is reconfigured (sensor_simulator.py:11-16). */
  const DefaultSite := Site("MCW Porur SEZ", "B9", "ServerRoom", "SR001", "environmental")

  /** A freshly generated sensor reading: both metrics present, no alerts yet.
      The values themselves come from a random generator and are inputs here. */
  function SensorReading(now: int, site: Site, temperature: real, humidity: real): (d: Doc)
    ensures d.id.None? && d.timestamp == now
    ensures d.metadata == Metadata(site.location, site.building, site.room, Some(site.sensorId), Some(site.sensorType), None)
    ensures MetricValue(d, Temperature) == Some(temperature)
    ensures MetricValue(d, Humidity) == Some(humidity)
    ensures d.alertType.Null? && d.alertMessage.None? && d.severity.Null?
  {
    Doc(None, now,
        Metadata(site.location, site.building, site.room, Some(site.sensorId), Some(site.sensorType), None),
        Some(Metrics(Some(temperature), Some(humidity))),
        Null, None, Null, None, None)
  }

  const HealthMessage := "Server room environment is running within optimal parameters"

  /** The daily health-status document: no metrics, and scalar (not list)
      `alert_type` and `severity` values. */
  function HealthStatus(now: int, site: Site): (d: Doc)
    ensures d.id.None? && d.timestamp == now && d.metrics.None?
    ensures d.alertType == Str("HEALTH_STATUS") && d.severity == Str("INFO")
    ensures d.metadata.sensorId.None? && d.metadata.docType == Some("health_status")
  {
    Doc(None, now,
        Metadata(site.location, site.building, site.room, None, None, Some("health_status")),
        None,
        Str("HEALTH_STATUS"), None, Str("INFO"), Some("OPTIMAL"), Some(HealthMessage))
  }

  /** A document held as a mutable dictionary before it is inserted. */
  class DocumentRecord {
    var doc: Doc

    constructor (d: Doc)
      ensures doc == d
    {
      doc := d;
    }
  }
}
