/** The telemetry events of one SMTP connection (smtp_proxy.go). */
module SmtpEvent {
  import opened Bytes
  import opened Fingerprint
  import opened SmtpBehavior

  const EVENT_VERSION := 1

  /** The type of an event, decoded. */
  datatype Kind = StartEvent | FingerprintEvent | StarttlsEvent | EndEvent | OtherEvent(name: string)

  /** An event; an empty string and an absent value stand for an omitted field. */
  datatype Event = Event(
    version: int,
    kind: Kind,
    timestamp: Option<int>,
    instance: string,
    connectionId: string,
    client: string,
    listener: string,
    backend: string,
    ja3: string,
    ja4: Option<JA4>,
    error: string,
    state: string,
    behavior: Option<Behavior>)

  /** What the event writer adds to every event. */
  function Stamp(e: Event, instance: string): Event {
    e.(version := EVENT_VERSION, instance := instance)
  }
}
