/** The Kafka producer, seen as an outbox: each topic holds the sequence of
    messages produced to it, and a produce call either appends one message or
    throws and appends nothing. */
module Producer {
  import opened Common
  import opened KafkaConfig

  /** A produced record: a random key, the JSON body, and the produce time. */
  datatype Message = Message(key: string, value: Payload, timestamp: Instant)

  type Log = map<string, seq<Message>>

  /** The messages on topic t, oldest first. */
  function Topic(log: Log, t: string): seq<Message> {
    if t in log then log[t] else []
  }

  /** log' is log with m appended to topic t and every other topic as it was. */
  ghost predicate Appended(log: Log, log': Log, t: string, m: Message) {
    && Topic(log', t) == Topic(log, t) + [m]
    && forall t' | t' != t :: Topic(log', t') == Topic(log, t')
  }

  /** What the broker does with a send: acknowledges it, or the body cannot be
      serialised, or the send fails (ProduceException). */
  datatype Transport = Acknowledged | SerializationFails(reason: string) | DeliveryFails(reason: string)

  /** ProduceAsync(topic, message). The Guid.NewGuid() message key and the
      clock are passed in as key and now. */
  function ProduceAsync(
    log: Log, topic: Option<string>, message: Option<NotificationEvent>,
    key: string, now: Instant, transport: Transport): (r: (Log, Outcome<Error>))
    ensures r.1.Fail? ==> r.0 == log
    ensures IsNullOrEmpty(topic) ==> r.1 == Fail(Argument("Topic cannot be null or empty", Some("topic")))
    ensures !IsNullOrEmpty(topic) && message.None? ==> r.1 == Fail(ArgumentNull("message"))
    ensures r.1.Pass? <==> !IsNullOrEmpty(topic) && message.Some? && transport.Acknowledged?
    ensures r.1.Pass? ==> Appended(log, r.0, topic.value, Message(key, Event(message.value), now))
    ensures !IsNullOrEmpty(topic) && message.Some? && transport.DeliveryFails? ==>
              r.1 == Fail(InvalidOperation("Failed to produce message to topic " + topic.value))
    ensures !IsNullOrEmpty(topic) && message.Some? && transport.SerializationFails? ==>
              r.1 == Fail(InvalidOperation("Failed to serialize message for topic " + topic.value))
  {
    if IsNullOrEmpty(topic) then (log, Fail(Argument("Topic cannot be null or empty", Some("topic"))))
    else if message.None? then (log, Fail(ArgumentNull("message")))
    else
      var t := topic.value;
      match transport
      case SerializationFails(_) => (log, Fail(InvalidOperation("Failed to serialize message for topic " + t)))
      case DeliveryFails(_) => (log, Fail(InvalidOperation("Failed to produce message to topic " + t)))
      case Acknowledged =>
        (log[t := Topic(log, t) + [Message(key, Event(message.value), now)]], Pass)
  }

  /** ProduceNotificationEventAsync: always the events topic of the settings. */
  function ProduceNotificationEvent(
    settings: KafkaSettings, log: Log, event: NotificationEvent,
    key: string, now: Instant, transport: Transport): (r: (Log, Outcome<Error>))
    ensures r.1.Fail? ==> r.0 == log
    ensures r.1.Pass? <==> settings.topics.notificationEvents != "" && transport.Acknowledged?
    ensures r.1.Pass? ==> Appended(log, r.0, settings.topics.notificationEvents, Message(key, Event(event), now))
  {
    ProduceAsync(log, Some(settings.topics.notificationEvents), Some(event), key, now, transport)
  }
}
