/** Configuration of the Kafka integration, the event that travels on its
    topics, and how a message body reads back as an event. */
module KafkaConfig {
  import opened Common

  datatype KafkaTopics = KafkaTopics(
    notificationEvents: string,
    notificationRetries: string,
    notificationDlq: string)

  datatype KafkaSettings = KafkaSettings(
    bootstrapServers: Option<string>,
    topics: KafkaTopics,
    groupId: string,
    retryAttempts: Int32,
    retryDelayMs: Int32)

  const DefaultTopics: KafkaTopics :=
    KafkaTopics("notification-events", "notification-retries", "notification-dlq")

  /** The settings when configuration binds nothing over the initialisers. */
  const DefaultSettings: KafkaSettings :=
    KafkaSettings(Some("localhost:9092"), DefaultTopics, "notification-service", 3, 1000)

  /** The three topics are pairwise distinct. */
  predicate DistinctTopics(t: KafkaTopics) {
    && t.notificationEvents != t.notificationRetries
    && t.notificationEvents != t.notificationDlq
    && t.notificationRetries != t.notificationDlq
  }

  /** Startup registers the producer and the consumer exactly when
      BootstrapServers is neither null nor empty; otherwise the service runs
      without a producer (synchronous mode). */
  function ProducerFor(settings: KafkaSettings): (producer: Option<KafkaSettings>)
    ensures producer.Some? <==> !IsNullOrEmpty(settings.bootstrapServers)
    ensures producer.Some? ==> producer.value == settings
  {
    if IsNullOrEmpty(settings.bootstrapServers) then None else Some(settings)
  }

  /** The defaults: three attempts, a one-second base delay, three distinct
      topics and a non-empty bootstrap address, hence asynchronous mode. */
  lemma DefaultSettingsAsDeclared()
    ensures DefaultSettings.retryAttempts == 3 && DefaultSettings.retryDelayMs == 1000
    ensures DistinctTopics(DefaultSettings.topics)
    ensures ProducerFor(DefaultSettings) == Some(DefaultSettings)
  {
  }

  /** The message the service puts on its topics. */
  datatype NotificationEvent = NotificationEvent(
    notificationId: Guid,
    eventType: string,
    timestamp: Instant,
    attemptNumber: Int32,
    correlationId: Option<string>)

  /** An object initialiser that sets every property but AttemptNumber, which
      keeps its initial value. */
  function NewEvent(id: Guid, eventType: string, timestamp: Instant, correlationId: Option<string>): (e: NotificationEvent)
    ensures e.attemptNumber == 1
    ensures e.notificationId == id && e.eventType == eventType
    ensures e.timestamp == timestamp && e.correlationId == correlationId
  {
    NotificationEvent(id, eventType, timestamp, 1, correlationId)
  }

  /** A message value as JsonSerializer.Deserialize<NotificationEvent> meets it:
      a null value (a Kafka message may carry none), text that is not JSON of
      the right shape, the JSON literal null, or an event. */
  datatype Payload = NullValue | Malformed(reason: string) | NullLiteral | Event(event: NotificationEvent)
}
