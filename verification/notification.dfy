/** The persisted Notification record and the request and response objects of
    the creation endpoint. */
module Notifications {
  import opened Common
  import opened Enums

  /** One notification. Data holds the JSON text of the request's Data dictionary. */
  datatype Notification = Notification(
    id: Guid,
    userId: string,
    channel: Channel,
    template: string,
    data: string,
    status: Status,
    createdAt: Instant,
    sentAt: Option<Instant>,
    errorMessage: Option<string>,
    retryCount: Int32,
    idempotencyKey: Option<string>)

  /** The state of a record nobody has attempted to deliver yet. */
  predicate Unattempted(n: Notification) {
    n.status == Pending && n.retryCount == 0 && n.sentAt.None? && n.errorMessage.None?
  }

  /** The fields fixed at creation: everything but Status, SentAt,
      ErrorMessage and RetryCount. */
  predicate SameIdentity(n: Notification, n': Notification) {
    && n'.id == n.id && n'.userId == n.userId && n'.channel == n.channel
    && n'.template == n.template && n'.data == n.data && n'.createdAt == n.createdAt
    && n'.idempotencyKey == n.idempotencyKey
  }

  /** new Notification { UserId, Channel, Template, Data, IdempotencyKey }: the
      Id comes from Guid.NewGuid and CreatedAt from the clock, both passed in. */
  function NewNotification(
    id: Guid, createdAt: Instant, userId: string, channel: Channel,
    template: string, data: string, idempotencyKey: Option<string>): (n: Notification)
    ensures Unattempted(n)
    ensures n.id == id && n.createdAt == createdAt && n.userId == userId && n.channel == channel
    ensures n.template == template && n.data == data && n.idempotencyKey == idempotencyKey
  {
    Notification(id, userId, channel, template, data, Pending, createdAt, None, None, 0, idempotencyKey)
  }

  /** The creation request as the HTTP layer binds it. The string properties are
      nullable references; Data is given as its JSON text. */
  datatype CreateNotificationRequest = CreateNotificationRequest(
    userId: Option<string>,
    channel: Option<string>,
    template: Option<string>,
    data: string,
    idempotencyKey: Option<string>)

  /** A request whose body sets nothing: the three strings are empty, Data is an
      empty dictionary and there is no idempotency key. */
  const OmittedFieldsRequest: CreateNotificationRequest :=
    CreateNotificationRequest(Some(""), Some(""), Some(""), "{}", None)

  predicate AtMost(s: Option<string>, bound: nat) {
    s.None? || |s.value| <= bound
  }

  /** The StringLength limits the HTTP layer enforces before the service runs. */
  predicate WithinLengthLimits(r: CreateNotificationRequest) {
    AtMost(r.userId, 100) && AtMost(r.channel, 20) && AtMost(r.template, 100) && AtMost(r.idempotencyKey, 100)
  }

  /** What the API returns for a record: channel and status as member names. */
  datatype NotificationResponse = NotificationResponse(
    id: Guid,
    userId: string,
    channel: string,
    template: string,
    status: string,
    createdAt: Instant,
    sentAt: Option<Instant>,
    errorMessage: Option<string>,
    retryCount: Int32)

  /** The response for a record. The channel and status texts read back as the
      record's own channel and status; the other fields are copies. */
  function MapToResponse(n: Notification): (r: NotificationResponse)
    ensures WellFormed(n.channel) ==> ParseChannel(r.channel) == Some(n.channel)
    ensures forall s: Status :: r.status == StatusName(s) <==> s == n.status
    ensures r.id == n.id && r.userId == n.userId && r.template == n.template && r.createdAt == n.createdAt
    ensures r.sentAt == n.sentAt && r.errorMessage == n.errorMessage && r.retryCount == n.retryCount
  {
    assert WellFormed(n.channel) ==> ParseChannel(ChannelName(n.channel)) == Some(n.channel) by {
      if WellFormed(n.channel) { ParseChannelName(n.channel); }
    }
    assert forall s: Status :: StatusName(n.status) == StatusName(s) <==> s == n.status by {
      forall s: Status ensures StatusName(n.status) == StatusName(s) <==> s == n.status {
        StatusNameInjective(s, n.status);
      }
    }
    NotificationResponse(
      n.id, n.userId, ChannelName(n.channel), n.template, StatusName(n.status),
      n.createdAt, n.sentAt, n.errorMessage, n.retryCount)
  }
}
