/** NotificationService: the acceptance path (validation, the idempotency-key
    guard, the insert and its conflict recovery, then either one event or
    inline processing) and the per-attempt delivery transition. */
module Service {
  import opened Common
  import opened Enums
  import opened Notifications
  import opened Repository
  import opened KafkaConfig
  import opened Producer

  // ---------------------------------------------------------------------------
  // One delivery attempt

  /** The exception text for a channel value without a send branch. */
  function UnsupportedChannelMessage(c: Channel): string {
    "Channel " + ChannelName(c) + " is not supported"
  }

  /** ProcessByChannel: reads Data back as a JSON dictionary (dataError is the
      JsonException message when that fails), then sends through the branch for
      the channel. The three declared channels have a branch and never throw;
      any other value throws NotSupportedException. */
  function SendByChannel(n: Notification, dataError: Option<string>): (r: Outcome<Error>)
    ensures r.Pass? <==> dataError.None? && IsDeclared(n.channel)
    ensures dataError.Some? ==> r == Fail(Json(dataError.value))
    ensures dataError.None? && !IsDeclared(n.channel) ==>
              r == Fail(NotSupported(UnsupportedChannelMessage(n.channel)))
  {
    if dataError.Some? then Fail(Json(dataError.value))
    else match n.channel
      case Email => Pass
      case SMS => Pass
      case Push => Pass
      case Undeclared(_) => Fail(NotSupported(UnsupportedChannelMessage(n.channel)))
  }

  /** Whether an attempt on a channel succeeds. */
  predicate Succeeds(c: Channel, dataError: Option<string>) {
    dataError.None? && IsDeclared(c)
  }

  /** The record one attempt writes back. Success sets Status and SentAt and
      keeps ErrorMessage; failure sets Status and ErrorMessage, adds one to
      RetryCount (a C# int) and keeps SentAt. Nothing else changes. */
  function AttemptDelivery(n: Notification, now: Instant, dataError: Option<string>): (n': Notification)
    ensures SameIdentity(n, n')
    ensures n'.status == Sent <==> Succeeds(n.channel, dataError)
    ensures n'.status == Sent || n'.status == Failed
    ensures n'.status == Sent ==>
              n'.sentAt == Some(now) && n'.retryCount == n.retryCount && n'.errorMessage == n.errorMessage
    ensures n'.status == Failed ==>
              && n'.sentAt == n.sentAt
              && n'.errorMessage == Some(SendByChannel(n, dataError).error.Message())
              && n'.retryCount == Wrap32(n.retryCount + 1)
  {
    match SendByChannel(n, dataError)
    case Pass => n.(status := Sent, sentAt := Some(now))
    case Fail(e) => n.(status := Failed, errorMessage := Some(e.Message()), retryCount := Wrap32(n.retryCount + 1))
  }

  /** A failure on a record below Int32.MaxValue adds exactly one to RetryCount;
      at Int32.MaxValue the unchecked increment wraps to Int32.MinValue. */
  lemma FailureIncrementsRetryCount(n: Notification, now: Instant, dataError: Option<string>)
    requires !Succeeds(n.channel, dataError)
    ensures n.retryCount < MaxInt32 ==> AttemptDelivery(n, now, dataError).retryCount == n.retryCount + 1
    ensures n.retryCount == MaxInt32 ==> AttemptDelivery(n, now, dataError).retryCount == MinInt32
  {
  }

  /** A record that was Sent and is delivered again is sent again: a success
      overwrites SentAt, and a failure leaves it Failed with the old SentAt, so
      a non-null SentAt does not imply Status Sent. */
  lemma RedeliveryOfSentRecord(n: Notification, now: Instant, dataError: Option<string>)
    requires n.status == Sent && n.sentAt.Some?
    ensures Succeeds(n.channel, dataError) ==> AttemptDelivery(n, now, dataError).sentAt == Some(now)
    ensures !Succeeds(n.channel, dataError) ==>
              var n' := AttemptDelivery(n, now, dataError);
              n'.status == Failed && n'.sentAt == n.sentAt
  {
  }

  // ---------------------------------------------------------------------------
  // A history of attempts, against an independent account of what it leaves behind

  datatype AttemptInput = AttemptInput(now: Instant, dataError: Option<string>)

  /** The record after the given attempts, in order. */
  function Replay(n: Notification, inputs: seq<AttemptInput>): Notification
    decreases |inputs|
  {
    if inputs == [] then n
    else
      var last := inputs[|inputs| - 1];
      AttemptDelivery(Replay(n, inputs[..|inputs| - 1]), last.now, last.dataError)
  }

  /** How many of the attempts fail on channel c. */
  function Failures(c: Channel, inputs: seq<AttemptInput>): (k: nat)
    ensures k <= |inputs|
  {
    if inputs == [] then 0
    else
      var last := inputs[|inputs| - 1];
      Failures(c, inputs[..|inputs| - 1]) + (if Succeeds(c, last.dataError) then 0 else 1)
  }

  /** The time of the latest successful attempt, or the given initial value. */
  function LatestSuccess(c: Channel, inputs: seq<AttemptInput>, initial: Option<Instant>): Option<Instant> {
    if inputs == [] then initial
    else
      var last := inputs[|inputs| - 1];
      if Succeeds(c, last.dataError) then Some(last.now) else LatestSuccess(c, inputs[..|inputs| - 1], initial)
  }

  /** The exception text of the latest failed attempt, or the given initial value. */
  function LatestFailure(c: Channel, inputs: seq<AttemptInput>, initial: Option<string>): Option<string> {
    if inputs == [] then initial
    else
      var last := inputs[|inputs| - 1];
      if Succeeds(c, last.dataError) then LatestFailure(c, inputs[..|inputs| - 1], initial)
      else if last.dataError.Some? then Some(Json(last.dataError.value).Message())
      else Some(NotSupported(UnsupportedChannelMessage(c)).Message())
  }

  /** After any history of attempts: the identity fields are as created,
      RetryCount has grown by the number of failures, SentAt is the time of the
      latest success, ErrorMessage the text of the latest failure, Status
      reflects the latest attempt, and Retrying is never assigned. RetryCount
      is a C# int: it wraps past Int32.MaxValue, and is the plain sum while
      that fits. */
  lemma {:induction false} ReplayHistory(n: Notification, inputs: seq<AttemptInput>)
    ensures SameIdentity(n, Replay(n, inputs))
    ensures Replay(n, inputs).retryCount == Wrap32(n.retryCount + Failures(n.channel, inputs))
    ensures n.retryCount + |inputs| <= MaxInt32 ==>
              Replay(n, inputs).retryCount == n.retryCount + Failures(n.channel, inputs)
    ensures Replay(n, inputs).sentAt == LatestSuccess(n.channel, inputs, n.sentAt)
    ensures Replay(n, inputs).errorMessage == LatestFailure(n.channel, inputs, n.errorMessage)
    ensures inputs != [] ==>
              Replay(n, inputs).status == (if Succeeds(n.channel, inputs[|inputs| - 1].dataError) then Sent else Failed)
    ensures inputs == [] ==> Replay(n, inputs) == n
    decreases |inputs|
  {
    if inputs != [] {
      var prefix := inputs[..|inputs| - 1];
      ReplayHistory(n, prefix);
      var m := Replay(n, prefix);
      var last := inputs[|inputs| - 1];
      assert m.channel == n.channel;
      if !Succeeds(n.channel, last.dataError) {
        Wrap32Successor(n.retryCount + Failures(n.channel, prefix));
      }
    }
  }

  // ---------------------------------------------------------------------------
  // ProcessNotificationAsync

  /** ProcessNotificationAsync(id): a missing record is skipped; otherwise one
      attempt is made and the resulting record is written back with a single
      update. Channel failures are absorbed into the record; the call throws
      only when the database write fails (dbFault), and then nothing changes. */
  function ProcessNotification(
    s: Store, id: Guid, now: Instant, dataError: Option<string>, dbFault: Option<string>): (r: (Store, Outcome<Error>))
    requires Valid(s)
    ensures Valid(r.0)
    ensures id !in s.rows ==> r == (s, Pass)
    ensures id in s.rows && dbFault.None? ==>
              r.1 == Pass && r.0.rows == s.rows[id := AttemptDelivery(s.rows[id], now, dataError)]
    ensures id in s.rows && dbFault.Some? ==> r == (s, Fail(DbUpdate(External(dbFault.value))))
    ensures r.1.Fail? ==> r.0 == s
  {
    match GetById(s, id)
    case None => (s, Pass)
    case Some(n) =>
      var n' := AttemptDelivery(n, now, dataError);
      if dbFault.Some? then (s, Fail(DbUpdate(External(dbFault.value))))
      else
        UpdateSameKey(s, n');
        match Update(s, n')
        case Success(s') => (s', Pass)
        case Failure(e) => (s, Fail(DbUpdate(e)))
  }

  // ---------------------------------------------------------------------------
  // CreateNotificationAsync

  /** The request checks, in the order the service makes them; on success the
      parsed channel. */
  function Validate(req: CreateNotificationRequest): (r: Result<Channel, Error>)
    ensures r.Success? <==>
              && !IsNullOrWhiteSpace(req.userId) && !IsNullOrWhiteSpace(req.channel)
              && !IsNullOrWhiteSpace(req.template) && ParseChannel(req.channel.value).Some?
    ensures r.Success? ==> Some(r.value) == ParseChannel(req.channel.value) && WellFormed(r.value)
    ensures IsNullOrWhiteSpace(req.userId) ==>
              r == Failure(Argument("User ID cannot be null or empty", Some("request")))
    ensures !IsNullOrWhiteSpace(req.userId) && IsNullOrWhiteSpace(req.channel) ==>
              r == Failure(Argument("Channel cannot be null or empty", Some("request")))
    ensures !IsNullOrWhiteSpace(req.userId) && !IsNullOrWhiteSpace(req.channel) && IsNullOrWhiteSpace(req.template) ==>
              r == Failure(Argument("Template cannot be null or empty", Some("request")))
    ensures && !IsNullOrWhiteSpace(req.userId) && !IsNullOrWhiteSpace(req.channel)
            && !IsNullOrWhiteSpace(req.template) && ParseChannel(req.channel.value).None? ==>
              r == Failure(Argument("Invalid channel: " + req.channel.value, None))
    ensures r.Failure? ==> r.error.Argument?
  {
    if IsNullOrWhiteSpace(req.userId) then Failure(Argument("User ID cannot be null or empty", Some("request")))
    else if IsNullOrWhiteSpace(req.channel) then Failure(Argument("Channel cannot be null or empty", Some("request")))
    else if IsNullOrWhiteSpace(req.template) then Failure(Argument("Template cannot be null or empty", Some("request")))
    else match ParseChannel(req.channel.value)
      case None => Failure(Argument("Invalid channel: " + req.channel.value, None))
      case Some(c) => Success(c)
  }

  /** The catch block for a unique-constraint failure on insert: re-read by the
      request's key and return that record, or rethrow the original failure
      when no record has the key. */
  function RecoverFromConflict(s: Store, key: string, conflict: DbFailure): (r: Result<Notification, Error>)
    requires Valid(s)
    ensures r.Success? <==> HasKey(s, key)
    ensures r.Success? ==> r.value.idempotencyKey == Some(key) && r.value.id in s.rows && s.rows[r.value.id] == r.value
    ensures r.Failure? ==> r.error == DbUpdate(conflict)
  {
    match GetByKey(s, key)
    case Some(existing) => Success(existing)
    case None => Failure(DbUpdate(conflict))
  }

  /** The store and the topics together. */
  datatype System = System(store: Store, log: Log)

  /** What the environment decides during one creation call: the new record's
      Id and CreatedAt; the record a concurrent creator commits between our key
      lookup and our insert, if any; the event's timestamp, correlation id,
      message key, produce time and the broker's answer (asynchronous mode);
      the send time, the Data read-back failure and a database write failure
      (synchronous mode). */
  datatype AcceptEnv = AcceptEnv(
    newId: Guid,
    createdAt: Instant,
    racer: Option<Notification>,
    eventTime: Instant,
    correlationId: string,
    messageKey: string,
    producedAt: Instant,
    transport: Transport,
    sentAt: Instant,
    dataError: Option<string>,
    dbFault: Option<string>)

  /** A concurrent creator's record is one the table would accept. */
  predicate RacerFits(s: Store, racer: Option<Notification>)
    requires Valid(s)
  {
    racer.None? || Insert(s, racer.value).Success?
  }

  /** The table as our insert sees it. */
  function AfterRacer(s: Store, racer: Option<Notification>): (s': Store)
    requires Valid(s) && RacerFits(s, racer)
    ensures Valid(s')
    ensures racer.None? ==> s' == s
    ensures racer.Some? ==> s'.rows == s.rows[racer.value.id := racer.value] && racer.value.id !in s.rows
  {
    if racer.None? then s else Insert(s, racer.value).value
  }

  /** The event the asynchronous path publishes for a new record. */
  function CreatedEvent(id: Guid, env: AcceptEnv): NotificationEvent {
    NewEvent(id, "NotificationCreated", env.eventTime, Some(env.correlationId))
  }

  function CreatedMessage(id: Guid, env: AcceptEnv): Message {
    Message(env.messageKey, Event(CreatedEvent(id, env)), env.producedAt)
  }

  /** The idempotency key the pre-check looks up: only a non-empty one. */
  predicate ChecksKey(req: CreateNotificationRequest) {
    !IsNullOrEmpty(req.idempotencyKey)
  }

  /** The record a creation call would insert. */
  function Candidate(req: CreateNotificationRequest, channel: Channel, env: AcceptEnv): Notification
    requires req.userId.Some? && req.template.Some?
  {
    NewNotification(env.newId, env.createdAt, req.userId.value, channel, req.template.value, req.data, req.idempotencyKey)
  }

  /** What every creation call leaves behind: the table keeps its constraints
      and every row it had; a new row is the call's own record or the
      concurrent creator's; a successful answer is a stored record as it now
      stands, carrying the request's key when there is one; and the topics
      change only by the one NotificationCreated event, only with a producer and
      only on success. */
  ghost predicate CreationContract(
    producer: Option<KafkaSettings>, sys: System, key: Option<string>, env: AcceptEnv,
    r: (System, Result<NotificationResponse, Error>))
  {
    && Valid(r.0.store)
    && (forall id | id in sys.store.rows :: id in r.0.store.rows && r.0.store.rows[id] == sys.store.rows[id])
    && (forall id | id in r.0.store.rows && id !in sys.store.rows ::
          id == env.newId || (env.racer.Some? && id == env.racer.value.id))
    && (r.1.Success? ==>
          && r.1.value.id in r.0.store.rows
          && r.1.value == MapToResponse(r.0.store.rows[r.1.value.id])
          && (key.Some? ==> r.0.store.rows[r.1.value.id].idempotencyKey == key))
    && (producer.None? ==> r.0.log == sys.log)
    && (r.0.log == sys.log || (
          && producer.Some? && r.1.Success?
          && Appended(sys.log, r.0.log, producer.value.topics.notificationEvents, CreatedMessage(env.newId, env))))
  }

  /** CreateNotificationAsync. producer is the registered producer's settings,
      or None in synchronous mode. */
  function CreateNotification(
    producer: Option<KafkaSettings>, sys: System, request: Option<CreateNotificationRequest>, env: AcceptEnv)
    : (r: (System, Result<NotificationResponse, Error>))
    requires Valid(sys.store)
    requires RacerFits(sys.store, env.racer)
    requires env.newId !in AfterRacer(sys.store, env.racer).rows
    ensures request.None? ==> r == (sys, Failure(ArgumentNull("request")))
    ensures request.Some? && Validate(request.value).Failure? ==> r == (sys, Failure(Validate(request.value).error))
    ensures CreationContract(producer, sys, if request.Some? then request.value.idempotencyKey else None, env, r)
  {
    if request.None? then (sys, Failure(ArgumentNull("request")))
    else
      match Validate(request.value)
      case Failure(e) => (sys, Failure(e))
      case Success(channel) => Accept(producer, sys, request.value, channel, env)
  }

  /** A validated request: the idempotency-key pre-check, which answers with
      the record already holding a non-empty key and changes nothing. */
  function Accept(
    producer: Option<KafkaSettings>, sys: System, req: CreateNotificationRequest, channel: Channel, env: AcceptEnv)
    : (r: (System, Result<NotificationResponse, Error>))
    requires Valid(sys.store) && req.userId.Some? && req.template.Some?
    requires RacerFits(sys.store, env.racer)
    requires env.newId !in AfterRacer(sys.store, env.racer).rows
    ensures ChecksKey(req) && HasKey(sys.store, req.idempotencyKey.value) ==>
              r == (sys, Success(MapToResponse(GetByKey(sys.store, req.idempotencyKey.value).value)))
    ensures CreationContract(producer, sys, req.idempotencyKey, env, r)
  {
    if ChecksKey(req) && GetByKey(sys.store, req.idempotencyKey.value).Some? then
      (sys, Success(MapToResponse(GetByKey(sys.store, req.idempotencyKey.value).value)))
    else
      StoreAndDispatch(producer, sys, Candidate(req, channel, env), env)
  }

  /** The insert of the new record n, after any concurrent creator's commit. A
      unique-key conflict answers with the record that holds the key, and the
      rethrow is unreachable; a successful insert goes on to Dispatch. */
  function StoreAndDispatch(producer: Option<KafkaSettings>, sys: System, n: Notification, env: AcceptEnv)
    : (r: (System, Result<NotificationResponse, Error>))
    requires Valid(sys.store) && RacerFits(sys.store, env.racer)
    requires n.id == env.newId && n.id !in AfterRacer(sys.store, env.racer).rows
    ensures n.idempotencyKey.Some? && HasKey(AfterRacer(sys.store, env.racer), n.idempotencyKey.value) ==>
              r == (System(AfterRacer(sys.store, env.racer), sys.log),
                    Success(MapToResponse(GetByKey(AfterRacer(sys.store, env.racer), n.idempotencyKey.value).value)))
    ensures !(n.idempotencyKey.Some? && HasKey(AfterRacer(sys.store, env.racer), n.idempotencyKey.value)) ==>
              n.id in r.0.store.rows
    ensures CreationContract(producer, sys, n.idempotencyKey, env, r)
  {
    var s1 := AfterRacer(sys.store, env.racer);
    match Insert(s1, n)
    case Failure(conflict) =>
      // the Id is fresh, so only the key can clash
      assert n.idempotencyKey.Some?;
      (match RecoverFromConflict(s1, n.idempotencyKey.value, conflict)
       case Success(winner) => (System(s1, sys.log), Success(MapToResponse(winner)))
       case Failure(e) => (System(s1, sys.log), Failure(e)))
    case Success(s2) => Dispatch(producer, s2, sys.log, n, env)
  }

  /** The tail of CreateNotificationAsync once the new record n is stored: with
      a producer, publish one NotificationCreated event (AttemptNumber 1) to the
      events topic and answer with n, still Pending; without one, process n
      inline and answer with the record as re-read afterwards. */
  function Dispatch(producer: Option<KafkaSettings>, s: Store, log: Log, n: Notification, env: AcceptEnv)
    : (r: (System, Result<NotificationResponse, Error>))
    requires Valid(s) && n.id in s.rows && s.rows[n.id] == n
    ensures Valid(r.0.store)
    ensures r.0.store.rows.Keys == s.rows.Keys
    ensures forall id | id in s.rows && id != n.id :: r.0.store.rows[id] == s.rows[id]
    ensures producer.None? ==> r.0.log == log
    ensures r.0.log == log || (
              && producer.Some? && r.1.Success?
              && Appended(log, r.0.log, producer.value.topics.notificationEvents, CreatedMessage(n.id, env)))
    ensures producer.Some? ==>
              && r.0.store == s
              && (r.1.Success? <==> producer.value.topics.notificationEvents != "" && env.transport.Acknowledged?)
              && (r.1.Success? ==> r.1.value == MapToResponse(n) && r.0.log != log)
              && (r.1.Failure? ==> r.0.log == log)
    ensures producer.None? ==>
              && (r.1.Success? <==> env.dbFault.None?)
              && (r.1.Failure? ==> r.0.store == s)
              && (r.1.Success? ==>
                    var done := AttemptDelivery(n, env.sentAt, env.dataError);
                    r.0.store.rows == s.rows[n.id := done] && r.1.value == MapToResponse(done))
    ensures r.1.Success? ==> r.1.value == MapToResponse(r.0.store.rows[n.id])
  {
    match producer
    case Some(settings) =>
      var (log', out) := ProduceNotificationEvent(
        settings, log, CreatedEvent(n.id, env), env.messageKey, env.producedAt, env.transport);
      if out.Pass? then (System(s, log'), Success(MapToResponse(n)))
      else (System(s, log), Failure(out.error))
    case None =>
      var (s', out) := ProcessNotification(s, n.id, env.sentAt, env.dataError, env.dbFault);
      if out.Fail? then (System(s', log), Failure(out.error))
      else (System(s', log), Success(MapToResponse(GetById(s', n.id).value)))
  }

  /** GetNotificationAsync: the response for the record with that Id, or null. */
  function GetNotification(s: Store, id: Guid): (r: Option<NotificationResponse>)
    requires Valid(s)
    ensures r.Some? <==> id in s.rows
    ensures r.Some? ==> r.value == MapToResponse(s.rows[id]) && r.value.id == id
  {
    match GetById(s, id)
    case Some(n) => Some(MapToResponse(n))
    case None => None
  }
}
