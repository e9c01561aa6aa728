/** Whole-call properties of the acceptance path and of the path from an
    accepted request to the consumer: idempotent repeats, the concurrent
    creator, the two dispatch modes, and the event the consumer then reads. */
module Scenarios {
  import opened Common
  import opened Enums
  import opened Notifications
  import opened Repository
  import opened KafkaConfig
  import opened Producer
  import opened Service
  import opened Consumer

  /** A creation call is admissible when the table is valid, a concurrent
      creator's record (if any) fits it, and the new Id is fresh. */
  predicate Admissible(sys: System, env: AcceptEnv) {
    Valid(sys.store) && RacerFits(sys.store, env.racer) && env.newId !in AfterRacer(sys.store, env.racer).rows
  }

  /** A request whose string fields were all omitted in the JSON body binds to
      empty strings, and is rejected on its user id with nothing changed. */
  lemma OmittedFieldsRejected(producer: Option<KafkaSettings>, sys: System, env: AcceptEnv)
    requires Admissible(sys, env)
    ensures CreateNotification(producer, sys, Some(OmittedFieldsRequest), env)
         == (sys, Failure(Argument("User ID cannot be null or empty", Some("request"))))
  {
  }

  /** Repeating a successful request that carries an idempotency key returns the
      same answer and changes nothing, tables and topics alike. For the empty
      key the pre-check is skipped and the unique index catches the repeat, so
      that case needs no concurrent creator in between. */
  lemma RepeatWithKeyIsIdempotent(
    producer: Option<KafkaSettings>, sys: System, req: CreateNotificationRequest, env1: AcceptEnv, env2: AcceptEnv)
    requires Admissible(sys, env1)
    requires req.idempotencyKey.Some?
    requires CreateNotification(producer, sys, Some(req), env1).1.Success?
    requires Admissible(CreateNotification(producer, sys, Some(req), env1).0, env2)
    requires ChecksKey(req) || env2.racer.None?
    ensures var r1 := CreateNotification(producer, sys, Some(req), env1);
            CreateNotification(producer, r1.0, Some(req), env2) == r1
  {
    var r1 := CreateNotification(producer, sys, Some(req), env1);
    var sys1 := r1.0;
    var k := req.idempotencyKey.value;
    var id := r1.1.value.id;
    assert HasKey(sys1.store, k) by {
      assert sys1.store.rows[id].idempotencyKey == Some(k);
    }
    var channel := Validate(req).value;
    var found := GetByKey(sys1.store, k).value;
    KeysUnique(sys1.store, found.id, id);
    if !ChecksKey(req) {
      assert AfterRacer(sys1.store, env2.racer) == sys1.store;
      assert Candidate(req, channel, env2).idempotencyKey == Some(k);
    }
  }

  /** A creator that commits the same key between our pre-check and our insert
      wins: the unique index rejects our record, the catch block answers with
      the winner's record, and no event is published. */
  lemma ConcurrentCreatorWins(
    producer: Option<KafkaSettings>, sys: System, req: CreateNotificationRequest, env: AcceptEnv)
    requires Admissible(sys, env)
    requires Validate(req).Success? && req.idempotencyKey.Some?
    requires !HasKey(sys.store, req.idempotencyKey.value)
    requires env.racer.Some? && env.racer.value.idempotencyKey == req.idempotencyKey
    ensures CreateNotification(producer, sys, Some(req), env)
         == (System(AfterRacer(sys.store, env.racer), sys.log), Success(MapToResponse(env.racer.value)))
  {
    var s1 := AfterRacer(sys.store, env.racer);
    var w := env.racer.value;
    var k := req.idempotencyKey.value;
    assert s1.rows[w.id] == w;
    KeysUnique(s1, GetByKey(s1, k).value.id, w.id);
  }

  /** The ways the tail of a creation call can fail: the producer's argument
      or send errors, or the inline processing's failed write. */
  lemma DispatchFailures(producer: Option<KafkaSettings>, s: Store, log: Log, n: Notification, env: AcceptEnv)
    requires Valid(s) && n.id in s.rows && s.rows[n.id] == n
    ensures var d := Dispatch(producer, s, log, n, env);
            d.1.Failure? ==>
              || d.1.error.Argument? || d.1.error.InvalidOperation?
              || (producer.None? && env.dbFault.Some? && d.1.error == DbUpdate(External(env.dbFault.value)))
  {
    if producer.Some? {
      var out := ProduceNotificationEvent(
        producer.value, log, CreatedEvent(n.id, env), env.messageKey, env.producedAt, env.transport);
      assert Dispatch(producer, s, log, n, env).1.Failure? ==>
        Dispatch(producer, s, log, n, env).1.error == out.1.error;
    }
  }

  /** The rethrow in the conflict handler is unreachable: no creation call fails
      with a unique-constraint violation. */
  lemma NoUniqueViolationEscapes(
    producer: Option<KafkaSettings>, sys: System, request: Option<CreateNotificationRequest>, env: AcceptEnv)
    requires Admissible(sys, env)
    ensures var r := CreateNotification(producer, sys, request, env);
            r.1.Failure? ==> !(r.1.error.DbUpdate? && r.1.error.failure.UniqueViolation?)
  {
    var r := CreateNotification(producer, sys, request, env);
    if request.Some? && Validate(request.value).Success? {
      var req := request.value;
      var channel := Validate(req).value;
      assert r == Accept(producer, sys, req, channel, env);
      if !(ChecksKey(req) && HasKey(sys.store, req.idempotencyKey.value)) {
        var n := Candidate(req, channel, env);
        var s1 := AfterRacer(sys.store, env.racer);
        assert r == StoreAndDispatch(producer, sys, n, env);
        if !(n.idempotencyKey.Some? && HasKey(s1, n.idempotencyKey.value)) {
          var s2 := Insert(s1, n).value;
          assert r == Dispatch(producer, s2, sys.log, n, env);
          DispatchFailures(producer, s2, sys.log, n, env);
        }
      }
    }
  }

  /** With a producer, a new request without a key is stored as Pending and
      answered as Pending, and exactly one event is published: a
      NotificationCreated event for the new record with AttemptNumber 1. */
  lemma AsyncCreatePublishesOneEvent(
    settings: KafkaSettings, sys: System, req: CreateNotificationRequest, env: AcceptEnv)
    requires Admissible(sys, env)
    requires Validate(req).Success? && req.idempotencyKey.None?
    requires settings.topics.notificationEvents != "" && env.transport.Acknowledged?
    ensures var r := CreateNotification(Some(settings), sys, Some(req), env);
            && r.1.Success?
            && r.1.value.id == env.newId
            && r.1.value.status == "Pending" && r.1.value.retryCount == 0 && r.1.value.sentAt.None?
            && r.0.store.rows[env.newId] == Candidate(req, Validate(req).value, env)
            && Appended(sys.log, r.0.log, settings.topics.notificationEvents, CreatedMessage(env.newId, env))
            && CreatedMessage(env.newId, env).value.event.notificationId == env.newId
            && CreatedMessage(env.newId, env).value.event.eventType == "NotificationCreated"
            && CreatedMessage(env.newId, env).value.event.attemptNumber == 1
  {
    var n := Candidate(req, Validate(req).value, env);
    assert StoreAndDispatch(Some(settings), sys, n, env)
        == Dispatch(Some(settings), Insert(AfterRacer(sys.store, env.racer), n).value, sys.log, n, env);
  }

  /** Without a producer, a new request without a key is processed inline: the
      stored record is the result of one delivery attempt, the answer is that
      record (Sent or Failed, never Pending), and no event is published. */
  lemma SyncCreateProcessesInline(sys: System, req: CreateNotificationRequest, env: AcceptEnv)
    requires Admissible(sys, env)
    requires Validate(req).Success? && req.idempotencyKey.None? && env.dbFault.None?
    ensures var r := CreateNotification(None, sys, Some(req), env);
            var done := AttemptDelivery(Candidate(req, Validate(req).value, env), env.sentAt, env.dataError);
            && r.1.Success?
            && r.0.log == sys.log
            && r.0.store.rows[env.newId] == done
            && r.1.value == MapToResponse(done)
            && (r.1.value.status == "Sent" <==> Succeeds(Validate(req).value, env.dataError))
            && (r.1.value.status == "Sent" || r.1.value.status == "Failed")
  {
    var n := Candidate(req, Validate(req).value, env);
    assert StoreAndDispatch(None, sys, n, env)
        == Dispatch(None, Insert(AfterRacer(sys.store, env.racer), n).value, sys.log, n, env);
    var done := AttemptDelivery(n, env.sentAt, env.dataError);
    StatusNameInjective(done.status, Sent);
  }

  /** Without a key every call inserts its own record, so two identical calls
      leave two records. */
  lemma RepeatWithoutKeyDuplicates(
    producer: Option<KafkaSettings>, sys: System, req: CreateNotificationRequest, env1: AcceptEnv, env2: AcceptEnv)
    requires Admissible(sys, env1)
    requires Validate(req).Success? && req.idempotencyKey.None?
    requires Admissible(CreateNotification(producer, sys, Some(req), env1).0, env2)
    ensures var r1 := CreateNotification(producer, sys, Some(req), env1);
            var r2 := CreateNotification(producer, r1.0, Some(req), env2);
            && env1.newId != env2.newId
            && env1.newId in r2.0.store.rows && env2.newId in r2.0.store.rows
            && r2.0.store.rows[env1.newId].userId == r2.0.store.rows[env2.newId].userId == req.userId.value
  {
    var r1 := CreateNotification(producer, sys, Some(req), env1);
    UnkeyedCallStoresOwnRecord(producer, sys, req, env1);
    UnkeyedCallStoresOwnRecord(producer, r1.0, req, env2);
  }

  /** An unkeyed call, whether it succeeds or not, leaves its own record in the
      table with the request's user, and keeps every earlier row as it was. */
  lemma UnkeyedCallStoresOwnRecord(
    producer: Option<KafkaSettings>, sys: System, req: CreateNotificationRequest, env: AcceptEnv)
    requires Admissible(sys, env)
    requires Validate(req).Success? && req.idempotencyKey.None?
    ensures var r := CreateNotification(producer, sys, Some(req), env);
            && env.newId in r.0.store.rows
            && r.0.store.rows[env.newId].userId == req.userId.value
            && forall id | id in sys.store.rows :: id in r.0.store.rows && r.0.store.rows[id] == sys.store.rows[id]
  {
    var channel := Validate(req).value;
    var n := Candidate(req, channel, env);
    var s2 := Insert(AfterRacer(sys.store, env.racer), n).value;
    var r := CreateNotification(producer, sys, Some(req), env);
    assert r == Accept(producer, sys, req, channel, env);
    assert r == StoreAndDispatch(producer, sys, n, env);
    assert r == Dispatch(producer, s2, sys.log, n, env);
    assert r.0.store.rows[n.id].userId == n.userId by {
      if producer.None? && r.1.Success? {
        assert r.0.store.rows[n.id] == AttemptDelivery(n, env.sentAt, env.dataError);
      }
    }
  }

  /** Without a key a successful answer is always about the call's own new
      record: its Id, the request's user and template, and the parsed channel
      in the member's spelling. */
  lemma UnkeyedAnswerIsNewRecord(
    producer: Option<KafkaSettings>, sys: System, req: CreateNotificationRequest, env: AcceptEnv)
    requires Admissible(sys, env)
    requires Validate(req).Success? && req.idempotencyKey.None?
    ensures var r := CreateNotification(producer, sys, Some(req), env);
            r.1.Success? ==>
              && r.1.value.id == env.newId
              && r.1.value.userId == req.userId.value && r.1.value.template == req.template.value
              && r.1.value.channel == ChannelName(Validate(req).value)
  {
    var channel := Validate(req).value;
    var n := Candidate(req, channel, env);
    var s1 := AfterRacer(sys.store, env.racer);
    var s2 := Insert(s1, n).value;
    var r := CreateNotification(producer, sys, Some(req), env);
    assert r == Accept(producer, sys, req, channel, env);
    assert r == StoreAndDispatch(producer, sys, n, env);
    assert r == Dispatch(producer, s2, sys.log, n, env);
    if r.1.Success? {
      assert r.1.value == MapToResponse(r.0.store.rows[n.id]);
      assert SameIdentity(n, r.0.store.rows[n.id]) by {
        if producer.None? {
          assert r.0.store.rows[n.id] == AttemptDelivery(n, env.sentAt, env.dataError);
        }
      }
    }
  }

  /** A request with non-blank user and template and a channel text that
      parses is accepted with the parsed channel. */
  lemma AcceptedWith(req: CreateNotificationRequest, c: Channel)
    requires !IsNullOrWhiteSpace(req.userId) && !IsNullOrWhiteSpace(req.template)
    requires req.channel.Some? && ParseChannel(req.channel.value) == Some(c)
    ensures Validate(req) == Success(c)
  {
  }

  lemma UpperEmail()
    ensures Upper("email") == "EMAIL" && Upper("Email") == "EMAIL"
  {
  }

  /** "email" parses as the Email member. */
  lemma EmailParses()
    ensures ParseChannel("email") == Some(Email)
  {
    UpperEmail();
    ParseIgnoresCase("email", "Email");
    ParseChannelName(Email);
  }

  /** The channel text is matched without regard to case and answered in the
      member's own spelling: a request for "email" is answered as "Email". */
  lemma LowerCaseChannelAnsweredInMemberCase(
    producer: Option<KafkaSettings>, sys: System, req: CreateNotificationRequest, env: AcceptEnv)
    requires Admissible(sys, env)
    requires !IsNullOrWhiteSpace(req.userId) && !IsNullOrWhiteSpace(req.template)
    requires req.channel == Some("email") && req.idempotencyKey.None?
    ensures var r := CreateNotification(producer, sys, Some(req), env);
            r.1.Success? ==> r.1.value.channel == "Email"
  {
    EmailParses();
    AcceptedWith(req, Email);
    UnkeyedAnswerIsNewRecord(producer, sys, req, env);
  }

  lemma SevenName()
    ensures ChannelName(Undeclared(7)) == "7"
    ensures UnsupportedChannelMessage(Undeclared(7)) == "Channel 7 is not supported"
  {
    assert ChannelName(Undeclared(7)) == "7";
  }

  /** "7" parses as the undeclared channel value 7. */
  lemma SevenParses()
    ensures ParseChannel("7") == Some(Undeclared(7))
  {
    SevenName();
    ParseChannelName(Undeclared(7));
  }

  /** "7" followed by a no-break space is rejected: Int32 parsing skips only
      ASCII white space after the digits, and the name lookup fails too. */
  lemma SevenThenNoBreakSpaceRejected()
    ensures ParseChannel("7\U{A0}") == None
  {
    NumberThenNonAsciiSpace("7", '\U{A0}');
    assert "7" + ['\U{A0}'] == "7\U{A0}";
  }

  /** Inline processing of an accepted undeclared channel answers Failed, with
      RetryCount 1 and the NotSupportedException text. */
  lemma SyncUndeclaredFails(sys: System, req: CreateNotificationRequest, env: AcceptEnv, c: Channel)
    requires Admissible(sys, env) && env.dbFault.None? && env.dataError.None?
    requires Validate(req) == Success(c) && !IsDeclared(c) && req.idempotencyKey.None?
    ensures var r := CreateNotification(None, sys, Some(req), env);
            && r.1.Success?
            && r.1.value.channel == ChannelName(c)
            && r.1.value.status == "Failed"
            && r.1.value.errorMessage == Some(UnsupportedChannelMessage(c))
            && r.1.value.retryCount == 1
  {
    var r := CreateNotification(None, sys, Some(req), env);
    var n := Candidate(req, c, env);
    var done := AttemptDelivery(n, env.sentAt, env.dataError);
    SyncCreateProcessesInline(sys, req, env);
    assert r.1.value == MapToResponse(done);
    assert SendByChannel(n, env.dataError) == Fail(NotSupported(UnsupportedChannelMessage(c)));
    assert n.retryCount == 0;
    assert done.status == Failed && done.retryCount == 1 && done.channel == c;
    assert done.errorMessage == Some(UnsupportedChannelMessage(c));
  }

  /** A numeric channel outside the enumeration passes validation and is
      stored; processed inline it fails with NotSupportedException, so the
      answer for "7" is Failed with RetryCount 1 and the text "Channel 7 is not
      supported". */
  lemma UndeclaredChannelAcceptedThenFails(sys: System, req: CreateNotificationRequest, env: AcceptEnv)
    requires Admissible(sys, env) && env.dbFault.None? && env.dataError.None?
    requires !IsNullOrWhiteSpace(req.userId) && !IsNullOrWhiteSpace(req.template)
    requires req.channel == Some("7") && req.idempotencyKey.None?
    ensures var r := CreateNotification(None, sys, Some(req), env);
            && r.1.Success?
            && r.1.value.channel == "7"
            && r.1.value.status == "Failed"
            && r.1.value.errorMessage == Some("Channel 7 is not supported")
            && r.1.value.retryCount == 1
  {
    SevenParses();
    AcceptedWith(req, Undeclared(7));
    SyncUndeclaredFails(sys, req, env, Undeclared(7));
    SevenName();
  }

  /** End to end: after an asynchronous creation, a consumer positioned at the
      end of the events topic reads exactly the new event, processes the new
      record once, and commits past it. */
  lemma CreatedThenConsumed(
    settings: KafkaSettings, sys: System, req: CreateNotificationRequest, env: AcceptEnv,
    st: ConsumerState, henv: HandlerEnv)
    requires Admissible(sys, env)
    requires Validate(req).Success? && req.idempotencyKey.None?
    requires settings.topics.notificationEvents != "" && env.transport.Acknowledged?
    requires ConsumerValid(st) && st.position == |Topic(sys.log, settings.topics.notificationEvents)|
    requires henv.dbFault.None?
    ensures var r := CreateNotification(Some(settings), sys, Some(req), env);
            var step := ConsumeStep(settings, r.0.store, r.0.log, st, henv);
            && Poll(settings, r.0.log, st) == Some(CreatedMessage(env.newId, env))
            && step.store.rows == r.0.store.rows[env.newId := AttemptDelivery(r.0.store.rows[env.newId], henv.now, henv.dataError)]
            && step.log == r.0.log
            && step.state == ConsumerState(st.position + 1, st.position + 1)
  {
    var r := CreateNotification(Some(settings), sys, Some(req), env);
    AsyncCreatePublishesOneEvent(settings, sys, req, env);
    var m := CreatedMessage(env.newId, env);
    assert Poll(settings, r.0.log, st) == Some(m) by {
      assert Topic(r.0.log, settings.topics.notificationEvents)
          == Topic(sys.log, settings.topics.notificationEvents) + [m];
    }
    ConsumeEventOfStoredRecord(settings, r.0.store, r.0.log, st, m.value.event, henv);
  }

  /** A pass that reads an event for a stored record, when the write-back
      succeeds, processes that record once, produces nothing and commits. */
  lemma ConsumeEventOfStoredRecord(
    settings: KafkaSettings, s: Store, log: Log, st: ConsumerState, e: NotificationEvent, henv: HandlerEnv)
    requires Valid(s) && ConsumerValid(st) && e.notificationId in s.rows && henv.dbFault.None?
    requires Poll(settings, log, st).Some? && Poll(settings, log, st).value.value == Event(e)
    ensures var step := ConsumeStep(settings, s, log, st, henv);
            && step.store.rows == s.rows[e.notificationId := AttemptDelivery(s.rows[e.notificationId], henv.now, henv.dataError)]
            && step.log == log
            && step.state == ConsumerState(st.position + 1, st.position + 1)
  {
  }
}
