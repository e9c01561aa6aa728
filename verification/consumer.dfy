/** NotificationEventConsumer: reads the events topic, hands each event to the
    service, and when processing throws re-publishes the event to the retries
    topic (while AttemptNumber is below RetryAttempts) or to the dead-letter
    topic. The offset is committed only after the handler returns. */
module Consumer {
  import opened Common
  import opened Notifications
  import opened Repository
  import opened KafkaConfig
  import opened Producer
  import opened Service

  // ---------------------------------------------------------------------------
  // Retry or dead-letter

  /** Where a failed event goes: back out with the next attempt number after a
      delay, or to the dead-letter topic as it is. */
  datatype Route = Retry(event: NotificationEvent, delayMs: Int32) | DeadLetter(event: NotificationEvent)

  /** The catch block of ProcessNotificationEvent. The event's AttemptNumber,
      not the record's RetryCount, decides; the delay is RetryDelayMs times the
      incremented attempt number, multiplied as C# ints. */
  function RouteFailure(settings: KafkaSettings, e: NotificationEvent): (r: Route)
    ensures r.Retry? <==> e.attemptNumber < settings.retryAttempts
    ensures r.Retry? ==> r.event == e.(attemptNumber := e.attemptNumber + 1)
    ensures r.Retry? ==> r.delayMs == Wrap32(settings.retryDelayMs * r.event.attemptNumber)
    ensures r.DeadLetter? ==> r.event == e
  {
    if e.attemptNumber < settings.retryAttempts then
      var next := e.(attemptNumber := e.attemptNumber + 1);
      Retry(next, Wrap32(settings.retryDelayMs * next.attemptNumber))
    else DeadLetter(e)
  }

  function RouteTopic(settings: KafkaSettings, r: Route): string {
    if r.Retry? then settings.topics.notificationRetries else settings.topics.notificationDlq
  }

  lemma MulBounds(a: int, b: int, c: int)
    requires 0 <= a && 0 <= b <= c
    ensures 0 <= a * b <= a * c
  {
  }

  /** While RetryDelayMs * RetryAttempts fits in an int, the delay before a
      retry is exactly RetryDelayMs times the new attempt number: the backoff
      is linear in the attempt. */
  lemma LinearBackoff(settings: KafkaSettings, e: NotificationEvent)
    requires 0 <= e.attemptNumber < settings.retryAttempts
    requires 0 <= settings.retryDelayMs && settings.retryDelayMs * settings.retryAttempts <= MaxInt32
    ensures RouteFailure(settings, e).delayMs == settings.retryDelayMs * (e.attemptNumber + 1)
  {
    MulBounds(settings.retryDelayMs, e.attemptNumber + 1, settings.retryAttempts);
  }

  /** Task.Delay(ms): below -1 it throws, -1 waits forever, otherwise it waits and returns. */
  datatype Completion = Returned | Threw(error: Error) | NeverReturns

  function Delay(ms: Int32): (c: Completion)
    ensures c.Returned? <==> ms >= 0
    ensures c.NeverReturns? <==> ms == -1
  {
    if ms < -1 then Threw(ArgumentOutOfRange("millisecondsDelay"))
    else if ms == -1 then NeverReturns
    else Returned
  }

  /** The catch block, side effects included: wait, then produce to the route's topic. */
  function Reroute(settings: KafkaSettings, log: Log, route: Route, key: string, now: Instant, transport: Transport)
    : (r: (Log, Completion))
    ensures r.0 == log || (r.1.Returned? && Appended(log, r.0, RouteTopic(settings, route), Message(key, Event(route.event), now)))
    ensures r.1.Returned? <==>
              && (route.Retry? ==> route.delayMs >= 0)
              && RouteTopic(settings, route) != "" && transport.Acknowledged?
  {
    var waited := if route.Retry? then Delay(route.delayMs) else Returned;
    if !waited.Returned? then (log, waited)
    else
      var (log', out) := ProduceAsync(log, Some(RouteTopic(settings, route)), Some(route.event), key, now, transport);
      if out.Pass? then (log', Returned) else (log, Threw(out.error))
  }

  // ---------------------------------------------------------------------------
  // ProcessNotificationEvent

  /** What the environment decides while one message is handled: the attempt's
      clock and Data read-back failure, a database write failure, and the
      re-publish's message key, produce time and broker answer. */
  datatype HandlerEnv = HandlerEnv(
    now: Instant,
    dataError: Option<string>,
    dbFault: Option<string>,
    messageKey: string,
    producedAt: Instant,
    transport: Transport)

  datatype Handled = Handled(store: Store, log: Log, completion: Completion)

  /** Processing throws exactly when the record exists and its write fails. */
  predicate ProcessingThrows(s: Store, e: NotificationEvent, env: HandlerEnv) {
    e.notificationId in s.rows && env.dbFault.Some?
  }

  /** ProcessNotificationEvent(messageValue). A null value makes Deserialize
      throw ArgumentNullException, which the JsonException handler does not
      catch, so it escapes. A malformed body or the JSON null is dropped.
      Otherwise the notification is processed; when that throws, the event is
      rerouted, and anything that throws while rerouting escapes. */
  function HandleMessage(settings: KafkaSettings, s: Store, log: Log, payload: Payload, env: HandlerEnv): (r: Handled)
    requires Valid(s)
    ensures Valid(r.store)
    ensures payload.NullValue? ==> r == Handled(s, log, Threw(ArgumentNull("json")))
    ensures payload.Malformed? || payload.NullLiteral? ==> r == Handled(s, log, Returned)
    ensures payload.Event? && !ProcessingThrows(s, payload.event, env) ==>
              && r.log == log && r.completion == Returned
              && r.store == ProcessNotification(s, payload.event.notificationId, env.now, env.dataError, env.dbFault).0
    ensures payload.Event? && ProcessingThrows(s, payload.event, env) ==>
              var route := RouteFailure(settings, payload.event);
              && r.store == s
              && (r.log == log || Appended(log, r.log, RouteTopic(settings, route), Message(env.messageKey, Event(route.event), env.producedAt)))
              && (r.log != log <==> r.completion.Returned?)
  {
    match payload
    case NullValue => Handled(s, log, Threw(ArgumentNull("json")))
    case Malformed(_) => Handled(s, log, Returned)
    case NullLiteral => Handled(s, log, Returned)
    case Event(e) =>
      var (s', out) := ProcessNotification(s, e.notificationId, env.now, env.dataError, env.dbFault);
      if out.Pass? then Handled(s', log, Returned)
      else
        var (log', c) := Reroute(settings, log, RouteFailure(settings, e), env.messageKey, env.producedAt, env.transport);
        assert log' != log <==> c.Returned? by {
          if c.Returned? {
            assert |Topic(log', RouteTopic(settings, RouteFailure(settings, e)))|
                != |Topic(log, RouteTopic(settings, RouteFailure(settings, e)))|;
          }
        }
        Handled(s', log', c)
  }

  /** Channel failures never reach the consumer's retry logic: unless the
      database write fails, handling an event produces nothing, whatever the
      channel and whatever the Data read-back does. */
  lemma ChannelFailuresAreNotRetried(settings: KafkaSettings, s: Store, log: Log, e: NotificationEvent, env: HandlerEnv)
    requires Valid(s) && env.dbFault.None?
    ensures HandleMessage(settings, s, log, Event(e), env).log == log
    ensures HandleMessage(settings, s, log, Event(e), env).completion == Returned
  {
  }

  /** The route ignores the record entirely: two tables that differ in any way
      (RetryCount included) send a failing event to the same place. */
  lemma RouteIgnoresRecord(settings: KafkaSettings, s: Store, s': Store, log: Log, e: NotificationEvent, env: HandlerEnv)
    requires Valid(s) && Valid(s')
    requires ProcessingThrows(s, e, env) && ProcessingThrows(s', e, env)
    ensures HandleMessage(settings, s, log, Event(e), env).log == HandleMessage(settings, s', log, Event(e), env).log
  {
  }

  // ---------------------------------------------------------------------------
  // One iteration of the consume loop

  /** position: the next offset Consume returns; committed: the offset a
      restarted consumer resumes from. */
  datatype ConsumerState = ConsumerState(position: nat, committed: nat)

  predicate ConsumerValid(st: ConsumerState) {
    st.committed <= st.position
  }

  /** Consume on the only subscribed topic, the events topic: the message at
      the read position, or nothing when the position is at the end. */
  function Poll(settings: KafkaSettings, log: Log, st: ConsumerState): (r: Option<Message>)
    ensures r.Some? <==> st.position < |Topic(log, settings.topics.notificationEvents)|
    ensures r.Some? ==> r.value == Topic(log, settings.topics.notificationEvents)[st.position]
  {
    var q := Topic(log, settings.topics.notificationEvents);
    if st.position < |q| then Some(q[st.position]) else None
  }

  /** Producing to any other topic does not change what the consumer reads. */
  lemma PollIgnoresOtherTopics(settings: KafkaSettings, log: Log, log': Log, t: string, m: Message, st: ConsumerState)
    requires Appended(log, log', t, m) && t != settings.topics.notificationEvents
    ensures Poll(settings, log', st) == Poll(settings, log, st)
  {
  }

  datatype StepResult = StepResult(store: Store, log: Log, state: ConsumerState, handled: Completion)

  /** One pass of the loop: consume, handle, then commit. An exception from the
      handler is logged and the loop goes on without committing, though the
      in-memory position has moved past the message. */
  function ConsumeStep(settings: KafkaSettings, s: Store, log: Log, st: ConsumerState, env: HandlerEnv): (r: StepResult)
    requires Valid(s) && ConsumerValid(st)
    ensures Valid(r.store) && ConsumerValid(r.state)
    ensures Poll(settings, log, st).None? ==> r == StepResult(s, log, st, Returned)
    ensures Poll(settings, log, st).Some? ==> r.state.position == st.position + 1
    ensures r.state.committed == (if Poll(settings, log, st).Some? && r.handled.Returned? then st.position + 1 else st.committed)
    ensures Poll(settings, log, st).Some? ==>
              var h := HandleMessage(settings, s, log, Poll(settings, log, st).value.value, env);
              r.store == h.store && r.log == h.log && r.handled == h.completion
  {
    match Poll(settings, log, st)
    case None => StepResult(s, log, st, Returned)
    case Some(m) =>
      var h := HandleMessage(settings, s, log, m.value, env);
      var committed := if h.completion.Returned? then st.position + 1 else st.committed;
      StepResult(h.store, h.log, ConsumerState(st.position + 1, committed), h.completion)
  }

  /** A message with a null value is never committed by its own pass: the
      handler throws, and nothing else changes. */
  lemma NullValueIsNotCommitted(settings: KafkaSettings, s: Store, log: Log, st: ConsumerState, env: HandlerEnv)
    requires Valid(s) && ConsumerValid(st)
    requires Poll(settings, log, st).Some? && Poll(settings, log, st).value.value.NullValue?
    ensures var r := ConsumeStep(settings, s, log, st, env);
            && r.store == s && r.log == log && r.handled == Threw(ArgumentNull("json"))
            && r.state == ConsumerState(st.position + 1, st.committed)
  {
  }

  /** A restarted consumer resumes from the committed offset. */
  function Restart(st: ConsumerState): (st': ConsumerState)
    requires ConsumerValid(st)
    ensures ConsumerValid(st') && st'.position == st.committed
  {
    ConsumerState(st.committed, st.committed)
  }

  /** A message whose handling threw is delivered again if the consumer
      restarts before its next commit. */
  lemma UncommittedIsRedelivered(settings: KafkaSettings, s: Store, log: Log, st: ConsumerState, env: HandlerEnv)
    requires Valid(s) && ConsumerValid(st) && st.committed == st.position
    requires Poll(settings, log, st).Some?
    requires !ConsumeStep(settings, s, log, st, env).handled.Returned?
    ensures var r := ConsumeStep(settings, s, log, st, env);
            Poll(settings, r.log, Restart(r.state)) == Poll(settings, log, st)
  {
    var r := ConsumeStep(settings, s, log, st, env);
    var m := Poll(settings, log, st).value;
    assert r.log == log by {
      if m.value.Event? && ProcessingThrows(s, m.value.event, env) {
        assert r.log != log <==> r.handled.Returned?;
      }
    }
  }

  /** Kafka commits an offset, not one message: once the next message is
      handled normally, the commit moves past it and past the earlier message
      whose handling threw, so a restart never delivers that one again. */
  lemma LaterSuccessSkipsFailed(
    settings: KafkaSettings, s: Store, log: Log, st: ConsumerState, env1: HandlerEnv, env2: HandlerEnv)
    requires Valid(s) && ConsumerValid(st) && st.committed == st.position
    requires Poll(settings, log, st).Some?
    requires !ConsumeStep(settings, s, log, st, env1).handled.Returned?
    requires var r1 := ConsumeStep(settings, s, log, st, env1);
             && Poll(settings, r1.log, r1.state).Some?
             && ConsumeStep(settings, r1.store, r1.log, r1.state, env2).handled.Returned?
    ensures var r1 := ConsumeStep(settings, s, log, st, env1);
            var r2 := ConsumeStep(settings, r1.store, r1.log, r1.state, env2);
            && r1.state.committed == st.position
            && Restart(r2.state).position == st.position + 2
  {
  }

  // ---------------------------------------------------------------------------
  // Many iterations

  /** The loop run once per environment, in order, until a handler never
      returns: the loop is then stuck in that pass for good. */
  function Run(settings: KafkaSettings, s: Store, log: Log, st: ConsumerState, envs: seq<HandlerEnv>): (r: StepResult)
    requires Valid(s) && ConsumerValid(st)
    ensures Valid(r.store) && ConsumerValid(r.state)
    ensures st.committed <= r.state.committed
    ensures r.handled.NeverReturns? ==> r.state.committed < r.state.position
    decreases |envs|
  {
    if envs == [] then StepResult(s, log, st, Returned)
    else
      var r := ConsumeStep(settings, s, log, st, envs[0]);
      if r.handled.NeverReturns? then r
      else Run(settings, r.store, r.log, r.state, envs[1..])
  }

  /** The consumer never writes to the topic it reads when the topics are
      distinct: whatever it re-publishes to the retries topic is never consumed
      here, and it handles at most the messages that were on the events topic
      when it started. */
  lemma {:induction false} RunNeverFeedsItself(
    settings: KafkaSettings, s: Store, log: Log, st: ConsumerState, envs: seq<HandlerEnv>)
    requires Valid(s) && ConsumerValid(st) && DistinctTopics(settings.topics)
    ensures var r := Run(settings, s, log, st, envs);
            Topic(r.log, settings.topics.notificationEvents) == Topic(log, settings.topics.notificationEvents)
    ensures var r := Run(settings, s, log, st, envs);
            r.state.position <= st.position + |envs|
            && r.state.position <= if st.position <= |Topic(log, settings.topics.notificationEvents)|
                                    then |Topic(log, settings.topics.notificationEvents)| else st.position
    decreases |envs|
  {
    if envs != [] {
      var r := ConsumeStep(settings, s, log, st, envs[0]);
      var events := settings.topics.notificationEvents;
      assert Topic(r.log, events) == Topic(log, events) by {
        var p := Poll(settings, log, st);
        if p.Some? && p.value.value.Event? && ProcessingThrows(s, p.value.value.event, envs[0]) {
          var route := RouteFailure(settings, p.value.value.event);
          assert RouteTopic(settings, route) != events;
        }
      }
      if !r.handled.NeverReturns? {
        RunNeverFeedsItself(settings, r.store, r.log, r.state, envs[1..]);
      }
    }
  }

  // ---------------------------------------------------------------------------
  // The retry chain the routing would form if retries were consumed

  /** The routes of an event that fails on every attempt, if each retry were
      handled again by the same logic. */
  function FailureChain(settings: KafkaSettings, e: NotificationEvent): (c: seq<Route>)
    ensures |c| > 0 && c[|c| - 1].DeadLetter?
    ensures forall i | 0 <= i < |c| - 1 :: c[i].Retry?
    decreases settings.retryAttempts - e.attemptNumber
  {
    var r := RouteFailure(settings, e);
    if r.DeadLetter? then [r] else [r] + FailureChain(settings, r.event)
  }

  function Max(a: int, b: int): int {
    if a < b then b else a
  }

  /** From attempt number a, the chain makes max(0, RetryAttempts - a) retries,
      numbering them a + 1, a + 2, ..., and then sends one dead letter carrying
      the final attempt number. */
  lemma {:induction false} FailureChainShape(settings: KafkaSettings, e: NotificationEvent)
    ensures var c := FailureChain(settings, e);
            |c| == Max(0, settings.retryAttempts - e.attemptNumber) + 1
    ensures var c := FailureChain(settings, e);
            forall i | 0 <= i < |c| - 1 ::
              c[i].Retry? && c[i].event == e.(attemptNumber := e.attemptNumber + i + 1)
    ensures var c := FailureChain(settings, e);
            c[|c| - 1] == DeadLetter(e.(attemptNumber := Max(e.attemptNumber, settings.retryAttempts)))
    decreases settings.retryAttempts - e.attemptNumber
  {
    var r := RouteFailure(settings, e);
    if r.Retry? {
      FailureChainShape(settings, r.event);
      var rest := FailureChain(settings, r.event);
      var c := [r] + rest;
      forall i | 0 <= i < |c| - 1
        ensures c[i].Retry? && c[i].event == e.(attemptNumber := e.attemptNumber + i + 1)
      {
        if i > 0 {
          assert c[i] == rest[i - 1];
        }
      }
    }
  }

  /** A new event (AttemptNumber 1) that always fails: RetryAttempts - 1 retries
      (none when RetryAttempts <= 1), then one dead letter. */
  lemma NewEventChain(settings: KafkaSettings, e: NotificationEvent)
    requires e.attemptNumber == 1
    ensures var c := FailureChain(settings, e);
            && |c| - 1 == Max(0, settings.retryAttempts - 1)
            && (forall i | 0 <= i < |c| - 1 :: c[i].Retry?)
            && c[|c| - 1].DeadLetter?
  {
    FailureChainShape(settings, e);
  }

  /** With the default settings (RetryAttempts 3, RetryDelayMs 1000) a new event
      that always fails would be retried twice, after 2000 ms and 3000 ms, and
      then dead-lettered with AttemptNumber 3. */
  lemma DefaultChain(e: NotificationEvent)
    requires e.attemptNumber == 1
    ensures FailureChain(DefaultSettings, e) ==
              [Retry(e.(attemptNumber := 2), 2000), Retry(e.(attemptNumber := 3), 3000), DeadLetter(e.(attemptNumber := 3))]
  {
    var e2 := e.(attemptNumber := 2);
    var e3 := e.(attemptNumber := 3);
    assert RouteFailure(DefaultSettings, e) == Retry(e2, 2000);
    assert RouteFailure(DefaultSettings, e2) == Retry(e3, 3000);
    assert FailureChain(DefaultSettings, e3) == [DeadLetter(e3)];
  }

  /** A retry delay large enough that RetryDelayMs times the attempt number
      overflows an int wraps to a negative delay; Task.Delay then throws, the
      event is neither retried nor dead-lettered, and the offset stays
      uncommitted. */
  lemma OverflowingDelayThrows(s: Store, log: Log, e: NotificationEvent, env: HandlerEnv)
    requires Valid(s) && ProcessingThrows(s, e, env)
    requires e.attemptNumber == 2
    ensures var settings := DefaultSettings.(retryDelayMs := 1000000000);
            var route := RouteFailure(settings, e);
            && route.Retry? && route.delayMs == 3000000000 - TwoTo32
            && HandleMessage(settings, s, log, Event(e), env)
               == Handled(s, log, Threw(ArgumentOutOfRange("millisecondsDelay")))
  {
    var settings := DefaultSettings.(retryDelayMs := 1000000000);
    assert Wrap32(3000000000) == 3000000000 - TwoTo32;
  }
}
