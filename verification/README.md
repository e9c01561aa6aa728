# Notification service: a verified model of the dispatch core

This project models the core of a notification service written in C#. The
service accepts a request to notify a user over a channel (Email, SMS, Push)
and stores it as a `Notification` row. It then either publishes a
`NotificationCreated` event to Kafka or, without Kafka, makes the delivery
attempt inline. A background consumer reads the events topic and makes the
delivery attempt. When that attempt throws, the consumer re-publishes the event
to a retries topic or to a dead-letter topic.

The model is functional:

- The database table is a map from Id to record, plus the filtered unique
  index on `IdempotencyKey` (`Repository.Store`, invariant `Repository.Valid`).
- Kafka is an outbox: a map from topic name to the sequence of messages
  produced to it (`Producer.Log`).
- Every operation is a pure function from the old state to the new state and
  its outcome. A thrown exception is a `Failure`/`Fail`/`Threw` value.

Things the original takes from the outside world are parameters. These are the
clock, `Guid.NewGuid`, the broker's answer, whether the `Data` JSON reads back,
and whether the database write fails. A record that a concurrent creator
commits between our key lookup and our insert is a parameter too. They are
bundled in `Service.AcceptEnv` and `Consumer.HandlerEnv`.

Modules, one per file:

| file | module | models |
|---|---|---|
| common.dfy | `Common` | Option/Result, .NET exception kinds and messages, C# `int` wrap-around, `string.IsNullOrWhiteSpace`, `Trim`, `ToUpperInvariant` on ASCII, decimal `int` text |
| enums.dfy | `Enums` | `NotificationChannel` (with undeclared values), `NotificationStatus`, `Enum.ToString`, `Enum.TryParse(ignoreCase: true)` |
| kafka_settings.dfy | `KafkaConfig` | `KafkaSettings`, `KafkaTopics`, `NotificationEvent` and their defaults, the async/sync mode switch |
| notification.dfy | `Notifications` | the `Notification` record, the request and response DTOs, `MapToResponse` |
| repository.dfy | `Repository` | the table with its primary key and filtered unique index, and `NotificationRepository` |
| producer.dfy | `Producer` | `KafkaProducer.ProduceAsync` and `ProduceNotificationEventAsync` |
| service.dfy | `Service` | `NotificationService`: validation, the idempotency guard, conflict recovery, both dispatch modes, one delivery attempt |
| consumer.dfy | `Consumer` | `NotificationEventConsumer`: the retry/dead-letter decision, `ProcessNotificationEvent`, and the consume-handle-commit loop |
| scenarios.dfy | `Scenarios` | whole-call properties: idempotent repeats, the concurrent creator, each dispatch mode, creation followed by consumption |

Design choices worth knowing:

- **Undeclared channels.** `Enum.TryParse` accepts any integer text, so
  `"7"` passes validation. `Enums.Channel` therefore has an
  `Undeclared(value)` case. This is what makes the `NotSupportedException`
  branch of `ProcessByChannel` reachable. Name matching ignores ASCII letter
  case. The parse skips leading white space of every kind (`char.IsWhiteSpace`).
  After a number, only ASCII white space (U+0009 to U+000D and U+0020) may
  follow, as `NumberStyles.AllowTrailingWhite` allows. After a name, white space
  of every kind may follow. So `"7\u00A0"` is rejected, while `"7 "` and
  `"Email\u00A0"` are accepted.
- **C# `int` arithmetic.** `RetryCount++` and
  `RetryDelayMs * AttemptNumber` are unchecked 32-bit operations. Both are
  written with `Common.Wrap32`.
- **Task.Delay.** A negative delay below -1 makes `Task.Delay` throw. A delay
  of -1 makes it wait forever. `Consumer.Delay` models both.
- **Empty idempotency key.** An empty-string key skips the service's
  pre-check (`IsNullOrEmpty`). The unique index still holds it, because only
  null keys are filtered out. A repeat with `""` is therefore deduplicated
  through the conflict handler (`Scenarios.RepeatWithKeyIsIdempotent`).

## Model

| member | source | states |
|---|---|---|
| Common.Wrap32 | Src/Modules/Notifications/Services/NotificationService.cs:148 | the C# int that an unchecked result lands on: equal to the mathematical value when that fits, and congruent to it modulo 2^32 always |
| Common.Wrap32Successor | Src/Modules/Notifications/Services/NotificationService.cs:148 | incrementing a wrapped count as a C# int is the same as counting exactly and wrapping once |
| Common.Error.Message | Src/Modules/Notifications/Services/NotificationService.cs:147 | the text stored as ErrorMessage: an exception built from a message text reports exactly that text |
| Common.IsNullOrWhiteSpace | Src/Modules/Notifications/Services/NotificationService.cs:37-50 | a string is null-or-white-space exactly when nothing is left after its leading white space is skipped |
| Common.IsNullOrEmpty | Src/Modules/Notifications/Services/NotificationService.cs:57 | null-or-empty means null or length zero, and it implies null-or-white-space |
| Common.Trim | Src/Modules/Notifications/Services/NotificationService.cs:52 | the trim is the slice of the text left after dropping white space at both ends: it neither starts nor ends with white space, and everything cut off is white space |
| Common.TrimEmptyIffBlank | Src/Modules/Notifications/Services/NotificationService.cs:37-50 | a string trims to empty exactly when string.IsNullOrWhiteSpace holds of it |
| Common.TrimUpper | Src/Modules/Notifications/Services/NotificationService.cs:52 | upper-casing and trimming commute, so case-insensitive parsing may trim first |
| Common.DigitsRoundTrip | Src/Modules/Notifications/Services/NotificationService.cs:187 | the decimal digits of a natural number read back as that number |
| Common.SignedDigits | Src/Modules/Notifications/Services/NotificationService.cs:52 | digits read as their value with no sign or with '+', and negated after '-' |
| Common.IntegerRoundTrip | Src/Modules/Notifications/Services/NotificationService.cs:187 | parsing the decimal text of any int gives that int back |
| Enums.FromValue | Src/Shared/Enums/NotificationChannel.cs:3-10 | the channel an int denotes has that value, and is a declared member exactly for 0, 1 and 2 |
| Enums.FromValueOf | Src/Shared/Enums/NotificationChannel.cs:5-7 | a channel is determined by its underlying value |
| Enums.ChannelName | Src/Modules/Notifications/Services/NotificationService.cs:187 | the text Enum.ToString gives has no surrounding white space; a member's name is found again by the case-insensitive name lookup, and an undeclared value's text reads back as that value |
| Enums.ParseChannel | Src/Modules/Notifications/Services/NotificationService.cs:52 | a successful parse yields a well-formed channel and only ever comes from non-blank text |
| Enums.ParseStripped | Src/Modules/Notifications/Services/NotificationService.cs:52 | after leading white space, text starting with a digit or sign succeeds exactly when it reads as an Int32 once trailing ASCII white space is dropped, and then gives that value; any other text succeeds only as the declared member it names, up to letter case and trailing white space |
| Enums.ParseNameExactly | Src/Modules/Notifications/Services/NotificationService.cs:52 | text that is not a number parses exactly when it trims and upper-cases to EMAIL, SMS or PUSH, and then to the member it names; every other such text is rejected |
| Enums.ParseNumberExactly | Src/Modules/Notifications/Services/NotificationService.cs:52 | text that is a number parses exactly when it reads as an Int32, and then to the channel with that value |
| Enums.NumberThenNonAsciiSpace | Src/Modules/Notifications/Services/NotificationService.cs:52 | a number followed by non-ASCII white space such as U+00A0 is not a channel |
| Enums.NumberThenAsciiSpace | Src/Modules/Notifications/Services/NotificationService.cs:52 | a number followed by ASCII white space parses as that number's channel |
| Enums.ParseChannelName | Src/Modules/Notifications/Services/NotificationService.cs:187 | the text a channel renders to parses back to that channel, undeclared values included |
| Enums.ChannelNameInjective | Src/Modules/Notifications/Services/NotificationService.cs:187 | distinct channels render to distinct texts |
| Enums.ParseIntegerUpper | Src/Modules/Notifications/Services/NotificationService.cs:52 | numeric channel text parses the same whatever its letter case |
| Enums.ParseIgnoresCase | Src/Modules/Notifications/Services/NotificationService.cs:52 | two texts equal up to ASCII letter case parse to the same result |
| Enums.ParseOfUpper | Src/Modules/Notifications/Services/NotificationService.cs:52 | the upper-cased text parses as the text itself |
| Enums.ParseStrippedUpper | Src/Modules/Notifications/Services/NotificationService.cs:52 | the same for text without leading white space |
| Enums.ParseByName | Src/Modules/Notifications/Services/NotificationService.cs:52 | any text that trims to a member name in any letter case parses to that member |
| Enums.StatusName | Src/Modules/Notifications/Services/NotificationService.cs:189 | the text Enum.ToString gives for a status is the name declared for exactly that status |
| Enums.StatusNameInjective | Src/Modules/Notifications/Services/NotificationService.cs:189 | two statuses render to the same text if and only if they are the same status |
| KafkaConfig.ProducerFor | Program.cs:37 | a producer and consumer are registered, giving asynchronous mode, exactly when BootstrapServers is neither null nor empty |
| KafkaConfig.DefaultSettingsAsDeclared | Src/Infrastructure/Kafka/KafkaSettings.cs:3-17 | the defaults: 3 attempts, 1000 ms base delay, pairwise distinct topic names, and a bootstrap address that selects asynchronous mode |
| KafkaConfig.NewEvent | Src/Infrastructure/Kafka/KafkaSettings.cs:19-26 | an event created without an attempt number starts at attempt 1 and carries the given id, type, time and correlation id |
| Notifications.NewNotification | Src/Modules/Notifications/Models/Notification.cs:6-34 | a new record is Pending with RetryCount 0 and no SentAt or ErrorMessage, and holds the given Id, CreatedAt and request fields |
| Notifications.MapToResponse | Src/Modules/Notifications/Services/NotificationService.cs:181-195 | the response's channel and status texts read back as the record's own channel and status; the other fields are the record's |
| Repository.KeysUnique | Src/Modules/Notifications/Data/NotificationDbContext.cs:21-23 | in a valid table two rows with the same non-null key are the same row |
| Repository.NullKeysAndUserIndexNotUnique | Src/Modules/Notifications/Data/NotificationDbContext.cs:21-25 | rows without a key may coexist, even with equal UserId and CreatedAt |
| Repository.Insert | Src/Modules/Notifications/Repository/NotificationRepository.cs:16-21 | the insert succeeds exactly when the Id is new and the key is null or unused; it then adds exactly that record and keeps the table valid, and otherwise reports a unique-constraint violation |
| Repository.InsertThenLookup | Src/Modules/Notifications/Repository/NotificationRepository.cs:16-32 | after an insert, the record is found as given by its Id and by its key |
| Repository.GetById | Src/Modules/Notifications/Repository/NotificationRepository.cs:23-26 | the record with that Id, or null exactly when there is none |
| Repository.GetByKey | Src/Modules/Notifications/Repository/NotificationRepository.cs:28-32 | a stored record carrying that key, or null exactly when no record carries it |
| Repository.Update | Src/Modules/Notifications/Repository/NotificationRepository.cs:41-45 | the update replaces the whole row for the record's Id and keeps the table valid; it fails when no row has the Id or another row holds the key |
| Repository.UpdateSameKey | Src/Modules/Notifications/Repository/NotificationRepository.cs:41-45 | writing back a stored record with its key unchanged always succeeds |
| Repository.InsertNewestFirst | Src/Modules/Notifications/Repository/NotificationRepository.cs:34-39 | placing a record into a newest-first list keeps it newest-first and adds exactly that record: the result holds the old elements, each as often as before, plus the record once |
| Repository.InsertAtFront | Src/Modules/Notifications/Repository/NotificationRepository.cs:34-39 | a record no older than the head of a newest-first list, put in front, leaves the list newest-first with that one record added |
| Repository.InsertBehindHead | Src/Modules/Notifications/Repository/NotificationRepository.cs:34-39 | a record older than the head, once placed in the tail, leaves the whole list newest-first with that one record added |
| Repository.GetAll | Src/Modules/Notifications/Repository/NotificationRepository.cs:34-39 | every row is listed once, nothing else is listed, and the list is ordered by CreatedAt descending |
| Producer.ProduceAsync | Src/Infrastructure/Kafka/KafkaProducer.cs:46-83 | a null or empty topic and a null message throw the argument exceptions; send and serialisation failures throw InvalidOperationException naming the topic; success appends exactly one message with the given key to that topic; failure appends nothing |
| Producer.ProduceNotificationEvent | Src/Infrastructure/Kafka/KafkaProducer.cs:85-88 | the event goes to the events topic of the settings and nowhere else |
| Service.SendByChannel | Src/Modules/Notifications/Services/NotificationService.cs:156-179 | the send succeeds exactly for a declared channel whose Data reads back; unreadable Data throws the JSON error, and only an undeclared channel throws NotSupportedException |
| Service.AttemptDelivery | Src/Modules/Notifications/Services/NotificationService.cs:134-151 | one attempt leaves the identity fields alone; it is Sent with SentAt set exactly when the send succeeds; otherwise it is Failed with the exception text and RetryCount plus one, keeping SentAt |
| Service.FailureIncrementsRetryCount | Src/Modules/Notifications/Services/NotificationService.cs:144-151 | a failure adds exactly one to RetryCount, except at int.MaxValue, where it wraps to int.MinValue |
| Service.RedeliveryOfSentRecord | Src/Modules/Notifications/Services/NotificationService.cs:134-151 | a Sent record delivered again is re-sent with a new SentAt; if that attempt fails it becomes Failed and keeps its old SentAt |
| Service.ReplayHistory | Src/Modules/Notifications/Services/NotificationService.cs:125-154 | after any sequence of attempts: RetryCount has grown by the number of failures as a C# int (the plain sum while that fits), SentAt is the latest success's time, ErrorMessage is the latest failure's text, Status follows the last attempt, and identity is unchanged |
| Service.ProcessNotification | Src/Modules/Notifications/Services/NotificationService.cs:125-154 | a missing Id is skipped without error; otherwise the single attempt's record is written back; it throws only when that write fails, and then nothing changes |
| Service.Validate | Src/Modules/Notifications/Services/NotificationService.cs:37-55 | the request passes exactly when UserId, Channel and Template are not blank and Channel parses; failures give each check's message, in the source's order, ending with "Invalid channel: " and the text for a channel that does not parse |
| Service.RecoverFromConflict | Src/Modules/Notifications/Services/NotificationService.cs:81-91 | after a conflict, the answer is the record holding the key when there is one, and the original failure rethrown exactly when there is none |
| Service.AfterRacer | Src/Modules/Notifications/Services/NotificationService.cs:78 | the table our insert meets is the table plus the concurrent creator's record, if any |
| Service.CreateNotification | Src/Modules/Notifications/Services/NotificationService.cs:30-116 | a null or invalid request changes nothing; existing rows are kept; only the new record or the concurrent creator's appears; a successful answer is a stored record carrying the request's key; at most the one NotificationCreated event is published |
| Service.Accept | Src/Modules/Notifications/Services/NotificationService.cs:57-65 | a non-empty key already stored returns that record and changes nothing |
| Service.StoreAndDispatch | Src/Modules/Notifications/Services/NotificationService.cs:76-91 | a key taken by the time of the insert returns the record holding it without further effect; otherwise the new record is stored |
| Service.Dispatch | Src/Modules/Notifications/Services/NotificationService.cs:93-115 | with a producer, the record stays Pending and one event is published, or the produce error surfaces; without one, the record is processed inline and the answer is the record as re-read afterwards |
| Service.GetNotification | Src/Modules/Notifications/Services/NotificationService.cs:118-122 | the response for the record with that Id, or null exactly when there is none |
| Consumer.RouteFailure | Src/Infrastructure/Kafka/NotificationEventConsumer.cs:117-131 | a failed event is retried exactly when its AttemptNumber is below RetryAttempts, with AttemptNumber plus one and delay RetryDelayMs times the new number as a C# int; otherwise it is dead-lettered unchanged |
| Consumer.LinearBackoff | Src/Infrastructure/Kafka/NotificationEventConsumer.cs:119-120 | while the product fits in an int, the delay is exactly RetryDelayMs times the new attempt number |
| Consumer.Delay | Src/Infrastructure/Kafka/NotificationEventConsumer.cs:120 | Task.Delay returns exactly for non-negative delays and never returns for -1 |
| Consumer.Reroute | Src/Infrastructure/Kafka/NotificationEventConsumer.cs:117-131 | the catch block either appends exactly one message to the retries or dead-letter topic and returns, or appends nothing |
| Consumer.HandleMessage | Src/Infrastructure/Kafka/NotificationEventConsumer.cs:88-138 | a null message value throws ArgumentNullException, which escapes; a malformed body or the JSON null is dropped with no effect; a normal return of processing produces nothing; a throw leaves the table unchanged and produces at most one message to the route's topic, exactly when the handler returns |
| Consumer.ChannelFailuresAreNotRetried | Src/Infrastructure/Kafka/NotificationEventConsumer.cs:106-111 | unless the database write fails, handling an event produces nothing and returns normally, whatever the channel or Data |
| Consumer.RouteIgnoresRecord | Src/Infrastructure/Kafka/NotificationEventConsumer.cs:117 | the retry decision depends on the event alone, not on the stored record or its RetryCount |
| Consumer.Poll | Src/Infrastructure/Kafka/NotificationEventConsumer.cs:49-60 | the consumer reads the events topic at its position, and nothing once the position is at the end |
| Consumer.PollIgnoresOtherTopics | Src/Infrastructure/Kafka/NotificationEventConsumer.cs:49 | producing to another topic does not change what the consumer reads |
| Consumer.NullValueIsNotCommitted | Src/Infrastructure/Kafka/NotificationEventConsumer.cs:62-79 | a message whose value is null passes the null check on the message, makes the handler throw, and is left uncommitted with nothing else changed |
| Consumer.ConsumeStep | Src/Infrastructure/Kafka/NotificationEventConsumer.cs:60-69 | one loop pass handles the next events-topic message, and commits past it exactly when the handler returned normally |
| Consumer.Restart | Src/Infrastructure/Kafka/NotificationEventConsumer.cs:64-65 | a restarted consumer resumes from the committed offset |
| Consumer.UncommittedIsRedelivered | Src/Infrastructure/Kafka/NotificationEventConsumer.cs:64-79 | a message whose handling threw is delivered again if the consumer restarts before its next commit |
| Consumer.LaterSuccessSkipsFailed | Src/Infrastructure/Kafka/NotificationEventConsumer.cs:64-65 | a normally handled next message commits past an earlier message whose handling threw, so a restart never delivers that one again |
| Consumer.Run | Src/Infrastructure/Kafka/NotificationEventConsumer.cs:56-80 | any number of loop passes keep the table valid, never move the committed offset back and keep it at or behind the read position; a handler that never returns stops the loop with its message uncommitted |
| Consumer.RunNeverFeedsItself | Src/Infrastructure/Kafka/NotificationEventConsumer.cs:49 | with distinct topics the consumer never adds to the topic it reads, so retried events are never consumed here and it handles only the events present when it started |
| Consumer.FailureChain | Src/Infrastructure/Kafka/NotificationEventConsumer.cs:117-131 | if every retry were handled again and failed again, every route but the last would be a retry and the chain would end in one dead letter |
| Consumer.FailureChainShape | Src/Infrastructure/Kafka/NotificationEventConsumer.cs:117-131 | if every retry were handled again and failed again, attempt a would see max(0, RetryAttempts - a) retries numbered a+1, a+2, ..., then one dead letter |
| Consumer.NewEventChain | Src/Infrastructure/Kafka/NotificationEventConsumer.cs:117-131 | from attempt 1 that gives max(0, RetryAttempts - 1) retries and then one dead letter |
| Consumer.DefaultChain | Src/Infrastructure/Kafka/NotificationEventConsumer.cs:117-131 | with the default settings: retries after 2000 ms and 3000 ms, then a dead letter at attempt 3 |
| Consumer.OverflowingDelayThrows | Src/Infrastructure/Kafka/NotificationEventConsumer.cs:119-120 | a base delay of 10^9 ms wraps to a negative delay at attempt 3, so Task.Delay throws, nothing is produced and the offset stays uncommitted |
| Scenarios.OmittedFieldsRejected | Src/Modules/Notifications/DTO/CreateNotificationRequest.cs:11-19 | a request with every string field omitted is rejected on its UserId and changes nothing |
| Scenarios.RepeatWithKeyIsIdempotent | Src/Modules/Notifications/Services/NotificationService.cs:57-91 | repeating a successful keyed request returns the identical answer and changes neither table nor topics, the empty key included |
| Scenarios.ConcurrentCreatorWins | Src/Modules/Notifications/Services/NotificationService.cs:81-91 | a creator committing the same key first wins: the answer is its record and nothing is published |
| Scenarios.DispatchFailures | Src/Modules/Notifications/Services/NotificationService.cs:93-113 | after the insert, creation fails only with the producer's argument or send error, or with the inline processing's failed write |
| Scenarios.NoUniqueViolationEscapes | Src/Modules/Notifications/Services/NotificationService.cs:81-91 | the rethrow is unreachable: creation never fails with a unique-constraint violation |
| Scenarios.AsyncCreatePublishesOneEvent | Src/Modules/Notifications/Services/NotificationService.cs:93-115 | asynchronous creation stores and answers a Pending record and publishes one event for it, of type "NotificationCreated" with AttemptNumber 1 |
| Scenarios.SyncCreateProcessesInline | Src/Modules/Notifications/Services/NotificationService.cs:107-113 | synchronous creation publishes nothing and answers the record after one attempt, Sent or Failed according to the attempt |
| Scenarios.RepeatWithoutKeyDuplicates | Src/Modules/Notifications/Services/NotificationService.cs:57-80 | without a key two identical requests leave two distinct records |
| Scenarios.UnkeyedCallStoresOwnRecord | Src/Modules/Notifications/Services/NotificationService.cs:67-113 | an unkeyed call leaves its own record with the request's user in the table, whether or not it then fails, and keeps every earlier row |
| Scenarios.UnkeyedAnswerIsNewRecord | Src/Modules/Notifications/Services/NotificationService.cs:67-115 | without a key, a successful answer is about the call's own new record: its Id, the request's user and template, and the parsed channel's name |
| Scenarios.LowerCaseChannelAnsweredInMemberCase | Src/Modules/Notifications/Services/NotificationService.cs:187 | a request for channel "email" is answered with channel "Email" |
| Scenarios.SevenParses | Src/Modules/Notifications/Services/NotificationService.cs:52 | the channel text "7" parses as the undeclared value 7 |
| Scenarios.SevenThenNoBreakSpaceRejected | Src/Modules/Notifications/Services/NotificationService.cs:52 | the channel text "7" followed by a no-break space is rejected |
| Scenarios.EmailParses | Src/Modules/Notifications/Services/NotificationService.cs:52 | the channel text "email" parses as Email |
| Scenarios.AcceptedWith | Src/Modules/Notifications/Services/NotificationService.cs:37-55 | a request with non-blank user and template whose channel text parses is accepted with that channel |
| Scenarios.SyncUndeclaredFails | Src/Modules/Notifications/Services/NotificationService.cs:176-177 | inline processing of any accepted undeclared channel answers Failed, with RetryCount 1 and the NotSupportedException text |
| Scenarios.UndeclaredChannelAcceptedThenFails | Src/Modules/Notifications/Services/NotificationService.cs:176-177 | inline processing of channel 7 answers Failed with RetryCount 1 and the text "Channel 7 is not supported" |
| Scenarios.ConsumeEventOfStoredRecord | Src/Infrastructure/Kafka/NotificationEventConsumer.cs:60-65 | a pass that reads an event for a stored record, when the write-back succeeds, processes that record once, produces nothing and commits |
| Scenarios.CreatedThenConsumed | Src/Infrastructure/Kafka/NotificationEventConsumer.cs:60-65 | after asynchronous creation, the consumer reads exactly the new event, processes that record once and commits past it |

## Where the code departs from the expected behaviour

A reader of a notification service with a retry topic and a dead-letter topic
might expect the behaviour below. The code does not have it, and the model
follows the code.

- One might expect a channel-send failure to go through the retry and
  dead-letter policy. In the code, `ProcessNotificationAsync` catches every
  send failure and writes it into the record. The consumer's retry branch runs
  only when writing the record back throws
  (`Consumer.ChannelFailuresAreNotRetried`).
- One might expect retries to be driven by the record's RetryCount. The code uses the
  event's AttemptNumber (`Consumer.RouteIgnoresRecord`).
- One might expect retry messages to be consumed again. The consumer
  subscribes only to the events topic, so nothing in this code reads the
  retries topic (`Consumer.RunNeverFeedsItself`). `Consumer.FailureChain`
  describes the chain that would result if something did. So an event is
  neither dead-lettered after RetryAttempts failed cycles nor delivered after
  some number of retries: its first failure is its only handling here.
- One might expect SentAt to be non-null if and only if Status is Sent. A Sent
  record that is delivered again and fails becomes Failed and keeps its SentAt
  (`Service.RedeliveryOfSentRecord`).
- One might expect synchronous mode to retry in-process. The code makes exactly one
  attempt (`Scenarios.SyncCreateProcessesInline`).
- One might expect RetryCount never to decrease. It is a C# int incremented
  unchecked, so a failure at int.MaxValue wraps it to int.MinValue
  (`Service.FailureIncrementsRetryCount`, `Service.ReplayHistory`).
- One might expect at-least-once processing: every event handled until its
  handling returns. A message whose handling threw is left uncommitted, but
  the in-memory position has moved past it. The next message that is handled
  normally commits past both. So the failed one is redelivered only if the
  consumer restarts before that commit (`Consumer.UncommittedIsRedelivered`,
  `Consumer.LaterSuccessSkipsFailed`).
- Status Retrying is declared but never assigned (`Service.AttemptDelivery`
  yields only Sent or Failed).

## Left out

- Startup wiring in Program.cs, apart from the mode switch at line 37
  (`KafkaConfig.ProducerFor`): CORS, health checks, `EnsureCreated`, and the
  catch that falls back to synchronous mode when registration throws.
- The HTTP controller and its status-code mapping. The `[StringLength]` limits
  are checked by model binding before the service runs, and the service does
  not depend on them. `Notifications.WithinLengthLimits` states them, and no
  operation requires them.
- JSON: `Data` is kept as its serialised text. A message body that is not
  JSON of the event's shape is the `Malformed` payload. A message with no value
  at all is the separate `NullValue` payload, for which `Deserialize` throws
  ArgumentNullException rather than JsonException. A `Data` that does not read back as a
  dictionary is the `dataError` parameter. `JsonSerializer.Serialize` of the
  request's dictionary is not modelled.
- `IsUniqueConstraintViolation`: the SQLite message text is not modelled. The
  table reports a unique-index conflict as its own `UniqueViolation` case, and
  that case always passes the catch filter.
- `Guid.NewGuid` collisions: the new Id is required to be fresh. A
  primary-key conflict on insert, and the lookup by a null key that would
  follow it, are not modelled.
- Database read failures, and write failures other than the one modelled by
  `dbFault`/`UniqueViolation`/`Concurrency`.
- Concurrency: one consumer, one loop pass at a time, and at most one
  concurrent creator per creation call (`AcceptEnv.racer`). Cancellation, the
  5-second start-up wait and the `ConsumeException` back-off are not modelled.
  A failing `Commit` is not modelled either.
- Kafka partitions, per-key ordering, and the case where a `ProduceException`
  is thrown for a message the broker did in fact store.
- Logging, the `Task.Delay(100)` inside `ProcessByChannel`, and the times
  themselves, which are parameters.
- `Enums.ParseChannel`: comma-separated flag lists and case folding beyond
  ASCII letters are not modelled. Nor is the number reader's acceptance of
  trailing U+0000 characters after the digits.
- `Common.Error.Message`: only the NotSupported and Json texts are ever stored.
  For `Task.Delay`'s ArgumentOutOfRangeException the text is the generic .NET
  wording, not that method's own, and nothing depends on it.
- `Consumer.FailureChain`: this is the chain that would form if retry messages
  were consumed by the same logic. The code has no such loop (see above).
- `Consumer.HandleMessage`: a `NotificationEvent` deserialised from a message
  carries arbitrary field values. The model does not constrain them.
- `NotificationCreatedEvent.cs` and the repository and service interfaces:
  these contain no logic.
