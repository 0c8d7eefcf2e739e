# redis-streams-pubsub-ts in Dafny

This project models the reliable-delivery core of a publish/subscribe service built on Redis
Streams and a consumer group:

- the **Consumer** (`src/consumer/consumer.ts`): creating the group (tolerating BUSYGROUP),
  the pending-recovery pass (XPENDING, then XCLAIM of eligible entries and processing of what was
  claimed), the new-message pass (XREADGROUP with `>` and a defensive check of the reply's shape),
  the processing contract of one message (acknowledge an empty payload, count and acknowledge a
  parsed one, acknowledge after an "Unexpected token" error, leave everything else pending), and
  the `start`/`stop` lifecycle with its main loop;
- the **Publisher** (`src/publisher/publisher.ts`): publishing one message (XADD of a serialised
  payload whose content is "Message #n"), the counter that rises only on success, the
  `startPublishing`/`stopPublishing` flags, `publishBatch`, and the folding of an XINFO STREAM
  reply into a record;
- the reconnection back-off `retryStrategy` of the broker client (`src/common/redis.ts`);
- the message shapes of `src/types/messages.ts` and the positivity guarantees of the numeric
  settings in `src/common/config.ts`.

The Redis server is modelled as plain data (`Broker.State`: the stream's entries in id order, the
group and its delivery cursor, the pending entries list, the acknowledged ids) with one total
transition per command (`Broker.Execute`). Every call may fail instead: a fault oracle, given the
number of calls already made on the connection and the command, decides whether and with which
message. A `Broker.Connection` holds the server state and the log of every call made on it with
its outcome, so properties can speak about exactly which commands an operation sends.

Both classes are written imperatively, as in the source (`Consumer.Consumer`,
`Publisher.Publisher`, with their fields updated in place and loops carrying invariants). Each
method is proved to leave exactly the state that a function of `ConsumerSpec` or `PublisherSpec`
computes from the state before; the guarantees of the program are then proved as lemmas about
those functions in `ConsumerProperties` and `PublisherProperties`.

Files: `wrappers.dfy` (Option, Result), `text.dfy` (`includes`, decimal rendering of integers),
`messages.dfy`, `config.dfy`, `redis.dfy`, `broker.dfy`, `consumer_spec.dfy`, `consumer.dfy`,
`consumer_properties.dfy`, `publisher_spec.dfy`, `publisher.dfy`, `publisher_properties.dfy`.

### Behaviour of the code worth noting

- The test at `src/consumer/consumer.ts:149` claims every pending entry owned by another
  consumer whatever its idle time; only XCLAIM's min-idle guard of 5 000 ms
  (`src/consumer/consumer.ts:154`) holds back an entry idle for less than that
  (`ConsumerProperties.YoungEntryLeftAlone`). The 10 000 ms
  threshold applies only to this consumer's own entries. `ConsumerProperties.StrandedEntryRecovered`
  covers another consumer's entry idle for 5 000 ms as well.
- The comment at `src/consumer/consumer.ts:226` intends parse errors to be acknowledged so that
  they are not reprocessed forever. The test at line 227 acknowledges only after an error whose
  message contains "Unexpected token"; the message JSON.parse gives for truncated input
  ("Unexpected end of JSON input") does not contain it, so such an entry stays pending and is
  redelivered (`ConsumerProperties.TruncatedJsonStaysPending`).
- A payload that parses is counted before it is logged and acknowledged. When logging it throws,
  the entry stays pending with the counter already raised (`ConsumerProperties.ParsedPayloadCounted`).
  This happens for a timestamp outside the range of ECMAScript dates ("Invalid time value"), and
  equally for valid JSON that is not a payload at all (see "## Left out").
- A failing acknowledgement at line 214 whose message contains "Unexpected token" is followed by
  a second acknowledgement from the catch block; after any other failed acknowledgement the
  entry stays pending (`ConsumerProperties.AckFailureFollowUp`).
- The broker keeps its state well formed (`Broker.WellFormed`): the n-th entry carries the n-th id
  XADD hands out, so stream ids are distinct, which is what `ConsumerProperties.OwnRecentEntryUntouched`
  and `ConsumerProperties.StrandedEntryRecovered` assume of the stream.

## Model

| member | source | states |
|---|---|---|
| Redis.RetryStrategy | src/common/redis.ts:13-17 | the strategy always returns a delay (reconnection never gives up); the delay is times*100 up to 30 attempts and exactly 3000 ms from then on, never more than 3000 ms |
| Redis.RetryDelayMonotone | src/common/redis.ts:14 | a later reconnection attempt never waits less than an earlier one |
| Config.Setting | src/common/config.ts:20-27 | a numeric setting is accepted exactly when it is unset or a positive integer; an unset one takes its default, a set one keeps its value, and every accepted value is positive |
| Config.LoadPublisherSettings | src/common/config.ts:20-21 | the publisher's interval and message count load exactly when both are acceptable and are then positive; each field is the value given when set and its default (1000 ms, 100) when unset, whether or not the other is set |
| Config.LoadConsumerSettings | src/common/config.ts:25-27 | the consumer's batch size, block time and processing time load exactly when all three are acceptable, then satisfy the consumer constructor's precondition; each field is the value given when set and its default (10, 5000 ms, 500 ms) when unset, independently of the others |
| Messages.Delivered | src/consumer/consumer.ts:77-87 | a null reply or one failing the shape check (not an array, empty, first element not an array or shorter than 2) yields no message; otherwise the messages are exactly `result[0][1]` |
| Messages.Accepted | src/consumer/consumer.ts:96-105 | the loop hands at most one processMessage call per message to the processor, each with a non-empty id and a non-empty payload |
| Messages.AcceptedExactly | src/consumer/consumer.ts:96-105 | a processMessage call is made for a message if and only if the message passes the guard `msg && msg.id && msg.message && msg.message.payload`, with that message's id and payload |
| Text.IncludesIff | src/consumer/consumer.ts:42 | `includes` holds exactly when the part occurs at some position of the text |
| Text.DigitsValueOfNatToString | src/publisher/publisher.ts:32 | the decimal rendering of a number reads back as that number |
| Text.NatToStringInjective | src/publisher/publisher.ts:32 | distinct numbers render as distinct strings |
| Broker.IdOfInjective | src/publisher/publisher.ts:42-47 | the ids XADD assigns to distinct stream positions are distinct |
| Broker.Claim | src/consumer/consumer.ts:150-156 | a non-empty XCLAIM reply means the entry was pending and idle for at least the min-idle time, now belongs to the claimer, and the reply carries the payload the stream holds for it |
| Broker.PendingOfDistinct | src/consumer/consumer.ts:121-127 | XPENDING reports each pending id at most once |
| Broker.ExecuteWellFormed | src/publisher/publisher.ts:42-47 | every command the components send, failed or not, keeps the stream's ids in XADD order, the group cursor within the stream and the PEL within the stream |
| Broker.WellFormedDistinct | src/publisher/publisher.ts:42-47 | the entry ids of a well-formed stream are pairwise distinct |
| Consumer.Consumer.constructor | src/consumer/consumer.ts:17-27 | a new consumer takes its settings (positive batch size, block time and processing time), is not running, has counted nothing and has made no call |
| Consumer.Consumer.InitConsumerGroup | src/consumer/consumer.ts:32-55 | sends XGROUP CREATE and returns or rethrows as ConsumerSpec.InitConsumerGroup says (its properties: InitWithoutFault, InitWithFault) |
| Consumer.Consumer.ReadNewMessages | src/consumer/consumer.ts:60-114 | the loop over the reply processes the messages as ConsumerSpec.ReadNewMessages says (properties: ReadNewMessagesEffect, ReadProcessesNewEntries) |
| Consumer.Consumer.ProcessPendingMessages | src/consumer/consumer.ts:118-178 | the claim loop leaves the state ConsumerSpec.ProcessPendingMessages computes (properties: ProcessPendingMessagesEffect, OwnRecentEntryUntouched, StrandedEntryRecovered) |
| Consumer.Consumer.ProcessMessage | src/consumer/consumer.ts:183-243 | the try and catch blocks leave the state ConsumerSpec.ProcessMessage computes (properties: ProcessMessageEffect and the lemmas after it) |
| Consumer.Consumer.Start | src/consumer/consumer.ts:247-275 | a running consumer is left unchanged; otherwise isRunning is set before initialisation, a rethrown initialisation error is returned with isRunning still set, and after a successful one the loop runs pending pass then read until stopped |
| Consumer.Consumer.Stop | src/consumer/consumer.ts:280-283 | clears isRunning |
| ConsumerProperties.ProcessMessageEffect | src/consumer/consumer.ts:183-243 | processMessage raises the counter exactly when the payload parses and sends nothing but at most two XACKs of its own id |
| ConsumerProperties.EmptyPayloadAcked | src/consumer/consumer.ts:186-191 | an empty or absent payload is acknowledged at once, without parsing and without counting; the entry leaves the PEL when the XACK succeeds |
| ConsumerProperties.InvalidTimeValueNotAcked | src/consumer/consumer.ts:207 | the RangeError of `toISOString` does not pass the "Unexpected token" test |
| ConsumerProperties.AckFailureFollowUp | src/consumer/consumer.ts:183-243 | when the XACK of an empty or parsed payload fails, exactly one more XACK follows, if and only if the error message contains "Unexpected token", whatever its outcome; otherwise the broker is unchanged and the entry stays pending; a parsed payload stays counted |
| ConsumerProperties.ParsedPayloadCounted | src/consumer/consumer.ts:197-214 | a parsed payload is counted exactly once; it is then acknowledged unless logging its timestamp throws, in which case nothing is sent and the count stays raised |
| ConsumerProperties.ParseErrorAckedIffUnexpectedToken | src/consumer/consumer.ts:220-242 | after a parse error, exactly one XACK is sent if and only if the message contains "Unexpected token" (its failure is swallowed); otherwise nothing is sent and the entry stays pending |
| ConsumerProperties.TruncatedJsonStaysPending | src/consumer/consumer.ts:227 | a payload rejected as "Unexpected end of JSON input" is neither counted nor acknowledged |
| ConsumerProperties.ProcessEachEffect | src/consumer/consumer.ts:96-105 | the loop processes exactly the processable messages, in order, counts those that parse and sends only their XACKs, leaving the stream unchanged |
| ConsumerProperties.ReadNewMessagesEffect | src/consumer/consumer.ts:60-114 | one XREADGROUP first, then only XACKs of the processed messages; exactly the processable messages of the reply are processed, and a failed read processes nothing |
| ConsumerProperties.ReadProcessesNewEntries | src/consumer/consumer.ts:63-74 | without a fault, the read hands every not-yet-delivered entry (up to batchSize) with an id and a payload to processMessage, in stream order |
| ConsumerProperties.ClaimEachCalls | src/consumer/consumer.ts:147-170 | the claim loop sends only XCLAIMs and XACKs of eligible entries, processes only eligible entries, each with the payload the stream holds, and leaves the stream unchanged |
| ConsumerProperties.ClaimEachClaims | src/consumer/consumer.ts:147-171 | the claim loop claims a prefix of the eligible entries in XPENDING order, all of them when no claim fails, and a failed XCLAIM is its last call (the throw leaves the loop for the catch at line 171) |
| ConsumerProperties.ProcessPendingMessagesEffect | src/consumer/consumer.ts:118-178 | one XPENDING for at most batchSize rows first; then claims exactly the rows the test at line 149 selects, in order, until a claim fails, and a failed XCLAIM is the last call of the pass; everything sent or processed concerns those rows only |
| ConsumerProperties.OwnRecentEntryUntouched | src/consumer/consumer.ts:149 | an entry of this consumer idle for at most 10 000 ms is neither claimed, acknowledged nor processed by the pending pass |
| ConsumerProperties.StrandedEntryRecovered | src/consumer/consumer.ts:118-178 | with the broker answering, any row XPENDING lists that the test at line 149 selects and that has been idle at least 5 000 ms, wherever it stands in the list, is claimed, processed with the payload the stream holds for it, counted, and ends the pass out of the PEL and acknowledged |
| ConsumerProperties.ClaimEachLeavesYoung | src/consumer/consumer.ts:150-158 | an entry whose PEL row is idle for less than the min-idle time gets an empty XCLAIM reply: the claim loop neither processes nor acknowledges it, and leaves its row as it was |
| ConsumerProperties.YoungEntryLeftAlone | src/consumer/consumer.ts:147-158 | any row XPENDING lists that has been idle for less than 5 000 ms, whoever owns it, is neither processed nor acknowledged by the pending pass, and its PEL row, the stream and the group are left as they were |
| ConsumerProperties.ClaimEachLeavesOthers | src/consumer/consumer.ts:147-170 | claiming and processing other entries leaves an entry's pending row, the stream and the group alone, and acknowledged ids stay acknowledged |
| ConsumerProperties.RunScans | src/consumer/consumer.ts:268-274 | n iterations of the main loop scan in strict alternation: XPENDING, XREADGROUP, XPENDING, XREADGROUP, ... |
| ConsumerProperties.BusyGroupRecognised | src/consumer/consumer.ts:42 | the broker's reply to creating an existing group passes the BUSYGROUP test |
| ConsumerProperties.InitWithoutFault | src/consumer/consumer.ts:32-46 | with the broker answering, initialisation succeeds and the group exists afterwards; a new group starts at the end of the stream and an existing one is left unchanged |
| ConsumerProperties.InitWithFault | src/consumer/consumer.ts:40-53 | when XGROUP CREATE fails, initialisation succeeds if and only if the message contains BUSYGROUP, and otherwise rethrows that same error |
| Publisher.Publisher.constructor | src/publisher/publisher.ts:16-22 | a new publisher has counted nothing, is not running and has no interval; it keeps the configured (positive) publishing interval |
| Publisher.Publisher.PublishMessage | src/publisher/publisher.ts:27-64 | one XADD, with the outcome PublisherSpec.PublishMessage gives (properties: PublishMessageEffect) |
| Publisher.Publisher.StartPublishing | src/publisher/publisher.ts:69-84 | a no-op while running; otherwise sets isRunning and an interval with the given period, or with config.PUBLISHER_INTERVAL_MS when none is given |
| Publisher.Publisher.StopPublishing | src/publisher/publisher.ts:89-96 | whatever the state before, afterwards not running and no interval |
| Publisher.Publisher.PublishBatch | src/publisher/publisher.ts:101-115 | the loop makes the max(count, 0) sequential publishes of PublisherSpec.PublishBatch, collecting the ids in call order and propagating the first error |
| Publisher.Publisher.GetStreamInfo | src/publisher/publisher.ts:120-135 | the stride-2 loop builds the record PublisherSpec.GetStreamInfo gives: pairs of an array reply, an empty record otherwise |
| PublisherSpec.PublisherName | src/publisher/publisher.ts:35 | the publisher name is HOSTNAME when set and non-empty, otherwise "unknown"; never empty |
| PublisherProperties.ContentNumbersMessage | src/publisher/publisher.ts:32 | the content is "Message #" followed by decimal digits that read back as count + 1 |
| PublisherProperties.ContentInjective | src/publisher/publisher.ts:32 | different counters give different contents |
| PublisherProperties.PublishMessageEffect | src/publisher/publisher.ts:27-64 | one XADD; on success the serialised payload is appended under the next id, which is returned, and the counter rises by one; on failure the error is rethrown and neither stream nor counter changes |
| PublisherProperties.PublishNCounts | src/publisher/publisher.ts:101-107 | after n publishes the stream gained some m entries, the counter rose by m and the log by m calls plus the failed one, if any; the group is untouched |
| PublisherProperties.PublishNIds | src/publisher/publisher.ts:101-107 | a successful run of n publishes appends n entries and returns their ids in call order |
| PublisherProperties.PublishNError | src/publisher/publisher.ts:101-107 | a failed run stops at the first failure, which it returns, with fewer than n entries appended |
| PublisherProperties.PublishNEntries | src/publisher/publisher.ts:101-107 | the appended entries are the serialised payloads in call order, each under the next id, and earlier entries are untouched |
| PublisherProperties.NonPositiveBatchPublishesNothing | src/publisher/publisher.ts:104 | a batch of zero or a negative count publishes nothing and returns no id |
| PublisherProperties.BatchIdsDistinct | src/publisher/publisher.ts:101-115 | a successful batch returns max(count, 0) pairwise distinct ids and raises the counter by as many |
| PublisherProperties.InfoRecordKeys | src/publisher/publisher.ts:127-131 | the record's keys are exactly the strings of the reply's even positions |
| PublisherProperties.InfoRecordLastWins | src/publisher/publisher.ts:128-131 | a repeated key maps to the value after its last occurrence |
| PublisherProperties.OddTrailingKeyUndefined | src/publisher/publisher.ts:130 | an odd-length reply maps its trailing key to undefined |
| PublisherProperties.GetStreamInfoEffect | src/publisher/publisher.ts:120-135 | one XINFO STREAM, no change to the stream or counter; the error is not caught; with the broker answering the record holds the stream's length, group count and last id |

## Left out

- Logging: every `logger.*` call. The only log with an effect, the `toISOString` call at
  `src/consumer/consumer.ts:207`, is modelled as the error it can throw.
- Timers and concurrency: the `setTimeout` processing delay, the `setInterval` tick (a
  `Publisher.Timer` value records the period; each tick would be one `PublishMessage` call, and
  its rejected promise goes unhandled), overlapping ticks, and several consumers racing on one
  group. The model is sequential with one caller per connection.
- Consumer.Consumer.Start: the asynchronous `stop` is modelled as observed at the head of the
  main loop after a given number of iterations; a loop that never stops is not modelled.
- Idle time: the broker's clock is not modelled; PEL idle times are data that only deliveries
  (XREADGROUP) and claims reset to 0.
- JSON.parse and JSON.stringify are functions given to the model (`parse`, `stringify`); uuidv4,
  Date.now, Math.random and HOSTNAME are inputs of `PublisherSpec.Environment`.
- `parse` returns a `MessagePayload` with an integer timestamp, so valid JSON that is not such a
  payload is not represented as itself: `{}` or `{"timestamp":"x"}` (an invalid date, so
  `toISOString` throws a RangeError at line 207) and `null` (`payload.id` throws a TypeError at
  line 206) all count the message and then leave it pending, and the model covers them only as a
  payload whose timestamp lies outside the range of ECMAScript dates, which has that same outcome.
  The exact error message of the TypeError is not modelled (it contains no "Unexpected token").
- `getConsumerGroupInfo` (`src/consumer/consumer.ts:288-291`): a passthrough of XINFO, not modelled.
- Reply decoding by the client library: replies are modelled in the shapes the code reads
  (`msg.id`, `msg.message.payload`, `claimResult[0][1].payload`), not as raw RESP arrays. The
  consumer's properties therefore hold for a client that returns those declared shapes; ioredis
  returns a stream entry as `[id, [field, value, ...]]`, with which the guard at
  `src/consumer/consumer.ts:97` rejects every message and `claimData[1].payload` at line 160 is
  undefined.
- The modelled XINFO STREAM reply (`Broker.StreamInfo`) carries only `length`, `groups` and
  `last-generated-id`; a real server returns further fields, and fails on a missing key, which the
  model does not.
- PublisherSpec.IdOrEmpty maps a null XADD reply to the empty string, but the broker model always
  returns an id, so no lemma exercises that path.
- Configuration: reading the environment, coercing its strings to numbers (a fractional or
  non-numeric value), the string settings and `process.exit` on a validation error are not
  modelled; a numeric setting arrives as an optional integer (`Config.Setting`).
- One stream and one consumer group; the stream and group names are fixed.
- Object keys such as `__proto__`, which a plain object treats specially, are ordinary map keys in
  the record getStreamInfo returns.
- The process entry points (`src/consumer/index.ts`, `src/publisher/index.ts`), signal handling
  and the client's connection events are not part of this model.
