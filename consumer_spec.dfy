/** The consumer's delivery logic (src/consumer/consumer.ts) as functions of the session state.
    The Consumer class in consumer.dfy runs the same steps imperatively and is proved to end in
    the state these functions compute; the properties of the logic are proved about them in
    consumer_properties.dfy. */
module ConsumerSpec {
  import opened Wrappers
  import opened Text
  import opened Messages
  import opened Broker

  /** The error text that marks a JSON parse failure (consumer.ts:227). */
  const UnexpectedToken := "Unexpected token"
  /** The error text that marks an existing group (consumer.ts:42). */
  const BusyGroup := "BUSYGROUP"
  /** Entries idle longer than this are reclaimed even from this consumer itself (consumer.ts:149). */
  const ReclaimIdleMs := 10000
  /** The min-idle-time guard passed to XCLAIM (consumer.ts:154). */
  const ClaimMinIdleMs := 5000
  /** ECMAScript dates span 8.64e15 ms either side of the epoch. */
  const MaxTimeValue := 8_640_000_000_000_000
  /** The RangeError `toISOString` throws for a date outside that span. */
  const InvalidTimeValue := "Invalid time value"

  /** The consumer's fixed settings and its environment: JSON.parse, which returns the payload or
      throws with a message, and the broker faults. */
  datatype Settings = Settings(
    consumerId: string,
    batchSize: nat,
    blockMs: nat,
    processTimeMs: nat,
    parse: string -> Result<MessagePayload>,
    faults: Faults)

  /** What the consumer's operations change: its connection (the broker and the calls made on
      it), the processed-message counter, and every processMessage call made so far. */
  datatype Session = Session(conn: Connection, messageCount: nat, handled: seq<Handled>)

  /** One broker call made by the consumer. */
  function Request(c: Settings, s: Session, cmd: Command): (r: (Session, Result<Reply>))
    ensures r.0.messageCount == s.messageCount && r.0.handled == s.handled
    ensures r.0.conn.log == s.conn.log + [Call(cmd, ErrorOf(r.1))]
  {
    var (conn, reply) := Send(s.conn, c.faults, cmd);
    (s.(conn := conn), reply)
  }

  /** `new Date(t).toISOString()` does not throw. */
  predicate DisplayableTime(t: int)
  {
    -MaxTimeValue <= t <= MaxTimeValue
  }

  /** The claim test at consumer.ts:149. */
  predicate ShouldClaim(p: PendingMessage, consumerId: string)
  {
    p.consumer != consumerId || p.idleTime > ReclaimIdleMs
  }

  /** The test at consumer.ts:227: a processing error that still acknowledges the entry. */
  predicate AcksAfterError(message: string)
  {
    Includes(message, UnexpectedToken)
  }

  /** The test at consumer.ts:42: a group-creation error that counts as success. */
  predicate GroupAlreadyExists(message: string)
  {
    Includes(message, BusyGroup)
  }

  function ReadCommand(c: Settings): Command
  {
    XReadGroup(c.consumerId, c.batchSize, c.blockMs)
  }

  function ClaimCommand(c: Settings, id: EntryId): Command
  {
    XClaim(c.consumerId, ClaimMinIdleMs, id)
  }

  /** initConsumerGroup: the session after XGROUP CREATE, and what the call returns or rethrows. */
  function InitConsumerGroup(c: Settings, s: Session): (Session, Result<()>)
  {
    var (s1, created) := Request(c, s, XGroupCreate);
    if created.Ok? || GroupAlreadyExists(created.error) then (s1, Ok(())) else (s1, Err(created.error))
  }

  /** The try block of processMessage: the session it leaves and the error it throws, if any. */
  function TryProcess(c: Settings, s: Session, id: EntryId, raw: Option<string>): (Session, Option<string>)
  {
    if !Truthy(raw) then
      var (s1, acked) := Request(c, s, XAck(id));
      (s1, ErrorOf(acked))
    else
      match c.parse(raw.value)
      case Err(m) => (s, Some(m))
      case Ok(payload) =>
        var s1 := s.(messageCount := s.messageCount + 1);
        if !DisplayableTime(payload.timestamp) then (s1, Some(InvalidTimeValue))
        else
          var (s2, acked) := Request(c, s1, XAck(id));
          (s2, ErrorOf(acked))
  }

  /** processMessage: the try block, then the catch block, which acknowledges only after an
      "Unexpected token" error and ignores the outcome of that acknowledgement. */
  function ProcessMessage(c: Settings, s: Session, id: EntryId, raw: Option<string>): Session
  {
    var s0 := s.(handled := s.handled + [Handled(id, raw)]);
    var (s1, thrown) := TryProcess(c, s0, id, raw);
    if thrown.Some? && AcksAfterError(thrown.value) then Request(c, s1, XAck(id)).0 else s1
  }

  /** The loop of readNewMessages over a list of messages: processable ones are processed in
      order, the others skipped. */
  function ProcessEach(c: Settings, s: Session, ms: seq<StreamMessage>): Session
    decreases |ms|
  {
    if ms == [] then s
    else
      var m := ms[0];
      var s1 := if Processable(m) then ProcessMessage(c, s, m.id.value, m.message.value.payload) else s;
      ProcessEach(c, s1, ms[1..])
  }

  /** readNewMessages: one XREADGROUP, then the messages of `result[0][1]`; a failed read or a
      reply of unexpected shape processes nothing, and no error escapes. */
  function ReadNewMessages(c: Settings, s: Session): Session
  {
    var (s1, result) := Request(c, s, ReadCommand(c));
    if result.Err? then s1
    else ProcessEach(c, s1, Delivered(if result.value.Read? then result.value.read else NullReply))
  }

  /** The payload of a non-empty XCLAIM reply: `claimResult[0][1].payload`. */
  function ClaimedPayload(claimed: seq<ClaimedEntry>): Option<string>
    requires |claimed| > 0
  {
    claimed[0].fields.payload
  }

  /** The loop of processPendingMessages: claim each eligible entry in turn and process what a
      non-empty claim returns; a failed claim abandons the rest of the list. */
  function ClaimEach(c: Settings, s: Session, ps: seq<PendingMessage>): Session
    decreases |ps|
  {
    if ps == [] then s
    else if !ShouldClaim(ps[0], c.consumerId) then ClaimEach(c, s, ps[1..])
    else
      var (s1, result) := Request(c, s, ClaimCommand(c, ps[0].id));
      if result.Err? then s1
      else
        var claimed := if result.value.Claimed? then result.value.claimed else [];
        var s2 := if |claimed| > 0 then ProcessMessage(c, s1, ps[0].id, ClaimedPayload(claimed)) else s1;
        ClaimEach(c, s2, ps[1..])
  }

  /** processPendingMessages: one XPENDING for up to batchSize entries, then the claim loop; no
      error escapes. */
  function ProcessPendingMessages(c: Settings, s: Session): Session
  {
    var (s1, result) := Request(c, s, XPending(c.batchSize));
    if result.Err? then s1
    else ClaimEach(c, s1, if result.value.PendingList? then result.value.pending else [])
  }

  /** One iteration of the main loop of start: the pending pass, then the read. */
  function Iteration(c: Settings, s: Session): Session
  {
    ReadNewMessages(c, ProcessPendingMessages(c, s))
  }

  /** n iterations of the main loop. */
  function Run(c: Settings, s: Session, n: nat): Session
    decreases n
  {
    if n == 0 then s else Run(c, Iteration(c, s), n - 1)
  }
}
