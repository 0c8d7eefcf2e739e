/** The publisher's logic (src/publisher/publisher.ts) as functions of its state. The Publisher
    class in publisher.dfy runs the same steps imperatively and is proved to end in the state
    these functions compute; their properties are proved in publisher_properties.dfy. */
module PublisherSpec {
  import opened Wrappers
  import opened Text
  import opened Messages
  import opened Broker

  const ContentPrefix := "Message #"
  /** The publisher name used when HOSTNAME is unset or empty. */
  const UnknownHost := "unknown"

  /** The library calls publishMessage makes, as functions of the index of the broker call it is
      about to make: uuidv4, Date.now, Math.random, JSON.stringify, the HOSTNAME variable, and the
      broker faults. */
  datatype Environment = Environment(
    uuid: nat -> string,
    now: nat -> int,
    random: nat -> real,
    hostname: Option<string>,
    stringify: MessagePayload -> string,
    faults: Faults)

  /** What the publisher's operations change: its connection and its counter. */
  datatype PubState = PubState(conn: Connection, messageCount: nat)

  /** `process.env.HOSTNAME || 'unknown'`. */
  function PublisherName(hostname: Option<string>): (name: string)
    ensures Truthy(hostname) ==> name == hostname.value
    ensures !Truthy(hostname) ==> name == UnknownHost
    ensures name != ""
  {
    if Truthy(hostname) then hostname.value else UnknownHost
  }

  /** The content of the message published after `count` earlier ones. */
  function Content(count: nat): string
  {
    ContentPrefix + NatToString(count + 1)
  }

  /** The payload built for the broker call with index k, after `count` published messages. */
  function NewPayload(e: Environment, k: nat, count: nat): MessagePayload
  {
    MessagePayload(
      e.uuid(k),
      e.now(k),
      Content(count),
      Some(map["random" := JNumber(e.random(k)), "publisher" := JString(PublisherName(e.hostname))]))
  }

  /** `messageId ?? ''`: the id XADD returned, or the empty string when it returned null. */
  function IdOrEmpty(reply: Reply): string
  {
    if reply.Added? && reply.added.Some? then reply.added.value else ""
  }

  /** publishMessage: one XADD of the serialised payload; the counter rises only after it
      succeeds, and a failure is rethrown. */
  function PublishMessage(e: Environment, s: PubState): (PubState, Result<string>)
  {
    var payload := NewPayload(e, |s.conn.log|, s.messageCount);
    var (conn, added) := Send(s.conn, e.faults, XAdd(e.stringify(payload)));
    if added.Err? then (s.(conn := conn), Err(added.error))
    else (PubState(conn, s.messageCount + 1), Ok(IdOrEmpty(added.value)))
  }

  /** The outcome of later calls, with the ids of earlier ones put in front of a success. */
  function AfterIds(ids: seq<string>, later: (PubState, Result<seq<string>>)): (PubState, Result<seq<string>>)
  {
    if later.1.Err? then later else (later.0, Ok(ids + later.1.value))
  }

  lemma AfterIdsAppend(a: seq<string>, b: seq<string>, later: (PubState, Result<seq<string>>))
    ensures AfterIds(a, AfterIds(b, later)) == AfterIds(a + b, later)
  {
    if later.1.Ok? {
      assert a + (b + later.1.value) == (a + b) + later.1.value;
    }
  }

  /** n sequential publishMessage calls: the ids in call order, or the first error, with the
      appends made before it kept. */
  function PublishN(e: Environment, s: PubState, n: nat): (PubState, Result<seq<string>>)
    decreases n
  {
    if n == 0 then (s, Ok([]))
    else
      var (s1, first) := PublishMessage(e, s);
      if first.Err? then (s1, Err(first.error))
      else AfterIds([first.value], PublishN(e, s1, n - 1))
  }

  /** The first of n > 0 calls, and the n - 1 after it. */
  lemma PublishNStep(e: Environment, s: PubState, n: nat)
    requires n > 0
    ensures var (s1, first) := PublishMessage(e, s);
      PublishN(e, s, n) == if first.Err? then (s1, Err(first.error)) else AfterIds([first.value], PublishN(e, s1, n - 1))
  {
  }

  /** How many times `for (let i = 0; i < count; i++)` runs for an integer count. */
  function Rounds(count: int): nat
  {
    if count > 0 then count else 0
  }

  /** publishBatch(count). */
  function PublishBatch(e: Environment, s: PubState, count: int): (PubState, Result<seq<string>>)
  {
    PublishN(e, s, Rounds(count))
  }

  // ----- getStreamInfo (publisher.ts:120-135) -----

  /** `String(v)` for a value of an XINFO reply: arrays are joined with commas, and a null
      inside an array becomes the empty string. */
  function KeyString(v: InfoValue): string
  {
    match v
    case InfoText(t) => t
    case InfoNumber(n) => IntToString(n)
    case InfoNull => "null"
    case InfoList(vs) => JoinItems(vs)
  }

  function JoinItems(vs: seq<InfoValue>): string
    decreases vs
  {
    if vs == [] then ""
    else
      var head := if vs[0].InfoNull? then "" else KeyString(vs[0]);
      if |vs| == 1 then head else head + "," + JoinItems(vs[1..])
  }

  /** `infoArray[i]`, which is undefined past the end. */
  function ValueAt(items: seq<InfoValue>, i: nat): Option<InfoValue>
  {
    if i < |items| then Some(items[i]) else None
  }

  /** The number of pairs the stride-2 loop visits: a trailing key counts as a pair. */
  function PairCount(items: seq<InfoValue>): nat
  {
    (|items| + 1) / 2
  }

  /** The record after the loop has visited the first p pairs, in order. */
  function InfoRecord(items: seq<InfoValue>, p: nat): map<string, Option<InfoValue>>
    requires p <= PairCount(items)
    decreases p
  {
    if p == 0 then map[]
    else InfoRecord(items, p - 1)[KeyString(items[2 * (p - 1)]) := ValueAt(items, 2 * (p - 1) + 1)]
  }

  /** The record getStreamInfo returns for an XINFO reply: the pairs of an array reply, and the
      empty record for anything else. */
  function StreamInfoRecord(reply: Reply): map<string, Option<InfoValue>>
  {
    if reply.Info? && reply.info.InfoArray? then
      var items := reply.info.items;
      InfoRecord(items, PairCount(items))
    else map[]
  }

  /** getStreamInfo: one XINFO STREAM; its error is not caught. */
  function GetStreamInfo(e: Environment, s: PubState): (PubState, Result<map<string, Option<InfoValue>>>)
  {
    var (conn, info) := Send(s.conn, e.faults, XInfoStream);
    if info.Err? then (s.(conn := conn), Err(info.error))
    else (s.(conn := conn), Ok(StreamInfoRecord(info.value)))
  }
}
