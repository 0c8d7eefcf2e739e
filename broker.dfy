/** The Redis stream and its consumer group, as plain data: the external collaborator both
    components talk to. Only the commands the core issues are modelled (XGROUP CREATE … MKSTREAM,
    XREADGROUP with ">", XPENDING, XCLAIM, XACK, XADD with "*", XINFO STREAM), for one stream and
    one consumer group. Every command may fail: a fault oracle decides, per call, whether the
    connection or the server throws instead of answering. */
module Broker {
  import opened Wrappers
  import opened Text
  import opened Messages

  type EntryId = string

  /** A stream entry: its id and its `payload` field, which an entry may lack. */
  datatype Entry = Entry(id: EntryId, payload: Option<string>)

  /** A row of the group's pending entries list (PEL). */
  datatype PelEntry = PelEntry(owner: string, idle: nat, deliveries: nat)

  /** The server side: the stream's entries in id order, whether the group exists, how many
      entries the group has handed out through ">", its PEL, and the ids acknowledged so far. */
  datatype State = State(
    name: string,
    entries: seq<Entry>,
    hasGroup: bool,
    lastDelivered: nat,
    pel: map<EntryId, PelEntry>,
    acked: set<EntryId>)

  datatype Command =
    | XGroupCreate                                      // XGROUP CREATE stream group $ MKSTREAM
    | XReadGroup(consumer: string, count: nat, blockMs: nat)  // XREADGROUP GROUP group consumer COUNT n BLOCK ms STREAMS stream >
    | XPending(count: nat)                              // XPENDING stream group - + count
    | XClaim(claimer: string, minIdle: nat, id: EntryId)  // XCLAIM stream group consumer min-idle id
    | XAck(ackId: EntryId)                              // XACK stream group id
    | XAdd(serialized: string)                          // XADD stream * payload serialized
    | XInfoStream                                       // XINFO STREAM stream

  /** One command sent on a connection, and the message it failed with, if it failed. */
  datatype Call = Call(command: Command, failure: Option<string>)

  /** One entry of an XCLAIM reply: `[id, { payload }]`. */
  datatype ClaimedEntry = ClaimedEntry(claimedId: EntryId, fields: StreamFields)

  /** A value inside an XINFO reply. */
  datatype InfoValue = InfoText(text: string) | InfoNumber(number: int) | InfoNull | InfoList(values: seq<InfoValue>)

  /** An XINFO STREAM reply: normally the flat array `[k1, v1, k2, v2, …]`. */
  datatype InfoReply = InfoNotArray | InfoArray(items: seq<InfoValue>)

  datatype Reply =
    | Created
    | Read(read: ReadReply)
    | PendingList(pending: seq<PendingMessage>)
    | Claimed(claimed: seq<ClaimedEntry>)
    | Acked(ackCount: nat)
    | Added(added: Option<EntryId>)
    | Info(info: InfoReply)

  const BusyGroupError := "BUSYGROUP Consumer Group name already exists"
  const NoGroupError := "NOGROUP No such key or consumer group"

  /** The id XADD assigns to the n-th entry of the stream. */
  function IdOf(n: nat): EntryId
  {
    NatToString(n) + "-0"
  }

  lemma IdOfInjective(m: nat, n: nat)
    requires IdOf(m) == IdOf(n)
    ensures m == n
  {
    var a, b := NatToString(m), NatToString(n);
    assert a == (a + "-0")[..|a|];
    assert b == (b + "-0")[..|b|];
    NatToStringInjective(m, n);
  }

  function IdsOf(es: seq<Entry>): set<EntryId>
  {
    set e | e in es :: e.id
  }

  /** The first entry of the stream with the given id. */
  function Lookup(es: seq<Entry>, id: EntryId): (r: Option<Entry>)
    ensures r.Some? <==> id in IdsOf(es)
    ensures r.Some? ==> r.value in es && r.value.id == id
    decreases |es|
  {
    if es == [] then None
    else if es[0].id == id then Some(es[0])
    else
      assert forall e :: e in es[1..] ==> e in es;
      assert forall e :: e in es && e != es[0] ==> e in es[1..];
      Lookup(es[1..], id)
  }

  /** The PEL in stream order, as XPENDING reports it. */
  function PendingOf(es: seq<Entry>, pel: map<EntryId, PelEntry>): (ps: seq<PendingMessage>)
    ensures forall p :: p in ps ==>
      p.id in pel && p.id in IdsOf(es) && pel[p.id] == PelEntry(p.consumer, p.idleTime, p.deliveryCount)
    decreases |es|
  {
    if es == [] then []
    else
      assert forall e :: e in es[1..] ==> e in es;
      var rest := PendingOf(es[1..], pel);
      if es[0].id in pel then
        var row := pel[es[0].id];
        [PendingMessage(es[0].id, row.owner, row.idle, row.deliveries)] + rest
      else rest
  }

  ghost predicate DistinctEntryIds(es: seq<Entry>)
  {
    forall i, j :: 0 <= i < j < |es| ==> es[i].id != es[j].id
  }

  ghost predicate DistinctPendingIds(ps: seq<PendingMessage>)
  {
    forall i, j :: 0 <= i < j < |ps| ==> ps[i].id != ps[j].id
  }

  /** XPENDING reports each id once when the stream's ids are distinct. */
  lemma {:induction false} PendingOfDistinct(es: seq<Entry>, pel: map<EntryId, PelEntry>)
    requires DistinctEntryIds(es)
    ensures DistinctPendingIds(PendingOf(es, pel))
    decreases |es|
  {
    if es != [] {
      PendingOfDistinct(es[1..], pel);
      var rest := PendingOf(es[1..], pel);
      assert es[0].id !in IdsOf(es[1..]) by {
        forall e | e in es[1..] ensures e.id != es[0].id {
          var j :| 0 <= j < |es[1..]| && es[1..][j] == e;
          assert es[j + 1] == e;
        }
      }
    }
  }

  function Take<T>(xs: seq<T>, n: nat): (r: seq<T>)
    ensures |r| <= n && r <= xs
  {
    if n < |xs| then xs[..n] else xs
  }

  function AsMessages(es: seq<Entry>): seq<StreamMessage>
  {
    seq(|es|, k requires 0 <= k < |es| => StreamMessage(Some(es[k].id), Some(StreamFields(es[k].payload))))
  }

  /** XGROUP CREATE with "$" and MKSTREAM: the group starts at the current end of the stream. */
  function CreateGroup(s: State): (State, Result<Reply>)
  {
    if s.hasGroup then (s, Err(BusyGroupError))
    else (s.(hasGroup := true, lastDelivered := |s.entries|), Ok(Created))
  }

  /** XREADGROUP with ">": up to `count` entries never delivered to the group, which enter the
      PEL under the reader; null when there are none (after blocking). */
  function ReadGroup(s: State, consumer: string, count: nat): (State, Result<Reply>)
  {
    if !s.hasGroup then (s, Err(NoGroupError))
    else
      var from := if s.lastDelivered <= |s.entries| then s.lastDelivered else |s.entries|;
      var to := if from + count <= |s.entries| then from + count else |s.entries|;
      var batch := s.entries[from..to];
      if batch == [] then (s, Ok(Read(NullReply)))
      else
        var delivered := map id | id in IdsOf(batch) :: PelEntry(consumer, 0, 1);
        (s.(lastDelivered := to, pel := s.pel + delivered),
         Ok(Read(ReplyArray([ItemArray([StreamName(s.name), MessageList(AsMessages(batch))])]))))
  }

  /** XPENDING with a range and a count: the first `count` PEL rows in id order. */
  function Pending(s: State, count: nat): (State, Result<Reply>)
  {
    if !s.hasGroup then (s, Err(NoGroupError))
    else (s, Ok(PendingList(Take(PendingOf(s.entries, s.pel), count))))
  }

  /** XCLAIM of one id: it moves to the claimer only when it is pending and has been idle for at
      least `minIdle` ms; otherwise the reply is empty. */
  function Claim(s: State, claimer: string, minIdle: nat, id: EntryId): (r: (State, Result<Reply>))
    ensures r.1.Ok? && r.1.value.Claimed? && r.1.value.claimed != [] ==>
      && id in s.pel && s.pel[id].idle >= minIdle
      && id in r.0.pel && r.0.pel[id].owner == claimer
      && Lookup(s.entries, id).Some?
      && r.1.value.claimed == [ClaimedEntry(id, StreamFields(Lookup(s.entries, id).value.payload))]
  {
    if !s.hasGroup then (s, Err(NoGroupError))
    else
      var entry := Lookup(s.entries, id);
      if id in s.pel && s.pel[id].idle >= minIdle && entry.Some? then
        (s.(pel := s.pel[id := PelEntry(claimer, 0, s.pel[id].deliveries + 1)]),
         Ok(Claimed([ClaimedEntry(id, StreamFields(entry.value.payload))])))
      else (s, Ok(Claimed([])))
  }

  /** XACK: removes the id from the PEL; the reply counts the entries acknowledged. */
  function Ack(s: State, id: EntryId): (State, Result<Reply>)
  {
    if s.hasGroup && id in s.pel then (s.(pel := s.pel - {id}, acked := s.acked + {id}), Ok(Acked(1)))
    else (s, Ok(Acked(0)))
  }

  /** XADD with "*": appends the entry under the next id, which is fresh in a well-formed stream
      (WellFormed, WellFormedDistinct), and returns that id. */
  function Add(s: State, serialized: string): (State, Result<Reply>)
  {
    var id := IdOf(|s.entries| + 1);
    (s.(entries := s.entries + [Entry(id, Some(serialized))]), Ok(Added(Some(id))))
  }

  /** XINFO STREAM: a flat list of field names and values (only the three fields the model uses). */
  function StreamInfo(s: State): (State, Result<Reply>)
  {
    var last := if s.entries == [] then "0-0" else s.entries[|s.entries| - 1].id;
    (s, Ok(Info(InfoArray([
      InfoText("length"), InfoNumber(|s.entries|),
      InfoText("groups"), InfoNumber(if s.hasGroup then 1 else 0),
      InfoText("last-generated-id"), InfoText(last)]))))
  }

  /** One command against the server, or the failure the fault oracle injects in its place.
      A failed command changes nothing. */
  function Execute(s: State, cmd: Command, fault: Option<string>): (r: (State, Result<Reply>))
    ensures fault.Some? ==> r == (s, Err(fault.value))
    ensures r.1.Err? ==> r.0 == s
    ensures cmd.XPending? || cmd.XInfoStream? ==> r.0 == s
    ensures !cmd.XAdd? ==> r.0.entries == s.entries
  {
    if fault.Some? then (s, Err(fault.value))
    else
      match cmd
      case XGroupCreate => CreateGroup(s)
      case XReadGroup(consumer, count, _) => ReadGroup(s, consumer, count)
      case XPending(count) => Pending(s, count)
      case XClaim(claimer, minIdle, id) => Claim(s, claimer, minIdle, id)
      case XAck(id) => Ack(s, id)
      case XAdd(serialized) => Add(s, serialized)
      case XInfoStream => StreamInfo(s)
  }

  /** What the server keeps true of its state: the n-th entry of the stream carries the n-th id
      XADD hands out (so ids only ever increase), the group's cursor stays within the stream,
      and only entries of the stream are pending. */
  ghost predicate WellFormed(s: State)
  {
    && (forall i :: 0 <= i < |s.entries| ==> s.entries[i].id == IdOf(i + 1))
    && s.lastDelivered <= |s.entries|
    && (forall id :: id in s.pel ==> id in IdsOf(s.entries))
  }

  /** A new, empty stream without a group is well formed. */
  lemma EmptyWellFormed(name: string)
    ensures WellFormed(State(name, [], false, 0, map[], {}))
  {
  }

  /** The ids of a well-formed stream are pairwise distinct. */
  lemma WellFormedDistinct(s: State)
    requires WellFormed(s)
    ensures DistinctEntryIds(s.entries)
  {
    forall i, j | 0 <= i < j < |s.entries| ensures s.entries[i].id != s.entries[j].id {
      if s.entries[i].id == s.entries[j].id {
        IdOfInjective(i + 1, j + 1);
      }
    }
  }

  lemma ReadGroupWellFormed(s: State, consumer: string, count: nat)
    requires WellFormed(s)
    ensures WellFormed(ReadGroup(s, consumer, count).0)
  {
    if s.hasGroup {
      var from := if s.lastDelivered <= |s.entries| then s.lastDelivered else |s.entries|;
      var to := if from + count <= |s.entries| then from + count else |s.entries|;
      var batch := s.entries[from..to];
      forall id | id in IdsOf(batch) ensures id in IdsOf(s.entries) {
        var e :| e in batch && e.id == id;
        assert e in s.entries;
      }
    }
  }

  lemma AddWellFormed(s: State, serialized: string)
    requires WellFormed(s)
    ensures WellFormed(Add(s, serialized).0)
  {
    var s' := Add(s, serialized).0;
    forall id | id in s'.pel ensures id in IdsOf(s'.entries) {
      var e :| e in s.entries && e.id == id;
      assert e in s'.entries;
    }
  }

  /** Every command, failed or not, keeps the server's state well formed. */
  lemma ExecuteWellFormed(s: State, cmd: Command, fault: Option<string>)
    requires WellFormed(s)
    ensures WellFormed(Execute(s, cmd, fault).0)
  {
    if fault.None? {
      match cmd
      case XReadGroup(consumer, count, _) => ReadGroupWellFormed(s, consumer, count);
      case XAdd(serialized) => AddWellFormed(s, serialized);
      case _ =>
    }
  }

  /** The part of the server state that a command about other entries leaves alone: the group,
      the stream, the acknowledged ids (which only grow), and the pending row of `id`. */
  ghost predicate Untouched(a: State, b: State, id: EntryId)
  {
    && b.hasGroup == a.hasGroup
    && b.entries == a.entries
    && a.acked <= b.acked
    && (id in b.pel <==> id in a.pel)
    && (id in a.pel ==> b.pel[id] == a.pel[id])
  }

  /** An XACK or XCLAIM of another id leaves the row of `id` as it was, whatever its outcome. */
  lemma ExecuteLeavesOthers(s: State, cmd: Command, fault: Option<string>, id: EntryId)
    requires (cmd.XAck? && cmd.ackId != id) || (cmd.XClaim? && cmd.id != id)
    ensures Untouched(s, Execute(s, cmd, fault).0, id)
  {
  }

  /** Which call failed and with what message: decided by the environment, from the number of
      calls already made on the connection and the command. */
  type Faults = (nat, Command) -> Option<string>

  /** A client connection: the server state it talks to, and every call made on it. */
  datatype Connection = Connection(broker: State, log: seq<Call>)

  /** Sends one command and records it with its outcome. */
  function Send(c: Connection, faults: Faults, cmd: Command): (r: (Connection, Result<Reply>))
    ensures r.0.log == c.log + [Call(cmd, ErrorOf(r.1))]
    ensures r.1.Err? ==> r.0.broker == c.broker
  {
    var (b, reply) := Execute(c.broker, cmd, faults(|c.log|, cmd));
    (Connection(b, c.log + [Call(cmd, ErrorOf(reply))]), reply)
  }
}
