/** What the consumer's delivery logic guarantees, proved about the functions of ConsumerSpec
    (and so, through the postconditions of the Consumer class, about the class itself). */
module ConsumerProperties {
  import opened Wrappers
  import opened Text
  import opened Messages
  import opened Broker
  import opened ConsumerSpec

  // ----- Reading the call log -----

  /** The calls made between two sessions, the second extending the first. */
  function CallsSince(before: Session, after: Session): seq<Call>
    requires before.conn.log <= after.conn.log
  {
    after.conn.log[|before.conn.log|..]
  }

  lemma CallsCompose(a: Session, b: Session, d: Session)
    requires a.conn.log <= b.conn.log <= d.conn.log
    ensures a.conn.log <= d.conn.log
    ensures CallsSince(a, d) == CallsSince(a, b) + CallsSince(b, d)
  {
  }

  /** Every call is an XACK of one of the given ids. */
  ghost predicate AcksOf(calls: seq<Call>, ids: set<EntryId>)
  {
    forall k :: 0 <= k < |calls| ==> calls[k].command.XAck? && calls[k].command.ackId in ids
  }

  /** Every call is an XCLAIM or an XACK of one of the given ids. */
  ghost predicate ClaimsAndAcksOf(calls: seq<Call>, ids: set<EntryId>)
  {
    forall k :: 0 <= k < |calls| ==>
      (calls[k].command.XAck? && calls[k].command.ackId in ids) ||
      (calls[k].command.XClaim? && calls[k].command.id in ids)
  }

  /** The ids claimed by the calls, in order. */
  function ClaimedIds(calls: seq<Call>): seq<EntryId>
    decreases |calls|
  {
    if calls == [] then []
    else (if calls[0].command.XClaim? then [calls[0].command.id] else []) + ClaimedIds(calls[1..])
  }

  lemma {:induction false} ClaimedIdsAppend(a: seq<Call>, b: seq<Call>)
    ensures ClaimedIds(a + b) == ClaimedIds(a) + ClaimedIds(b)
    decreases |a|
  {
    if a != [] {
      assert (a + b)[1..] == a[1..] + b;
      ClaimedIdsAppend(a[1..], b);
    } else {
      assert a + b == b;
    }
  }

  lemma {:induction false} ClaimedIdsOfAcks(calls: seq<Call>, ids: set<EntryId>)
    requires AcksOf(calls, ids)
    ensures ClaimedIds(calls) == []
    decreases |calls|
  {
    if calls != [] {
      ClaimedIdsOfAcks(calls[1..], ids);
    }
  }

  /** No XCLAIM among the calls failed. */
  ghost predicate NoFailedClaim(calls: seq<Call>)
  {
    forall k :: 0 <= k < |calls| && calls[k].command.XClaim? ==> calls[k].failure.None?
  }

  /** A failed XCLAIM is the last call: the pass sends nothing after it. */
  ghost predicate FailedClaimLast(calls: seq<Call>)
  {
    forall k :: 0 <= k < |calls| && calls[k].command.XClaim? && calls[k].failure.Some? ==> k == |calls| - 1
  }

  lemma FailedClaimLastJoin(a: seq<Call>, b: seq<Call>)
    requires NoFailedClaim(a) && FailedClaimLast(b)
    ensures FailedClaimLast(a + b)
  {
    forall k | 0 <= k < |a + b| && (a + b)[k].command.XClaim? && (a + b)[k].failure.Some?
      ensures k == |a + b| - 1
    {
      if k >= |a| {
        assert (a + b)[k] == b[k - |a|];
      }
    }
  }

  /** No call among them is an XACK of `id`. */
  ghost predicate NoAckOf(calls: seq<Call>, id: EntryId)
  {
    forall k :: 0 <= k < |calls| ==> calls[k].command != XAck(id)
  }

  /** No processMessage call among them is for `id`. */
  ghost predicate NoneHandled(hs: seq<Handled>, id: EntryId)
  {
    forall h :: h in hs ==> h.id != id
  }

  /** The scans among the calls, in order: XPENDING and XREADGROUP, the first call of each pass. */
  function Scans(calls: seq<Call>): seq<Command>
    decreases |calls|
  {
    if calls == [] then []
    else
      var c := calls[0].command;
      (if c.XPending? || c.XReadGroup? then [c] else []) + Scans(calls[1..])
  }

  lemma {:induction false} ScansAppend(a: seq<Call>, b: seq<Call>)
    ensures Scans(a + b) == Scans(a) + Scans(b)
    decreases |a|
  {
    if a != [] {
      assert (a + b)[1..] == a[1..] + b;
      ScansAppend(a[1..], b);
    } else {
      assert a + b == b;
    }
  }

  lemma {:induction false} ScansOfClaimsAndAcks(calls: seq<Call>, ids: set<EntryId>)
    requires ClaimsAndAcksOf(calls, ids)
    ensures Scans(calls) == []
    decreases |calls|
  {
    if calls != [] {
      ScansOfClaimsAndAcks(calls[1..], ids);
    }
  }

  function HandledIds(hs: seq<Handled>): set<EntryId>
  {
    set h | h in hs :: h.id
  }

  /** How many of the given processMessage calls parse their payload: each of them counts once. */
  function ParsedCount(c: Settings, hs: seq<Handled>): nat
    decreases |hs|
  {
    if hs == [] then 0
    else (if Truthy(hs[0].raw) && c.parse(hs[0].raw.value).Ok? then 1 else 0) + ParsedCount(c, hs[1..])
  }

  // ----- processMessage (consumer.ts:183-243) -----

  /** A message with no upper-case U cannot contain "Unexpected token". */
  lemma LacksUnexpectedToken(message: string)
    requires forall k :: 0 <= k < |message| ==> message[k] != 'U'
    ensures !AcksAfterError(message)
  {
    forall i: int ensures !OccursAt(message, UnexpectedToken, i) {
      if 0 <= i && i + |UnexpectedToken| <= |message| {
        assert message[i..i + |UnexpectedToken|][0] == message[i];
      }
    }
    IncludesIff(message, UnexpectedToken);
  }

  /** A call of processMessage is recorded, raises the counter exactly when the payload parses,
      and sends nothing but at most two XACKs of its own id. */
  lemma ProcessMessageEffect(c: Settings, s: Session, id: EntryId, raw: Option<string>)
    ensures var s' := ProcessMessage(c, s, id, raw);
      && s'.handled == s.handled + [Handled(id, raw)]
      && s'.messageCount == s.messageCount + (if Truthy(raw) && c.parse(raw.value).Ok? then 1 else 0)
      && s.conn.log <= s'.conn.log
      && |CallsSince(s, s')| <= 2
      && AcksOf(CallsSince(s, s'), {id})
  {
  }

  /** An empty or absent payload is acknowledged at once, without parsing and without counting. */
  lemma EmptyPayloadAcked(c: Settings, s: Session, id: EntryId, raw: Option<string>)
    requires !Truthy(raw)
    ensures var s' := ProcessMessage(c, s, id, raw);
      && s'.messageCount == s.messageCount
      && |s'.conn.log| > |s.conn.log|
      && s'.conn.log[|s.conn.log|] == Call(XAck(id), c.faults(|s.conn.log|, XAck(id)))
      && (c.faults(|s.conn.log|, XAck(id)).None? && s.conn.broker.hasGroup ==> id !in s'.conn.broker.pel)
  {
  }

  /** The RangeError of toISOString does not pass the test at line 227. */
  lemma InvalidTimeValueNotAcked()
    ensures !AcksAfterError(InvalidTimeValue)
  {
    forall k | 0 <= k < |InvalidTimeValue| ensures InvalidTimeValue[k] != 'U' { }
    LacksUnexpectedToken(InvalidTimeValue);
  }

  /** A payload that parses is counted first; it is then acknowledged unless logging its
      timestamp throws, in which case it stays pending with the counter already raised. */
  lemma ParsedPayloadCounted(c: Settings, s: Session, id: EntryId, raw: Option<string>)
    requires Truthy(raw) && c.parse(raw.value).Ok?
    ensures var s' := ProcessMessage(c, s, id, raw);
      && s'.messageCount == s.messageCount + 1
      && (DisplayableTime(c.parse(raw.value).value.timestamp) ==>
            |s'.conn.log| > |s.conn.log| &&
            s'.conn.log[|s.conn.log|] == Call(XAck(id), c.faults(|s.conn.log|, XAck(id))))
      && (!DisplayableTime(c.parse(raw.value).value.timestamp) ==> s'.conn == s.conn)
  {
    InvalidTimeValueNotAcked();
  }

  /** When the XACK of the try block fails, the catch block acknowledges once more only if the
      error message contains "Unexpected token", and ignores how that second XACK ends; otherwise
      the entry stays pending, counted already when its payload parsed. */
  lemma AckFailureFollowUp(c: Settings, s: Session, id: EntryId, raw: Option<string>, m: string)
    requires !Truthy(raw) || (c.parse(raw.value).Ok? && DisplayableTime(c.parse(raw.value).value.timestamp))
    requires c.faults(|s.conn.log|, XAck(id)) == Some(m)
    ensures var s' := ProcessMessage(c, s, id, raw);
      && s'.conn.log == s.conn.log + [Call(XAck(id), Some(m))] +
           (if AcksAfterError(m) then [Call(XAck(id), c.faults(|s.conn.log| + 1, XAck(id)))] else [])
      && (!AcksAfterError(m) ==> s'.conn.broker == s.conn.broker)
      && (AcksAfterError(m) && c.faults(|s.conn.log| + 1, XAck(id)).None? && s.conn.broker.hasGroup ==>
            id !in s'.conn.broker.pel)
      && s'.messageCount == s.messageCount + (if Truthy(raw) then 1 else 0)
  {
  }

  /** After a parse error the entry is acknowledged exactly when the message contains
      "Unexpected token"; otherwise nothing is sent and the entry stays in the PEL. */
  lemma ParseErrorAckedIffUnexpectedToken(c: Settings, s: Session, id: EntryId, raw: Option<string>)
    requires Truthy(raw) && c.parse(raw.value).Err?
    ensures var s' := ProcessMessage(c, s, id, raw);
      && s'.messageCount == s.messageCount
      && (AcksAfterError(c.parse(raw.value).error) ==>
            s'.conn.log == s.conn.log + [Call(XAck(id), c.faults(|s.conn.log|, XAck(id)))])
      && (!AcksAfterError(c.parse(raw.value).error) ==> s'.conn == s.conn)
  {
  }

  /** The message V8 gives for truncated JSON lacks "Unexpected token": such an entry is neither
      counted nor acknowledged, and stays pending. */
  lemma TruncatedJsonStaysPending(c: Settings, s: Session, id: EntryId, raw: Option<string>)
    requires Truthy(raw) && c.parse(raw.value) == Err("Unexpected end of JSON input")
    ensures ProcessMessage(c, s, id, raw).conn == s.conn
    ensures ProcessMessage(c, s, id, raw).messageCount == s.messageCount
  {
    TruncatedJsonMessageNotAcked();
    ParseErrorAckedIffUnexpectedToken(c, s, id, raw);
  }

  lemma TruncatedJsonMessageNotAcked()
    ensures !AcksAfterError("Unexpected end of JSON input")
  {
    var message := "Unexpected end of JSON input";
    LacksUnexpectedToken(message[1..]);
    assert message[..|UnexpectedToken|][11] != UnexpectedToken[11];
  }

  // ----- readNewMessages (consumer.ts:60-114) -----

  lemma AcksOfJoin(a: seq<Call>, b: seq<Call>, ids: set<EntryId>, more: set<EntryId>)
    requires AcksOf(a, ids) && AcksOf(b, more)
    ensures AcksOf(a + b, ids + more)
  {
  }

  /** The loop over the messages of a reply processes exactly the processable ones, in order,
      counts those whose payload parses, and sends only their XACKs. */
  lemma {:induction false} ProcessEachEffect(c: Settings, s: Session, ms: seq<StreamMessage>)
    ensures var s' := ProcessEach(c, s, ms);
      && s'.handled == s.handled + Accepted(ms)
      && s'.messageCount == s.messageCount + ParsedCount(c, Accepted(ms))
      && s.conn.log <= s'.conn.log
      && AcksOf(CallsSince(s, s'), HandledIds(Accepted(ms)))
      && s'.conn.broker.entries == s.conn.broker.entries
    decreases |ms|
  {
    if ms != [] {
      var m := ms[0];
      var s1 := if Processable(m) then ProcessMessage(c, s, m.id.value, m.message.value.payload) else s;
      var s' := ProcessEach(c, s1, ms[1..]);
      assert ProcessEach(c, s, ms) == s';
      ProcessEachEffect(c, s1, ms[1..]);
      CallsCompose(s, s1, s');
      var rest := Accepted(ms[1..]);
      if Processable(m) {
        var h := Handled(m.id.value, m.message.value.payload);
        ProcessMessageEffect(c, s, h.id, h.raw);
        assert Accepted(ms) == [h] + rest;
        assert ([h] + rest)[1..] == rest;
        assert HandledIds([h] + rest) == {h.id} + HandledIds(rest);
        AcksOfJoin(CallsSince(s, s1), CallsSince(s1, s'), {h.id}, HandledIds(rest));
      } else {
        assert Accepted(ms) == rest;
      }
    }
  }

  /** The messages the read pass sees: `result[0][1]` of a successful XREADGROUP, as Delivered
      reads it, and none when the call fails. */
  function ReadSeen(c: Settings, s: Session): seq<StreamMessage>
  {
    var (_, result) := Request(c, s, ReadCommand(c));
    if result.Ok? then Delivered(if result.value.Read? then result.value.read else NullReply) else []
  }

  /** readNewMessages issues one XREADGROUP, then processes exactly the processable messages of
      the reply, in order; a failure or a malformed reply processes nothing. */
  lemma ReadNewMessagesEffect(c: Settings, s: Session)
    ensures var s' := ReadNewMessages(c, s);
      && s.conn.log <= s'.conn.log
      && |CallsSince(s, s')| >= 1
      && CallsSince(s, s')[0].command == ReadCommand(c)
      && AcksOf(CallsSince(s, s')[1..], HandledIds(Accepted(ReadSeen(c, s))))
      && s'.handled == s.handled + Accepted(ReadSeen(c, s))
      && s'.messageCount == s.messageCount + ParsedCount(c, Accepted(ReadSeen(c, s)))
  {
    var (s1, result) := Request(c, s, ReadCommand(c));
    ProcessEachEffect(c, s1, ReadSeen(c, s));
    var s' := ReadNewMessages(c, s);
    assert s1.conn.log <= s'.conn.log;
    CallsCompose(s, s1, s');
    assert CallsSince(s, s')[1..] == CallsSince(s1, s');
  }

  /** The calls of processMessage a list of stream entries leads to, in stream order: those with
      a non-empty id and a non-empty payload. */
  function WithPayload(es: seq<Entry>): seq<Handled>
    decreases |es|
  {
    if es == [] then []
    else (if es[0].id != "" && Truthy(es[0].payload) then [Handled(es[0].id, es[0].payload)] else []) + WithPayload(es[1..])
  }

  lemma {:induction false} AcceptedAsMessages(es: seq<Entry>)
    ensures Accepted(AsMessages(es)) == WithPayload(es)
    decreases |es|
  {
    if es != [] {
      assert AsMessages(es)[1..] == AsMessages(es[1..]);
      AcceptedAsMessages(es[1..]);
    }
  }

  /** Without faults, a read hands every entry the group has not yet delivered (up to batchSize),
      in stream order, to processMessage, skipping those without a payload. */
  lemma ReadProcessesNewEntries(c: Settings, s: Session)
    requires c.faults(|s.conn.log|, ReadCommand(c)).None?
    requires s.conn.broker.hasGroup && s.conn.broker.lastDelivered <= |s.conn.broker.entries|
    ensures var b := s.conn.broker;
      var to := if b.lastDelivered + c.batchSize <= |b.entries| then b.lastDelivered + c.batchSize else |b.entries|;
      Accepted(ReadSeen(c, s)) == WithPayload(b.entries[b.lastDelivered..to])
  {
    var b := s.conn.broker;
    var to := if b.lastDelivered + c.batchSize <= |b.entries| then b.lastDelivered + c.batchSize else |b.entries|;
    AcceptedAsMessages(b.entries[b.lastDelivered..to]);
  }

  // ----- processPendingMessages (consumer.ts:118-178) -----

  /** The ids the pass tries to claim, in XPENDING order: those the test at line 149 selects. */
  function ClaimTargets(c: Settings, ps: seq<PendingMessage>): seq<EntryId>
    decreases |ps|
  {
    if ps == [] then []
    else (if ShouldClaim(ps[0], c.consumerId) then [ps[0].id] else []) + ClaimTargets(c, ps[1..])
  }

  function EligibleIds(c: Settings, ps: seq<PendingMessage>): set<EntryId>
  {
    set p | p in ps && ShouldClaim(p, c.consumerId) :: p.id
  }

  /** Each processMessage call carries the payload the stream holds under its id. */
  ghost predicate FromStream(hs: seq<Handled>, es: seq<Entry>)
  {
    forall h :: h in hs ==> Lookup(es, h.id).Some? && h.raw == Lookup(es, h.id).value.payload
  }

  lemma ClaimsAndAcksJoin(a: seq<Call>, b: seq<Call>, ids: set<EntryId>)
    requires ClaimsAndAcksOf(a, ids) && ClaimsAndAcksOf(b, ids)
    ensures ClaimsAndAcksOf(a + b, ids)
  {
  }

  lemma EligibleIdsOfRest(c: Settings, ps: seq<PendingMessage>)
    requires ps != []
    ensures EligibleIds(c, ps[1..]) <= EligibleIds(c, ps)
    ensures ShouldClaim(ps[0], c.consumerId) ==> ps[0].id in EligibleIds(c, ps)
  {
    forall q | q in ps[1..] ensures q in ps { }
  }

  /** A non-empty XCLAIM reply carries the payload the stream holds for the id. */
  lemma ClaimedFromStream(c: Settings, s: Session, id: EntryId, s1: Session, result: Result<Reply>)
    requires (s1, result) == Request(c, s, ClaimCommand(c, id))
    requires result.Ok? && result.value.Claimed? && |result.value.claimed| > 0
    ensures Lookup(s.conn.broker.entries, id).Some?
    ensures ClaimedPayload(result.value.claimed) == Lookup(s.conn.broker.entries, id).value.payload
  {
  }

  /** The calls of one accepted claim: the XCLAIM itself, then at most the XACKs of its entry. */
  lemma ClaimStepCalls(c: Settings, s: Session, id: EntryId, s1: Session, result: Result<Reply>, s2: Session)
    requires (s1, result) == Request(c, s, ClaimCommand(c, id)) && result.Ok?
    requires var claimed := if result.value.Claimed? then result.value.claimed else [];
      s2 == if |claimed| > 0 then ProcessMessage(c, s1, id, ClaimedPayload(claimed)) else s1
    ensures s.conn.log <= s2.conn.log
    ensures ClaimsAndAcksOf(CallsSince(s, s2), {id})
    ensures ClaimedIds(CallsSince(s, s2)) == [id]
    ensures NoFailedClaim(CallsSince(s, s2))
  {
    var claimed := if result.value.Claimed? then result.value.claimed else [];
    assert CallsSince(s, s1) == [Call(ClaimCommand(c, id), None)];
    if |claimed| > 0 {
      ProcessMessageEffect(c, s1, id, ClaimedPayload(claimed));
      ClaimedIdsOfAcks(CallsSince(s1, s2), {id});
      CallsCompose(s, s1, s2);
      ClaimedIdsAppend(CallsSince(s, s1), CallsSince(s1, s2));
    }
  }

  /** What one accepted claim hands to processMessage: at most its entry, with the payload the
      stream holds for it. */
  lemma ClaimStepHandled(c: Settings, s: Session, id: EntryId, s1: Session, result: Result<Reply>, s2: Session)
    requires (s1, result) == Request(c, s, ClaimCommand(c, id)) && result.Ok?
    requires var claimed := if result.value.Claimed? then result.value.claimed else [];
      s2 == if |claimed| > 0 then ProcessMessage(c, s1, id, ClaimedPayload(claimed)) else s1
    ensures s.handled <= s2.handled
    ensures forall h :: h in s2.handled[|s.handled|..] ==>
      h.id == id && Lookup(s.conn.broker.entries, id).Some? && h.raw == Lookup(s.conn.broker.entries, id).value.payload
    ensures s2.conn.broker.entries == s.conn.broker.entries
  {
    var claimed := if result.value.Claimed? then result.value.claimed else [];
    if |claimed| > 0 {
      ClaimedFromStream(c, s, id, s1, result);
      ProcessMessageEffect(c, s1, id, ClaimedPayload(claimed));
      assert s2.handled[|s.handled|..] == [Handled(id, ClaimedPayload(claimed))];
    } else {
      assert s2.handled[|s.handled|..] == [];
    }
  }

  /** The session after one turn of the claim loop for a row it claims: the XCLAIM, then
      processMessage when the claim returned the entry. */
  function AfterClaim(c: Settings, s: Session, id: EntryId): Session
  {
    var (s1, result) := Request(c, s, ClaimCommand(c, id));
    if result.Err? then s1
    else
      var claimed := if result.value.Claimed? then result.value.claimed else [];
      if |claimed| > 0 then ProcessMessage(c, s1, id, ClaimedPayload(claimed)) else s1
  }

  /** A failed claim ends the loop after its turn; otherwise the loop goes on from there. */
  lemma ClaimEachTurn(c: Settings, s: Session, ps: seq<PendingMessage>)
    requires ps != [] && ShouldClaim(ps[0], c.consumerId)
    ensures ClaimEach(c, s, ps) ==
      if Request(c, s, ClaimCommand(c, ps[0].id)).1.Err? then AfterClaim(c, s, ps[0].id)
      else ClaimEach(c, AfterClaim(c, s, ps[0].id), ps[1..])
  {
  }

  /** The claim loop sends only XCLAIMs and XACKs of eligible entries, and processes only eligible
      entries, each with the payload the stream holds for it. */
  lemma {:induction false} ClaimEachCalls(c: Settings, s: Session, ps: seq<PendingMessage>)
    ensures var s' := ClaimEach(c, s, ps);
      && s.conn.log <= s'.conn.log
      && ClaimsAndAcksOf(CallsSince(s, s'), EligibleIds(c, ps))
      && s.handled <= s'.handled
      && HandledIds(s'.handled[|s.handled|..]) <= EligibleIds(c, ps)
      && FromStream(s'.handled[|s.handled|..], s.conn.broker.entries)
      && s'.conn.broker.entries == s.conn.broker.entries
    decreases |ps|
  {
    if ps != [] {
      var p := ps[0];
      EligibleIdsOfRest(c, ps);
      var s' := ClaimEach(c, s, ps);
      if !ShouldClaim(p, c.consumerId) {
        ClaimEachCalls(c, s, ps[1..]);
      } else {
        var r := Request(c, s, ClaimCommand(c, p.id));
        var s1, result := r.0, r.1;
        ClaimEachTurn(c, s, ps);
        if result.Err? {
          assert CallsSince(s, s') == [Call(ClaimCommand(c, p.id), ErrorOf(result))];
        } else {
          var s2 := AfterClaim(c, s, p.id);
          ClaimStepCalls(c, s, p.id, s1, result, s2);
          ClaimStepHandled(c, s, p.id, s1, result, s2);
          ClaimEachCalls(c, s2, ps[1..]);
          CallsCompose(s, s2, s');
          ClaimsAndAcksJoin(CallsSince(s, s2), CallsSince(s2, s'), EligibleIds(c, ps));
          assert s'.handled[|s.handled|..] == s2.handled[|s.handled|..] + s'.handled[|s2.handled|..];
        }
      }
    }
  }

  /** The claim loop claims the entries the test at line 149 selects, in XPENDING order; it
      claims all of them unless a claim fails, and a failed claim ends the loop. */
  lemma {:induction false} ClaimEachClaims(c: Settings, s: Session, ps: seq<PendingMessage>)
    ensures var s' := ClaimEach(c, s, ps);
      && s.conn.log <= s'.conn.log
      && ClaimedIds(CallsSince(s, s')) <= ClaimTargets(c, ps)
      && (NoFailedClaim(CallsSince(s, s')) ==> ClaimedIds(CallsSince(s, s')) == ClaimTargets(c, ps))
      && FailedClaimLast(CallsSince(s, s'))
    decreases |ps|
  {
    if ps != [] {
      var p := ps[0];
      var s' := ClaimEach(c, s, ps);
      if !ShouldClaim(p, c.consumerId) {
        ClaimEachClaims(c, s, ps[1..]);
      } else {
        var r := Request(c, s, ClaimCommand(c, p.id));
        var s1, result := r.0, r.1;
        if result.Err? {
          assert CallsSince(s, s') == [Call(ClaimCommand(c, p.id), ErrorOf(result))];
          assert ClaimedIds(CallsSince(s, s')) == [p.id];
          assert !NoFailedClaim(CallsSince(s, s'));
        } else {
          var claimed := if result.value.Claimed? then result.value.claimed else [];
          var s2 := if |claimed| > 0 then ProcessMessage(c, s1, p.id, ClaimedPayload(claimed)) else s1;
          ClaimStepCalls(c, s, p.id, s1, result, s2);
          ClaimEachClaims(c, s2, ps[1..]);
          CallsCompose(s, s2, s');
          ClaimedIdsAppend(CallsSince(s, s2), CallsSince(s2, s'));
          FailedClaimLastJoin(CallsSince(s, s2), CallsSince(s2, s'));
          assert NoFailedClaim(CallsSince(s, s')) ==> NoFailedClaim(CallsSince(s2, s')) by {
            forall k | 0 <= k < |CallsSince(s2, s')| ensures CallsSince(s2, s')[k] == CallsSince(s, s')[|CallsSince(s, s2)| + k] { }
          }
        }
      }
    }
  }

  /** The rows the pending pass works through: the XPENDING reply, or none when it fails. */
  function PendingSeen(c: Settings, s: Session): seq<PendingMessage>
  {
    var (_, result) := Request(c, s, XPending(c.batchSize));
    if result.Ok? && result.value.PendingList? then result.value.pending else []
  }

  /** processPendingMessages sends one XPENDING for at most batchSize rows, then claims exactly
      the rows the test at line 149 selects, in order, until a claim fails, which ends the pass;
      everything it sends or processes concerns those rows only. */
  lemma ProcessPendingMessagesEffect(c: Settings, s: Session)
    ensures var s' := ProcessPendingMessages(c, s);
      var ps := PendingSeen(c, s);
      && |ps| <= c.batchSize
      && s.conn.log <= s'.conn.log
      && |CallsSince(s, s')| >= 1
      && CallsSince(s, s')[0].command == XPending(c.batchSize)
      && ClaimsAndAcksOf(CallsSince(s, s')[1..], EligibleIds(c, ps))
      && ClaimedIds(CallsSince(s, s')[1..]) <= ClaimTargets(c, ps)
      && (NoFailedClaim(CallsSince(s, s')) ==> ClaimedIds(CallsSince(s, s')[1..]) == ClaimTargets(c, ps))
      && FailedClaimLast(CallsSince(s, s')[1..])
      && s.handled <= s'.handled
      && HandledIds(s'.handled[|s.handled|..]) <= EligibleIds(c, ps)
      && FromStream(s'.handled[|s.handled|..], s.conn.broker.entries)
      && s'.conn.broker.entries == s.conn.broker.entries
  {
    var (s1, result) := Request(c, s, XPending(c.batchSize));
    var ps := PendingSeen(c, s);
    ClaimEachCalls(c, s1, ps);
    ClaimEachClaims(c, s1, ps);
    var s' := ProcessPendingMessages(c, s);
    CallsCompose(s, s1, s');
    assert CallsSince(s, s')[1..] == CallsSince(s1, s');
    assert NoFailedClaim(CallsSince(s, s')) ==> NoFailedClaim(CallsSince(s1, s')) by {
      forall k | 0 <= k < |CallsSince(s1, s')| ensures CallsSince(s1, s')[k] == CallsSince(s, s')[k + 1] { }
    }
  }

  /** An entry this consumer owns and that has been idle for at most 10000 ms is neither claimed,
      acknowledged nor processed by the pending pass. */
  lemma OwnRecentEntryUntouched(c: Settings, s: Session, p: PendingMessage)
    requires DistinctEntryIds(s.conn.broker.entries)
    requires p in PendingSeen(c, s)
    requires p.consumer == c.consumerId && p.idleTime <= ReclaimIdleMs
    ensures var s' := ProcessPendingMessages(c, s);
      && s.conn.log <= s'.conn.log
      && s.handled <= s'.handled
      && (forall k :: 1 <= k < |CallsSince(s, s')| ==>
            CallsSince(s, s')[k].command != ClaimCommand(c, p.id) && CallsSince(s, s')[k].command != XAck(p.id))
      && (forall h :: h in s'.handled[|s.handled|..] ==> h.id != p.id)
  {
    ProcessPendingMessagesEffect(c, s);
    var ps := PendingSeen(c, s);
    PendingOfDistinct(s.conn.broker.entries, s.conn.broker.pel);
    assert DistinctPendingIds(ps);
    assert p.id !in EligibleIds(c, ps) by {
      forall q | q in ps && ShouldClaim(q, c.consumerId) ensures q.id != p.id {
        var i :| 0 <= i < |ps| && ps[i] == q;
        var j :| 0 <= j < |ps| && ps[j] == p;
        assert i != j;
      }
    }
    var s' := ProcessPendingMessages(c, s);
    var calls := CallsSince(s, s');
    forall k | 1 <= k < |calls| ensures calls[k].command != ClaimCommand(c, p.id) && calls[k].command != XAck(p.id) {
      assert calls[1..][k - 1] == calls[k];
    }
  }

  // ----- start (consumer.ts:247-275) and initConsumerGroup (consumer.ts:32-55) -----

  /** The scans n iterations of the main loop send: each iteration one XPENDING, then one
      XREADGROUP. */
  function LoopScans(c: Settings, n: nat): seq<Command>
    decreases n
  {
    if n == 0 then [] else [XPending(c.batchSize), ReadCommand(c)] + LoopScans(c, n - 1)
  }

  /** One iteration sends exactly two scans: XPENDING first, then XREADGROUP. */
  lemma IterationScans(c: Settings, s: Session)
    ensures s.conn.log <= Iteration(c, s).conn.log
    ensures Scans(CallsSince(s, Iteration(c, s))) == [XPending(c.batchSize), ReadCommand(c)]
  {
    var s1 := ProcessPendingMessages(c, s);
    var s2 := ReadNewMessages(c, s1);
    ProcessPendingMessagesEffect(c, s);
    ReadNewMessagesEffect(c, s1);
    var pending, read := CallsSince(s, s1), CallsSince(s1, s2);
    assert pending == [pending[0]] + pending[1..];
    assert read == [read[0]] + read[1..];
    ScansOfClaimsAndAcks(pending[1..], EligibleIds(c, PendingSeen(c, s)));
    ScansOfClaimsAndAcks(read[1..], HandledIds(Accepted(ReadSeen(c, s1))));
    ScansAppend([pending[0]], pending[1..]);
    ScansAppend([read[0]], read[1..]);
    CallsCompose(s, s1, s2);
    ScansAppend(pending, read);
  }

  lemma ScansCompose(a: Session, b: Session, d: Session)
    requires a.conn.log <= b.conn.log <= d.conn.log
    ensures a.conn.log <= d.conn.log
    ensures Scans(CallsSince(a, d)) == Scans(CallsSince(a, b)) + Scans(CallsSince(b, d))
  {
    CallsCompose(a, b, d);
    ScansAppend(CallsSince(a, b), CallsSince(b, d));
  }

  /** One more iteration in front of a run adds its two scans in front. */
  lemma ScansPrepend(c: Settings, n: nat, s: Session, s1: Session)
    requires Iteration(c, s).conn.log <= s1.conn.log
    requires Scans(CallsSince(Iteration(c, s), s1)) == LoopScans(c, n)
    ensures s.conn.log <= s1.conn.log
    ensures Scans(CallsSince(s, s1)) == LoopScans(c, n + 1)
  {
    IterationScans(c, s);
    ScansCompose(s, Iteration(c, s), s1);
  }

  /** The main loop alternates strictly: pending pass, read, pending pass, read, ... */
  lemma {:induction false} RunScans(c: Settings, s: Session, n: nat)
    ensures s.conn.log <= Run(c, s, n).conn.log
    ensures Scans(CallsSince(s, Run(c, s, n))) == LoopScans(c, n)
    decreases n
  {
    if n == 0 {
      assert Run(c, s, n) == s;
      assert CallsSince(s, s) == [];
    } else {
      RunScans(c, Iteration(c, s), n - 1);
      ScansPrepend(c, n - 1, s, Run(c, Iteration(c, s), n - 1));
    }
  }

  /** The broker's reply to a second XGROUP CREATE is the error initConsumerGroup tolerates. */
  lemma BusyGroupRecognised()
    ensures GroupAlreadyExists(BusyGroupError)
  {
    forall k | 0 <= k < |BusyGroup| ensures BusyGroupError[k] == BusyGroup[k] { }
    assert BusyGroupError[0..|BusyGroup|] == BusyGroup;
    assert OccursAt(BusyGroupError, BusyGroup, 0);
    IncludesIff(BusyGroupError, BusyGroup);
  }

  /** With the broker answering, initConsumerGroup always succeeds and leaves the group in place;
      a group it creates starts at the end of the stream, so earlier entries are never delivered. */
  lemma InitWithoutFault(c: Settings, s: Session)
    requires c.faults(|s.conn.log|, XGroupCreate).None?
    ensures var (s', r) := InitConsumerGroup(c, s);
      && r == Ok(())
      && s'.conn.broker.hasGroup
      && s'.conn.broker.entries == s.conn.broker.entries
      && s'.conn.broker.pel == s.conn.broker.pel
      && (!s.conn.broker.hasGroup ==> s'.conn.broker.lastDelivered == |s.conn.broker.entries|)
      && (s.conn.broker.hasGroup ==> s'.conn.broker == s.conn.broker)
  {
    BusyGroupRecognised();
  }

  /** When XGROUP CREATE fails, initConsumerGroup succeeds exactly when the error message contains
      BUSYGROUP, and otherwise rethrows that very error. */
  lemma InitWithFault(c: Settings, s: Session, message: string)
    requires c.faults(|s.conn.log|, XGroupCreate) == Some(message)
    ensures var (s', r) := InitConsumerGroup(c, s);
      && s'.conn.broker == s.conn.broker
      && s'.conn.log == s.conn.log + [Call(XGroupCreate, Some(message))]
      && (r.Ok? <==> Includes(message, BusyGroup))
      && (r.Err? ==> r.error == message)
  {
  }

  /** A broker call about another id leaves the row of `id` alone. */
  lemma RequestLeavesOthers(c: Settings, s: Session, cmd: Command, id: EntryId)
    requires (cmd.XAck? && cmd.ackId != id) || (cmd.XClaim? && cmd.id != id)
    ensures Untouched(s.conn.broker, Request(c, s, cmd).0.conn.broker, id)
  {
    ExecuteLeavesOthers(s.conn.broker, cmd, c.faults(|s.conn.log|, cmd), id);
  }

  /** Processing another entry leaves the row of `id` alone. */
  lemma ProcessMessageLeavesOthers(c: Settings, s: Session, other: EntryId, raw: Option<string>, id: EntryId)
    requires other != id
    ensures var s' := ProcessMessage(c, s, other, raw);
      && Untouched(s.conn.broker, s'.conn.broker, id)
      && s.handled <= s'.handled
      && s.messageCount <= s'.messageCount
  {
    var s0 := s.(handled := s.handled + [Handled(other, raw)]);
    var (s1, thrown) := TryProcess(c, s0, other, raw);
    if !Truthy(raw) {
      RequestLeavesOthers(c, s0, XAck(other), id);
    } else if c.parse(raw.value).Ok? && DisplayableTime(c.parse(raw.value).value.timestamp) {
      RequestLeavesOthers(c, s0.(messageCount := s0.messageCount + 1), XAck(other), id);
    }
    if thrown.Some? && AcksAfterError(thrown.value) {
      RequestLeavesOthers(c, s1, XAck(other), id);
    }
  }

  /** One turn of the claim loop for another entry leaves the row of `id` alone. */
  lemma ClaimStepLeavesOthers(c: Settings, s: Session, other: EntryId, s1: Session, result: Result<Reply>, s2: Session, id: EntryId)
    requires other != id
    requires (s1, result) == Request(c, s, ClaimCommand(c, other))
    requires s2 == if result.Err? then s1 else
      var claimed := if result.value.Claimed? then result.value.claimed else [];
      if |claimed| > 0 then ProcessMessage(c, s1, other, ClaimedPayload(claimed)) else s1
    ensures Untouched(s.conn.broker, s2.conn.broker, id)
    ensures s.handled <= s2.handled && s.messageCount <= s2.messageCount
  {
    RequestLeavesOthers(c, s, ClaimCommand(c, other), id);
    if result.Ok? {
      var claimed := if result.value.Claimed? then result.value.claimed else [];
      if |claimed| > 0 {
        ProcessMessageLeavesOthers(c, s1, other, ClaimedPayload(claimed), id);
      }
    }
  }

  /** The claim loop over rows of other entries leaves the row of `id` alone. */
  lemma {:induction false} ClaimEachLeavesOthers(c: Settings, s: Session, ps: seq<PendingMessage>, id: EntryId)
    requires forall k :: 0 <= k < |ps| ==> ps[k].id != id
    ensures var s' := ClaimEach(c, s, ps);
      && Untouched(s.conn.broker, s'.conn.broker, id)
      && s.handled <= s'.handled
      && s.messageCount <= s'.messageCount
    decreases |ps|
  {
    if ps != [] {
      var p := ps[0];
      if !ShouldClaim(p, c.consumerId) {
        ClaimEachLeavesOthers(c, s, ps[1..], id);
      } else {
        var r := Request(c, s, ClaimCommand(c, p.id));
        var s1, result := r.0, r.1;
        var s2 := if result.Err? then s1 else
          var claimed := if result.value.Claimed? then result.value.claimed else [];
          if |claimed| > 0 then ProcessMessage(c, s1, p.id, ClaimedPayload(claimed)) else s1;
        ClaimStepLeavesOthers(c, s, p.id, s1, result, s2, id);
        if result.Ok? {
          ClaimEachLeavesOthers(c, s2, ps[1..], id);
        }
      }
    }
  }

  /** The row of `id`, if any, is too young for XCLAIM's min-idle guard. */
  ghost predicate TooYoungToClaim(b: State, id: EntryId)
  {
    id in b.pel ==> b.pel[id].idle < ClaimMinIdleMs
  }

  lemma UntouchedTrans(a: State, b: State, d: State, id: EntryId)
    requires Untouched(a, b, id) && Untouched(b, d, id)
    ensures Untouched(a, d, id)
  {
  }

  /** One turn of the claim loop, for any row, neither processes nor acknowledges an entry whose
      row is too young to claim, and leaves that row alone: its own XCLAIM comes back empty. */
  lemma ClaimStepLeavesYoung(c: Settings, s: Session, other: EntryId, id: EntryId)
    requires TooYoungToClaim(s.conn.broker, id)
    ensures var s2 := AfterClaim(c, s, other);
      && s.conn.log <= s2.conn.log && s.handled <= s2.handled
      && Untouched(s.conn.broker, s2.conn.broker, id)
      && NoAckOf(CallsSince(s, s2), id)
      && NoneHandled(s2.handled[|s.handled|..], id)
  {
    var (s1, result) := Request(c, s, ClaimCommand(c, other));
    var s2 := AfterClaim(c, s, other);
    if other == id {
      if result.Ok? {
        assert !(result.value.Claimed? && result.value.claimed != []);
      }
      assert s2 == s1 && s1.conn.broker == s.conn.broker;
      assert CallsSince(s, s2) == [Call(ClaimCommand(c, id), ErrorOf(result))];
    } else {
      ClaimStepLeavesOthers(c, s, other, s1, result, s2, id);
      if result.Ok? {
        ClaimStepCalls(c, s, other, s1, result, s2);
        ClaimStepHandled(c, s, other, s1, result, s2);
      } else {
        assert CallsSince(s, s2) == [Call(ClaimCommand(c, other), ErrorOf(result))];
      }
    }
  }

  /** Two stretches of calls that each leave an entry alone leave it alone together. */
  lemma YoungCompose(s: Session, s2: Session, s': Session, id: EntryId)
    requires s.conn.log <= s2.conn.log <= s'.conn.log && s.handled <= s2.handled <= s'.handled
    requires Untouched(s.conn.broker, s2.conn.broker, id) && Untouched(s2.conn.broker, s'.conn.broker, id)
    requires NoAckOf(CallsSince(s, s2), id) && NoAckOf(CallsSince(s2, s'), id)
    requires NoneHandled(s2.handled[|s.handled|..], id) && NoneHandled(s'.handled[|s2.handled|..], id)
    ensures Untouched(s.conn.broker, s'.conn.broker, id)
    ensures NoAckOf(CallsSince(s, s'), id)
    ensures NoneHandled(s'.handled[|s.handled|..], id)
  {
    UntouchedTrans(s.conn.broker, s2.conn.broker, s'.conn.broker, id);
    CallsCompose(s, s2, s');
    NoAckJoin(CallsSince(s, s2), CallsSince(s2, s'), id);
    assert s'.handled[|s.handled|..] == s2.handled[|s.handled|..] + s'.handled[|s2.handled|..];
  }

  /** The claim loop neither processes nor acknowledges an entry whose row is too young to
      claim, and leaves that row as it was. */
  lemma {:induction false} ClaimEachLeavesYoung(c: Settings, s: Session, ps: seq<PendingMessage>, id: EntryId)
    requires TooYoungToClaim(s.conn.broker, id)
    ensures var s' := ClaimEach(c, s, ps);
      && s.conn.log <= s'.conn.log
      && s.handled <= s'.handled
      && Untouched(s.conn.broker, s'.conn.broker, id)
      && NoAckOf(CallsSince(s, s'), id)
      && NoneHandled(s'.handled[|s.handled|..], id)
    decreases |ps|
  {
    if ps != [] {
      if !ShouldClaim(ps[0], c.consumerId) {
        ClaimEachLeavesYoung(c, s, ps[1..], id);
      } else {
        ClaimEachTurn(c, s, ps);
        var s2 := AfterClaim(c, s, ps[0].id);
        ClaimStepLeavesYoung(c, s, ps[0].id, id);
        if Request(c, s, ClaimCommand(c, ps[0].id)).1.Ok? {
          ClaimEachLeavesYoung(c, s2, ps[1..], id);
          YoungCompose(s, s2, ClaimEach(c, s2, ps[1..]), id);
        }
      }
    }
  }

  lemma NoAckJoin(a: seq<Call>, b: seq<Call>, id: EntryId)
    requires NoAckOf(a, id) && NoAckOf(b, id)
    ensures NoAckOf(a + b, id)
  {
    forall k | 0 <= k < |a + b| ensures (a + b)[k].command != XAck(id) {
      if k < |a| {
        assert (a + b)[k] == a[k];
      } else {
        assert (a + b)[k] == b[k - |a|];
      }
    }
  }

  /** No faults from the broker at any point. */
  ghost predicate Reliable(c: Settings)
  {
    forall k, cmd :: c.faults(k, cmd).None?
  }

  /** With the broker answering, claiming a pending entry idle for at least the min-idle time
      returns its stored payload, and processing a payload that parses acknowledges it. */
  lemma ClaimStepRecovers(c: Settings, s: Session, id: EntryId, raw: string)
    requires Reliable(c) && s.conn.broker.hasGroup
    requires id in s.conn.broker.pel && s.conn.broker.pel[id].idle >= ClaimMinIdleMs
    requires Lookup(s.conn.broker.entries, id) == Some(Entry(id, Some(raw)))
    requires raw != "" && c.parse(raw).Ok? && DisplayableTime(c.parse(raw).value.timestamp)
    ensures var (s1, result) := Request(c, s, ClaimCommand(c, id));
      && result == Ok(Claimed([ClaimedEntry(id, StreamFields(Some(raw)))]))
      && var s2 := ProcessMessage(c, s1, id, Some(raw));
      && s2.handled == s.handled + [Handled(id, Some(raw))]
      && s2.messageCount == s.messageCount + 1
      && s2.conn.broker.hasGroup
      && s2.conn.broker.entries == s.conn.broker.entries
      && id !in s2.conn.broker.pel
      && s.conn.broker.acked + {id} <= s2.conn.broker.acked
  {
    var (s1, result) := Request(c, s, ClaimCommand(c, id));
    assert c.faults(|s.conn.log|, ClaimCommand(c, id)).None?;
    assert id in s1.conn.broker.pel && s1.conn.broker.hasGroup;
    var s0 := s1.(handled := s1.handled + [Handled(id, Some(raw))], messageCount := s1.messageCount + 1);
    assert c.faults(|s0.conn.log|, XAck(id)).None?;
  }

  lemma DistinctPendingTail(ps: seq<PendingMessage>)
    requires ps != [] && DistinctPendingIds(ps)
    ensures DistinctPendingIds(ps[1..])
    ensures forall j :: 0 <= j < |ps[1..]| ==> ps[1..][j].id != ps[0].id
  {
    forall i, j | 0 <= i < j < |ps[1..]| ensures ps[1..][i].id != ps[1..][j].id {
      assert ps[1..][i] == ps[i + 1] && ps[1..][j] == ps[j + 1];
    }
    forall j | 0 <= j < |ps[1..]| ensures ps[1..][j].id != ps[0].id {
      assert ps[1..][j] == ps[j + 1];
    }
  }

  /** Once an entry is processed and acknowledged, later steps that leave its row alone keep it so. */
  lemma RecoveredStaysRecovered(s: Session, s2: Session, s': Session, id: EntryId, raw: string)
    requires s2.handled == s.handled + [Handled(id, Some(raw))] && s2.messageCount == s.messageCount + 1
    requires id !in s2.conn.broker.pel && id in s2.conn.broker.acked
    requires Untouched(s2.conn.broker, s'.conn.broker, id)
    requires s2.handled <= s'.handled && s2.messageCount <= s'.messageCount
    ensures s.handled <= s'.handled
    ensures Handled(id, Some(raw)) in s'.handled[|s.handled|..]
    ensures s.messageCount < s'.messageCount
    ensures id !in s'.conn.broker.pel && id in s'.conn.broker.acked
  {
    assert s'.handled[|s.handled|] == Handled(id, Some(raw));
  }

  /** After a non-empty claim of its first row, the claim loop processes the claimed payload
      and goes on with the remaining rows. */
  lemma ClaimEachAfterClaim(c: Settings, s: Session, ps: seq<PendingMessage>, claimed: seq<ClaimedEntry>)
    requires ps != [] && ShouldClaim(ps[0], c.consumerId)
    requires Request(c, s, ClaimCommand(c, ps[0].id)).1 == Ok(Claimed(claimed)) && |claimed| > 0
    ensures ClaimEach(c, s, ps) ==
      ClaimEach(c, ProcessMessage(c, Request(c, s, ClaimCommand(c, ps[0].id)).0, ps[0].id, ClaimedPayload(claimed)), ps[1..])
  {
  }

  /** The claim loop recovers a stranded entry in its first row. */
  lemma ClaimHeadRecovers(c: Settings, s: Session, ps: seq<PendingMessage>, raw: string)
    requires Reliable(c) && s.conn.broker.hasGroup
    requires ps != [] && DistinctPendingIds(ps)
    requires ShouldClaim(ps[0], c.consumerId)
    requires ps[0].id in s.conn.broker.pel && s.conn.broker.pel[ps[0].id].idle >= ClaimMinIdleMs
    requires Lookup(s.conn.broker.entries, ps[0].id) == Some(Entry(ps[0].id, Some(raw)))
    requires raw != "" && c.parse(raw).Ok? && DisplayableTime(c.parse(raw).value.timestamp)
    ensures var s' := ClaimEach(c, s, ps);
      && s.handled <= s'.handled
      && Handled(ps[0].id, Some(raw)) in s'.handled[|s.handled|..]
      && s.messageCount < s'.messageCount
      && ps[0].id !in s'.conn.broker.pel
      && ps[0].id in s'.conn.broker.acked
  {
    var id := ps[0].id;
    ClaimStepRecovers(c, s, id, raw);
    var claimed := [ClaimedEntry(id, StreamFields(Some(raw)))];
    ClaimEachAfterClaim(c, s, ps, claimed);
    var s2 := ProcessMessage(c, Request(c, s, ClaimCommand(c, id)).0, id, Some(raw));
    DistinctPendingTail(ps);
    ClaimEachLeavesOthers(c, s2, ps[1..], id);
    RecoveredStaysRecovered(s, s2, ClaimEach(c, s2, ps[1..]), id, raw);
  }

  /** The claim loop recovers the k-th row: a stranded entry whose row it reaches is claimed,
      processed with its stored payload, counted and acknowledged, and stays acknowledged. */
  lemma {:induction false} ClaimEachRecovers(c: Settings, s: Session, ps: seq<PendingMessage>, k: nat, raw: string)
    requires Reliable(c) && s.conn.broker.hasGroup
    requires k < |ps| && DistinctPendingIds(ps)
    requires ShouldClaim(ps[k], c.consumerId)
    requires ps[k].id in s.conn.broker.pel && s.conn.broker.pel[ps[k].id].idle >= ClaimMinIdleMs
    requires Lookup(s.conn.broker.entries, ps[k].id) == Some(Entry(ps[k].id, Some(raw)))
    requires raw != "" && c.parse(raw).Ok? && DisplayableTime(c.parse(raw).value.timestamp)
    ensures var s' := ClaimEach(c, s, ps);
      && s.handled <= s'.handled
      && Handled(ps[k].id, Some(raw)) in s'.handled[|s.handled|..]
      && s.messageCount < s'.messageCount
      && ps[k].id !in s'.conn.broker.pel
      && ps[k].id in s'.conn.broker.acked
    decreases k
  {
    var id := ps[k].id;
    var s' := ClaimEach(c, s, ps);
    var p := ps[0];
    var r := Request(c, s, ClaimCommand(c, p.id));
    var s1, result := r.0, r.1;
    if k == 0 {
      ClaimHeadRecovers(c, s, ps, raw);
    } else {
      DistinctPendingTail(ps);
      assert ps[1..][k - 1] == ps[k];
      if !ShouldClaim(p, c.consumerId) {
        ClaimEachRecovers(c, s, ps[1..], k - 1, raw);
      } else {
        assert c.faults(|s.conn.log|, ClaimCommand(c, p.id)).None?;
        assert result.Ok?;
        var claimed := if result.value.Claimed? then result.value.claimed else [];
        var s2 := if |claimed| > 0 then ProcessMessage(c, s1, p.id, ClaimedPayload(claimed)) else s1;
        ClaimStepLeavesOthers(c, s, p.id, s1, result, s2, id);
        assert ClaimEach(c, s, ps) == ClaimEach(c, s2, ps[1..]);
        ClaimEachRecovers(c, s2, ps[1..], k - 1, raw);
        assert s'.handled[|s.handled|..] == s2.handled[|s.handled|..] + s'.handled[|s2.handled|..];
      }
    }
  }

  /** The rows XPENDING lists are distinct rows of the PEL, with the PEL's own values. */
  lemma PendingSeenRows(c: Settings, s: Session)
    requires DistinctEntryIds(s.conn.broker.entries)
    ensures DistinctPendingIds(PendingSeen(c, s))
    ensures forall p :: p in PendingSeen(c, s) ==>
      p.id in s.conn.broker.pel && s.conn.broker.pel[p.id] == PelEntry(p.consumer, p.idleTime, p.deliveryCount)
  {
    var b := s.conn.broker;
    var all := PendingOf(b.entries, b.pel);
    PendingOfDistinct(b.entries, b.pel);
    var ps := PendingSeen(c, s);
    assert ps <= all;
    forall p | p in ps ensures p in all {
      var i :| 0 <= i < |ps| && ps[i] == p;
      assert all[i] == p;
    }
  }

  /** An entry left pending by a consumer that stopped (or by this one, past 10000 ms) is
      claimed by the next pending pass that lists it, processed with its stored payload, counted
      and acknowledged, wherever it stands among the listed rows. The owner may be any other
      consumer with the entry idle from 5000 ms on: the test at line 149 does not look at the
      idle time of other consumers' entries. */
  lemma StrandedEntryRecovered(c: Settings, s: Session, p: PendingMessage, raw: string)
    requires Reliable(c)
    requires DistinctEntryIds(s.conn.broker.entries)
    requires p in PendingSeen(c, s)
    requires ShouldClaim(p, c.consumerId) && p.idleTime >= ClaimMinIdleMs
    requires Lookup(s.conn.broker.entries, p.id) == Some(Entry(p.id, Some(raw)))
    requires raw != "" && c.parse(raw).Ok? && DisplayableTime(c.parse(raw).value.timestamp)
    ensures var s' := ProcessPendingMessages(c, s);
      && s.handled <= s'.handled
      && Handled(p.id, Some(raw)) in s'.handled[|s.handled|..]
      && s.messageCount < s'.messageCount
      && p.id !in s'.conn.broker.pel
      && p.id in s'.conn.broker.acked
  {
    var (s1, result) := Request(c, s, XPending(c.batchSize));
    assert c.faults(|s.conn.log|, XPending(c.batchSize)).None?;
    assert s.conn.broker.hasGroup;
    var ps := PendingSeen(c, s);
    PendingSeenRows(c, s);
    var k :| 0 <= k < |ps| && ps[k] == p;
    assert ProcessPendingMessages(c, s) == ClaimEach(c, s1, ps);
    ClaimEachRecovers(c, s1, ps, k, raw);
  }
  /** An entry listed by XPENDING that has been idle for less than XCLAIM's min-idle time of
      5000 ms is held back by that guard, whoever owns it: the pending pass neither processes nor
      acknowledges it, and leaves its row in the PEL as it was. */
  lemma YoungEntryLeftAlone(c: Settings, s: Session, p: PendingMessage)
    requires DistinctEntryIds(s.conn.broker.entries)
    requires p in PendingSeen(c, s)
    requires p.idleTime < ClaimMinIdleMs
    ensures var s' := ProcessPendingMessages(c, s);
      && s.conn.log <= s'.conn.log
      && s.handled <= s'.handled
      && NoAckOf(CallsSince(s, s'), p.id)
      && NoneHandled(s'.handled[|s.handled|..], p.id)
      && Untouched(s.conn.broker, s'.conn.broker, p.id)
  {
    var (s1, result) := Request(c, s, XPending(c.batchSize));
    var ps := PendingSeen(c, s);
    PendingSeenRows(c, s);
    assert s1.conn.broker == s.conn.broker;
    assert ProcessPendingMessages(c, s) == ClaimEach(c, s1, ps);
    ClaimEachLeavesYoung(c, s1, ps, p.id);
    var s' := ProcessPendingMessages(c, s);
    CallsCompose(s, s1, s');
    NoAckJoin(CallsSince(s, s1), CallsSince(s1, s'), p.id);
  }
}
