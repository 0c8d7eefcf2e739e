/** What the publisher guarantees, proved about the functions of PublisherSpec (and so, through
    the postconditions of the Publisher class, about the class itself). */
module PublisherProperties {
  import opened Wrappers
  import opened Text
  import opened Messages
  import opened Broker
  import opened PublisherSpec

  // ----- publishMessage (publisher.ts:27-64) -----

  /** The content names the message's position: "Message #" followed by the decimal digits of
      count + 1, which read back as count + 1. */
  lemma ContentNumbersMessage(count: nat)
    ensures |Content(count)| > |ContentPrefix|
    ensures Content(count)[..|ContentPrefix|] == ContentPrefix
    ensures var digits := Content(count)[|ContentPrefix|..];
      (forall k :: 0 <= k < |digits| ==> IsDigit(digits[k])) && DigitsValue(digits) == count + 1
  {
    assert Content(count)[|ContentPrefix|..] == NatToString(count + 1);
    DigitsValueOfNatToString(count + 1);
  }

  /** Distinct counters give distinct contents. */
  lemma ContentInjective(a: nat, b: nat)
    requires Content(a) == Content(b)
    ensures a == b
  {
    ContentNumbersMessage(a);
    ContentNumbersMessage(b);
  }

  /** The entry the i-th of a run of successful publishes appends, starting from state s. */
  function PublishedEntry(e: Environment, s: PubState, i: nat): Entry
  {
    var serialized := e.stringify(NewPayload(e, |s.conn.log| + i, s.messageCount + i));
    Entry(IdOf(|s.conn.broker.entries| + i + 1), Some(serialized))
  }

  /** The broker's group state: what XADD leaves alone. */
  ghost predicate SameGroup(a: Broker.State, b: Broker.State)
  {
    a.name == b.name && a.hasGroup == b.hasGroup && a.lastDelivered == b.lastDelivered &&
    a.pel == b.pel && a.acked == b.acked
  }

  /** publishMessage makes one XADD. When it succeeds the serialised payload is appended under
      the next id, which is returned, and the counter rises by one; when it fails the error is
      rethrown and neither the stream nor the counter changes. */
  lemma PublishMessageEffect(e: Environment, s: PubState)
    ensures var (s', r) := PublishMessage(e, s);
      var k := |s.conn.log|;
      var cmd := XAdd(e.stringify(NewPayload(e, k, s.messageCount)));
      && s'.conn.log == s.conn.log + [Call(cmd, e.faults(k, cmd))]
      && (e.faults(k, cmd).Some? ==>
            r == Err(e.faults(k, cmd).value) && s'.messageCount == s.messageCount && s'.conn.broker == s.conn.broker)
      && (e.faults(k, cmd).None? ==>
            && r == Ok(IdOf(|s.conn.broker.entries| + 1))
            && s'.messageCount == s.messageCount + 1
            && s'.conn.broker.entries == s.conn.broker.entries + [PublishedEntry(e, s, 0)]
            && SameGroup(s'.conn.broker, s.conn.broker))
  {
  }

  // ----- publishBatch (publisher.ts:101-115) -----

  /** The counters after n publishes: the stream gained m entries, the counter rose by m, and
      the log by m calls plus the failed one, if any. */
  ghost predicate CountsAfter(s: PubState, s': PubState, failed: bool)
  {
    var m := |s'.conn.broker.entries| - |s.conn.broker.entries|;
    && |s.conn.broker.entries| <= |s'.conn.broker.entries|
    && SameGroup(s'.conn.broker, s.conn.broker)
    && s'.messageCount == s.messageCount + m
    && |s'.conn.log| == |s.conn.log| + m + (if failed then 1 else 0)
  }

  /** The ids of the entries appended after `base` earlier ones. */
  ghost predicate NextIds(ids: seq<string>, base: nat, n: nat)
  {
    |ids| == n && forall j :: 0 <= j < n ==> ids[j] == IdOf(base + j + 1)
  }

  lemma CountsStep(s: PubState, s1: PubState, s': PubState, failed: bool)
    requires CountsAfter(s, s1, false) && |s1.conn.broker.entries| == |s.conn.broker.entries| + 1
    requires CountsAfter(s1, s', failed)
    ensures CountsAfter(s, s', failed)
  {
  }

  lemma IdsStep(id: string, ids: seq<string>, base: nat, n: nat)
    requires n > 0 && id == IdOf(base + 1) && NextIds(ids, base + 1, n - 1)
    ensures NextIds([id] + ids, base, n)
  {
    forall j | 1 <= j < n ensures ([id] + ids)[j] == IdOf(base + j + 1) {
      assert ([id] + ids)[j] == ids[j - 1];
    }
  }

  /** n sequential publishes: some number m of them append, the counter rises by m, and the log
      by m calls plus the failed one, if any. */
  lemma {:induction false} PublishNCounts(e: Environment, s: PubState, n: nat)
    ensures CountsAfter(s, PublishN(e, s, n).0, PublishN(e, s, n).1.Err?)
    decreases n
  {
    if n > 0 {
      PublishMessageEffect(e, s);
      PublishNStep(e, s, n);
      var step := PublishMessage(e, s);
      if step.1.Ok? {
        PublishNCounts(e, step.0, n - 1);
        var later := PublishN(e, step.0, n - 1);
        CountsStep(s, step.0, later.0, later.1.Err?);
      }
    }
  }

  /** A successful run of n publishes appends n entries and returns their ids in call order. */
  lemma {:induction false} PublishNIds(e: Environment, s: PubState, n: nat)
    ensures var (s', r) := PublishN(e, s, n);
      r.Ok? ==> |s'.conn.broker.entries| == |s.conn.broker.entries| + n && NextIds(r.value, |s.conn.broker.entries|, n)
    decreases n
  {
    if n > 0 {
      PublishMessageEffect(e, s);
      PublishNStep(e, s, n);
      var step := PublishMessage(e, s);
      if step.1.Ok? {
        PublishNIds(e, step.0, n - 1);
        var later := PublishN(e, step.0, n - 1);
        if later.1.Ok? {
          IdsStep(step.1.value, later.1.value, |s.conn.broker.entries|, n);
        }
      }
    }
  }

  /** A failed run stops at the first failing call: fewer than n entries were appended, and the
      error returned is the failure of the last call made. */
  lemma {:induction false} PublishNError(e: Environment, s: PubState, n: nat)
    ensures var (s', r) := PublishN(e, s, n);
      r.Err? ==>
        && |s'.conn.broker.entries| < |s.conn.broker.entries| + n
        && |s'.conn.log| > |s.conn.log|
        && s'.conn.log[|s'.conn.log| - 1].failure == Some(r.error)
    decreases n
  {
    if n > 0 {
      PublishMessageEffect(e, s);
      PublishNStep(e, s, n);
      var step := PublishMessage(e, s);
      if step.1.Ok? {
        PublishNError(e, step.0, n - 1);
        PublishNCounts(e, step.0, n - 1);
      }
    }
  }

  /** The entries appended after those of s are the serialised payloads, in call order, each
      under the next id. */
  ghost predicate EntriesAfter(e: Environment, s: PubState, entries: seq<Entry>)
  {
    && s.conn.broker.entries <= entries
    && forall j :: |s.conn.broker.entries| <= j < |entries| ==>
         entries[j] == PublishedEntry(e, s, j - |s.conn.broker.entries|)
  }

  lemma EntriesStep(e: Environment, s: PubState, s1: PubState, entries: seq<Entry>)
    requires s1.conn.broker.entries == s.conn.broker.entries + [PublishedEntry(e, s, 0)]
    requires |s1.conn.log| == |s.conn.log| + 1 && s1.messageCount == s.messageCount + 1
    requires EntriesAfter(e, s1, entries)
    ensures EntriesAfter(e, s, entries)
  {
    var E, E1 := s.conn.broker.entries, s1.conn.broker.entries;
    FirstEntryStep(E, E1, entries, PublishedEntry(e, s, 0));
    LaterEntriesStep(e, s, s1, entries);
  }

  lemma FirstEntryStep(E: seq<Entry>, E1: seq<Entry>, entries: seq<Entry>, first: Entry)
    requires E1 == E + [first] && E1 <= entries
    ensures E <= entries && entries[|E|] == first
  {
    assert E1[|E|] == first;
  }

  lemma LaterEntriesStep(e: Environment, s: PubState, s1: PubState, entries: seq<Entry>)
    requires |s1.conn.broker.entries| == |s.conn.broker.entries| + 1
    requires |s1.conn.log| == |s.conn.log| + 1 && s1.messageCount == s.messageCount + 1
    requires forall j :: |s1.conn.broker.entries| <= j < |entries| ==>
      entries[j] == PublishedEntry(e, s1, j - |s1.conn.broker.entries|)
    ensures forall j :: |s.conn.broker.entries| < j < |entries| ==>
      entries[j] == PublishedEntry(e, s, j - |s.conn.broker.entries|)
  {
    var E, E1 := s.conn.broker.entries, s1.conn.broker.entries;
    forall j | |E| < j < |entries| ensures entries[j] == PublishedEntry(e, s, j - |E|) {
      PublishedEntryShift(e, s, s1, j - |E1|);
    }
  }

  lemma PublishedEntryShift(e: Environment, s: PubState, s1: PubState, i: nat)
    requires |s1.conn.broker.entries| == |s.conn.broker.entries| + 1
    requires |s1.conn.log| == |s.conn.log| + 1 && s1.messageCount == s.messageCount + 1
    ensures PublishedEntry(e, s1, i) == PublishedEntry(e, s, i + 1)
  {
    assert |s1.conn.log| + i == |s.conn.log| + (i + 1);
    assert s1.messageCount + i == s.messageCount + (i + 1);
    assert |s1.conn.broker.entries| + i + 1 == |s.conn.broker.entries| + (i + 1) + 1;
  }

  /** The entries a run of publishes appends are the serialised payloads, in call order, each
      under the next id, and the entries before them are untouched. */
  lemma {:induction false} PublishNEntries(e: Environment, s: PubState, n: nat)
    ensures EntriesAfter(e, s, PublishN(e, s, n).0.conn.broker.entries)
    decreases n
  {
    if n > 0 {
      PublishMessageEffect(e, s);
      PublishNStep(e, s, n);
      var step := PublishMessage(e, s);
      if step.1.Ok? {
        PublishNEntries(e, step.0, n - 1);
        EntriesStep(e, s, step.0, PublishN(e, s, n).0.conn.broker.entries);
      }
    }
  }

  /** A batch is exactly max(count, 0) publishes: a non-positive count publishes nothing. */
  lemma NonPositiveBatchPublishesNothing(e: Environment, s: PubState, count: int)
    requires count <= 0
    ensures PublishBatch(e, s, count) == (s, Ok([]))
  {
  }

  /** A successful batch returns pairwise distinct ids, one per requested message. */
  lemma BatchIdsDistinct(e: Environment, s: PubState, count: int)
    ensures var (s', r) := PublishBatch(e, s, count);
      r.Ok? ==> (|r.value| == Rounds(count) && s'.messageCount == s.messageCount + Rounds(count) &&
        (forall i, j :: 0 <= i < j < |r.value| ==> r.value[i] != r.value[j]))
  {
    PublishNCounts(e, s, Rounds(count));
    PublishNIds(e, s, Rounds(count));
    var (s', r) := PublishBatch(e, s, count);
    assert r.Ok? ==> NextIds(r.value, |s.conn.broker.entries|, Rounds(count));
    if r.Ok? {
      forall i, j | 0 <= i < j < |r.value| ensures r.value[i] != r.value[j] {
        if r.value[i] == r.value[j] {
          IdOfInjective(|s.conn.broker.entries| + i + 1, |s.conn.broker.entries| + j + 1);
        }
      }
    }
  }

  // ----- getStreamInfo (publisher.ts:120-135) -----

  /** Position j of the reply holds a key (even position) that reads as k. */
  ghost predicate KeyAt(items: seq<InfoValue>, j: int, k: string)
  {
    0 <= j < |items| && j % 2 == 0 && KeyString(items[j]) == k
  }

  /** The keys of the record are exactly the strings of the even positions visited. */
  lemma {:induction false} InfoRecordKeys(items: seq<InfoValue>, p: nat, k: string)
    requires p <= PairCount(items)
    ensures k in InfoRecord(items, p) <==> exists j :: KeyAt(items, j, k) && j < 2 * p
    decreases p
  {
    if p > 0 {
      InfoRecordKeys(items, p - 1, k);
      if KeyString(items[2 * (p - 1)]) != k {
        forall j | KeyAt(items, j, k) && j < 2 * p ensures j < 2 * (p - 1) { }
      } else {
        assert KeyAt(items, 2 * (p - 1), k);
      }
    }
  }

  /** A key maps to the value after its last occurrence: later duplicates overwrite earlier
      ones, and a key in the last position maps to undefined. */
  lemma {:induction false} InfoRecordLastWins(items: seq<InfoValue>, p: nat, j: nat, k: string)
    requires p <= PairCount(items)
    requires KeyAt(items, j, k) && j < 2 * p
    requires forall j' :: KeyAt(items, j', k) && j' < 2 * p ==> j' <= j
    ensures k in InfoRecord(items, p) && InfoRecord(items, p)[k] == ValueAt(items, j + 1)
    decreases p
  {
    if j < 2 * (p - 1) {
      assert !KeyAt(items, 2 * (p - 1), k);
      InfoRecordLastWins(items, p - 1, j, k);
    }
  }

  /** An odd-length reply leaves its trailing key mapped to undefined. */
  lemma OddTrailingKeyUndefined(items: seq<InfoValue>)
    requires |items| % 2 == 1
    ensures var record := InfoRecord(items, PairCount(items));
      KeyString(items[|items| - 1]) in record && record[KeyString(items[|items| - 1])] == None
  {
    var j := |items| - 1;
    InfoRecordLastWins(items, PairCount(items), j, KeyString(items[j]));
  }

  /** getStreamInfo sends one XINFO STREAM and changes nothing; with the broker answering it
      returns the stream's length, its group count and its last id, keyed by name. */
  lemma GetStreamInfoEffect(e: Environment, s: PubState)
    ensures var (s', r) := GetStreamInfo(e, s);
      var fault := e.faults(|s.conn.log|, XInfoStream);
      var b := s.conn.broker;
      && s' == s.(conn := Connection(b, s.conn.log + [Call(XInfoStream, fault)]))
      && (fault.Some? ==> r == Err(fault.value))
      && (fault.None? ==> r == Ok(map[
            "length" := Some(InfoNumber(|b.entries|)),
            "groups" := Some(InfoNumber(if b.hasGroup then 1 else 0)),
            "last-generated-id" := Some(InfoText(if b.entries == [] then "0-0" else b.entries[|b.entries| - 1].id))]))
  {
    var b := s.conn.broker;
    var last := if b.entries == [] then "0-0" else b.entries[|b.entries| - 1].id;
    var items := [
      InfoText("length"), InfoNumber(|b.entries|),
      InfoText("groups"), InfoNumber(if b.hasGroup then 1 else 0),
      InfoText("last-generated-id"), InfoText(last)];
    assert PairCount(items) == 3;
    assert InfoRecord(items, 1) == map["length" := Some(InfoNumber(|b.entries|))];
    assert InfoRecord(items, 2) == InfoRecord(items, 1)["groups" := Some(InfoNumber(if b.hasGroup then 1 else 0))];
    assert InfoRecord(items, 3) == InfoRecord(items, 2)["last-generated-id" := Some(InfoText(last))];
  }
}
