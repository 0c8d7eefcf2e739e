/** The message shapes exchanged through the stream (src/types/messages.ts), and the consumer's
    defensive reading of an XREADGROUP reply. */
module Messages {
  import opened Wrappers

  /** An arbitrary JSON value, for the open-ended `data` record of a payload. */
  datatype Json =
    | JNull
    | JBool(b: bool)
    | JNumber(n: real)
    | JString(s: string)
    | JArray(items: seq<Json>)
    | JObject(fields: map<string, Json>)

  /** MessagePayload: the business event a publisher serialises into the `payload` field. */
  datatype MessagePayload = MessagePayload(
    id: string,
    timestamp: int,
    content: string,
    data: Option<map<string, Json>>)

  /** PendingMessage: one row of an XPENDING reply. */
  datatype PendingMessage = PendingMessage(
    id: string,
    consumer: string,
    idleTime: nat,
    deliveryCount: nat)

  /** The `message` part of a stream message; `payload` may be missing. */
  datatype StreamFields = StreamFields(payload: Option<string>)

  /** RedisStreamMessage as the consumer meets it: the reply element itself may be null, and its
      `id` and `message` may be missing. */
  datatype StreamMessage =
    | NullMessage
    | StreamMessage(id: Option<string>, message: Option<StreamFields>)

  /** One element of a `[stream, messages]` pair, or whatever else the reply holds in its place. */
  datatype ReplyElement =
    | StreamName(name: string)
    | MessageList(messages: seq<StreamMessage>)
    | NullElement

  /** One element of the outer reply array: normally a `[stream, messages]` pair. */
  datatype ReplyItem =
    | ItemNotArray
    | ItemArray(elements: seq<ReplyElement>)

  /** An XReadGroupResult before the consumer's shape check: null when nothing arrived. */
  datatype ReadReply =
    | NullReply
    | NotArrayReply
    | ReplyArray(items: seq<ReplyItem>)

  /** JavaScript truthiness of an optional string: present and non-empty. */
  predicate Truthy(s: Option<string>)
  {
    s.Some? && s.value != ""
  }

  /** The check at consumer.ts:82 passes: an array whose first element is an array of length >= 2. */
  predicate WellShaped(r: ReadReply)
  {
    r.ReplyArray? && |r.items| > 0 && r.items[0].ItemArray? && |r.items[0].elements| >= 2
  }

  /** `result[0][1]` when the reply passes the shape check and that element is a list of messages;
      every other reply yields no message (a null reply, a reply failing the check, or a
      `result[0][1]` that is not a list, which either throws or iterates nothing). */
  function Delivered(r: ReadReply): (ms: seq<StreamMessage>)
    ensures !WellShaped(r) ==> ms == []
    ensures WellShaped(r) && r.items[0].elements[1].MessageList? ==> ms == r.items[0].elements[1].messages
  {
    if WellShaped(r) && r.items[0].elements[1].MessageList? then r.items[0].elements[1].messages else []
  }

  /** The guard at consumer.ts:97: `msg && msg.id && msg.message && msg.message.payload`. */
  predicate Processable(m: StreamMessage)
  {
    m.StreamMessage? && Truthy(m.id) && m.message.Some? && Truthy(m.message.value.payload)
  }

  /** A call of processMessage: the entry id and the raw payload it was given. */
  datatype Handled = Handled(id: string, raw: Option<string>)

  /** The processMessage calls the loop at consumer.ts:96-105 makes for a list of messages:
      one per processable message, in order; the others are skipped. */
  function Accepted(ms: seq<StreamMessage>): (hs: seq<Handled>)
    ensures |hs| <= |ms|
    ensures forall h :: h in hs ==> Truthy(Some(h.id)) && Truthy(h.raw)
    decreases |ms|
  {
    if ms == [] then []
    else
      var rest := Accepted(ms[1..]);
      if Processable(ms[0]) then [Handled(ms[0].id.value, ms[0].message.value.payload)] + rest else rest
  }

  /** Every processable message is handed on, with its own id and payload, and nothing else is. */
  lemma {:induction false} AcceptedExactly(ms: seq<StreamMessage>, h: Handled)
    ensures h in Accepted(ms) <==>
      exists k :: 0 <= k < |ms| && Processable(ms[k]) && h == Handled(ms[k].id.value, ms[k].message.value.payload)
    decreases |ms|
  {
    if ms != [] {
      AcceptedExactly(ms[1..], h);
      if h in Accepted(ms[1..]) {
        var k :| 0 <= k < |ms[1..]| && Processable(ms[1..][k]) && h == Handled(ms[1..][k].id.value, ms[1..][k].message.value.payload);
        assert ms[k + 1] == ms[1..][k];
      }
      forall k | 0 < k < |ms| && Processable(ms[k]) && h == Handled(ms[k].id.value, ms[k].message.value.payload)
        ensures h in Accepted(ms[1..])
      {
        assert ms[1..][k - 1] == ms[k];
      }
    }
  }
}
