/** The Consumer class of src/consumer/consumer.ts. Its two flags of its own are `isRunning` and
    `messageCount`; the Redis client becomes a connection to the broker model. Every operation
    is proved to leave the state the matching function of ConsumerSpec computes. */
module Consumer {
  import opened Wrappers
  import opened Messages
  import opened Broker
  import opened Config
  import opened ConsumerSpec

  class Consumer {
    const consumerId: string
    const batchSize: nat
    const blockMs: nat
    const processTimeMs: nat
    /** JSON.parse: the payload, or the message of the error it throws. */
    const parse: string -> Result<MessagePayload>
    const faults: Faults

    var isRunning: bool
    var messageCount: nat
    var conn: Connection
    /** Every processMessage call so far, with its arguments. */
    ghost var handled: seq<Handled>

    function Settings(): ConsumerSpec.Settings
    {
      ConsumerSpec.Settings(consumerId, batchSize, blockMs, processTimeMs, parse, faults)
    }

    ghost function State(): Session
      reads this
    {
      Session(conn, messageCount, handled)
    }

    constructor(consumerId: string, batchSize: nat, blockMs: nat, processTimeMs: nat,
                parse: string -> Result<MessagePayload>, faults: Faults, broker: Broker.State)
      requires ValidConsumerSettings(batchSize, blockMs, processTimeMs)
      ensures this.consumerId == consumerId && this.batchSize == batchSize
      ensures this.blockMs == blockMs && this.processTimeMs == processTimeMs
      ensures this.parse == parse && this.faults == faults
      ensures !isRunning && messageCount == 0
      ensures State() == Session(Connection(broker, []), 0, [])
    {
      this.consumerId := consumerId;
      this.batchSize := batchSize;
      this.blockMs := blockMs;
      this.processTimeMs := processTimeMs;
      this.parse := parse;
      this.faults := faults;
      isRunning := false;
      messageCount := 0;
      conn := Connection(broker, []);
      handled := [];
    }

    /** One call on the Redis client. */
    method Request(cmd: Command) returns (r: Result<Reply>)
      modifies this`conn
      ensures (State(), r) == ConsumerSpec.Request(Settings(), old(State()), cmd)
    {
      var sent := Send(conn, faults, cmd);
      conn := sent.0;
      r := sent.1;
    }

    method InitConsumerGroup() returns (r: Result<()>)
      modifies this`conn
      ensures (State(), r) == ConsumerSpec.InitConsumerGroup(Settings(), old(State()))
    {
      var created := Request(XGroupCreate);
      if created.Err? {
        if GroupAlreadyExists(created.error) {
          r := Ok(());
        } else {
          r := Err(created.error);
        }
      } else {
        r := Ok(());
      }
    }

    method ReadNewMessages()
      modifies this`conn, this`messageCount, this`handled
      ensures State() == ConsumerSpec.ReadNewMessages(Settings(), old(State()))
    {
      var result := Request(ReadCommand(Settings()));
      if result.Err? {
        return;
      }
      var reply := if result.value.Read? then result.value.read else NullReply;
      if reply.NullReply? {
        return;
      }
      if !WellShaped(reply) {
        return;
      }
      var messages := Delivered(reply);
      ghost var s1 := State();
      for i := 0 to |messages|
        invariant ProcessEach(Settings(), s1, messages) == ProcessEach(Settings(), State(), messages[i..])
      {
        var msg := messages[i];
        assert messages[i..][1..] == messages[i + 1..];
        if Processable(msg) {
          ProcessMessage(msg.id.value, msg.message.value.payload);
        }
      }
    }

    method ProcessPendingMessages()
      modifies this`conn, this`messageCount, this`handled
      ensures State() == ConsumerSpec.ProcessPendingMessages(Settings(), old(State()))
    {
      var result := Request(XPending(batchSize));
      if result.Err? {
        return;
      }
      var pendingMessages := if result.value.PendingList? then result.value.pending else [];
      if |pendingMessages| == 0 {
        return;
      }
      ghost var s1 := State();
      for i := 0 to |pendingMessages|
        invariant ClaimEach(Settings(), s1, pendingMessages) == ClaimEach(Settings(), State(), pendingMessages[i..])
      {
        var pending := pendingMessages[i];
        assert pendingMessages[i..][1..] == pendingMessages[i + 1..];
        if ShouldClaim(pending, consumerId) {
          var claimResult := Request(ClaimCommand(Settings(), pending.id));
          if claimResult.Err? {
            return;
          }
          var claimed := if claimResult.value.Claimed? then claimResult.value.claimed else [];
          if |claimed| > 0 {
            ProcessMessage(pending.id, ClaimedPayload(claimed));
          }
        }
      }
    }

    method ProcessMessage(id: EntryId, rawPayload: Option<string>)
      modifies this`conn, this`messageCount, this`handled
      ensures State() == ConsumerSpec.ProcessMessage(Settings(), old(State()), id, rawPayload)
    {
      handled := handled + [Handled(id, rawPayload)];
      var thrown: Option<string> := None;
      if !Truthy(rawPayload) {
        var acked := Request(XAck(id));
        thrown := ErrorOf(acked);
      } else {
        var payload := parse(rawPayload.value);
        if payload.Err? {
          thrown := Some(payload.error);
        } else {
          messageCount := messageCount + 1;
          if !DisplayableTime(payload.value.timestamp) {
            thrown := Some(InvalidTimeValue);
          } else {
            var acked := Request(XAck(id));
            thrown := ErrorOf(acked);
          }
        }
      }
      if thrown.Some? && AcksAfterError(thrown.value) {
        var ignored := Request(XAck(id));
      }
    }

    /** start, when the stop request is observed at the head of the main loop after `stopAfter`
        iterations. A consumer that is already running is left as it is; a rethrown
        initialisation error leaves `isRunning` set. */
    method Start(stopAfter: nat) returns (r: Result<()>)
      modifies this
      ensures old(isRunning) ==> r == Ok(()) && isRunning && State() == old(State())
      ensures !old(isRunning) ==>
        var (s1, init) := ConsumerSpec.InitConsumerGroup(Settings(), old(State()));
        && r == init
        && isRunning == init.Err?
        && State() == (if init.Ok? then Run(Settings(), s1, stopAfter) else s1)
    {
      if isRunning {
        return Ok(());
      }
      isRunning := true;
      r := InitConsumerGroup();
      if r.Err? {
        return;
      }
      ghost var s1 := State();
      var rounds := 0;
      if stopAfter == 0 {
        Stop();
      }
      while isRunning
        invariant rounds <= stopAfter
        invariant isRunning <==> rounds < stopAfter
        invariant Run(Settings(), State(), stopAfter - rounds) == Run(Settings(), s1, stopAfter)
        decreases stopAfter - rounds
      {
        ProcessPendingMessages();
        ReadNewMessages();
        rounds := rounds + 1;
        if rounds == stopAfter {
          Stop();
        }
      }
    }

    method Stop()
      modifies this`isRunning
      ensures !isRunning
    {
      isRunning := false;
    }
  }
}
