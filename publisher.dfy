/** The Publisher class of src/publisher/publisher.ts. Its fields are `messageCount`,
    `isRunning` and the interval handle; the Redis client becomes a connection to the broker
    model. Every operation that talks to the broker is proved to leave the state the matching
    function of PublisherSpec computes. */
module Publisher {
  import opened Wrappers
  import opened Broker
  import opened Config
  import opened PublisherSpec

  /** The handle setInterval returns, with the period it was started with. */
  datatype Timer = Timer(intervalMs: int)

  class Publisher {
    const env: Environment
    /** config.PUBLISHER_INTERVAL_MS: the period startPublishing uses when given none. */
    const configuredIntervalMs: nat
    var conn: Connection
    var messageCount: nat
    var isRunning: bool
    var publishInterval: Option<Timer>

    function State(): PubState
      reads this
    {
      PubState(conn, messageCount)
    }

    constructor(env: Environment, broker: Broker.State, configuredIntervalMs: nat)
      requires PositiveInt(configuredIntervalMs)
      ensures this.env == env && this.configuredIntervalMs == configuredIntervalMs
      ensures messageCount == 0 && !isRunning && publishInterval == None
      ensures conn == Connection(broker, [])
    {
      this.env := env;
      this.configuredIntervalMs := configuredIntervalMs;
      conn := Connection(broker, []);
      messageCount := 0;
      isRunning := false;
      publishInterval := None;
    }

    method PublishMessage() returns (r: Result<string>)
      modifies this`conn, this`messageCount
      ensures (State(), r) == PublisherSpec.PublishMessage(env, old(State()))
    {
      var payload := NewPayload(env, |conn.log|, messageCount);
      var serializedPayload := env.stringify(payload);
      var sent := Send(conn, env.faults, XAdd(serializedPayload));
      conn := sent.0;
      if sent.1.Err? {
        return Err(sent.1.error);
      }
      messageCount := messageCount + 1;
      return Ok(IdOrEmpty(sent.1.value));
    }

    /** startPublishing(intervalMs = config.PUBLISHER_INTERVAL_MS): a no-op while running;
        otherwise sets the flag and the interval, with the given period or, when none is given,
        the configured one. Each tick of the interval makes one PublishMessage call. */
    method StartPublishing(intervalMs: Option<int>)
      modifies this`isRunning, this`publishInterval
      ensures old(isRunning) ==> isRunning && publishInterval == old(publishInterval)
      ensures !old(isRunning) && intervalMs.Some? ==> isRunning && publishInterval == Some(Timer(intervalMs.value))
      ensures !old(isRunning) && intervalMs.None? ==> isRunning && publishInterval == Some(Timer(configuredIntervalMs))
    {
      if isRunning {
        return;
      }
      var period := if intervalMs.Some? then intervalMs.value else configuredIntervalMs;
      isRunning := true;
      publishInterval := Some(Timer(period));
    }

    /** stopPublishing: clears the interval, if any, and the flag, whatever the state before. */
    method StopPublishing()
      modifies this`isRunning, this`publishInterval
      ensures !isRunning && publishInterval == None
    {
      if publishInterval.Some? {
        publishInterval := None;
      }
      isRunning := false;
    }

    method PublishBatch(count: int) returns (r: Result<seq<string>>)
      modifies this`conn, this`messageCount
      ensures (State(), r) == PublisherSpec.PublishBatch(env, old(State()), count)
    {
      var messageIds: seq<string> := [];
      ghost var all := PublishN(env, State(), Rounds(count));
      assert all.1.Ok? ==> messageIds + all.1.value == all.1.value;
      var i := 0;
      while i < count
        invariant 0 <= i <= Rounds(count)
        invariant all == AfterIds(messageIds, PublishN(env, State(), Rounds(count) - i))
      {
        ghost var before, s := messageIds, State();
        var id := PublishMessage();
        PublishNStep(env, s, Rounds(count) - i);
        if id.Err? {
          return Err(id.error);
        }
        messageIds := messageIds + [id.value];
        AfterIdsAppend(before, [id.value], PublishN(env, State(), Rounds(count) - i - 1));
        i := i + 1;
      }
      assert messageIds + [] == messageIds;
      return Ok(messageIds);
    }

    method GetStreamInfo() returns (r: Result<map<string, Option<InfoValue>>>)
      modifies this`conn
      ensures (State(), r) == PublisherSpec.GetStreamInfo(env, old(State()))
    {
      var sent := Send(conn, env.faults, XInfoStream);
      conn := sent.0;
      if sent.1.Err? {
        return Err(sent.1.error);
      }
      var result: map<string, Option<InfoValue>> := map[];
      var reply := sent.1.value;
      if reply.Info? && reply.info.InfoArray? {
        var infoArray := reply.info.items;
        var i := 0;
        ghost var pairs := 0;
        while i < |infoArray|
          invariant i == 2 * pairs && pairs <= PairCount(infoArray)
          invariant result == InfoRecord(infoArray, pairs)
        {
          var key := KeyString(infoArray[i]);
          result := result[key := ValueAt(infoArray, i + 1)];
          i, pairs := i + 2, pairs + 1;
        }
        assert pairs == PairCount(infoArray);
      }
      return Ok(result);
    }
  }
}
