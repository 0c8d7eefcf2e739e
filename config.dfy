/** The numeric settings of src/common/config.ts. Each is `z.coerce.number().int().positive()`
    with a default: an unset variable takes the default, a set one must be a positive integer,
    and anything else fails validation (and the process exits). Reading the environment and
    coercing its strings to numbers is not modelled: a setting arrives as an optional integer. */
module Config {
  import opened Wrappers

  const DefaultPublisherIntervalMs: nat := 1000
  const DefaultPublisherMessageCount: nat := 100
  const DefaultConsumerBatchSize: nat := 10
  const DefaultConsumerBlockMs: nat := 5000
  const DefaultConsumerProcessTimeMs: nat := 500

  /** What the schema's `int().positive()` guarantees of a numeric setting. */
  predicate PositiveInt(n: int)
  {
    n > 0
  }

  /** The consumer's settings as validated at start-up. */
  predicate ValidConsumerSettings(batchSize: int, blockMs: int, processTimeMs: int)
  {
    PositiveInt(batchSize) && PositiveInt(blockMs) && PositiveInt(processTimeMs)
  }

  /** One numeric setting: the default when unset, the value when it is a positive integer, and
      a validation error otherwise. */
  function Setting(raw: Option<int>, default: nat): (r: Result<nat>)
    requires PositiveInt(default)
    ensures r.Ok? <==> raw.None? || PositiveInt(raw.value)
    ensures r.Ok? ==> PositiveInt(r.value)
    ensures raw.None? ==> r == Ok(default)
    ensures raw.Some? && r.Ok? ==> r.value == raw.value
  {
    match raw
    case None => Ok(default)
    case Some(n) => if n > 0 then Ok(n) else Err("Number must be greater than 0")
  }

  /** The publisher's settings (PUBLISHER_INTERVAL_MS, PUBLISHER_MESSAGE_COUNT). */
  datatype PublisherSettings = PublisherSettings(intervalMs: nat, messageCount: nat)

  /** The consumer's settings (CONSUMER_BATCH_SIZE, CONSUMER_BLOCK_MS, CONSUMER_PROCESS_TIME_MS). */
  datatype ConsumerSettings = ConsumerSettings(batchSize: nat, blockMs: nat, processTimeMs: nat)

  function LoadPublisherSettings(interval: Option<int>, count: Option<int>): (r: Result<PublisherSettings>)
    ensures r.Ok? <==> Setting(interval, DefaultPublisherIntervalMs).Ok? && Setting(count, DefaultPublisherMessageCount).Ok?
    ensures r.Ok? ==> PositiveInt(r.value.intervalMs) && PositiveInt(r.value.messageCount)
    ensures r.Ok? ==> r.value == PublisherSettings(
      Setting(interval, DefaultPublisherIntervalMs).value, Setting(count, DefaultPublisherMessageCount).value)
    ensures interval.None? && count.None? ==> r == Ok(PublisherSettings(1000, 100))
  {
    var i := Setting(interval, DefaultPublisherIntervalMs);
    var n := Setting(count, DefaultPublisherMessageCount);
    if i.Err? then Err(i.error)
    else if n.Err? then Err(n.error)
    else Ok(PublisherSettings(i.value, n.value))
  }

  function LoadConsumerSettings(batch: Option<int>, block: Option<int>, process: Option<int>): (r: Result<ConsumerSettings>)
    ensures r.Ok? <==>
      && Setting(batch, DefaultConsumerBatchSize).Ok?
      && Setting(block, DefaultConsumerBlockMs).Ok?
      && Setting(process, DefaultConsumerProcessTimeMs).Ok?
    ensures r.Ok? ==> ValidConsumerSettings(r.value.batchSize, r.value.blockMs, r.value.processTimeMs)
    ensures r.Ok? ==> r.value == ConsumerSettings(
      Setting(batch, DefaultConsumerBatchSize).value,
      Setting(block, DefaultConsumerBlockMs).value,
      Setting(process, DefaultConsumerProcessTimeMs).value)
    ensures batch.None? && block.None? && process.None? ==> r == Ok(ConsumerSettings(10, 5000, 500))
  {
    var b := Setting(batch, DefaultConsumerBatchSize);
    var k := Setting(block, DefaultConsumerBlockMs);
    var p := Setting(process, DefaultConsumerProcessTimeMs);
    if b.Err? then Err(b.error)
    else if k.Err? then Err(k.error)
    else if p.Err? then Err(p.error)
    else Ok(ConsumerSettings(b.value, k.value, p.value))
  }
}
