/** The reconnection policy of the broker client (the `retryStrategy` given to the client in
    src/common/redis.ts). The client, its connection events and their logging are not modelled. */
module Redis {
  import opened Wrappers

  const RetryStepMs := 100
  const MaxRetryDelayMs := 3000

  /** The client calls the strategy with the number of the reconnection attempt (from 1); a number
      means "reconnect after that many ms", anything else (None here) would stop reconnecting. */
  function RetryStrategy(times: nat): (delay: Option<nat>)
    ensures delay.Some?
    ensures delay.value <= MaxRetryDelayMs
    ensures times <= 30 ==> delay.value == times * RetryStepMs
    ensures times >= 30 ==> delay.value == MaxRetryDelayMs
  {
    Some(if times * RetryStepMs < MaxRetryDelayMs then times * RetryStepMs else MaxRetryDelayMs)
  }

  /** A later attempt never waits less than an earlier one. */
  lemma RetryDelayMonotone(earlier: nat, later: nat)
    requires earlier <= later
    ensures RetryStrategy(earlier).value <= RetryStrategy(later).value
  {
  }
}
