/**
 * The heartbeat interval policy: how often a TTL check is renewed, given the
 * check's TTL (whole seconds) and the configured interval ratio. Java's
 * `double` arithmetic is modelled with exact reals.
 */
module HeartbeatInterval {

  /** Java's `Math.round`: the nearest integer, halves rounded up. */
  function Round(x: real): (n: int)
    ensures n as real - 0.5 <= x < n as real + 0.5
  {
    (x + 0.5).Floor
  }

  function Max(a: real, b: real): real { if a >= b then a else b }

  function Min(a: real, b: real): real { if a <= b then a else b }

  /**
   * The interval in milliseconds: `ttl * ratio`, raised to at least one
   * second, then lowered to at most `ttl - 1` seconds (the ceiling has the
   * last word), rounded to the millisecond.
   */
  function ComputeHeartbeatIntervalMs(ttlSeconds: int, intervalRatio: real): (ms: int)
    ensures ms <= (ttlSeconds - 1) * 1000
    ensures ttlSeconds >= 2 ==> ms >= 1000
  {
    var interval := ttlSeconds as real * intervalRatio;
    var max := Max(interval, 1.0);
    var ttlMinus1 := ttlSeconds - 1;
    var min := Min(ttlMinus1 as real, max);
    Round(1000.0 * min)
  }

  /** The three regimes of the policy, each with its exact value. */
  lemma IntervalRegimes(ttlSeconds: int, intervalRatio: real)
    ensures ttlSeconds as real * intervalRatio > (ttlSeconds - 1) as real ==>
              ComputeHeartbeatIntervalMs(ttlSeconds, intervalRatio) == (ttlSeconds - 1) * 1000
    ensures ttlSeconds <= 1 ==>
              ComputeHeartbeatIntervalMs(ttlSeconds, intervalRatio) == (ttlSeconds - 1) * 1000
    ensures 1.0 <= ttlSeconds as real * intervalRatio <= (ttlSeconds - 1) as real ==>
              ComputeHeartbeatIntervalMs(ttlSeconds, intervalRatio)
                == Round(1000.0 * ttlSeconds as real * intervalRatio)
    ensures ttlSeconds >= 2 && ttlSeconds as real * intervalRatio < 1.0 ==>
              ComputeHeartbeatIntervalMs(ttlSeconds, intervalRatio) == 1000
  {
  }

  /** The worked examples of the policy. */
  lemma IntervalExamples(intervalRatio: real)
    ensures ComputeHeartbeatIntervalMs(10, 0.5) == 5000
    ensures ComputeHeartbeatIntervalMs(5, 0.9) == 4000
    ensures ComputeHeartbeatIntervalMs(2, 0.5) == 1000
    ensures ComputeHeartbeatIntervalMs(1, intervalRatio) == 0
  {
  }
}
