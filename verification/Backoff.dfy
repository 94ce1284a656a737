/** Retry settings and the exponential backoff of internal/forwarder/forwarder.go,
    in the int64 arithmetic of time.Duration. */
module Backoff {
  import opened DeliveryModel
  import opened Arithmetic

  const DEFAULT_MAX_ATTEMPTS := 3
  const DEFAULT_BACKOFF_SECONDS := 2
  const MAX_BACKOFF_DELAY := 30 * SECOND

  /** The largest base for which doubling can never overflow. */
  const MAX_SAFE_BASE := 4_611_686_018

  function NormalizeMaxAttempts(value: int): (m: int)
    ensures m >= 1 && (value >= 1 ==> m == value)
  {
    if value <= 0 then DEFAULT_MAX_ATTEMPTS else value
  }

  function NormalizeBackoffSeconds(value: int): (b: int)
    ensures b >= 1 && (value >= 1 ==> b == value)
  {
    if value <= 0 then DEFAULT_BACKOFF_SECONDS else value
  }

  function Pow2(n: nat): (p: int)
    ensures p >= 1
  {
    if n == 0 then 1 else 2 * Pow2(n - 1)
  }

  // ---------- The loop ----------

  /** What the loop returns from `delay` with `steps` rounds to go. */
  function DelayAfter(delay: int, steps: nat): int
    decreases steps
  {
    if steps == 0 then Min(delay, MAX_BACKOFF_DELAY)
    else
      var doubled := Wrap64(delay * 2);
      if doubled >= MAX_BACKOFF_DELAY then MAX_BACKOFF_DELAY else DelayAfter(doubled, steps - 1)
  }

  function RetryDelay(baseSeconds: int, attemptNumber: int): int {
    DelayAfter(Wrap64(baseSeconds * SECOND), if attemptNumber < 1 then 0 else attemptNumber - 1)
  }

  method ComputeRetryDelay(baseSeconds: int, attemptNumber: int) returns (delay: int)
    ensures delay == RetryDelay(baseSeconds, attemptNumber)
  {
    var attempt := attemptNumber;
    if attempt < 1 {
      attempt := 1;
    }
    delay := Wrap64(baseSeconds * SECOND);
    var step := 1;
    while step < attempt
      invariant 1 <= step <= attempt
      invariant RetryDelay(baseSeconds, attemptNumber) == DelayAfter(delay, attempt - step)
    {
      delay := Wrap64(delay * 2);
      if delay >= MAX_BACKOFF_DELAY {
        return MAX_BACKOFF_DELAY;
      }
      step := step + 1;
    }
    if delay > MAX_BACKOFF_DELAY {
      return MAX_BACKOFF_DELAY;
    }
  }

  // ---------- What it should be ----------

  function IntendedDelay(baseSeconds: int, attemptNumber: int): int {
    Min(baseSeconds * SECOND * Pow2(if attemptNumber < 1 then 0 else attemptNumber - 1), MAX_BACKOFF_DELAY)
  }

  /** No product formed by the loop leaves int64. */
  predicate NeverOverflows(delay: int, steps: nat)
    decreases steps
  {
    InInt64(delay) &&
    (steps > 0 ==> InInt64(delay * 2) && (delay * 2 < MAX_BACKOFF_DELAY ==> NeverOverflows(delay * 2, steps - 1)))
  }

  lemma {:induction false} GrowsToCap(delay: int, steps: nat)
    requires MAX_BACKOFF_DELAY <= delay
    ensures delay * Pow2(steps) >= MAX_BACKOFF_DELAY
  {
    var p := Pow2(steps);
    assert delay * p >= delay by {
      assert delay * p == delay + delay * (p - 1);
      assert delay * (p - 1) >= 0;
    }
  }

  /** Started below 2^62, the loop computes the capped power of two and never overflows. */
  lemma {:induction false} LoopIsExact(delay: int, steps: nat)
    requires 0 < delay < TWO_62
    ensures DelayAfter(delay, steps) == Min(delay * Pow2(steps), MAX_BACKOFF_DELAY)
    ensures NeverOverflows(delay, steps)
    decreases steps
  {
    if steps > 0 {
      assert delay * Pow2(steps) == (delay * 2) * Pow2(steps - 1);
      if delay * 2 < MAX_BACKOFF_DELAY {
        LoopIsExact(delay * 2, steps - 1);
      } else {
        GrowsToCap(delay * 2, steps - 1);
      }
    }
  }

  /** For bases of 1 to 4611686018 seconds the delay is min(base * 2^(n-1), 30 s), without overflow. */
  lemma SafeBaseIsExact(baseSeconds: int, attemptNumber: int)
    requires 1 <= baseSeconds <= MAX_SAFE_BASE
    ensures RetryDelay(baseSeconds, attemptNumber) == IntendedDelay(baseSeconds, attemptNumber)
    ensures InInt64(baseSeconds * SECOND)
    ensures NeverOverflows(baseSeconds * SECOND, if attemptNumber < 1 then 0 else attemptNumber - 1)
    ensures 0 < RetryDelay(baseSeconds, attemptNumber) <= MAX_BACKOFF_DELAY
  {
    var steps := if attemptNumber < 1 then 0 else attemptNumber - 1;
    LoopIsExact(baseSeconds * SECOND, steps);
    assert baseSeconds * SECOND * Pow2(steps) > 0;
  }

  /** For every positive base, no number of attempts overflows exactly when the base is at most MAX_SAFE_BASE. */
  lemma NeverOverflowsIff(baseSeconds: int)
    requires 1 <= baseSeconds <= MAX_INT64
    ensures (forall steps: nat :: NeverOverflows(baseSeconds * SECOND, steps)) <==> baseSeconds <= MAX_SAFE_BASE
  {
    if baseSeconds <= MAX_SAFE_BASE {
      forall steps: nat ensures NeverOverflows(baseSeconds * SECOND, steps) {
        SafeBaseIsExact(baseSeconds, steps + 1);
      }
    } else {
      var steps: nat := 1;
      assert !NeverOverflows(baseSeconds * SECOND, steps);
    }
  }

  /** The condition a caller can check before the call: what the base in nanoseconds wraps to is below 2^62 and,
      unless the base is below 30 seconds, at least 30 seconds. */
  predicate BaseIsSafe(baseSeconds: int) {
    baseSeconds < 30 || MAX_BACKOFF_DELAY <= Wrap64(baseSeconds * SECOND) < TWO_62
  }

  /** For every positive base, the delays are the intended ones for all attempts exactly when BaseIsSafe. */
  lemma DelaysExactIffBaseIsSafe(baseSeconds: int)
    requires 1 <= baseSeconds <= MAX_INT64
    ensures (forall n :: RetryDelay(baseSeconds, n) == IntendedDelay(baseSeconds, n)) <==> BaseIsSafe(baseSeconds)
  {
    var first := Wrap64(baseSeconds * SECOND);
    if BaseIsSafe(baseSeconds) {
      forall n ensures RetryDelay(baseSeconds, n) == IntendedDelay(baseSeconds, n) {
        var steps := if n < 1 then 0 else n - 1;
        LoopIsExact(first, steps);
        if baseSeconds >= 30 {
          GrowsToCap(first, steps);
          GrowsToCap(baseSeconds * SECOND, steps);
        }
      }
    } else {
      GrowsToCap(baseSeconds * SECOND, 0);
      GrowsToCap(baseSeconds * SECOND, 1);
      assert RetryDelay(baseSeconds, 1) == Min(first, MAX_BACKOFF_DELAY);
      if first >= TWO_62 {
        assert Wrap64(first * 2) == first * 2 - TWO_64;
        assert RetryDelay(baseSeconds, 2) == DelayAfter(first * 2 - TWO_64, 0) < 0;
        assert IntendedDelay(baseSeconds, 2) == MAX_BACKOFF_DELAY;
      } else {
        assert IntendedDelay(baseSeconds, 1) == MAX_BACKOFF_DELAY;
      }
    }
  }

  /** The first base that the rule form accepts and the loop mishandles: a negative second delay. */
  lemma UnsafeBaseExample()
    ensures !BaseIsSafe(MAX_SAFE_BASE + 1)
    ensures RetryDelay(MAX_SAFE_BASE + 1, 2) < 0
    ensures IntendedDelay(MAX_SAFE_BASE + 1, 2) == MAX_BACKOFF_DELAY
  {
    var first := (MAX_SAFE_BASE + 1) * SECOND;
    assert RetryDelay(MAX_SAFE_BASE + 1, 2) == DelayAfter(first, 1) == DelayAfter(Wrap64(first * 2), 0);
    assert Pow2(1) == 2;
  }

  lemma {:induction false} Pow2Monotone(m: nat, n: nat)
    requires m <= n
    ensures Pow2(m) <= Pow2(n)
    decreases n
  {
    if m < n {
      Pow2Monotone(m, n - 1);
    }
  }

  /** Longer bases and later attempts never wait less. */
  lemma DelayMonotone(base1: int, n1: int, base2: int, n2: int)
    requires 1 <= base1 <= base2 <= MAX_SAFE_BASE
    requires n1 <= n2
    ensures RetryDelay(base1, n1) <= RetryDelay(base2, n2)
  {
    SafeBaseIsExact(base1, n1);
    SafeBaseIsExact(base2, n2);
    var s1, s2 := if n1 < 1 then 0 else n1 - 1, if n2 < 1 then 0 else n2 - 1;
    Pow2Monotone(s1, s2);
    ProductMonotone(base1 * SECOND, Pow2(s1), base2 * SECOND, Pow2(s2));
  }

  lemma ProductMonotone(a: int, p: int, b: int, q: int)
    requires 0 <= a <= b && 0 <= p <= q
    ensures a * p <= b * q
  {
    assert b * q - a * p == (b - a) * q + a * (q - p);
    assert (b - a) * q >= 0 && a * (q - p) >= 0;
  }
}
