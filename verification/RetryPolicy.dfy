/** Exponential backoff. Durations are in nanoseconds. */
module RetryPolicy {
  import opened Wrappers

  const U32_MAX: nat := 0xFFFF_FFFF

  /** `Duration::MAX`: `u64::MAX` seconds and 999 999 999 nanoseconds. */
  const DURATION_MAX: nat := 0xFFFF_FFFF_FFFF_FFFF * 1_000_000_000 + 999_999_999

  /** The errors of job execution, by what the retry decision distinguishes. */
  datatype Error =
    | Docker | ImagePullFailed | Timeout | InsufficientResources | ConcurrencyLimit | Storage | Grpc
    | Cancelled
    | Other

  predicate IsRetryable(e: Error) {
    !e.Cancelled? && !e.Other?
  }

  datatype Policy = Policy(maxRetries: nat, baseDelay: nat, maxDelay: nat)

  function Pow2(n: nat): (p: nat)
    ensures p >= 1
  {
    if n == 0 then 1 else 2 * Pow2(n - 1)
  }

  function Min(a: nat, b: nat): nat { if a <= b then a else b }

  /** `2u32.checked_pow(attempt).unwrap_or(u32::MAX)` */
  function Multiplier(attempt: nat): nat {
    if attempt < 32 then Pow2(attempt) else U32_MAX
  }

  function Delay(p: Policy, attempt: nat): nat {
    Min(Min(p.baseDelay * Multiplier(attempt), DURATION_MAX), p.maxDelay)
  }

  function ShouldRetry(p: Policy, e: Error, attempt: nat): Option<nat> {
    if !IsRetryable(e) || attempt >= p.maxRetries then None else Some(Delay(p, attempt))
  }

  /** The delays before the first `n` retries, added up. */
  function TotalDelay(p: Policy, n: nat): nat {
    if n == 0 then 0 else TotalDelay(p, n - 1) + Delay(p, n - 1)
  }

  lemma {:induction false} Pow2Monotone(m: nat, n: nat)
    requires m <= n
    ensures Pow2(m) <= Pow2(n)
    decreases n - m
  {
    if m < n {
      Pow2Monotone(m, n - 1);
    }
  }

  lemma Pow2Of32()
    ensures Pow2(32) == U32_MAX + 1
  {
    assert Pow2(8) == 256;
    assert Pow2(16) == 65536 by { assert Pow2(12) == 4096; }
    assert Pow2(24) == 16777216 by { assert Pow2(20) == 1048576; }
    assert Pow2(28) == 268435456;
  }

  /** The multiplier never exceeds the power it stands for, saturated or not, and never decreases. */
  lemma MultiplierBounds(attempt: nat)
    ensures 1 <= Multiplier(attempt) <= Pow2(attempt)
    ensures Multiplier(attempt) <= Multiplier(attempt + 1)
    ensures Multiplier(attempt) == Pow2(attempt) <==> attempt < 32
  {
    Pow2Of32();
    if attempt >= 32 {
      Pow2Monotone(32, attempt);
    } else {
      Pow2Monotone(attempt, 31);
      Pow2Monotone(attempt, attempt + 1);
    }
  }

  lemma ScaleMonotone(d: nat, m: nat, n: nat)
    requires m <= n
    ensures d * m <= d * n
  {
  }

  /** Delays never decrease from one attempt to the next, and none exceeds the cap. */
  lemma DelaysGrowToCap(p: Policy, attempt: nat)
    ensures Delay(p, attempt) <= Delay(p, attempt + 1)
    ensures Delay(p, attempt) <= p.maxDelay
  {
    MultiplierBounds(attempt);
    ScaleMonotone(p.baseDelay, Multiplier(attempt), Multiplier(attempt + 1));
  }

  /**
   The documented formula, base delay times 2^attempt capped at the maximum, is what the
   code computes exactly when the power fits in 32 bits or the cap makes no difference.
   */
  lemma DocumentedDelayIff(p: Policy, attempt: nat)
    requires p.maxDelay <= DURATION_MAX
    ensures Delay(p, attempt) == Min(p.baseDelay * Pow2(attempt), p.maxDelay)
            <==> attempt < 32 || p.baseDelay == 0 || p.maxDelay <= p.baseDelay * U32_MAX
  {
    MultiplierBounds(attempt);
    if attempt >= 32 {
      ScaleMonotone(p.baseDelay, U32_MAX + 1, Pow2(attempt));
      assert p.baseDelay * (U32_MAX + 1) == p.baseDelay * U32_MAX + p.baseDelay;
    }
  }

  lemma Doubling(d: nat, x: nat)
    requires x >= 1
    ensures d * (x - 1) + d * x == d * (2 * x - 1)
  {
  }

  lemma DelayBound(p: Policy, attempt: nat)
    ensures Delay(p, attempt) <= p.baseDelay * Pow2(attempt)
  {
    MultiplierBounds(attempt);
    ScaleMonotone(p.baseDelay, Multiplier(attempt), Pow2(attempt));
  }

  /** All the waiting for `n` retries takes at most base delay times 2^n - 1. */
  lemma {:induction false} TotalDelayBound(p: Policy, n: nat)
    ensures TotalDelay(p, n) <= p.baseDelay * (Pow2(n) - 1)
  {
    if n > 0 {
      TotalDelayBound(p, n - 1);
      DelayBound(p, n - 1);
      Doubling(p.baseDelay, Pow2(n - 1));
    }
  }

  lemma {:induction false} TotalDelayMonotone(p: Policy, m: nat, n: nat)
    requires m <= n
    ensures TotalDelay(p, m) <= TotalDelay(p, n)
    decreases n - m
  {
    if m < n {
      TotalDelayMonotone(p, m, n - 1);
    }
  }
}
