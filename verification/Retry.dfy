/** Retry scheduling: a fixed continuation delay and a capped exponential backoff in saturating u64 arithmetic. */
module Retry {
  import opened Prelude
  import opened Config

  const CONTINUATION_MS: nat := 1000
  const BASE_MS: nat := 10000
  const U64_MAX: nat := TWO_TO_THE_64 - 1

  datatype RetryEntry = RetryEntry(issueId: string, identifier: string, attempt: u32, dueAt: nat, error: Option<string>)

  function Pow2(n: nat): (p: nat)
    ensures p >= 1
  {
    if n == 0 then 1 else 2 * Pow2(n - 1)
  }

  function SaturatingPow2(n: nat): nat {
    Min(Pow2(n), U64_MAX)
  }

  function SaturatingMul(a: nat, b: nat): nat {
    Min(a * b, U64_MAX)
  }

  function SaturatingSub(a: nat, b: nat): nat {
    if b <= a then a - b else 0
  }

  /** The delay of a failed attempt, as computed in u64. */
  function FailureDelayMs(attempt: nat, maxBackoff: nat): nat {
    Min(SaturatingMul(BASE_MS, SaturatingPow2(SaturatingSub(attempt, 1))), maxBackoff)
  }

  function ScheduleRetry(issueId: string, identifier: string, attempt: u32, error: Option<string>,
                         c: Settings, isContinuation: bool, now: nat): RetryEntry
  {
    var delay := if isContinuation then CONTINUATION_MS else FailureDelayMs(attempt, c.MaxRetryBackoffMs());
    RetryEntry(issueId, identifier, attempt, now + delay, error)
  }

  /** Saturation is invisible: the delay is the capped exponential over the unbounded integers. */
  lemma DelayIsCappedExponential(attempt: nat, maxBackoff: nat)
    requires attempt >= 1
    requires maxBackoff <= U64_MAX
    ensures FailureDelayMs(attempt, maxBackoff) == Min(BASE_MS * Pow2(attempt - 1), maxBackoff)
    ensures FailureDelayMs(attempt, maxBackoff) ==
            if 10000 * Pow2(attempt - 1) <= maxBackoff then 10000 * Pow2(attempt - 1) else maxBackoff
  {
  }

  lemma {:induction false} Pow2Monotone(m: nat, n: nat)
    requires m <= n
    ensures Pow2(m) <= Pow2(n)
    decreases n
  {
    if m < n {
      Pow2Monotone(m, n - 1);
    }
  }

  /** A later attempt never waits less, every wait lies between one second and the configured ceiling. */
  lemma DelayMonotone(c: Settings, a: nat, b: nat)
    requires 1 <= a <= b
    ensures 1000 <= FailureDelayMs(a, c.MaxRetryBackoffMs()) <= FailureDelayMs(b, c.MaxRetryBackoffMs()) <= c.MaxRetryBackoffMs()
  {
    var cap := c.MaxRetryBackoffMs();
    DelayIsCappedExponential(a, cap);
    DelayIsCappedExponential(b, cap);
    Pow2Monotone(a - 1, b - 1);
    assert BASE_MS * Pow2(a - 1) <= BASE_MS * Pow2(b - 1);
  }

  /** Total time spent waiting before attempts 1..n. */
  function TotalDelayMs(n: nat, maxBackoff: nat): nat {
    if n == 0 then 0 else TotalDelayMs(n - 1, maxBackoff) + FailureDelayMs(n, maxBackoff)
  }

  lemma {:induction false} TotalDelayBounds(n: nat, maxBackoff: nat)
    requires maxBackoff <= U64_MAX
    ensures TotalDelayMs(n, maxBackoff) <= n * maxBackoff
    ensures n >= 1 && BASE_MS * Pow2(n - 1) <= maxBackoff ==> TotalDelayMs(n, maxBackoff) == BASE_MS * (Pow2(n) - 1)
  {
    if n >= 1 {
      TotalDelayBounds(n - 1, maxBackoff);
      DelayIsCappedExponential(n, maxBackoff);
      assert n * maxBackoff == (n - 1) * maxBackoff + maxBackoff;
      if n >= 2 {
        assert Pow2(n - 1) == 2 * Pow2(n - 2);
      }
    }
  }
}
