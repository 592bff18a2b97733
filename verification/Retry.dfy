/** The retry policy: a bounded number of attempts and a capped exponential delay. Durations are in nanoseconds. */
module Retry {

  /** `Duration::MAX`; multiplication saturates here. */
  const DURATION_MAX: nat := 0xffff_ffff_ffff_ffff * 1_000_000_000 + 999_999_999

  /** The longest delay that converts to a calendar duration: `i64::MAX` milliseconds. */
  const CALENDAR_MAX: nat := 0x7fff_ffff_ffff_ffff * 1_000_000

  function Min(a: nat, b: nat): nat {
    if a <= b then a else b
  }

  function Pow2(n: nat): (p: nat)
    ensures p >= 1
  {
    if n == 0 then 1 else 2 * Pow2(n - 1)
  }

  datatype RetryPolicy = RetryPolicy(maxAttempts: nat, backoff: nat) {

    predicate Valid() {
      maxAttempts >= 1
    }

    predicate ShouldRetryAfter(attemptsUsed: nat) {
      attemptsUsed < maxAttempts
    }

    function NextDelay(attemptsUsed: nat): nat {
      var exponent := Min(if attemptsUsed == 0 then 0 else attemptsUsed - 1, 10);
      Min(backoff * Pow2(exponent), DURATION_MAX)
    }
  }

  function NewPolicy(maxAttempts: nat, backoff: nat): (p: RetryPolicy)
    ensures p.Valid() && p.backoff == backoff
    ensures p.maxAttempts >= maxAttempts && (p.maxAttempts == maxAttempts || p.maxAttempts == 1)
  {
    RetryPolicy(if maxAttempts >= 1 then maxAttempts else 1, backoff)
  }

  lemma {:induction false} Pow2Monotone(a: nat, b: nat)
    requires a <= b
    ensures Pow2(a) <= Pow2(b)
  {
    if a < b {
      Pow2Monotone(a, b - 1);
    }
  }

  /** Later attempts never wait less, and the delay stops growing after the eleventh. */
  lemma DelayMonotone(p: RetryPolicy, a: nat, b: nat)
    requires a <= b
    ensures p.NextDelay(a) <= p.NextDelay(b)
    ensures a >= 11 ==> p.NextDelay(a) == p.NextDelay(b)
  {
    var m := Min(if a == 0 then 0 else a - 1, 10);
    var n := Min(if b == 0 then 0 else b - 1, 10);
    Pow2Monotone(m, n);
    MulMonotone(p.backoff, Pow2(m), Pow2(n));
  }

  lemma MulMonotone(x: nat, y: nat, z: nat)
    requires y <= z
    ensures x * y <= x * z
  {
  }

  /**
   The first wait is the backoff itself, also when no attempt was used yet, and each of the
   next ten doubles the one before, up to the longest duration there is. With DelayMonotone
   this fixes every delay.
   */
  lemma DelayDoubles(p: RetryPolicy, k: nat)
    ensures p.NextDelay(0) == p.NextDelay(1) == Min(p.backoff, DURATION_MAX)
    ensures 1 <= k <= 10 ==> p.NextDelay(k + 1) == Min(2 * p.NextDelay(k), DURATION_MAX)
  {
    if 1 <= k <= 10 {
      var wait := p.backoff * Pow2(k - 1);
      assert Pow2(k) == 2 * Pow2(k - 1);
      Twice(p.backoff, Pow2(k - 1));
      assert p.NextDelay(k) == Min(wait, DURATION_MAX) && p.NextDelay(k + 1) == Min(2 * wait, DURATION_MAX);
    }
  }

  lemma Twice(x: nat, y: nat)
    ensures x * (2 * y) == 2 * (x * y)
  {
  }
}
