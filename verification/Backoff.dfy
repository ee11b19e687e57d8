/** Durations in int64 nanoseconds and the exponential backoff between attempts. */
module Backoff {
  const MAX_INT64: int := 0x7FFF_FFFF_FFFF_FFFF
  const NS_PER_MILLI: int := 1_000_000
  const NS_PER_SECOND: int := 1_000_000_000
  const MAX_DURATION_MILLIS: int := MAX_INT64 / NS_PER_MILLI

  /** Two's complement wrap-around of an int64 result. */
  function Wrap64(x: int): (r: int)
    ensures -MAX_INT64 - 1 <= r <= MAX_INT64
    ensures -MAX_INT64 - 1 <= x <= MAX_INT64 ==> r == x
  {
    (x + MAX_INT64 + 1) % (2 * (MAX_INT64 + 1)) - MAX_INT64 - 1
  }

  function Min(a: int, b: int): int { if a <= b then a else b }

  function Max(a: int, b: int): int { if a <= b then b else a }

  function Pow2(n: nat): nat {
    if n == 0 then 1 else 2 * Pow2(n - 1)
  }

  function DurationFromMillis(value: int): (d: int)
    ensures 0 <= d <= MAX_INT64
    ensures 0 <= value <= MAX_DURATION_MILLIS ==> d == value * NS_PER_MILLI
  {
    if value <= 0 then 0
    else if value > MAX_DURATION_MILLIS then MAX_INT64
    else Wrap64(value * NS_PER_MILLI)
  }

  /** The ideal, unbounded schedule: the base doubled once per earlier attempt, cut at the cap. */
  function Delay(initialMillis: int, maxMillis: int, attempt: int): int {
    var base := DurationFromMillis(initialMillis);
    var cap := DurationFromMillis(maxMillis);
    if attempt <= 1 || base == 0 then base
    else Min(base * Pow2(attempt - 1), if cap > 0 then cap else MAX_INT64)
  }

  /** The doubling loop: int64 arithmetic, early exits at the cap and before an overflow. */
  method RetryDelay(initialMillis: int, maxMillis: int, attempt: int) returns (delay: int)
    ensures delay == Delay(initialMillis, maxMillis, attempt)
  {
    var base := DurationFromMillis(initialMillis);
    if attempt <= 1 || base == 0 {
      return base;
    }
    var maxDelay := DurationFromMillis(maxMillis);
    delay := base;
    var i := 1;
    while i < attempt
      invariant 1 <= i <= attempt
      invariant delay == base * Pow2(i - 1)
      invariant 0 < delay <= MAX_INT64
      invariant i > 1 && maxDelay > 0 ==> delay <= maxDelay
    {
      PowersGrow(base, i - 1, attempt - 1);
      if maxDelay > 0 && delay >= maxDelay {
        return maxDelay;
      }
      PowersGrow(base, i, attempt - 1);
      if delay > MAX_INT64 / 2 {
        if maxDelay > 0 {
          return maxDelay;
        }
        return MAX_INT64;
      }
      delay := Wrap64(delay * 2);
      if maxDelay > 0 && delay > maxDelay {
        return maxDelay;
      }
      i := i + 1;
    }
  }

  lemma {:induction false} PowersGrow(base: nat, m: nat, n: nat)
    requires m <= n
    ensures base * Pow2(m) <= base * Pow2(n)
    ensures Pow2(m) <= Pow2(n)
    ensures m > 0 ==> base * Pow2(m) == 2 * (base * Pow2(m - 1))
    decreases n - m
  {
    if m < n {
      PowersGrow(base, m + 1, n);
      assert Pow2(m + 1) == 2 * Pow2(m);
    }
  }

  /** The bounds a validated configuration guarantees. */
  predicate ValidBounds(initialMillis: int, maxMillis: int) {
    0 < initialMillis <= maxMillis <= MAX_DURATION_MILLIS
  }

  /** For every validated configuration the wait is min(initial * 2^(attempt-1), max), attempt 1 included. */
  lemma ValidatedDelay(initialMillis: int, maxMillis: int, attempt: nat)
    requires ValidBounds(initialMillis, maxMillis) && attempt >= 1
    ensures Delay(initialMillis, maxMillis, attempt)
         == NS_PER_MILLI * Min(initialMillis * Pow2(attempt - 1), maxMillis)
    ensures NS_PER_MILLI * initialMillis <= Delay(initialMillis, maxMillis, attempt) <= NS_PER_MILLI * maxMillis
  {
    var p := Pow2(attempt - 1);
    PowersGrow(initialMillis, 0, attempt - 1);
    Regroup(initialMillis, p);
  }

  /** The first wait is the initial delay, and every later one is twice the one before, up to the maximum. */
  lemma DelayDoubles(initialMillis: int, maxMillis: int, attempt: nat)
    requires ValidBounds(initialMillis, maxMillis) && attempt >= 1
    ensures Delay(initialMillis, maxMillis, 1) == NS_PER_MILLI * initialMillis
    ensures Delay(initialMillis, maxMillis, attempt + 1)
         == Min(2 * Delay(initialMillis, maxMillis, attempt), NS_PER_MILLI * maxMillis)
  {
    ValidatedDelay(initialMillis, maxMillis, attempt);
    ValidatedDelay(initialMillis, maxMillis, attempt + 1);
    PowersGrow(initialMillis, attempt, attempt);
  }

  lemma Regroup(value: int, factor: int)
    ensures (value * NS_PER_MILLI) * factor == NS_PER_MILLI * (value * factor)
  {
  }

  /** Later attempts never wait less, whatever the cap. */
  lemma DelayMonotone(initialMillis: int, maxMillis: int, attempt: nat, later: nat)
    requires 1 <= attempt <= later
    requires maxMillis > 0 ==> initialMillis <= maxMillis
    ensures Delay(initialMillis, maxMillis, attempt) <= Delay(initialMillis, maxMillis, later)
  {
    PowersGrow(DurationFromMillis(initialMillis), attempt - 1, later - 1);
    PowersGrow(DurationFromMillis(initialMillis), 0, later - 1);
  }
}
