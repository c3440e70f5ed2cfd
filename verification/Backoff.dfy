/** The retry curve, computed in wrapping 64-bit arithmetic. */
module Backoff {
  import opened Arithmetic
  import opened Basics

  datatype BackoffConfig = BackoffConfig(initialMs: int, maxMs: int, maxRetries: int, jitter: bool)

  const TWO_63: int := 0x8000_0000_0000_0000
  const TWO_64: int := 0x1_0000_0000_0000_0000
  const NANOS_PER_MS: int := 1_000_000

  predicate IsInt64(x: int) {
    -TWO_63 <= x < TWO_63
  }

  // The configured numbers are 64-bit integers.
  predicate Representable(cfg: BackoffConfig) {
    IsInt64(cfg.initialMs) && IsInt64(cfg.maxMs)
  }

  function Pow2(k: nat): nat {
    if k == 0 then 1 else 2 * Pow2(k - 1)
  }

  // The low 64 bits of x, read as a signed number.
  function Wrap64(x: int): int {
    var low := x % TWO_64;
    if low < TWO_63 then low else low - TWO_64
  }

  // A shift of 64 or more leaves nothing.
  function Shl64(x: int, k: nat): int {
    if k >= 64 then 0 else Wrap64(x * Pow2(k))
  }

  // The delay in milliseconds before jitter.
  function DelayMs(cfg: BackoffConfig, attempts: int): int {
    var shifted := Shl64(cfg.initialMs, if attempts < 0 then 0 else attempts);
    if shifted <= 0 || shifted > cfg.maxMs then cfg.maxMs else shifted
  }

  // The delay in nanoseconds. `draw` is the random source, absent when the caller has none; a
  // negative range would make it panic.
  function Compute(cfg: BackoffConfig, attempts: int, draw: Option<nat>): int
    requires cfg.jitter && draw.Some? ==> cfg.maxMs >= 0
  {
    var delay := DelayMs(cfg, attempts);
    var jittered := if cfg.jitter && draw.Some? then delay / 2 + draw.value % (delay / 2 + 1) else delay;
    Wrap64(jittered * NANOS_PER_MS)
  }

  function Min(a: int, b: int): int {
    if a <= b then a else b
  }

  // The documented curve over the integers.
  function Curve(cfg: BackoffConfig, attempts: nat): int {
    Min(cfg.initialMs * Pow2(attempts), cfg.maxMs)
  }

  lemma {:induction false} Pow2Add(a: nat, b: nat)
    ensures Pow2(a + b) == Pow2(a) * Pow2(b)
  {
    if a > 0 {
      Pow2Add(a - 1, b);
    }
  }

  lemma Pow2Monotone(a: nat, b: nat)
    requires a <= b
    ensures Pow2(a) <= Pow2(b)
    decreases b
  {
    if a < b {
      Pow2Monotone(a, b - 1);
    }
  }

  lemma Pow2Of64()
    ensures Pow2(63) == TWO_63 && Pow2(64) == TWO_64
  {
    assert Pow2(8) == 256;
    Pow2Add(8, 8);
    Pow2Add(16, 16);
    Pow2Add(32, 32);
  }

  lemma WrapSmall(x: int)
    requires 0 <= x < TWO_63
    ensures Wrap64(x) == x
  {
  }

  lemma WrapQuotient(x: int) returns (q: int)
    ensures Wrap64(x) > 0 ==> x == q * TWO_64 + Wrap64(x)
  {
    q := x / TWO_64;
  }

  lemma MultipleAtLeast(x: int, p: int, rest: int, q: int, m: int)
    requires p >= 1 && m > 0 && x * p == q * (p * rest) + m
    ensures m >= p
  {
    var t := x - q * rest;
    assert q * (p * rest) == p * (q * rest);
    assert m == p * t;
    if t <= 0 {
      MulMonotone(p, t, 0);
    } else {
      MulMonotone(p, 1, t);
    }
  }

  // Wrapping a product with 2^k leaves a multiple of 2^k.
  lemma WrappedMultiple(x: int, k: nat)
    requires k < 64
    ensures Shl64(x, k) > 0 ==> Shl64(x, k) >= Pow2(k)
  {
    Pow2Of64();
    Pow2Add(k, 64 - k);
    Pow2Monotone(0, k);
    var w := Wrap64(x * Pow2(k));
    var q := WrapQuotient(x * Pow2(k));
    if w > 0 {
      MultipleAtLeast(x, Pow2(k), Pow2(64 - k), q, w);
    }
  }

  // When the shift overflows although initial * max fits, what is left of it is above max.
  lemma OverflowIsLarge(cfg: BackoffConfig, attempts: nat)
    requires cfg.initialMs >= 1 && cfg.maxMs >= 0 && cfg.initialMs * cfg.maxMs < TWO_63
    requires attempts < 64 && cfg.initialMs * Pow2(attempts) >= TWO_63
    ensures var s := Shl64(cfg.initialMs, attempts); s <= 0 || s > cfg.maxMs
  {
    WrappedMultiple(cfg.initialMs, attempts);
    var p := Pow2(attempts);
    if p <= cfg.maxMs {
      MulMonotone(cfg.initialMs, p, cfg.maxMs);
    }
  }

  // The shift by 64 or more discards a number that is at least 2^64.
  lemma LongShift(x: int, k: nat)
    requires x >= 1 && k >= 64
    ensures x * Pow2(k) >= TWO_64
  {
    Pow2Of64();
    Pow2Monotone(64, k);
    MulAtLeast(x, Pow2(k));
  }

  lemma ShiftPositive(x: int, k: nat)
    requires x >= 1
    ensures x * Pow2(k) >= 1
  {
    Pow2Monotone(0, k);
    MulAtLeast(x, Pow2(k));
  }

  // The 64-bit computation is exact for every attempt count, shifts of 64 and more included.
  lemma DelayIsExact(cfg: BackoffConfig, attempts: nat)
    requires cfg.initialMs >= 1 && cfg.maxMs >= 0 && cfg.initialMs * cfg.maxMs < TWO_63
    ensures DelayMs(cfg, attempts) == Curve(cfg, attempts)
  {
    MulAtLeast(cfg.initialMs, cfg.maxMs);
    ShiftPositive(cfg.initialMs, attempts);
    if attempts >= 64 {
      LongShift(cfg.initialMs, attempts);
    } else if cfg.initialMs * Pow2(attempts) >= TWO_63 {
      OverflowIsLarge(cfg, attempts);
    } else {
      WrapSmall(cfg.initialMs * Pow2(attempts));
    }
  }

  // Without that bound it is exact for exactly those counts whose shift does not overflow, or
  // overflows to something the two guards replace (or to the cap itself).
  lemma DelayIsExactWhen(cfg: BackoffConfig, attempts: nat)
    requires Representable(cfg) && cfg.initialMs >= 1 && cfg.maxMs >= 0
    ensures DelayMs(cfg, attempts) == Curve(cfg, attempts) <==>
            || cfg.initialMs * Pow2(attempts) < TWO_63
            || Shl64(cfg.initialMs, attempts) <= 0
            || Shl64(cfg.initialMs, attempts) >= cfg.maxMs
  {
    ShiftPositive(cfg.initialMs, attempts);
    if attempts >= 64 {
      LongShift(cfg.initialMs, attempts);
    } else if cfg.initialMs * Pow2(attempts) < TWO_63 {
      WrapSmall(cfg.initialMs * Pow2(attempts));
    }
  }

  // A configuration for which the curve dips: the third attempt waits 4 ms instead of 100.
  lemma DelayDips()
    ensures var cfg := BackoffConfig(0x4000_0000_0000_0001, 100, 8, false);
            Representable(cfg) && DelayMs(cfg, 1) == 100 && DelayMs(cfg, 2) == 4 && Curve(cfg, 2) == 100
  {
    assert Pow2(1) == 2 && Pow2(2) == 4;
  }

  // The wait never shrinks as attempts grow.
  lemma DelayIsMonotone(cfg: BackoffConfig, a: nat, b: nat)
    requires cfg.initialMs >= 1 && cfg.maxMs >= 0 && cfg.initialMs * cfg.maxMs < TWO_63 && a <= b
    ensures DelayMs(cfg, a) <= DelayMs(cfg, b)
  {
    DelayIsExact(cfg, a);
    DelayIsExact(cfg, b);
    Pow2Monotone(a, b);
    MulMonotone(cfg.initialMs, Pow2(a), Pow2(b));
  }

  // With jitter the delay lies between half the curve and the curve, and both ends of
  // [d/2, 2*(d/2)] are reached; without, it is the curve. No nanosecond count overflows.
  lemma ComputeBounds(cfg: BackoffConfig, attempts: nat, draw: Option<nat>)
    requires cfg.initialMs >= 1 && 0 <= cfg.maxMs && cfg.initialMs * cfg.maxMs < TWO_63
             && cfg.maxMs * NANOS_PER_MS < TWO_63
    ensures var d := Curve(cfg, attempts);
            if cfg.jitter && draw.Some? then
              d / 2 * NANOS_PER_MS <= Compute(cfg, attempts, draw) <= d * NANOS_PER_MS
            else Compute(cfg, attempts, draw) == d * NANOS_PER_MS
  {
    DelayIsExact(cfg, attempts);
    ShiftPositive(cfg.initialMs, attempts);
    var d := Curve(cfg, attempts);
    HalfRange(d, if draw.Some? then draw.value else 0);
    WrapSmall(d * NANOS_PER_MS);
    if draw.Some? {
      WrapSmall((d / 2 + draw.value % (d / 2 + 1)) * NANOS_PER_MS);
    }
  }

  // The lower end is reached, and all but at most one millisecond of the upper: the top of an odd
  // curve never is.
  lemma JitterReaches(cfg: BackoffConfig, attempts: nat, draw: nat)
    requires cfg.initialMs >= 1 && 0 <= cfg.maxMs && cfg.initialMs * cfg.maxMs < TWO_63
             && cfg.maxMs * NANOS_PER_MS < TWO_63 && cfg.jitter
    ensures var d := Curve(cfg, attempts);
            && Compute(cfg, attempts, Some(0)) == d / 2 * NANOS_PER_MS
            && Compute(cfg, attempts, Some(d / 2)) == d / 2 * 2 * NANOS_PER_MS
            && Compute(cfg, attempts, Some(draw)) <= d / 2 * 2 * NANOS_PER_MS
  {
    JitterIs(cfg, attempts, 0);
    JitterIs(cfg, attempts, Curve(cfg, attempts) / 2);
    JitterIs(cfg, attempts, draw);
    HalfDraws(Curve(cfg, attempts) / 2, draw);
  }

  lemma HalfDraws(half: nat, draw: nat)
    ensures 0 % (half + 1) == 0 && half % (half + 1) == half
    ensures (half + draw % (half + 1)) * NANOS_PER_MS <= half * 2 * NANOS_PER_MS
  {
    assert draw % (half + 1) <= half;
  }

  lemma JitterIs(cfg: BackoffConfig, attempts: nat, draw: nat)
    requires cfg.initialMs >= 1 && 0 <= cfg.maxMs && cfg.initialMs * cfg.maxMs < TWO_63
             && cfg.maxMs * NANOS_PER_MS < TWO_63 && cfg.jitter
    ensures var half := Curve(cfg, attempts) / 2;
            half >= 0 && Compute(cfg, attempts, Some(draw)) == (half + draw % (half + 1)) * NANOS_PER_MS
  {
    DelayIsExact(cfg, attempts);
    ShiftPositive(cfg.initialMs, attempts);
    var d := Curve(cfg, attempts);
    HalfRange(d, draw);
    WrapSmall((d / 2 + draw % (d / 2 + 1)) * NANOS_PER_MS);
  }

  lemma HalfRange(d: nat, draw: nat)
    ensures d / 2 <= d / 2 + draw % (d / 2 + 1) <= d
    ensures draw <= d / 2 ==> draw % (d / 2 + 1) == draw
  {
  }
}
