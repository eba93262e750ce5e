/**
 `backoff` (stream/conn.go) in 64-bit arithmetic. Durations are integers in
 nanoseconds; the random factor is a real in [4/5, 6/5). What Go makes of a float64
 that no int64 can hold depends on the machine, so the environment chooses it.
 */
module Reconnect {
  import opened Wrappers
  import opened Int64

  function Pow2(k: nat): nat {
    if k == 0 then 1 else 2 * Pow2(k - 1)
  }

  /** The documented curve: min, 2·min, 4·min, … up to max; the first attempt does not wait. */
  function Curve(attempt: nat, min: nat, max: nat): nat {
    if attempt <= 1 then 0 else Min(max, min * Pow2(attempt - 2))
  }

  /** Doubling at most `steps` times while below max, with wrap-around. */
  function Climb(d: int, steps: nat, max: int): int
    decreases steps
  {
    if steps == 0 || d >= max then d else Climb(Wrap(d * 2), steps - 1, max)
  }

  /** The delay before jitter. */
  function Base(attempt: nat, min: nat, max: nat): int {
    if attempt <= 1 then 0 else Min(Climb(min, attempt - 2, max), max)
  }

  /** `float64(d) * jitter` without its fraction, which a conversion drops towards zero. */
  function Truncated(d: int, jitter: real): int {
    if d >= 0 then (d as real * jitter).Floor else -((-d) as real * jitter).Floor
  }

  /** The random factor, and what a conversion out of range yields (on amd64 the least int64). */
  datatype Noise = Noise(jitter: real, stray: int)

  predicate Jitter(noise: Noise) {
    0.8 <= noise.jitter < 1.2 && InInt64(noise.stray)
  }

  /** The jittered duration as an int64. */
  function Converted(d: int, noise: Noise): int {
    var t := Truncated(d, noise.jitter);
    if InInt64(t) then t else noise.stray
  }

  /** What `backoff` returns. */
  function Delay(attempt: nat, min: nat, max: nat, noise: Noise): int {
    if attempt <= 1 then 0 else Converted(Base(attempt, min, max), noise)
  }

  /** `backoff`. */
  method Backoff(attempt: nat, min: nat, max: nat, noise: Noise) returns (delay: int)
    requires 0 < min <= max <= MAX_INT64 && Jitter(noise)
    ensures delay == Delay(attempt, min, max, noise)
  {
    if attempt <= 1 {
      return 0;
    }
    var d: int := min;
    var i := 2;
    while i < attempt && d < max
      invariant 2 <= i <= attempt
      invariant Climb(min, attempt - 2, max) == Climb(d, attempt - i, max)
      decreases attempt - i
    {
      d := Wrap(d * 2);
      i := i + 1;
    }
    if d > max {
      d := max;
    }
    delay := Converted(d, noise);
  }

  /** Doubling `k` is called for, and its result fits in 64 bits. */
  predicate Doubles(min: nat, max: nat, k: nat) {
    min * Pow2(k) < max && min * Pow2(k + 1) <= MAX_INT64
  }

  /** The last doubling that `max` calls for still fits in 64 bits. */
  ghost predicate Fits(min: nat, max: nat) {
    forall k: nat :: min * Pow2(k) < max ==> min * Pow2(k + 1) <= MAX_INT64
  }

  lemma Pow2Doubles(min: nat, k: nat)
    ensures min * Pow2(k + 1) == 2 * (min * Pow2(k))
  {
  }

  lemma {:induction false} Pow2Monotone(a: nat, b: nat)
    requires a <= b
    ensures 1 <= Pow2(a) <= Pow2(b)
  {
    if a < b {
      Pow2Monotone(a, b - 1);
    } else if a > 0 {
      Pow2Monotone(a - 1, a - 1);
    }
  }

  lemma MulMonotone(m: nat, a: nat, b: nat)
    requires a <= b
    ensures m * a <= m * b
  {
  }

  /** Up to 2^62 every maximum fits. */
  lemma SmallMaxFits(min: nat, max: nat)
    requires max <= 0x4000_0000_0000_0000
    ensures Fits(min, max)
  {
    forall k: nat | min * Pow2(k) < max
      ensures min * Pow2(k + 1) <= MAX_INT64
    {
      Pow2Doubles(min, k);
    }
  }

  /** Once max is reached, further doublings of the curve stay there. */
  lemma CurveStays(min: nat, max: nat, k: nat, steps: nat)
    requires min * Pow2(k) >= max
    ensures min * Pow2(k + steps) >= max
  {
    Pow2Monotone(k, k + steps);
    MulMonotone(min, Pow2(k), Pow2(k + steps));
  }

  /** Climbing from the k-th doubling d follows the curve. */
  lemma {:induction false} ClimbFollows(min: nat, max: nat, k: nat, d: nat, steps: nat)
    requires 0 < min <= max <= MAX_INT64 && Fits(min, max)
    requires d == min * Pow2(k) <= MAX_INT64
    ensures Min(Climb(d, steps, max), max) == Min(max, min * Pow2(k + steps))
    decreases steps
  {
    if d >= max {
      CurveStays(min, max, k, steps);
    } else if steps > 0 {
      Pow2Doubles(min, k);
      WrapFits(2 * d);
      ClimbFollows(min, max, k + 1, 2 * d, steps - 1);
    }
  }

  /**
   The delay before jitter follows the documented curve at every attempt, without
   overflow, if and only if the last doubling fits in 64 bits.
   */
  lemma BackoffFollowsCurve(min: nat, max: nat)
    requires 0 < min <= max <= MAX_INT64
    ensures (forall attempt: nat :: Base(attempt, min, max) == Curve(attempt, min, max)) <==> Fits(min, max)
  {
    if Fits(min, max) {
      forall attempt: nat
        ensures Base(attempt, min, max) == Curve(attempt, min, max)
      {
        if attempt >= 2 {
          ClimbFollows(min, max, 0, min, attempt - 2);
        }
      }
    } else {
      var k := Misfit(min, max);
      ClimbWraps(min, max, 0, k);
      Pow2Doubles(min, k);
      assert Base(k + 3, min, max) < 0;
      assert Curve(k + 3, min, max) >= 0;
    }
  }

  /** A doubling that overflows although max has not been reached; all earlier ones are fine. */
  lemma Misfit(min: nat, max: nat) returns (k: nat)
    requires 0 < min <= max <= MAX_INT64 && !Fits(min, max)
    ensures min * Pow2(k) < max && min * Pow2(k + 1) > MAX_INT64
    ensures forall i: nat :: i < k ==> Doubles(min, max, i)
  {
    k :| min * Pow2(k) < max && min * Pow2(k + 1) > MAX_INT64;
    forall i: nat | i < k
      ensures Doubles(min, max, i)
    {
      Pow2Monotone(i + 1, k);
      MulMonotone(min, Pow2(i + 1), Pow2(k));
      Pow2Doubles(min, i);
    }
  }

  lemma WrapNegative(x: int)
    requires MAX_INT64 < x <= 2 * MAX_INT64
    ensures Wrap(x) < 0
  {
  }

  lemma WrapFits(x: int)
    requires 0 <= x <= MAX_INT64
    ensures Wrap(x) == x
  {
  }

  /** At the misfit the doubled value wraps to a negative delay. */
  lemma {:induction false} ClimbWraps(min: nat, max: nat, j: nat, k: nat)
    requires 0 < min <= max <= MAX_INT64 && j <= k
    requires min * Pow2(k) < max && min * Pow2(k + 1) > MAX_INT64
    requires forall i: nat :: i < k ==> Doubles(min, max, i)
    ensures Climb(min * Pow2(j), k - j + 1, max) < 0
    decreases k - j
  {
    Pow2Doubles(min, j);
    if j < k {
      assert Doubles(min, max, j);
      WrapFits(min * Pow2(j + 1));
      ClimbWraps(min, max, j + 1, k);
    } else {
      WrapNegative(min * Pow2(j + 1));
      assert Climb(Wrap(min * Pow2(j) * 2), 0, max) == Wrap(min * Pow2(j) * 2);
    }
  }

  lemma CurveMonotone(a: nat, b: nat, min: nat, max: nat)
    requires min <= max && a <= b
    ensures Curve(a, min, max) <= Curve(b, min, max) <= max
  {
    if a >= 2 {
      Pow2Monotone(a - 2, b - 2);
      MulMonotone(min, Pow2(a - 2), Pow2(b - 2));
    }
  }

  /** Within the jitter range of `d`. */
  predicate Jittered(d: nat, y: real) {
    d as real * 0.8 <= y < d as real * 1.2
  }

  lemma ProductJittered(d: nat, j: real)
    requires d > 0 && 0.8 <= j < 1.2
    ensures Jittered(d, d as real * j)
  {
    Scale(d as real, 0.8, j);
    Scale(d as real, j, 1.2);
  }

  lemma Scale(x: real, a: real, b: real)
    requires x > 0.0
    ensures a <= b ==> x * a <= x * b
    ensures a < b ==> x * a < x * b
  {
  }

  /** From bounds on a real to bounds on its whole part. */
  lemma FloorBounds(d: nat, y: real)
    requires Jittered(d, y)
    ensures 4 * d / 5 <= y.Floor && 5 * y.Floor < 6 * d
  {
    var f := y.Floor;
    assert f as real <= y < f as real + 1.0;
    assert (4 * d) as real < (5 * f + 5) as real;
    assert (5 * f) as real < (6 * d) as real;
  }

  lemma TruncatedBounds(d: nat, j: real)
    requires d > 0 && 0.8 <= j < 1.2
    ensures 4 * d / 5 <= Truncated(d, j) && 5 * Truncated(d, j) < 6 * d
  {
    ProductJittered(d, j);
    FloorBounds(d, d as real * j);
  }

  lemma Widen(d: nat, min: nat, max: nat, t: int)
    requires min <= d <= max && 4 * d / 5 <= t && 5 * t < 6 * d
    ensures 4 * min / 5 <= t && 5 * t < 6 * max
  {
  }

  lemma BaseBounds(attempt: nat, min: nat, max: nat)
    requires 0 < min <= max <= MAX_INT64 && Fits(min, max) && attempt >= 2
    ensures min <= Base(attempt, min, max) <= max
  {
    BackoffFollowsCurve(min, max);
    Pow2Monotone(0, attempt - 2);
    MulMonotone(min, 1, Pow2(attempt - 2));
    assert Base(attempt, min, max) == Curve(attempt, min, max);
  }

  /** Neither the doubling nor the jitter leaves the int64 range: the options can be checked for it. */
  ghost predicate Tame(min: nat, max: nat) {
    Fits(min, max) && 6 * max <= 5 * (MAX_INT64 + 1)
  }

  /** At least 4/5 of min and below 6/5 of max. */
  predicate Bounded(min: nat, max: nat, t: int) {
    4 * min / 5 <= t && 5 * t < 6 * max
  }

  lemma TameDelay(attempt: nat, min: nat, max: nat, noise: Noise)
    requires 0 < min <= max <= MAX_INT64 && Tame(min, max) && Jitter(noise) && attempt >= 2
    ensures Bounded(min, max, Delay(attempt, min, max, noise))
  {
    BaseBounds(attempt, min, max);
    var d := Base(attempt, min, max);
    TruncatedBounds(d, noise.jitter);
    Widen(d, min, max, Truncated(d, noise.jitter));
  }

  lemma {:induction false} Pow2Exceeds(k: nat)
    ensures Pow2(k) > k
  {
    if k > 0 {
      Pow2Exceeds(k - 1);
    }
  }

  /** Without overflow some attempt reaches max. */
  lemma TopReached(min: nat, max: nat) returns (attempt: nat)
    requires 0 < min <= max <= MAX_INT64 && Fits(min, max)
    ensures attempt >= 2 && Base(attempt, min, max) == max
  {
    attempt := max + 2;
    BackoffFollowsCurve(min, max);
    Pow2Exceeds(max);
    MulGrows(min, Pow2(max));
    assert Base(attempt, min, max) == Curve(attempt, min, max);
  }

  lemma MulGrows(m: nat, a: nat)
    requires m > 0
    ensures m * a >= a
  {
  }

  lemma Stretch(d: nat, target: nat)
    requires 0 < d < target && 5 * target < 6 * d
    ensures 0.8 <= target as real / d as real < 1.2
    ensures Truncated(d, target as real / d as real) == target
  {
    var x, y := target as real, d as real;
    assert y * (x / y) == x;
    Below(x, y);
  }

  lemma Below(x: real, y: real)
    requires 0.0 < y < x && 5.0 * x < 6.0 * y
    ensures 0.8 <= x / y < 1.2
  {
    var z := x / y;
    assert y * z == x;
    if z < 0.8 {
      Scale(y, z, 0.8);
    } else if z >= 1.2 {
      Scale(y, 1.2, z);
    }
  }

  lemma WholeTruncated(d: int)
    ensures Truncated(d, 1.0) == d
  {
    assert d as real * 1.0 == d as real && (-d) as real * 1.0 == (-d) as real;
  }

  /** Where the options are not tame, some attempt does not wait at all. */
  lemma Untamed(min: nat, max: nat) returns (attempt: nat, noise: Noise)
    requires 0 < min <= max <= MAX_INT64 && !Tame(min, max)
    ensures attempt >= 2 && Jitter(noise) && Delay(attempt, min, max, noise) < 0
  {
    if !Fits(min, max) {
      var k := Misfit(min, max);
      ClimbWraps(min, max, 0, k);
      attempt, noise := k + 3, Noise(1.0, MIN_INT64);
      WholeTruncated(Base(attempt, min, max));
    } else {
      attempt := TopReached(min, max);
      Stretch(max, MAX_INT64 + 1);
      noise := Noise((MAX_INT64 + 1) as real / max as real, MIN_INT64);
    }
  }

  /** After jitter every wait is at least 4/5 of min and below 6/5 of max, if and only if the options are tame. */
  lemma DelayBounds(min: nat, max: nat)
    requires 0 < min <= max <= MAX_INT64
    ensures (forall attempt: nat, noise: Noise ::
               attempt >= 2 && Jitter(noise) ==> Bounded(min, max, Delay(attempt, min, max, noise)))
            <==> Tame(min, max)
  {
    if Tame(min, max) {
      forall attempt: nat, noise: Noise | attempt >= 2 && Jitter(noise)
        ensures Bounded(min, max, Delay(attempt, min, max, noise))
      {
        TameDelay(attempt, min, max, noise);
      }
    } else {
      var attempt, noise := Untamed(min, max);
      assert !Bounded(min, max, Delay(attempt, min, max, noise));
    }
  }

  // -------------------------------------------------------- the maximum wait

  const HALF := 0x8000_0000_0000_0000
  const FULL := 0x1_0000_0000_0000_0000

  lemma WrapShifts(x: int) returns (a: int)
    ensures Wrap(x) == x + a * FULL && InInt64(Wrap(x))
  {
    a := -((x + HALF) / FULL);
  }

  lemma Regroup(d: int, e: int, a: int, c: int, p: nat)
    requires e == 2 * d + a * FULL && d * (2 * p) == HALF + c * FULL
    ensures e * p == HALF + (c + a * p) * FULL
  {
    assert e * p == 2 * d * p + a * FULL * p;
    assert a * FULL * p == a * p * FULL;
  }

  /** Doubling with wrap-around ends at max or passes the least int64, if it would leave just the top bit. */
  lemma {:induction false} Peaks(d: int, m: nat, max: int, c: int)
    requires InInt64(d) && d * Pow2(m) == HALF + c * FULL
    ensures Climb(d, m, max) == MIN_INT64 || Climb(d, m, max) >= max
    decreases m
  {
    if m > 0 && d < max {
      var a := WrapShifts(d * 2);
      var p := Pow2(m - 1);
      Regroup(d, Wrap(d * 2), a, c, p);
      Peaks(Wrap(d * 2), m - 1, max, c + a * p);
    }
  }

  lemma Pow2Three(k: nat)
    ensures Pow2(k + 3) == 8 * Pow2(k)
  {
    assert Pow2(k + 1) == 2 * Pow2(k);
    assert Pow2(k + 2) == 2 * Pow2(k + 1);
  }

  lemma Pow2Nine(k: nat)
    ensures Pow2(k + 9) == 512 * Pow2(k)
  {
    Pow2Three(k);
    Pow2Three(k + 3);
    Pow2Three(k + 6);
  }

  lemma TopBitIs63()
    ensures Pow2(63) == HALF
  {
    Pow2Nine(0);
    Pow2Nine(9);
    Pow2Nine(18);
    Pow2Nine(27);
    Pow2Nine(36);
    Pow2Nine(45);
    Pow2Nine(54);
  }

  /** After enough doublings only the top bit of a positive int64 is left. */
  lemma {:induction false} TopBit(d: nat) returns (m: nat, c: int)
    requires 0 < d <= MAX_INT64
    ensures d * Pow2(m) == HALF + c * FULL
    decreases d
  {
    if d % 2 == 1 {
      m, c := 63, d / 2;
      TopBitIs63();
    } else {
      m, c := TopBit(d / 2);
      assert m > 0;
      assert d * Pow2(m - 1) == (d / 2) * Pow2(m);
      m := m - 1;
    }
  }

  /** Some attempt has max before jitter, or the least int64. */
  lemma SomePeak(min: nat, max: nat) returns (attempt: nat)
    requires 0 < min <= max <= MAX_INT64
    ensures attempt >= 2 && (Base(attempt, min, max) == max || Base(attempt, min, max) == MIN_INT64)
  {
    var m, c := TopBit(min);
    Peaks(min, m, max, c);
    attempt := m + 2;
  }

  lemma LeastStrays(noise: Noise)
    requires noise.jitter == 1.1
    ensures Converted(MIN_INT64, noise) == noise.stray
  {
    assert (-MIN_INT64) as real * 1.1 > (-MIN_INT64) as real + 1.0;
  }

  /**
   The jitter is applied after the cap. So every wait keeps to max only where max
   leaves no room for a longer one: up to 5 ns, or when it is the largest int64.
   */
  lemma WithinMax(min: nat, max: nat)
    requires 0 < min <= max <= MAX_INT64
    ensures (forall attempt: nat, noise: Noise :: Jitter(noise) ==> Delay(attempt, min, max, noise) <= max)
            <==> max <= 5 || max == MAX_INT64
  {
    if max <= 5 {
      SmallMaxFits(min, max);
      forall attempt: nat, noise: Noise | Jitter(noise)
        ensures Delay(attempt, min, max, noise) <= max
      {
        if attempt >= 2 {
          TameDelay(attempt, min, max, noise);
        }
      }
    } else if max < MAX_INT64 {
      var attempt := SomePeak(min, max);
      if Base(attempt, min, max) == max {
        Stretch(max, max + 1);
        assert Delay(attempt, min, max, Noise((max + 1) as real / max as real, 0)) > max;
      } else {
        var noise := Noise(1.1, MAX_INT64);
        LeastStrays(noise);
        assert Delay(attempt, min, max, noise) > max;
      }
    }
  }
}
