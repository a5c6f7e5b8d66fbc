/** Go's truncating integer arithmetic and the divide-first scaling used to convert
    between stream timestamps (ticks of a clock rate) and durations (nanoseconds).

    Integers are unbounded here; `ScalingDoesNotOverflow` says when the 64-bit
    intermediate values of the source stay in range. */
module GoArith {

  const SECOND: int := 1_000_000_000
  const TWO32: int := 0x1_0000_0000
  const TWO63: int := 0x8000_0000_0000_0000

  /** Go's `/` on signed integers: truncates toward zero. */
  function Quo(a: int, b: int): int
    requires b > 0
  {
    if a >= 0 then a / b else -((-a) / b)
  }

  /** Go's `%` on signed integers: takes the sign of the dividend. */
  function Rem(a: int, b: int): int
    requires b > 0
  {
    a - b * Quo(a, b)
  }

  predicate FitsInt64(x: int) {
    -TWO63 <= x < TWO63
  }

  /** Go's conversion to `uint32`. */
  function Uint32(x: int): (r: int)
    ensures 0 <= r < TWO32
    ensures 0 <= x < TWO32 ==> r == x
  {
    x % TWO32
  }

  /** Go's conversion to `int32`. */
  function Int32(x: int): (r: int)
    ensures -0x8000_0000 <= r < 0x8000_0000
    ensures -0x8000_0000 <= x < 0x8000_0000 ==> r == x
  {
    (x + 0x8000_0000) % TWO32 - 0x8000_0000
  }

  /** A wrapping counter counts modulo 2^32. */
  lemma Uint32Next(n: nat)
    ensures Uint32(Uint32(n) + 1) == Uint32(n + 1)
  {
  }

  function Max(a: int, b: int): int {
    if a >= b then a else b
  }

  function MultiplyAndDivide(v: int, m: int, d: int): int
    requires d > 0
  {
    Quo(v, d) * m + Quo(Rem(v, d) * m, d)
  }

  function TimestampToDuration(t: int, clockRate: int): int
    requires clockRate > 0
  {
    MultiplyAndDivide(t, SECOND, clockRate)
  }

  function DurationGoToMp4(v: int, timeScale: int): int {
    Quo(v, SECOND) * timeScale + Quo(Rem(v, SECOND) * timeScale, SECOND)
  }

  function DurationMp4ToGo(v: int, timeScale: int): int
    requires timeScale > 0
  {
    Quo(v, timeScale) * SECOND + Quo(Rem(v, timeScale) * SECOND, timeScale)
  }

  // ----- building blocks

  /** The truncated quotient is the only one whose remainder is smaller than the divisor and
      has the sign of the dividend. */
  lemma QuoUnique(a: int, b: int, q: int)
    requires b > 0
    requires a >= 0 ==> 0 <= a - b * q < b
    requires a < 0 ==> -b < a - b * q <= 0
    ensures Quo(a, b) == q
  {
    if a >= 0 {
      DivUnique(a, b, q);
    } else {
      assert b * (-q) == -(b * q);
      DivUnique(-a, b, -q);
    }
  }

  lemma MulMonotone(z: int, x: int, y: int)
    requires z >= 0 && x <= y
    ensures z * x <= z * y
  {
  }

  lemma DivMod(a: int, b: int)
    requires b > 0
    ensures a == b * (a / b) + a % b && 0 <= a % b < b
  {
  }

  lemma DivUnique(a: int, b: int, q: int)
    requires b > 0 && 0 <= a - b * q < b
    ensures a / b == q
  {
    var p := a / b;
    DivMod(a, b);
    if p > q {
      MulMonotone(b, q + 1, p);
    } else if p < q {
      MulMonotone(b, p + 1, q);
    }
  }

  lemma MulNegate(x: int, y: int)
    ensures x * (-y) == -(x * y)
  {
  }

  lemma DivNonNegative(a: int, b: int)
    requires b > 0 && a >= 0
    ensures a / b >= 0
  {
  }

  lemma RemBounds(a: int, b: int)
    requires b > 0
    ensures a == b * Quo(a, b) + Rem(a, b)
    ensures a >= 0 ==> 0 <= Rem(a, b) < b && Quo(a, b) >= 0
    ensures a < 0 ==> -b < Rem(a, b) <= 0 && Quo(a, b) <= 0
  {
    if a < 0 {
      DivMod(-a, b);
      MulNegate(b, (-a) / b);
      DivNonNegative(-a, b);
    } else {
      DivMod(a, b);
      DivNonNegative(a, b);
    }
  }

  // ----- scaling

  /** Dividing first and scaling quotient and remainder apart loses nothing: the result is the
      exact product divided once, truncated toward zero, for every sign of the operands. */
  lemma ScalingIsExact(v: int, m: int, d: int)
    requires d > 0
    ensures MultiplyAndDivide(v, m, d) == Quo(v * m, d)
  {
    var q, r := Quo(v, d), Rem(v, d);
    RemBounds(v, d);
    var rm := r * m;
    var q', r' := Quo(rm, d), Rem(rm, d);
    RemBounds(rm, d);
    Regroup(d, q, r, m, q');
    var vm := v * m;
    assert vm == d * (q * m + q') + r';
    ProductSigns(v, r, m);
    assert vm == 0 ==> rm == 0 by { if vm == 0 && m != 0 { ZeroProduct(v, m); } }
    QuoUnique(vm, d, q * m + q');
  }

  lemma Regroup(d: int, q: int, r: int, m: int, q': int)
    ensures (d * q + r) * m == d * (q * m) + r * m
    ensures d * (q * m + q') == d * (q * m) + d * q'
  {
  }

  lemma ZeroProduct(v: int, m: int)
    requires v * m == 0 && m != 0
    ensures v == 0
  {
  }

  lemma ProductSigns(v: int, r: int, m: int)
    requires v >= 0 ==> r >= 0
    requires v <= 0 ==> r <= 0
    ensures v * m > 0 ==> r * m >= 0
    ensures v * m < 0 ==> r * m <= 0
  {
    if v >= 0 && m >= 0 { assert v * m >= 0 && r * m >= 0; }
    if v >= 0 && m <= 0 { assert v * m <= 0 && r * m <= 0; }
    if v <= 0 && m >= 0 { assert v * m <= 0 && r * m <= 0; }
    if v <= 0 && m <= 0 { assert v * m >= 0 && r * m >= 0; }
  }

  /** No intermediate value of the divide-first form leaves 64 bits when the result fits and the
      product of scale and divisor does; the multiply-first form has no such guarantee. */
  lemma ScalingDoesNotOverflow(v: int, m: int, d: int)
    requires d > 0 && m > 0 && d * m <= TWO63
    requires FitsInt64(MultiplyAndDivide(v, m, d))
    ensures FitsInt64(Quo(v, d) * m)
    ensures FitsInt64(Rem(v, d) * m)
    ensures FitsInt64(Quo(Rem(v, d) * m, d))
  {
    hide Quo, Rem;
    var q, r := Quo(v, d), Rem(v, d);
    RemBounds(v, d);
    RemBounds(r * m, d);
    var q', e := Quo(r * m, d), Rem(r * m, d);
    ProductSigns(v, r, m);
    if v >= 0 {
      PartsAreWithin(q, r, m, d, q', e);
    } else {
      MulNegate(m, q);
      MulNegate(m, r);
      MulNegate(d, q');
      PartsAreWithin(-q, -r, m, d, -q', -e);
    }
  }

  lemma PartsAreWithin(q: int, r: int, m: int, d: int, q': int, e: int)
    requires q >= 0 && 0 <= r < d && m > 0 && q' >= 0 && r * m == d * q' + e && 0 <= e < d
    ensures 0 <= q * m && 0 <= q' <= r * m <= d * m - m
  {
    MulMonotone(m, 0, q);
    MulMonotone(m, 0, r);
    MulMonotone(m, r, d - 1);
    MulMonotone(q', 1, d);
  }

  /** Every clock rate is an unsigned 32-bit number, so converting ticks to nanoseconds or back never leaves 64
      bits on the way if the result fits. */
  lemma ClockRatesDoNotOverflow(v: int, clockRate: int)
    requires 0 < clockRate < TWO32
    ensures FitsInt64(TimestampToDuration(v, clockRate)) ==>
              FitsInt64(Quo(v, clockRate) * SECOND) && FitsInt64(Rem(v, clockRate) * SECOND)
    ensures FitsInt64(MultiplyAndDivide(v, clockRate, SECOND)) ==>
              FitsInt64(Quo(v, SECOND) * clockRate) && FitsInt64(Rem(v, SECOND) * clockRate)
  {
    hide Quo, Rem;
    if FitsInt64(TimestampToDuration(v, clockRate)) {
      ScalingDoesNotOverflow(v, SECOND, clockRate);
    }
    if FitsInt64(MultiplyAndDivide(v, clockRate, SECOND)) {
      ScalingDoesNotOverflow(v, clockRate, SECOND);
    }
  }

  lemma TimestampIsExact(t: int, clockRate: int)
    requires clockRate > 0
    ensures TimestampToDuration(t, clockRate) == Quo(t * SECOND, clockRate)
    ensures DurationMp4ToGo(t, clockRate) == Quo(t * SECOND, clockRate)
  {
    ScalingIsExact(t, SECOND, clockRate);
  }

  lemma DurationIsExact(v: int, timeScale: int)
    ensures DurationGoToMp4(v, timeScale) == Quo(v * timeScale, SECOND)
  {
    ScalingIsExact(v, timeScale, SECOND);
  }

  /** What truncation does to the exact quotient, without fractions. */
  lemma QuoBounds(a: int, b: int)
    requires b > 0
    ensures a >= 0 ==> b * Quo(a, b) <= a < b * Quo(a, b) + b
    ensures a <= 0 ==> b * Quo(a, b) - b < a <= b * Quo(a, b)
  {
    RemBounds(a, b);
  }

  lemma QuoMonotone(a: int, a': int, b: int)
    requires b > 0 && a <= a'
    ensures Quo(a, b) <= Quo(a', b)
  {
    RemBounds(a, b);
    RemBounds(a', b);
    var q, q' := Quo(a, b), Quo(a', b);
    if q > q' {
      MulMonotone(b, q' + 1, q);
    }
  }

  lemma TimestampMonotone(t: int, t': int, clockRate: int)
    requires clockRate > 0 && t <= t'
    ensures TimestampToDuration(t, clockRate) <= TimestampToDuration(t', clockRate)
  {
    TimestampIsExact(t, clockRate);
    TimestampIsExact(t', clockRate);
    QuoMonotone(t * SECOND, t' * SECOND, clockRate);
  }

  /** Ticks to nanoseconds and back is at most one tick short, for any clock of at most one tick
      per nanosecond, and never too long. */
  lemma TickRoundTrip(v: int, timeScale: int)
    requires 0 < timeScale <= SECOND && v >= 0
    ensures v - 1 <= DurationGoToMp4(DurationMp4ToGo(v, timeScale), timeScale) <= v
  {
    TimestampIsExact(v, timeScale);
    var g := DurationMp4ToGo(v, timeScale);
    QuoBounds(v * SECOND, timeScale);
    RemBounds(v * SECOND, timeScale);
    DurationIsExact(g, timeScale);
    var w := DurationGoToMp4(g, timeScale);
    assert g * timeScale >= 0;
    QuoBounds(g * timeScale, SECOND);
    assert timeScale * g == g * timeScale;
    assert SECOND * w <= v * SECOND;
    assert v * SECOND < SECOND * w + SECOND + timeScale;
  }
}
