/**
 * Rounding a result for display: `(num * 10^p).round() / 10^p`, in the
 * local form of `src/main.rs` (no default, no clamp, `None` is unrounded)
 * and in the form of `src/utils.rs` (default 2, clamped at MAX_PRECISION).
 * The decimal rendering `format!("{}")` is not modelled: the formatted
 * value is the rounded number itself.
 */
module Format {
  import opened Common
  import opened Numbers

  /** The precision used when none is given. */
  const DEFAULT_PRECISION: int := 2

  /** The largest precision `format_number` in `src/utils.rs` honours. */
  const MAX_PRECISION: int := 14

  /*
   * Decimal shifts. `Shift(x, p)` is x * 10^p, built from multiplications
   * and divisions by ten only, for any integer p.
   */

  function Shift(x: real, p: int): real
    decreases if p < 0 then -p else p
  {
    if p == 0 then x
    else if p > 0 then Shift(10.0 * x, p - 1)
    else Shift(x / 10.0, p + 1)
  }

  lemma {:induction false} ShiftAdd(a: real, b: real, p: int)
    ensures Shift(a + b, p) == Shift(a, p) + Shift(b, p)
    decreases if p < 0 then -p else p
  {
    if p > 0 {
      ShiftAdd(10.0 * a, 10.0 * b, p - 1);
    } else if p < 0 {
      ShiftAdd(a / 10.0, b / 10.0, p + 1);
    }
  }

  lemma {:induction false} ShiftNeg(a: real, p: int)
    ensures Shift(-a, p) == -Shift(a, p)
    decreases if p < 0 then -p else p
  {
    if p > 0 {
      ShiftNeg(10.0 * a, p - 1);
    } else if p < 0 {
      ShiftNeg(a / 10.0, p + 1);
    }
  }

  /** A shift keeps the order of two values strictly. */
  lemma {:induction false} ShiftOrder(a: real, b: real, p: int)
    ensures a <= b <==> Shift(a, p) <= Shift(b, p)
    ensures a < b <==> Shift(a, p) < Shift(b, p)
    decreases if p < 0 then -p else p
  {
    if p > 0 {
      ShiftOrder(10.0 * a, 10.0 * b, p - 1);
    } else if p < 0 {
      ShiftOrder(a / 10.0, b / 10.0, p + 1);
    }
  }

  lemma {:induction false} ShiftTen(x: real, p: int)
    ensures Shift(10.0 * x, p) == 10.0 * Shift(x, p)
    ensures Shift(x / 10.0, p) == Shift(x, p) / 10.0
    decreases if p < 0 then -p else p
  {
    if p > 0 {
      ShiftTen(10.0 * x, p - 1);
      assert 10.0 * (x / 10.0) == x / 10.0 * 10.0;
    } else if p < 0 {
      ShiftTen(x / 10.0, p + 1);
      assert (10.0 * x) / 10.0 == 10.0 * (x / 10.0);
    }
  }

  /** One more place to the left is ten times as much. */
  lemma ShiftUp(x: real, m: int)
    ensures Shift(x, m + 1) == 10.0 * Shift(x, m)
  {
    if m >= 0 {
      ShiftTen(x, m);
    } else {
      ShiftTen(x, m + 1);
    }
  }

  /** Two shifts make one. */
  lemma {:induction false} ShiftCompose(x: real, p: int, q: int)
    ensures Shift(Shift(x, p), q) == Shift(x, p + q)
    decreases if q < 0 then -q else q
  {
    if q > 0 {
      ShiftCompose(x, p, q - 1);
      ShiftUp(Shift(x, p), q - 1);
      ShiftUp(x, p + q - 1);
    } else if q < 0 {
      ShiftCompose(x, p, q + 1);
      ShiftUp(Shift(x, p), q);
      ShiftUp(x, p + q);
    }
  }

  /** Shifting left by a natural amount keeps an integer an integer. */
  lemma {:induction false} ShiftIntegral(k: int, d: nat)
    ensures Shift(k as real, d).Floor as real == Shift(k as real, d)
    decreases d
  {
    if d > 0 {
      assert 10.0 * k as real == (10 * k) as real;
      ShiftIntegral(10 * k, d - 1);
    }
  }

  /** Shifting left by a natural amount never shrinks a non-negative value. */
  lemma {:induction false} ShiftGrows(a: real, d: nat)
    requires a >= 0.0
    ensures Shift(a, d) >= a
    decreases d
  {
    if d > 0 {
      ShiftGrows(10.0 * a, d - 1);
    }
  }

  /** The distance between two reals. */
  function Distance(a: real, b: real): (d: real)
    ensures d >= 0.0
    ensures d == 0.0 <==> a == b
  {
    if a >= b then a - b else b - a
  }

  lemma ShiftDistance(a: real, b: real, p: int)
    ensures Distance(Shift(a, p), Shift(b, p)) == Shift(Distance(a, b), p)
  {
    ShiftOrder(a, b, p);
    ShiftNeg(b, p);
    ShiftNeg(a, p);
    ShiftAdd(a, -b, p);
    ShiftAdd(b, -a, p);
  }

  /**
   * `f64::round`: the nearest integer, halves going away from zero. The two
   * ensures together pin the result down to exactly one integer.
   */
  function Round(x: real): (n: int)
    ensures x >= 0.0 ==> x - 0.5 < n as real <= x + 0.5
    ensures x < 0.0 ==> x - 0.5 <= n as real < x + 0.5
  {
    if x >= 0.0 then (x + 0.5).Floor else -((-x + 0.5).Floor)
  }

  /** An integer rounds to itself. */
  lemma RoundInteger(n: int)
    ensures Round(n as real) == n
  {
  }

  /** Rounding is symmetric about zero. */
  lemma RoundOdd(x: real)
    ensures Round(-x) == -Round(x)
  {
  }

  /** Rounding never reverses the order of two values. */
  lemma RoundMonotone(x: real, y: real)
    requires x <= y
    ensures Round(x) <= Round(y)
  {
  }

  /** No integer is closer to `y` than its rounding, which is at most one half away. */
  lemma RoundNearest(y: real, m: int)
    ensures Distance(y, Round(y) as real) <= 0.5
    ensures Distance(y, Round(y) as real) <= Distance(y, m as real)
  {
    if m > Round(y) {
      assert m as real >= Round(y) as real + 1.0;
    } else if m < Round(y) {
      assert m as real <= Round(y) as real - 1.0;
    }
  }

  /** `x` rounded to `p` decimal places (`p` may be negative: tens, hundreds, ...). */
  function RoundTo(x: real, p: int): real {
    Shift(Round(Shift(x, p)) as real, -p)
  }

  /** Shifted back, the rounded value is the rounded integer. */
  lemma RoundToScaled(x: real, p: int)
    ensures Shift(RoundTo(x, p), p) == Round(Shift(x, p)) as real
  {
    ShiftCompose(Round(Shift(x, p)) as real, -p, p);
  }

  /** `r` has no digit beyond the `p`-th decimal place. */
  predicate IsMultiple(r: real, p: int) {
    Shift(r, p).Floor as real == Shift(r, p)
  }

  /** Half a unit in the `p`-th decimal place: the most rounding can move a value. */
  function HalfUnit(p: int): real {
    Shift(0.5, -p)
  }

  /**
   * The rounded value lies within half a unit of the last kept place and
   * has no digit beyond it.
   */
  lemma RoundToError(x: real, p: int)
    ensures Distance(x, RoundTo(x, p)) <= HalfUnit(p)
    ensures IsMultiple(RoundTo(x, p), p)
  {
    var y := Shift(x, p);
    var n := Round(y) as real;
    RoundToScaled(x, p);
    ShiftCompose(x, p, -p);
    ShiftDistance(y, n, -p);
    RoundNearest(y, 0);
    ShiftOrder(Distance(y, n), 0.5, -p);
  }

  /** No multiple of 10^-p is closer to `x` than the rounded value. */
  lemma RoundToNearest(x: real, p: int, m: int)
    ensures Distance(x, RoundTo(x, p)) <= Distance(x, Shift(m as real, -p))
  {
    var y := Shift(x, p);
    var n := Round(y) as real;
    ShiftCompose(x, p, -p);
    ShiftDistance(y, n, -p);
    ShiftDistance(y, m as real, -p);
    RoundNearest(y, m);
    ShiftOrder(Distance(y, n), Distance(y, m as real), -p);
  }

  /** Rounding an already rounded value changes nothing. */
  lemma RoundToIdempotent(x: real, p: int)
    ensures RoundTo(RoundTo(x, p), p) == RoundTo(x, p)
  {
    RoundToScaled(x, p);
    RoundInteger(Round(Shift(x, p)));
  }

  /** A value exact at precision p is kept unchanged at any higher precision q. */
  lemma RoundToKeepsExact(x: real, p: int, q: int)
    requires p <= q && IsMultiple(x, p)
    ensures RoundTo(x, q) == x
  {
    var k := Shift(x, p).Floor;
    ShiftCompose(x, p, q - p);
    ShiftIntegral(k, q - p);
    RoundInteger(Shift(k as real, q - p).Floor);
    ShiftCompose(x, q, -q);
  }

  /** A higher precision never allows a larger rounding error. */
  lemma HalfUnitShrinks(p: int, q: int)
    requires p <= q
    ensures HalfUnit(q) <= HalfUnit(p)
  {
    ShiftCompose(0.5, -q, q - p);
    ShiftOrder(0.0, 0.5, -q);
    assert Shift(0.0, -q) == 0.0 by {
      ShiftAdd(0.0, 0.0, -q);
    }
    ShiftGrows(HalfUnit(q), q - p);
  }

  /** Rounding keeps the sign: a non-negative value never rounds below zero, a non-positive one never above. */
  lemma RoundToSign(x: real, p: int)
    ensures x >= 0.0 ==> RoundTo(x, p) >= 0.0
    ensures x <= 0.0 ==> RoundTo(x, p) <= 0.0
  {
    ShiftAdd(0.0, 0.0, p);
    ShiftAdd(0.0, 0.0, -p);
    ShiftOrder(0.0, x, p);
    ShiftOrder(x, 0.0, p);
    RoundInteger(0);
    if x >= 0.0 {
      RoundMonotone(0.0, Shift(x, p));
    } else {
      RoundMonotone(Shift(x, p), 0.0);
    }
    ShiftOrder(0.0, Round(Shift(x, p)) as real, -p);
    ShiftOrder(Round(Shift(x, p)) as real, 0.0, -p);
  }

  /** Rounding to a precision never reverses the order of two values. */
  lemma RoundToMonotone(x: real, y: real, p: int)
    requires x <= y
    ensures RoundTo(x, p) <= RoundTo(y, p)
  {
    ShiftOrder(x, y, p);
    RoundMonotone(Shift(x, p), Shift(y, p));
    ShiftOrder(Round(Shift(x, p)) as real, Round(Shift(y, p)) as real, -p);
  }

  /**
   * The local `format_number` of `src/main.rs`: `None` leaves the number as
   * it is; `Some(p)` rounds to `p` places, whatever `p` is. Infinities and
   * NaN come through rounding and division unchanged.
   */
  function FormatLocal(num: Num, precision: Option<int>): (r: Num)
    ensures precision.None? ==> r == num
    ensures r.Finite? <==> num.Finite?
    ensures !num.Finite? ==> r == num
    ensures precision.Some? && num.Finite? ==>
      Distance(num.r, r.r) <= HalfUnit(precision.value) && IsMultiple(r.r, precision.value)
    ensures precision.Some? && num.Finite? ==> r == Finite(RoundTo(num.r, precision.value))
  {
    match precision
    case None => num
    case Some(p) =>
      match num
      case Finite(x) => RoundToError(x, p); Finite(RoundTo(x, p))
      case _ => num
  }

  /** The precision `format_number` of `src/utils.rs` uses: 2 by default, at most MAX_PRECISION. */
  function EffectivePrecision(precision: Option<int>): (p: int)
    ensures p <= MAX_PRECISION
    ensures precision.None? ==> p == DEFAULT_PRECISION
    ensures precision.Some? && precision.value <= MAX_PRECISION ==> p == precision.value
    ensures precision.Some? && precision.value > MAX_PRECISION ==> p == MAX_PRECISION
  {
    match precision
    case None => DEFAULT_PRECISION
    case Some(q) => if q > MAX_PRECISION then MAX_PRECISION else q
  }

  /** `format_number` of `src/utils.rs`: always rounds, at the effective precision. */
  function FormatNumber(num: Num, precision: Option<int>): (r: Num)
    ensures r.Finite? <==> num.Finite?
    ensures num.Finite? ==>
      Distance(num.r, r.r) <= HalfUnit(EffectivePrecision(precision))
      && IsMultiple(r.r, EffectivePrecision(precision))
    ensures num.Finite? ==> r == Finite(RoundTo(num.r, EffectivePrecision(precision)))
    ensures !num.Finite? ==> r == num
  {
    FormatLocal(num, Some(EffectivePrecision(precision)))
  }

  /** No precision means the default precision. */
  lemma FormatNumberDefault(num: Num)
    ensures FormatNumber(num, None) == FormatNumber(num, Some(DEFAULT_PRECISION))
  {
  }

  /** Any precision above the maximum behaves as the maximum. */
  lemma FormatNumberClamps(num: Num, q: int)
    requires q > MAX_PRECISION
    ensures FormatNumber(num, Some(q)) == FormatNumber(num, Some(MAX_PRECISION))
  {
  }

  /** Up to the maximum, the two `format_number`s agree. */
  lemma FormatNumberAgrees(num: Num, q: int)
    requires q <= MAX_PRECISION
    ensures FormatNumber(num, Some(q)) == FormatLocal(num, Some(q))
  {
  }

  /** The examples of the formatting tests. */
  lemma FormatExamples()
    ensures RoundTo(3.14159, 2) == 3.14
    ensures RoundTo(3.14159, 4) == 3.1416
    ensures RoundTo(3.145, 2) == 3.15
    ensures RoundTo(3.144, 2) == 3.14
    ensures RoundTo(-3.14159, 2) == -3.14
    ensures RoundTo(1234567.89, 2) == 1234567.89
    ensures RoundTo(0.000123, 5) == 0.00012
    ensures FormatNumber(Finite(3.14159), None) == Finite(3.14)
  {
  }
}
