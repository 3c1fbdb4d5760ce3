/**
 * A 64-bit float seen as an exact real together with the three non-finite
 * values IEEE 754 division can produce. Rounding error of finite arithmetic
 * is not modelled; the non-finite values are, because `1/0` is a value the
 * source accepts and carries through to its output.
 */
module Numbers {

  datatype Num = Finite(r: real) | PosInf | NegInf | NaN

  /**
   * `a / b` for a divisor that is never negative zero (the scanner cannot
   * produce one): a zero divisor gives an infinity of the dividend's sign,
   * or NaN for a zero dividend.
   */
  function Quotient(a: real, b: real): (q: Num)
    ensures q.Finite? <==> b != 0.0
    ensures q.Finite? ==> q.r * b == a
    ensures q == PosInf <==> b == 0.0 && a > 0.0
    ensures q == NegInf <==> b == 0.0 && a < 0.0
  {
    if b != 0.0 then Finite(a / b)
    else if a > 0.0 then PosInf
    else if a < 0.0 then NegInf
    else NaN
  }

  /** `k * n`: a finite value is scaled, an infinity keeps or flips its sign, zero times an infinity is NaN. */
  function Scale(k: real, n: Num): (m: Num)
    ensures k > 0.0 ==> (m.Finite? <==> n.Finite?) && (!n.Finite? ==> m == n)
    ensures n.Finite? ==> m == Finite(k * n.r)
  {
    match n
    case Finite(x) => Finite(k * x)
    case PosInf => if k > 0.0 then PosInf else if k < 0.0 then NegInf else NaN
    case NegInf => if k > 0.0 then NegInf else if k < 0.0 then PosInf else NaN
    case NaN => NaN
  }

  /**
   * `a * b`: the product of two finite values, and otherwise the sign rule
   * for infinities, with zero times an infinity and anything times NaN
   * giving NaN.
   */
  function Mul(a: Num, b: Num): (m: Num)
    ensures a.Finite? && b.Finite? ==> m == Finite(a.r * b.r)
    ensures a.NaN? || b.NaN? ==> m == NaN
  {
    match a
    case Finite(x) => Scale(x, b)
    case PosInf =>
      (match b
       case Finite(y) => Scale(y, PosInf)
       case PosInf => PosInf
       case NegInf => NegInf
       case NaN => NaN)
    case NegInf =>
      (match b
       case Finite(y) => Scale(y, NegInf)
       case PosInf => NegInf
       case NegInf => PosInf
       case NaN => NaN)
    case NaN => NaN
  }

  /** The order of the factors does not matter. */
  lemma MulCommutes(a: Num, b: Num)
    ensures Mul(a, b) == Mul(b, a)
  {
  }

  /** Scaling by a positive factor and then by its reciprocal gives the value back. */
  lemma ScaleInverse(k: real, n: Num)
    requires k > 0.0
    ensures Scale(1.0 / k, Scale(k, n)) == n
  {
  }
}
