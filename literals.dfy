/**
 * The two number parsers the converter relies on, restricted to the strings
 * that can reach them: Rust's `str::parse::<f64>` on decimal literals and
 * `str::parse::<i32>`.
 */
module Literals {
  import opened Common
  import opened Text

  const I32_MIN: int := -0x8000_0000
  const I32_MAX: int := 0x7FFF_FFFF

  function Pow10(n: nat): (r: nat)
    ensures r >= 1
  {
    if n == 0 then 1 else 10 * Pow10(n - 1)
  }

  function DigitValue(c: char): (d: nat)
    requires IsDigit(c)
    ensures d < 10
  {
    c as int - '0' as int
  }

  /** The value of a string of decimal digits, most significant first. */
  function DigitsValue(ds: string): (v: nat)
    requires AllDigits(ds)
    ensures v < Pow10(|ds|)
  {
    if ds == [] then 0 else DigitsValue(ds[..|ds| - 1]) * 10 + DigitValue(ds[|ds| - 1])
  }

  /** At most one '.' in `t`. */
  predicate AtMostOneDot(t: string) {
    forall i, j :: 0 <= i < j < |t| && t[i] == '.' ==> t[j] != '.'
  }

  /** Digits and dots only, at least one digit and at most one dot. */
  predicate UnsignedShape(t: string) {
    && (forall i :: 0 <= i < |t| ==> IsDigit(t[i]) || t[i] == '.')
    && (exists i :: 0 <= i < |t| && IsDigit(t[i]))
    && AtMostOneDot(t)
  }

  /**
   * The texts of digits, dots and '-' that `parse::<f64>` accepts: a '-'
   * only in front, at least one digit and at most one dot.
   */
  predicate DecimalShape(t: string) {
    && (forall i :: 0 <= i < |t| ==> IsDigit(t[i]) || t[i] == '.' || (i == 0 && t[i] == '-'))
    && (exists i :: 0 <= i < |t| && IsDigit(t[i]))
    && AtMostOneDot(t)
  }

  /** A one-character pattern occurs exactly where that character is. */
  lemma DotAt(t: string, j: int)
    ensures OccursAt(t, ".", j) <==> 0 <= j < |t| && t[j] == '.'
  {
    if 0 <= j < |t| {
      assert t[j..j + 1][0] == t[j];
    }
  }

  /** Without a dot, the shape is a non-empty digit string. */
  lemma ShapeWithoutDot(t: string)
    requires forall j :: 0 <= j ==> !OccursAt(t, ".", j)
    ensures UnsignedShape(t) <==> t != [] && AllDigits(t)
  {
    forall j | 0 <= j < |t| ensures t[j] != '.' {
      DotAt(t, j);
    }
    if t != [] && AllDigits(t) {
      assert IsDigit(t[0]);
    }
  }

  /** With its first dot at `k`, the shape is digits around that dot, at least one of them. */
  lemma ShapeWithDot(t: string, k: nat)
    requires OccursAt(t, ".", k) && forall j :: 0 <= j < k ==> !OccursAt(t, ".", j)
    ensures UnsignedShape(t) <==>
      k + 1 + |t[k + 1..]| == |t| && |t[..k]| + |t[k + 1..]| > 0 && AllDigits(t[..k]) && AllDigits(t[k + 1..])
  {
    DotAt(t, k);
    forall j | 0 <= j < k ensures t[j] != '.' {
      DotAt(t, j);
    }
    var whole, frac := t[..k], t[k + 1..];
    if UnsignedShape(t) {
      forall j | 0 <= j < |frac| ensures IsDigit(frac[j]) {
        assert frac[j] == t[k + 1 + j];
      }
      var d :| 0 <= d < |t| && IsDigit(t[d]);
      assert d != k;
    }
    if |whole| + |frac| > 0 && AllDigits(whole) && AllDigits(frac) {
      forall i | 0 <= i < |t| ensures IsDigit(t[i]) || t[i] == '.' {
        if i > k {
          assert t[i] == frac[i - k - 1];
        }
      }
      forall i, j | 0 <= i < j < |t| && t[i] == '.' ensures t[j] != '.' {
        assert i == k;
        assert t[j] == frac[j - k - 1];
      }
      if |whole| > 0 {
        assert IsDigit(t[0]);
      } else {
        assert IsDigit(t[k + 1]) by {
          assert t[k + 1] == frac[0];
        }
      }
    }
  }

  /**
   * The value of the digits after a dot: the first digit counts tenths,
   * the next hundredths, and so on.
   */
  function DecimalFraction(ds: string): (v: real)
    requires AllDigits(ds)
    ensures 0.0 <= v < 1.0
    ensures ds != [] ==> DigitValue(ds[0]) as real / 10.0 <= v < (DigitValue(ds[0]) + 1) as real / 10.0
  {
    if ds == [] then 0.0 else (DigitValue(ds[0]) as real + DecimalFraction(ds[1..])) / 10.0
  }

  /**
   * A decimal literal without sign: digits with at most one '.', and at
   * least one digit; the digits after the dot are tenths, hundredths, ...
   */
  function ParseUnsignedDecimal(t: string): (r: Option<real>)
    ensures r.Some? <==> UnsignedShape(t)
    ensures r.Some? ==> r.value >= 0.0
  {
    match IndexOf(t, ".", 0)
    case None =>
      ShapeWithoutDot(t);
      if t != [] && AllDigits(t) then Some(DigitsValue(t) as real) else None
    case Some(k) =>
      ShapeWithDot(t, k);
      var whole, frac := t[..k], t[k + 1..];
      if |whole| + |frac| > 0 && AllDigits(whole) && AllDigits(frac)
      then Some(DigitsValue(whole) as real + DecimalFraction(frac))
      else None
  }

  /** A leading '-' leaves the shape of the rest to decide. */
  lemma SignedShape(t: string)
    requires |t| > 0 && t[0] == '-'
    ensures DecimalShape(t) <==> UnsignedShape(t[1..])
  {
    var u := t[1..];
    assert forall i :: 0 <= i < |u| ==> u[i] == t[i + 1];
    if UnsignedShape(u) {
      var d :| 0 <= d < |u| && IsDigit(u[d]);
      assert IsDigit(t[d + 1]);
      forall i | 0 <= i < |t| ensures IsDigit(t[i]) || t[i] == '.' || (i == 0 && t[i] == '-') {
        if i > 0 {
          assert t[i] == u[i - 1];
        }
      }
    }
    if DecimalShape(t) {
      var d :| 0 <= d < |t| && IsDigit(t[d]);
      assert IsDigit(u[d - 1]);
    }
  }

  /**
   * `parse::<f64>` on strings of digits and dots with an optional leading
   * '-', the only strings the value scanner can hand it: it accepts
   * exactly the decimal shape.
   */
  function ParseDecimal(t: string): (r: Option<real>)
    ensures r.Some? <==> DecimalShape(t)
    ensures t == [] ==> r.None?
    ensures r.Some? ==> exists i :: 0 <= i < |t| && IsDigit(t[i])
  {
    if |t| > 0 && t[0] == '-' then
      SignedShape(t);
      match ParseUnsignedDecimal(t[1..])
      case None => None
      case Some(v) => Some(-v)
    else ParseUnsignedDecimal(t)
  }

  /** Two dots, a '-' anywhere but in front, or no digit at all: the text is not a number. */
  lemma DecimalRejects(t: string, i: nat, j: nat)
    ensures i < j < |t| && t[i] == '.' && t[j] == '.' ==> ParseDecimal(t).None?
    ensures 0 < i < |t| && t[i] == '-' ==> ParseDecimal(t).None?
    ensures (forall k :: 0 <= k < |t| ==> !IsDigit(t[k])) ==> ParseDecimal(t).None?
    ensures ParseDecimal(".").None? && ParseDecimal("-").None? && ParseDecimal("-.").None?
  {
    assert !IsDigit('.') && !IsDigit('-');
  }

  /** The first dot of `ws + "." + fs`, for a digit string `ws`, is the one after `ws`. */
  lemma PointIndex(ws: string, fs: string)
    requires AllDigits(ws)
    ensures IndexOf(ws + "." + fs, ".", 0) == Some(|ws|)
  {
    var t := ws + "." + fs;
    DotAt(t, |ws|);
    forall j | 0 <= j < |ws| ensures !OccursAt(t, ".", j) {
      DotAt(t, j);
      assert t[j] == ws[j];
    }
  }

  /** With its first dot at `k`, an unsigned decimal is the whole part before the dot plus the fraction after it. */
  lemma UnsignedValueAt(t: string, k: nat)
    requires IndexOf(t, ".", 0) == Some(k) && |t| >= 2
    requires AllDigits(t[..k]) && AllDigits(t[k + 1..])
    ensures ParseUnsignedDecimal(t).Some?
    ensures ParseUnsignedDecimal(t).value == DigitsValue(t[..k]) as real + DecimalFraction(t[k + 1..])
  {
    assert |t[..k]| + |t[k + 1..]| > 0;
  }

  /** Digits around a dot read as the whole part plus the fraction. */
  lemma UnsignedPointValue(ws: string, fs: string)
    requires AllDigits(ws) && AllDigits(fs) && |ws| + |fs| >= 1
    ensures ParseUnsignedDecimal(ws + "." + fs).Some?
    ensures ParseUnsignedDecimal(ws + "." + fs).value == DigitsValue(ws) as real + DecimalFraction(fs)
  {
    var t := ws + "." + fs;
    PointIndex(ws, fs);
    assert t[..|ws|] == ws && t[|ws| + 1..] == fs;
    UnsignedValueAt(t, |ws|);
  }

  /**
   * Digits around a dot read as the whole part plus the digits after the
   * dot as tenths, hundredths, ...; with a leading '-', as the negation.
   */
  lemma PointValue(ws: string, fs: string)
    requires AllDigits(ws) && AllDigits(fs) && |ws| + |fs| >= 1
    ensures ParseDecimal(ws + "." + fs).Some?
    ensures ParseDecimal(ws + "." + fs).value == DigitsValue(ws) as real + DecimalFraction(fs)
    ensures ParseDecimal("-" + ws + "." + fs).Some?
    ensures ParseDecimal("-" + ws + "." + fs).value == -(DigitsValue(ws) as real + DecimalFraction(fs))
  {
    var t := ws + "." + fs;
    UnsignedPointValue(ws, fs);
    assert t[0] != '-' by {
      if |ws| > 0 {
        assert t[0] == ws[0];
      }
    }
    Unsigned(t);
    assert "-" + ws + "." + fs == "-" + t;
    Negated(t);
  }

  /** Text not starting with '-' reads as an unsigned decimal. */
  lemma Unsigned(t: string)
    requires t == [] || t[0] != '-'
    ensures ParseDecimal(t) == ParseUnsignedDecimal(t)
  {
  }

  /** A leading '-' negates the unsigned reading of the rest. */
  lemma Negated(t: string)
    ensures ParseDecimal("-" + t).Some? == ParseUnsignedDecimal(t).Some?
    ensures ParseDecimal("-" + t).Some? ==> ParseDecimal("-" + t).value == -ParseUnsignedDecimal(t).value
  {
    assert ("-" + t)[1..] == t;
  }

  /** The decimal rendering of a natural number, without leading zeros. */
  function NatToDigits(n: nat): (s: string)
    ensures |s| >= 1 && AllDigits(s)
    ensures DigitsValue(s) == n
    decreases n
  {
    var last := ['0' + (n % 10) as char];
    if n < 10 then last else NatToDigits(n / 10) + last
  }

  /** The rendering of an integer with a leading '-' when negative. */
  function IntToString(n: int): string {
    if n < 0 then "-" + NatToDigits(-n) else NatToDigits(n)
  }

  /** An integer renders as digits with at most a leading '-'. */
  lemma IntToStringChars(n: int)
    ensures var s := IntToString(n);
      |s| >= 1 && forall i :: 0 <= i < |s| ==> IsDigit(s[i]) || (i == 0 && s[i] == '-')
  {
    if n < 0 {
      var d := NatToDigits(-n);
      assert forall i :: 1 <= i < |d| + 1 ==> ("-" + d)[i] == d[i - 1];
    }
  }

  /** A digit string has no '.', so it parses as an integer. */
  lemma NoDot(ds: string)
    requires AllDigits(ds)
    ensures IndexOf(ds, ".", 0).None?
  {
    forall j | 0 <= j ensures !OccursAt(ds, ".", j) {
      if j + 1 <= |ds| {
        assert ds[j..j + 1][0] == ds[j];
      }
    }
  }

  /** Rendering a natural number and parsing it back gives the number. */
  lemma DecimalRoundTrip(n: nat)
    ensures ParseDecimal(NatToDigits(n)) == Some(n as real)
    ensures ParseDecimal("-" + NatToDigits(n)) == Some(-(n as real))
  {
    var s := NatToDigits(n);
    NoDot(s);
    assert s[0] != '-';
    assert ("-" + s)[1..] == s;
  }

  /** The digits of an integer text: what follows an optional leading sign. */
  function Magnitude(t: string): (d: string)
    ensures |d| <= |t|
  {
    if |t| > 0 && (t[0] == '-' || t[0] == '+') then t[1..] else t
  }

  /** The value of an integer text: its digits' value, negated after a leading '-'. */
  function SignedValue(t: string): int
    requires AllDigits(Magnitude(t))
  {
    if |t| > 0 && t[0] == '-' then -(DigitsValue(Magnitude(t)) as int) else DigitsValue(Magnitude(t))
  }

  /**
   * `parse::<i32>`: an optional sign, at least one digit, and a value that
   * fits in 32 bits.
   */
  function ParseI32(t: string): (r: Option<int>)
    ensures r.Some? <==>
      && Magnitude(t) != [] && AllDigits(Magnitude(t))
      && I32_MIN <= SignedValue(t) <= I32_MAX
    ensures r.Some? ==> r.value == SignedValue(t)
  {
    var digits := Magnitude(t);
    if digits == [] || !AllDigits(digits) then None
    else if I32_MIN <= SignedValue(t) <= I32_MAX then Some(SignedValue(t))
    else None
  }

  /** Unsigned digits are a precision exactly when their value is at most 2147483647. */
  lemma I32Unsigned(ds: string)
    requires |ds| >= 1 && AllDigits(ds)
    ensures ParseI32(ds).Some? <==> DigitsValue(ds) <= I32_MAX
    ensures ParseI32(ds).Some? ==> ParseI32(ds).value == DigitsValue(ds)
  {
    assert Magnitude(ds) == ds by {
      assert IsDigit(ds[0]);
    }
  }

  /** A leading '+' changes nothing. */
  lemma I32Plus(ds: string)
    requires |ds| >= 1 && AllDigits(ds)
    ensures ParseI32("+" + ds) == ParseI32(ds)
  {
    var pos := "+" + ds;
    assert Magnitude(pos) == ds by {
      assert pos[1..] == ds;
    }
    assert Magnitude(ds) == ds by {
      assert IsDigit(ds[0]);
    }
  }

  /** After '-', digits are a precision exactly when their value is at most 2147483648. */
  lemma I32Minus(ds: string)
    requires |ds| >= 1 && AllDigits(ds)
    ensures ParseI32("-" + ds).Some? <==> DigitsValue(ds) <= -I32_MIN
    ensures ParseI32("-" + ds).Some? ==> ParseI32("-" + ds).value == -(DigitsValue(ds) as int)
  {
    var neg := "-" + ds;
    assert Magnitude(neg) == ds by {
      assert neg[1..] == ds;
    }
    assert SignedValue(neg) == -(DigitsValue(ds) as int) by {
      assert neg[0] == '-';
    }
  }

  /** Every 32-bit integer survives rendering and parsing. */
  lemma I32RoundTrip(n: int)
    requires I32_MIN <= n <= I32_MAX
    ensures ParseI32(IntToString(n)) == Some(n)
  {
    if n < 0 {
      var s := NatToDigits(-n);
      assert ("-" + s)[1..] == s;
    }
  }

  /** A precision string that is not a decimal integer is rejected. */
  lemma I32RejectsNonDigits(t: string, i: nat)
    requires 0 < i < |t| && !IsDigit(t[i])
    ensures ParseI32(t).None?
  {
    if t[0] == '-' || t[0] == '+' {
      assert t[1..][i - 1] == t[i];
    }
  }
}
