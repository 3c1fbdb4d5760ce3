/**
 * The value/unit tokenizer: a scanner for the single pattern
 * `(-?[\d/.]+)(.*)` (leftmost match, greedy), the reading of the captured
 * number as a decimal or one `a/b` fraction, and `parse_value_unit`.
 */
module Tokenizer {
  import opened Common
  import opened Text
  import opened Literals
  import opened Numbers

  /** The character class `[\d/.]`. */
  predicate InClass(c: char) { IsDigit(c) || c == '/' || c == '.' }

  /** A match of `-?[\d/.]+` can begin at `i`. */
  predicate CanStart(s: string, i: int) {
    0 <= i < |s| && (InClass(s[i]) || (s[i] == '-' && i + 1 < |s| && InClass(s[i + 1])))
  }

  function FirstStart(s: string, from: nat): (r: Option<nat>)
    ensures r.Some? ==> from <= r.value && CanStart(s, r.value)
    ensures r.Some? ==> forall j :: from <= j < r.value ==> !CanStart(s, j)
    ensures r.None? ==> forall j :: from <= j ==> !CanStart(s, j)
    decreases |s| - from
  {
    if from >= |s| then None
    else if CanStart(s, from) then Some(from)
    else FirstStart(s, from + 1)
  }

  /** The end of the longest run of class characters starting at `i`. */
  function RunEnd(s: string, i: nat): (e: nat)
    requires i <= |s|
    ensures i <= e <= |s|
    ensures forall k :: i <= k < e ==> InClass(s[k])
    ensures e == |s| || !InClass(s[e])
    decreases |s| - i
  {
    if i < |s| && InClass(s[i]) then RunEnd(s, i + 1) else i
  }

  /** The first line break at or after `i`, or the end: where `.*` stops. */
  function LineEnd(s: string, i: nat): (e: nat)
    requires i <= |s|
    ensures i <= e <= |s|
    ensures forall k :: i <= k < e ==> s[k] != '\n'
    ensures e == |s| || s[e] == '\n'
    decreases |s| - i
  {
    if i < |s| && s[i] != '\n' then LineEnd(s, i + 1) else i
  }

  /** Positions of a match: group 1 is `s[start..end]`, group 2 is `s[end..stop]`. */
  datatype Capture = Capture(start: nat, end: nat, stop: nat)

  /** The leftmost-first match of `(-?[\d/.]+)(.*)` in `s`, if any. */
  function Scan(s: string): (r: Option<Capture>)
    ensures r.None? <==> forall i :: 0 <= i < |s| ==> !InClass(s[i])
    ensures r.Some? ==> var c := r.value;
      && c.start < c.end <= c.stop <= |s|
      && CanStart(s, c.start)
      && (forall j :: 0 <= j < c.start ==> !CanStart(s, j))
      && (s[c.start] == '-' || InClass(s[c.start]))
      && (forall k :: c.start < k < c.end ==> InClass(s[k]))
      && (c.end == |s| || !InClass(s[c.end]))
      && (forall k :: c.end <= k < c.stop ==> s[k] != '\n')
      && (c.stop == |s| || s[c.stop] == '\n')
  {
    match FirstStart(s, 0)
    case None =>
      forall i | 0 <= i < |s| ensures !InClass(s[i]) {
        assert !CanStart(s, i);
      }
      None
    case Some(st) =>
      var e := RunEnd(s, if InClass(s[st]) then st else st + 1);
      Some(Capture(st, e, LineEnd(s, e)))
  }

  /** How the captured number text reads: a value, or why it does not. */
  datatype ValueParse =
    | Parsed(n: Num)
    | BadNumber(text: string)
    | BadDividend(text: string)
    | BadDivisor(text: string)
    | TooManySlashes

  /**
   * A number text with a '/' is split on '/'; exactly two pieces give
   * dividend ÷ divisor, the dividend being checked first. Text without
   * '/' is read as a decimal.
   */
  function ParseValueText(lv: string): (r: ValueParse)
    // without a slash: the decimal, or the whole text as the bad number
    ensures !Contains(lv, "/") ==>
      (r.Parsed? <==> ParseDecimal(lv).Some?) && (r.BadNumber? <==> ParseDecimal(lv).None?)
    ensures !Contains(lv, "/") && r.Parsed? ==> r.n == Finite(ParseDecimal(lv).value)
    ensures r.BadNumber? ==> !Contains(lv, "/") && r.text == lv
    // with a slash: anything but two pieces is refused outright
    ensures r.TooManySlashes? <==> Contains(lv, "/") && |TrimAll(Split(lv, "/"))| != 2
    // the dividend is checked before the divisor
    ensures r.BadDividend? <==>
      Contains(lv, "/") && |TrimAll(Split(lv, "/"))| == 2 && ParseDecimal(TrimAll(Split(lv, "/"))[0]).None?
    ensures r.BadDividend? ==> r.text == TrimAll(Split(lv, "/"))[0]
    ensures r.BadDivisor? <==>
      && Contains(lv, "/") && |TrimAll(Split(lv, "/"))| == 2
      && ParseDecimal(TrimAll(Split(lv, "/"))[0]).Some? && ParseDecimal(TrimAll(Split(lv, "/"))[1]).None?
    ensures r.BadDivisor? ==> r.text == TrimAll(Split(lv, "/"))[1]
    ensures Contains(lv, "/") && r.Parsed? ==>
      && |TrimAll(Split(lv, "/"))| == 2
      && ParseDecimal(TrimAll(Split(lv, "/"))[0]).Some? && ParseDecimal(TrimAll(Split(lv, "/"))[1]).Some?
      && r.n == Quotient(ParseDecimal(TrimAll(Split(lv, "/"))[0]).value, ParseDecimal(TrimAll(Split(lv, "/"))[1]).value)
  {
    if Contains(lv, "/") then
      var dd := TrimAll(Split(lv, "/"));
      if |dd| == 2 then
        match ParseDecimal(dd[0])
        case None => BadDividend(dd[0])
        case Some(dividend) =>
          match ParseDecimal(dd[1])
          case None => BadDivisor(dd[1])
          case Some(divisor) => Parsed(Quotient(dividend, divisor))
      else TooManySlashes
    else
      match ParseDecimal(lv)
      case None => BadNumber(lv)
      case Some(x) => Parsed(Finite(x))
  }

  /** Text `a/b` with one slash splits into `a` and `b`. */
  lemma FractionSplit(a: string, b: string)
    requires Free(a, '/') && Free(b, '/')
    ensures Split(a + "/" + b, "/") == [a, b]
  {
    assert a + "/" + b == a + ['/'] + b;
    SplitAtChar(a, b, '/');
  }

  /** Pieces without blanks are left as they are by trimming. */
  lemma TrimPair(a: string, b: string)
    requires (forall i :: 0 <= i < |a| ==> !IsWhitespace(a[i])) && (forall i :: 0 <= i < |b| ==> !IsWhitespace(b[i]))
    ensures TrimAll([a, b]) == [a, b]
  {
  }

  /** Text `a/b` with one slash and no blanks around it splits into `a` and `b`. */
  lemma FractionPieces(a: string, b: string)
    requires Free(a, '/') && Free(b, '/')
    requires (forall i :: 0 <= i < |a| ==> !IsWhitespace(a[i])) && (forall i :: 0 <= i < |b| ==> !IsWhitespace(b[i]))
    ensures Contains(a + "/" + b, "/")
    ensures TrimAll(Split(a + "/" + b, "/")) == [a, b]
  {
    FractionSplit(a, b);
    TrimPair(a, b);
  }

  /** A value written `a/b`, with one slash, is the quotient of its two sides. */
  lemma FractionValue(a: string, b: string)
    requires Free(a, '/') && Free(b, '/')
    requires (forall i :: 0 <= i < |a| ==> !IsWhitespace(a[i])) && (forall i :: 0 <= i < |b| ==> !IsWhitespace(b[i]))
    requires ParseDecimal(a).Some? && ParseDecimal(b).Some?
    ensures ParseValueText(a + "/" + b) == Parsed(Quotient(ParseDecimal(a).value, ParseDecimal(b).value))
  {
    FractionPieces(a, b);
  }

  /** A value with two or more slashes is rejected. */
  lemma TwoSlashesRejected(lv: string, i: nat, j: nat)
    requires i < j < |lv| && lv[i] == '/' && lv[j] == '/'
    ensures ParseValueText(lv) == TooManySlashes
  {
    assert lv[i..i + 1] == "/";
    assert OccursAt(lv, "/", i);
    assert Contains(lv, "/");
    var k := IndexOf(lv, "/", 0).value;
    assert k <= i;
    var rest := lv[k + 1..];
    assert rest[j - k - 1..j - k] == "/";
    assert OccursAt(rest, "/", j - k - 1);
    assert Contains(rest, "/");
    assert |Split(rest, "/")| >= 2;
    assert Split(lv, "/") == [lv[..k]] + Split(rest, "/");
  }

  /** A value and the unit text that follows it. */
  datatype ValueUnit = ValueUnit(value: Num, unit: string)

  /**
   * `parse_value_unit`: the number captured by the leftmost match, and the
   * trimmed rest of its line as the unit; `None` when there is no match or
   * the number does not read.
   */
  function ParseValueUnit(s: string): (r: Option<ValueUnit>)
    ensures (forall i :: 0 <= i < |s| ==> !InClass(s[i])) ==> r.None?
    ensures r.Some? <==> Scan(s).Some? && ParseValueText(Trim(s[Scan(s).value.start..Scan(s).value.end])).Parsed?
    ensures r.Some? ==> (
      && Scan(s).Some?
      && ParseValueText(Trim(s[Scan(s).value.start..Scan(s).value.end])) == Parsed(r.value.value)
      && r.value.unit == Trim(s[Scan(s).value.end..Scan(s).value.stop]))
  {
    match Scan(s)
    case None => None
    case Some(c) =>
      match ParseValueText(Trim(s[c.start..c.end]))
      case Parsed(n) => Some(ValueUnit(n, Trim(s[c.end..c.stop])))
      case _ => None
  }

  /** A number literal: an optional '-' and then class characters only. */
  predicate NumberLiteral(lit: string) {
    && |lit| >= 1
    && (forall k :: 1 <= k < |lit| ==> InClass(lit[k]))
    && (InClass(lit[0]) || (lit[0] == '-' && |lit| >= 2))
  }

  /** Unit text that cannot extend the number and stays on one line. */
  predicate UnitTail(u: string) {
    (u == [] || !InClass(u[0])) && forall k :: 0 <= k < |u| ==> u[k] != '\n'
  }

  /** A leading number literal is captured whole, and the rest of the line after it. */
  lemma ScanLeading(lit: string, u: string)
    requires NumberLiteral(lit) && UnitTail(u)
    ensures Scan(lit + u) == Some(Capture(0, |lit|, |lit + u|))
  {
    var s := lit + u;
    assert CanStart(s, 0);
    assert forall k :: 0 <= k < |lit| ==> s[k] == lit[k];
    assert forall k :: |lit| <= k < |s| ==> s[k] == u[k - |lit|];
    assert forall k :: 1 <= k < |lit| ==> InClass(s[k]);
    assert |lit| == |s| || !InClass(s[|lit|]);
    assert forall k :: |lit| <= k < |s| ==> s[k] != '\n';
  }

  /** With a leading literal, the tokenizer reads the literal and takes the trimmed rest as the unit. */
  lemma ReadLeading(lit: string, u: string)
    requires NumberLiteral(lit) && UnitTail(u)
    ensures ParseValueUnit(lit + u)
         == match ParseValueText(lit)
            case Parsed(n) => Some(ValueUnit(n, Trim(u)))
            case _ => None
  {
    ScanLeading(lit, u);
    var s := lit + u;
    assert s[0..|lit|] == lit;
    assert s[|lit|..|s|] == u;
    assert forall i :: 0 <= i < |lit| ==> !IsWhitespace(lit[i]);
  }

  /** A rendered integer reads back as itself. */
  lemma IntegerText(n: int)
    ensures NumberLiteral(IntToString(n))
    ensures ParseValueText(IntToString(n)) == Parsed(Finite(n as real))
  {
    var lit := IntToString(n);
    IntegerLiteral(n);
    FreeNotContains(lit, '/');
    if n < 0 {
      DecimalRoundTrip(-n);
    } else {
      DecimalRoundTrip(n);
    }
    assert ParseDecimal(lit) == Some(n as real);
  }

  /** A rendered integer is a number literal without a slash. */
  lemma IntegerLiteral(n: int)
    ensures NumberLiteral(IntToString(n)) && Free(IntToString(n), '/')
  {
    IntToStringChars(n);
    if n < 0 {
      assert |IntToString(n)| >= 2;
    }
  }

  /** Reading back a rendered integer followed by unit text gives the integer and the trimmed unit. */
  lemma IntegerThenUnit(n: int, u: string)
    requires UnitTail(u)
    ensures ParseValueUnit(IntToString(n) + u) == Some(ValueUnit(Finite(n as real), Trim(u)))
  {
    IntegerText(n);
    ReadLeading(IntToString(n), u);
  }

  /** Two digit strings around a slash form a number literal. */
  lemma FractionLiteral(da: string, db: string)
    requires |da| >= 1 && AllDigits(da) && AllDigits(db)
    ensures NumberLiteral(da + "/" + db)
  {
    var lit := da + "/" + db;
    forall k | 0 <= k < |lit| ensures InClass(lit[k]) {
      if k < |da| {
        assert lit[k] == da[k];
      } else if k > |da| {
        assert lit[k] == db[k - |da| - 1];
      }
    }
  }

  /** A rendered fraction `a/b` reads back as a ÷ b. */
  lemma FractionText(a: nat, b: nat)
    ensures NumberLiteral(NatToDigits(a) + "/" + NatToDigits(b))
    ensures ParseValueText(NatToDigits(a) + "/" + NatToDigits(b)) == Parsed(Quotient(a as real, b as real))
  {
    var da, db := NatToDigits(a), NatToDigits(b);
    FractionLiteral(da, db);
    DecimalRoundTrip(a);
    DecimalRoundTrip(b);
    DigitsPlain(da);
    DigitsPlain(db);
    FractionValue(da, db);
  }

  /** Digits are neither a slash nor whitespace. */
  lemma DigitsPlain(ds: string)
    requires AllDigits(ds)
    ensures Free(ds, '/')
    ensures forall k :: 0 <= k < |ds| ==> !IsWhitespace(ds[k])
  {
  }

  /** Reading back a rendered fraction followed by unit text gives a ÷ b and the trimmed unit. */
  lemma FractionThenUnit(a: nat, b: nat, u: string)
    requires UnitTail(u)
    ensures ParseValueUnit(NatToDigits(a) + "/" + NatToDigits(b) + u)
         == Some(ValueUnit(Quotient(a as real, b as real), Trim(u)))
  {
    FractionText(a, b);
    ReadLeading(NatToDigits(a) + "/" + NatToDigits(b), u);
  }

  /** Digits around one decimal point, with or without a leading '-', form a number literal without a slash. */
  lemma PointLiteral(ws: string, fs: string)
    requires AllDigits(ws) && AllDigits(fs) && |ws| + |fs| >= 1
    ensures NumberLiteral(ws + "." + fs) && Free(ws + "." + fs, '/')
    ensures NumberLiteral("-" + ws + "." + fs) && Free("-" + ws + "." + fs, '/')
  {
    var lit := ws + "." + fs;
    forall k | 0 <= k < |lit| ensures InClass(lit[k]) {
      if k < |ws| {
        assert lit[k] == ws[k];
      } else if k > |ws| {
        assert lit[k] == fs[k - |ws| - 1];
      }
    }
    var neg := "-" + lit;
    assert "-" + ws + "." + fs == neg;
    assert forall k :: 1 <= k < |neg| ==> neg[k] == lit[k - 1];
  }

  /** Digits with a decimal point, signed or not, read as the whole part plus the fraction. */
  lemma PointText(ws: string, fs: string)
    requires AllDigits(ws) && AllDigits(fs) && |ws| + |fs| >= 1
    ensures ParseValueText(ws + "." + fs) == Parsed(Finite(DigitsValue(ws) as real + DecimalFraction(fs)))
    ensures ParseValueText("-" + ws + "." + fs) == Parsed(Finite(-(DigitsValue(ws) as real + DecimalFraction(fs))))
  {
    PointLiteral(ws, fs);
    PointValue(ws, fs);
    FreeNotContains(ws + "." + fs, '/');
    FreeNotContains("-" + ws + "." + fs, '/');
  }

  /**
   * Reading back digits with a decimal point followed by unit text gives
   * the whole part plus the fraction, and the trimmed unit.
   */
  lemma PointThenUnit(ws: string, fs: string, u: string)
    requires AllDigits(ws) && AllDigits(fs) && |ws| + |fs| >= 1 && UnitTail(u)
    ensures ParseValueUnit(ws + "." + fs + u)
         == Some(ValueUnit(Finite(DigitsValue(ws) as real + DecimalFraction(fs)), Trim(u)))
  {
    PointLiteral(ws, fs);
    PointText(ws, fs);
    ReadLeading(ws + "." + fs, u);
  }

  /** The same with a leading '-': the value is negated. */
  lemma NegativePointThenUnit(ws: string, fs: string, u: string)
    requires AllDigits(ws) && AllDigits(fs) && |ws| + |fs| >= 1 && UnitTail(u)
    ensures ParseValueUnit("-" + ws + "." + fs + u)
         == Some(ValueUnit(Finite(-(DigitsValue(ws) as real + DecimalFraction(fs))), Trim(u)))
  {
    PointLiteral(ws, fs);
    PointText(ws, fs);
    ReadLeading("-" + ws + "." + fs, u);
  }

  /** Inputs without a digit, '/' or '.' give nothing. */
  lemma NoNumberExamples()
    ensures ParseValueUnit("abc") == None
    ensures ParseValueUnit("") == None
  {
    assert forall i :: 0 <= i < |"abc"| ==> !InClass("abc"[i]);
  }
}
