/**
 * The body of `main` after the command line has been joined into one input
 * string: the flag dispatch, the framing of `<value><unit> to <unit>[:p]`
 * (or with `=`), the joint resolution over the catalog and the report of
 * what was found.
 */
module Cli {
  import opened Common
  import opened Text
  import opened Literals
  import opened Numbers
  import opened Units
  import opened Tokenizer
  import opened Format
  import opened Resolver
  import opened Conversion

  const VERSION_FLAGS: set<string> := {"--version", "-version", "-v", "version"}
  const HELP_FLAGS: set<string> := {"--help", "-help", "-h", "help"}
  const UNITS_FLAGS: set<string> := {"--help units", "-help units", "-hu", "help units"}

  /** A conversion request: the source value and unit text, the target unit text and the precision. */
  datatype Request = Request(value: Num, source: string, target: string, precision: Option<int>)

  /** `=` is the separator whenever the input has one; otherwise ` to `, if present. */
  function Separator(input: string): (r: Option<string>)
    ensures r.Some? ==> (r.value == "=" || r.value == " to ") && Contains(input, r.value)
    ensures Contains(input, "=") ==> r == Some("=")
    ensures r.None? <==> !Contains(input, "=") && !Contains(input, " to ")
  {
    if Contains(input, "=") then Some("=")
    else if Contains(input, " to ") then Some(" to ")
    else None
  }

  /** The left side as `main` reads it: the messages it prints and the value and unit, if any. */
  datatype LeftReading = LeftReading(messages: seq<Line>, parsed: Option<ValueUnit>)

  /**
   * The inline copy of the value scanner in `main`: the same match as
   * `parse_value_unit`, but a number that does not read is reported with a
   * message naming the offending text.
   */
  function ReadLeft(left: string): (r: LeftReading)
    ensures |r.messages| <= 1 && (r.messages != [] ==> r.parsed.None?)
    ensures r.parsed == ParseValueUnit(left)
    ensures Scan(left).None? ==> r.messages == []
    ensures Scan(left).Some? ==>
      r.messages == ReadNumberText(Trim(left[Scan(left).value.start..Scan(left).value.end])).0
  {
    match Scan(left)
    case None => LeftReading([], None)
    case Some(c) =>
      var (messages, value) := ReadNumberText(Trim(left[c.start..c.end]));
      LeftReading(messages, if value.Some? then Some(ValueUnit(value.value, Trim(left[c.end..c.stop]))) else None)
  }

  /** The captured number text read as a value, or the message for the part that does not read. */
  function ReadNumberText(lv: string): (r: (seq<Line>, Option<Num>))
    ensures |r.0| <= 1 && (r.0 != [] ==> r.1.None?)
    ensures r.1.Some? <==> ParseValueText(lv).Parsed?
    ensures ParseValueText(lv).Parsed? ==> r == ([], Some(ParseValueText(lv).n))
    ensures ParseValueText(lv).BadNumber? ==> r == ([NotValidNumber(lv)], None)
    ensures ParseValueText(lv).BadDividend? ==> r == ([NotValidDividend(TrimAll(Split(lv, "/"))[0])], None)
    ensures ParseValueText(lv).BadDivisor? ==> r == ([NotValidDivisor(TrimAll(Split(lv, "/"))[1])], None)
    ensures ParseValueText(lv).TooManySlashes? ==> r == ([], None)
  {
    var v := ParseValueText(lv);
    if v.Parsed? then ([], Some(v.n)) else (Complaint(v), None)
  }

  /** The message `main` prints for a number text that does not read. */
  function Complaint(v: ValueParse): (r: seq<Line>)
    ensures |r| <= 1
    ensures r == [] <==> v.Parsed? || v.TooManySlashes?
    ensures v.BadNumber? ==> r == [NotValidNumber(v.text)]
    ensures v.BadDividend? ==> r == [NotValidDividend(v.text)]
    ensures v.BadDivisor? ==> r == [NotValidDivisor(v.text)]
  {
    match v
    case BadNumber(t) => [NotValidNumber(t)]
    case BadDividend(t) => [NotValidDividend(t)]
    case BadDivisor(t) => [NotValidDivisor(t)]
    case _ => []
  }

  /** The right side as `main` reads it: the message it prints, the target unit text and the precision. */
  datatype RightReading = RightReading(messages: seq<Line>, target: string, precision: Option<int>)

  /**
   * The `:precision` suffix of the right side: `*` leaves the value
   * unrounded, an `i32` is the precision, anything else keeps the default
   * with a warning; the target is the trimmed text before the first ':'.
   */
  function ReadRight(right: string): (r: RightReading)
    ensures !Contains(right, ":") ==> r == RightReading([], Trim(right), Some(DEFAULT_PRECISION))
    ensures r.messages != [] ==> r.precision == Some(DEFAULT_PRECISION) && |r.messages| == 1 && r.messages[0].InvalidPrecision?
  {
    if Contains(right, ":") then ReadPieces(TrimAll(Split(right, ":")))
    else RightReading([], Trim(right), Some(DEFAULT_PRECISION))
  }

  /** The trimmed pieces around ':': the target before the first one, the precision text after it. */
  function ReadPieces(pieces: seq<string>): (r: RightReading)
    requires |pieces| >= 2
    ensures r.target == Trim(pieces[0])
    ensures r.messages != [] ==> r.precision == Some(DEFAULT_PRECISION) && |r.messages| == 1 && r.messages[0].InvalidPrecision?
    ensures pieces[1] == "*" ==> r.precision.None? && r.messages == []
    ensures pieces[1] != "*" && ParseI32(pieces[1]).Some? ==> r.precision == ParseI32(pieces[1]) && r.messages == []
    ensures pieces[1] != "*" && ParseI32(pieces[1]).None? ==>
      r.precision == Some(DEFAULT_PRECISION) && r.messages == [InvalidPrecision(pieces[1])]
  {
    var target := Trim(pieces[0]);
    if pieces[1] == "*" then RightReading([], target, None)
    else match ParseI32(pieces[1])
      case Some(n) => RightReading([], target, Some(n))
      case None => RightReading([InvalidPrecision(pieces[1])], target, Some(DEFAULT_PRECISION))
  }

  /** A right side `u:p`, with no further ':', reads as the trimmed `u` and the precision `p` says. */
  lemma ReadRightPieces(u: string, p: string)
    requires Free(u, ':') && Free(p, ':')
    ensures var r := ReadRight(u + ":" + p);
      && r.target == Trim(u)
      && (Trim(p) == "*" ==> r == RightReading([], Trim(u), None))
      && (Trim(p) != "*" && ParseI32(Trim(p)).Some? ==> r == RightReading([], Trim(u), ParseI32(Trim(p))))
      && (Trim(p) != "*" && ParseI32(Trim(p)).None? ==>
            r == RightReading([InvalidPrecision(Trim(p))], Trim(u), Some(DEFAULT_PRECISION)))
  {
    SplitAtChar(u, p, ':');
    assert u + ":" + p == u + [':'] + p;
    assert Contains(u + ":" + p, ":") by {
      assert OccursAt(u + ":" + p, ":", |u|);
    }
    TrimIdempotent(u);
  }

  /** Every 32-bit precision written after ':' is the precision used, without a warning. */
  lemma PrecisionRoundTrip(u: string, n: int)
    requires Free(u, ':') && I32_MIN <= n <= I32_MAX
    ensures ReadRight(u + ":" + IntToString(n)) == RightReading([], Trim(u), Some(n))
  {
    var p := IntToString(n);
    IntToStringChars(n);
    assert Free(p, ':');
    assert Trim(p) == p;
    assert p != "*" by {
      assert p[0] != '*';
    }
    ReadRightPieces(u, p);
    I32RoundTrip(n);
  }

  /** A precision too large for an `i32` keeps the default and is reported. */
  lemma PrecisionOverflow(u: string, ds: string)
    requires Free(u, ':') && |ds| >= 1 && AllDigits(ds) && DigitsValue(ds) > I32_MAX
    ensures ReadRight(u + ":" + ds) == RightReading([InvalidPrecision(ds)], Trim(u), Some(DEFAULT_PRECISION))
  {
    assert Free(ds, ':') && Trim(ds) == ds by {
      assert forall i :: 0 <= i < |ds| ==> IsDigit(ds[i]) && !IsWhitespace(ds[i]);
    }
    assert ds != "*" by {
      assert IsDigit(ds[0]);
    }
    I32Unsigned(ds);
    ReadRightPieces(u, ds);
  }

  /** The framing outcome: the messages printed while reading, and the request, if one was read. */
  datatype Framing = Framing(messages: seq<Line>, request: Option<Request>)

  /**
   * The framing of `main`: a separator, exactly two trimmed sides, a left
   * side that reads as a value and unit, and the right side with its
   * optional precision.
   */
  function Frame(input: string): Framing {
    match Separator(input)
    case None => Framing([], None)
    case Some(sep) =>
      var sides := TrimAll(Split(input, sep));
      if |sides| != 2 then Framing([], None)
      else
        var left := ReadLeft(sides[0]);
        match left.parsed
        case None => Framing(left.messages, None)
        case Some(vu) =>
          var right := ReadRight(sides[1]);
          Framing(right.messages, Some(Request(vu.value, vu.unit, right.target, right.precision)))
  }

  /**
   * A request comes from an input with a separator and exactly two sides;
   * its value and source unit are what `parse_value_unit` reads from the
   * left side and its target and precision what the right side says.
   */
  lemma FrameSound(input: string)
    requires Frame(input).request.Some?
    ensures Separator(input).Some?
    ensures var sides := TrimAll(Split(input, Separator(input).value));
      var req := Frame(input).request.value;
      && |sides| == 2
      && ParseValueUnit(sides[0]) == Some(ValueUnit(req.value, req.source))
      && ReadRight(sides[1]) == RightReading(Frame(input).messages, req.target, req.precision)
  {
  }

  /**
   * Conversely, a separator, exactly two trimmed sides and a left side that
   * `parse_value_unit` reads give a request with that value and unit, the
   * target and precision of the right side, and only the right side's messages.
   */
  lemma FrameComplete(input: string)
    requires Separator(input).Some?
    requires |TrimAll(Split(input, Separator(input).value))| == 2
    requires ParseValueUnit(TrimAll(Split(input, Separator(input).value))[0]).Some?
    ensures var sides := TrimAll(Split(input, Separator(input).value));
      var vu, right := ParseValueUnit(sides[0]).value, ReadRight(sides[1]);
      Frame(input) == Framing(right.messages, Some(Request(vu.value, vu.unit, right.target, right.precision)))
  {
    var sides := TrimAll(Split(input, Separator(input).value));
    assert ReadLeft(sides[0]).messages == [];
  }

  /** The left side in `main`: scan, read the number, report a number that does not read. */
  method ReadLeftSide(left: string) returns (messages: seq<Line>, sVal: Option<Num>, sUnit: Option<string>)
    ensures LeftReading(messages, if sVal.Some? && sUnit.Some? then Some(ValueUnit(sVal.value, sUnit.value)) else None) == ReadLeft(left)
    ensures sVal.Some? <==> sUnit.Some?
  {
    messages, sVal, sUnit := [], None, None;
    var capture := Scan(left);
    if capture.None? {
      return;
    }
    var c := capture.value;
    messages, sVal := ReadNumber(Trim(left[c.start..c.end]));
    if sVal.Some? {
      sUnit := Some(Trim(left[c.end..c.stop]));
    }
  }

  /** Reading the captured number text in `main`: a value, or the message for the part that does not read. */
  method ReadNumber(lv: string) returns (messages: seq<Line>, sVal: Option<Num>)
    ensures (messages, sVal) == ReadNumberText(lv)
  {
    messages, sVal := [], None;
    match ParseValueText(lv) {
      case Parsed(n) => sVal := Some(n);
      case BadNumber(t) => messages := [NotValidNumber(t)];
      case BadDividend(t) => messages := [NotValidDividend(t)];
      case BadDivisor(t) => messages := [NotValidDivisor(t)];
      case TooManySlashes =>
    }
  }

  /** The right side in `main`: the target unit text, and a precision suffix after ':' when there is one. */
  method ReadRightSide(right: string) returns (messages: seq<Line>, tUnit: string, precision: Option<int>)
    ensures RightReading(messages, tUnit, precision) == ReadRight(right)
  {
    if Contains(right, ":") {
      var pieces := TrimAll(Split(right, ":"));
      messages, tUnit, precision := ReadPrecision(pieces);
    } else {
      messages, tUnit, precision := [], Trim(right), Some(DEFAULT_PRECISION);
    }
  }

  /** The precision suffix: it starts at the default, `*` clears it, an `i32` replaces it, anything else leaves a warning. */
  method ReadPrecision(pieces: seq<string>) returns (messages: seq<Line>, tUnit: string, precision: Option<int>)
    requires |pieces| >= 2
    ensures RightReading(messages, tUnit, precision) == ReadPieces(pieces)
  {
    messages := [];
    precision := Some(DEFAULT_PRECISION);
    if pieces[1] == "*" {
      precision := None;
    } else {
      var parsed := ParseI32(pieces[1]);
      if parsed.Some? {
        precision := parsed;
      } else {
        messages := messages + [InvalidPrecision(pieces[1])];
      }
    }
    tUnit := Trim(pieces[0]);
  }

  /**
   * The framing steps of `main`, reassigning the separator, the source
   * value and unit, the target unit and the precision as it goes.
   */
  method FrameInput(input: string) returns (messages: seq<Line>, request: Option<Request>)
    ensures Framing(messages, request) == Frame(input)
  {
    messages := [];
    var sep: Option<string> := None;
    if Contains(input, "=") {
      sep := Some("=");
    } else if Contains(input, " to ") {
      sep := Some(" to ");
    }
    assert sep == Separator(input);
    if sep.None? {
      return messages, None;
    }
    var sides := TrimAll(Split(input, sep.value));
    if |sides| != 2 {
      return messages, None;
    }
    var sVal, sUnit;
    messages, sVal, sUnit := ReadLeftSide(sides[0]);
    if sVal.None? {
      return messages, None;
    }
    assert ReadLeft(sides[0]) == LeftReading([], Some(ValueUnit(sVal.value, sUnit.value)));
    var rightMessages, tUnit, precision := ReadRightSide(sides[1]);
    messages := rightMessages;
    request := Some(Request(sVal.value, sUnit.value, tUnit, precision));
  }

  /** The lines of each pairing, as one block per pairing. */
  function Blocks(results: seq<Pairing>, sv: Num, precision: Option<int>): (r: seq<seq<Line>>)
    ensures |r| == |results|
    ensures forall i :: 0 <= i < |results| ==>
      r[i] == ResultLines(results[i].family, sv, results[i].source, results[i].target, precision)
  {
    seq(|results|, i requires 0 <= i < |results| =>
      ResultLines(results[i].family, sv, results[i].source, results[i].target, precision))
  }

  /** The lines of every pairing, in the order the pairings were recorded. */
  function EmitAll(results: seq<Pairing>, sv: Num, precision: Option<int>): seq<Line> {
    Flatten(Blocks(results, sv, precision))
  }

  /** The loop over the recorded pairings, calling the `result` closure for each. */
  method EmitPairings(results: seq<Pairing>, sv: Num, precision: Option<int>) returns (lines: seq<Line>)
    ensures lines == EmitAll(results, sv, precision)
  {
    ghost var blocks := Blocks(results, sv, precision);
    lines := [];
    for i := 0 to |results|
      invariant lines == Flatten(blocks[..i])
    {
      var block := EmitResult(results[i].family, sv, results[i].source, results[i].target, precision);
      FlattenSnoc(blocks, i);
      lines := lines + block;
    }
    assert blocks[..|results|] == blocks;
  }

  /** The source resolves in some family of the catalog. */
  predicate ResolvesSomewhere(catalog: seq<Family>, text: string) {
    exists k :: 0 <= k < |catalog| && ResolveSide(catalog[k].units, text).Some?
  }

  /**
   * After resolution: the lines of every pairing when there is one;
   * otherwise a type mismatch when each side was flagged, else one
   * unknown-unit line per side that was not, source first.
   */
  function Report(catalog: seq<Family>, sv: Num, su: string, tu: string, precision: Option<int>): seq<Line> {
    var table := SidesOf(catalog, su, tu);
    var results := PairingsBelow(catalog, table, |catalog|);
    var sFound := SourceAloneBelow(table, |catalog|);
    var tFound := TargetAloneBelow(table, |catalog|);
    if results != [] then EmitAll(results, sv, precision)
    else if sFound && tFound then [TypeMismatch]
    else (if sFound then [] else [UnknownUnit(su)]) + (if tFound then [] else [UnknownUnit(tu)])
  }

  /**
   * When no family resolves both sides, the report is a type mismatch
   * exactly when each side resolves in some family, and otherwise names
   * each side that resolves nowhere, the source before the target.
   */
  lemma UnpairedReport(catalog: seq<Family>, sv: Num, su: string, tu: string, precision: Option<int>)
    requires forall k :: 0 <= k < |catalog| ==>
      ResolveSide(catalog[k].units, su).None? || ResolveSide(catalog[k].units, tu).None?
    ensures var s, t := ResolvesSomewhere(catalog, su), ResolvesSomewhere(catalog, tu);
      Report(catalog, sv, su, tu, precision) ==
        if s && t then [TypeMismatch]
        else (if s then [] else [UnknownUnit(su)]) + (if t then [] else [UnknownUnit(tu)])
  {
    var table := SidesOf(catalog, su, tu);
    SidesOfFits(catalog, su, tu);
    PairingsEmptyIff(catalog, table, |catalog|);
    AloneWhenUnpaired(table, |catalog|);
  }

  /** When some family resolves both sides, the report is the conversion lines of the pairings, and nothing else. */
  lemma {:induction false} PairedReport(catalog: seq<Family>, sv: Num, su: string, tu: string, precision: Option<int>, k: nat)
    requires k < |catalog|
    requires ResolveSide(catalog[k].units, su).Some? && ResolveSide(catalog[k].units, tu).Some?
    ensures PairingsBelow(catalog, SidesOf(catalog, su, tu), |catalog|) != []
    ensures Report(catalog, sv, su, tu, precision) == EmitAll(PairingsBelow(catalog, SidesOf(catalog, su, tu), |catalog|), sv, precision)
  {
    SidesOfFits(catalog, su, tu);
    var table := SidesOf(catalog, su, tu);
    if PairingsBelow(catalog, table, |catalog|) == [] {
      PairingsEmptyIff(catalog, table, |catalog|);
      assert false;
    }
  }

  /** Everything `main` prints for one input, as a list of lines. */
  function Output(catalog: seq<Family>, input: string): seq<Line> {
    if input in VERSION_FLAGS then [Version]
    else if input in HELP_FLAGS then [Usage]
    else if input in UNITS_FLAGS then [SupportedUnits]
    else
      var framing := Frame(input);
      match framing.request
      case None => framing.messages + [Usage]
      case Some(r) => framing.messages + Report(catalog, r.value, r.source, r.target, r.precision)
  }

  /** An input that is not a flag and has neither `=` nor ` to ` prints the usage text and nothing else. */
  lemma NoSeparatorUsage(catalog: seq<Family>, input: string)
    requires input !in VERSION_FLAGS && input !in HELP_FLAGS && input !in UNITS_FLAGS
    requires !Contains(input, "=") && !Contains(input, " to ")
    ensures Output(catalog, input) == [Usage]
  {
  }

  /**
   * `main` on the joined command line: flags first, then the framing, the
   * labelled resolution loop over the catalog, and the report. The catalog
   * is `UNITS` in the program; it is a parameter here.
   */
  method Run(catalog: seq<Family>, input: string) returns (out: seq<Line>)
    ensures out == Output(catalog, input)
  {
    if input in VERSION_FLAGS {
      return [Version];
    } else if input in HELP_FLAGS {
      return [Usage];
    } else if input in UNITS_FLAGS {
      return [SupportedUnits];
    }
    var messages, request := FrameInput(input);
    out := messages;
    if request.None? {
      out := out + [Usage];
      return;
    }
    var req := request.value;
    var lines := ResolveAndReport(catalog, req.value, req.source, req.target, req.precision);
    out := out + lines;
  }

  /** The labelled resolution loop of `main` over the catalog, then the lines it reports. */
  method ResolveAndReport(catalog: seq<Family>, sv: Num, su: string, tu: string, precision: Option<int>)
    returns (out: seq<Line>)
    ensures out == Report(catalog, sv, su, tu, precision)
  {
    out := [];
    var results, sFound, tFound := JointResolve(catalog, su, tu);
    if results != [] {
      out := EmitPairings(results, sv, precision);
    } else if sFound && tFound {
      out := [TypeMismatch];
    } else {
      if !sFound {
        out := out + [UnknownUnit(su)];
      }
      if !tFound {
        out := out + [UnknownUnit(tu)];
      }
    }
  }
}
