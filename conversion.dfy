/**
 * The `result` closure of `main`: the lines printed for one pairing of a
 * source unit and a target unit found in the same family. A formula target
 * yields one line or an unknown-unit line; ratio units yield one line per
 * (source variant, target variant) pair.
 */
module Conversion {
  import opened Common
  import opened Numbers
  import opened Units
  import opened Format

  /** The lines the converter prints, as values; rendering of numbers is left abstract. */
  datatype Line =
    | Version
    | SupportedUnits
    | Usage
    | NotValidNumber(text: string)
    | NotValidDividend(text: string)
    | NotValidDivisor(text: string)
    | InvalidPrecision(text: string)
    | Converted(family: string, value: Num, source: string, sourceSuffix: string,
                result: Num, target: string, targetSuffix: string)
    | UnknownUnit(text: string)
    | TypeMismatch

  /** The suffix printed after a unit for a ratio variant: ` (name)`, or nothing for the empty name. */
  function Suffix(name: string): (r: string)
    ensures r == [] <==> name == []
    ensures name != [] ==> |r| == |name| + 3 && r[2..|r| - 1] == name
  {
    if name != "" then " (" + name + ")" else ""
  }

  /** Distinct labels give distinct suffixes, so the printed variants stay distinguishable. */
  lemma SuffixInjective(a: string, b: string)
    requires Suffix(a) == Suffix(b)
    ensures a == b
  {
    if a != [] {
      assert Suffix(a)[2..|Suffix(a)| - 1] == Suffix(b)[2..|Suffix(b)| - 1];
    }
  }

  /**
   * A formula applied to a 64-bit value: a finite value goes through the
   * affine map; an infinity or NaN passes through it unchanged, every
   * formula being increasing.
   */
  function ApplyNum(f: Formula, u: Unit, n: Num): (r: Result<Num, string>)
    ensures r.Err? <==> u.abbr !in Sources(f)
    ensures r.Err? ==> r.error == u.abbr
    ensures r.Ok? && n.Finite? ==> r.value == Finite(Apply(f, u, n.r).value)
    ensures r.Ok? && !n.Finite? ==> r.value == n
  {
    match n
    case Finite(x) =>
      (match Apply(f, u, x)
       case Ok(v) => Ok(Finite(v))
       case Err(e) => Err(e))
    case _ => if u.abbr in Sources(f) then Ok(n) else Err(u.abbr)
  }

  /** `sur.1 / tur.1 * sv`: the value in the target variant. */
  function PairValue(sr: Ratio, tr: Ratio, sv: Num): Num {
    Mul(Quotient(sr.value, tr.value), sv)
  }

  /** With positive ratios the value is scaled by the ratio of the ratios. */
  lemma PairValueScales(sr: Ratio, tr: Ratio, sv: Num)
    requires sr.value > 0.0 && tr.value > 0.0
    ensures PairValue(sr, tr, sv) == Scale(sr.value / tr.value, sv)
    ensures sv.Finite? ==> PairValue(sr, tr, sv) == Finite(sr.value / tr.value * sv.r)
  {
  }

  /** Converting there and back with the same pair of variants gives the value back, before rounding. */
  lemma PairValueRoundTrip(sr: Ratio, tr: Ratio, sv: Num)
    requires sr.value > 0.0 && tr.value > 0.0
    ensures PairValue(tr, sr, PairValue(sr, tr, sv)) == sv
  {
    PairValueScales(sr, tr, sv);
    PairValueScales(tr, sr, PairValue(sr, tr, sv));
    assert tr.value / sr.value == 1.0 / (sr.value / tr.value);
    ScaleInverse(sr.value / tr.value, sv);
  }

  /** The line printed for one (source variant, target variant) pair. */
  function PairLine(family: string, sv: Num, s: Unit, sr: Ratio, t: Unit, tr: Ratio, precision: Option<int>): Line {
    Converted(family, sv, s.abbr, Suffix(sr.variant), FormatLocal(PairValue(sr, tr, sv), precision), t.abbr, Suffix(tr.variant))
  }

  /** The lines for one source variant: one per target variant, in order. */
  function Row(family: string, sv: Num, s: Unit, sr: Ratio, t: Unit, trs: seq<Ratio>, precision: Option<int>): (r: seq<Line>)
    ensures |r| == |trs|
    ensures forall j :: 0 <= j < |trs| ==> r[j] == PairLine(family, sv, s, sr, t, trs[j], precision)
  {
    seq(|trs|, j requires 0 <= j < |trs| => PairLine(family, sv, s, sr, t, trs[j], precision))
  }

  /** The blocks one after the other. */
  function Flatten<T>(blocks: seq<seq<T>>): (r: seq<T>)
  {
    if blocks == [] then [] else Flatten(blocks[..|blocks| - 1]) + blocks[|blocks| - 1]
  }

  /** Flattening one block more appends that block. */
  lemma FlattenSnoc<T>(blocks: seq<seq<T>>, i: nat)
    requires i < |blocks|
    ensures Flatten(blocks[..i + 1]) == Flatten(blocks[..i]) + blocks[i]
  {
    assert blocks[..i + 1][..i] == blocks[..i];
  }

  /** The position of the first element of block `i` when every block has `width` elements, counted without multiplying. */
  function Offset(i: nat, width: nat): nat {
    if i == 0 then 0 else Offset(i - 1, width) + width
  }

  /** The offset of block `i` is `i * width`. */
  lemma {:induction false} OffsetIsProduct(i: nat, width: nat)
    ensures Offset(i, width) == i * width
  {
    if i > 0 {
      OffsetIsProduct(i - 1, width);
      assert (i - 1) * width + width == i * width;
    }
  }

  /** Blocks of `width` elements each flatten to `|blocks| * width` elements. */
  lemma {:induction false} FlattenCount<T>(blocks: seq<seq<T>>, width: nat)
    requires forall k :: 0 <= k < |blocks| ==> |blocks[k]| == width
    ensures |Flatten(blocks)| == Offset(|blocks|, width)
    decreases |blocks|
  {
    if blocks != [] {
      FlattenCount(blocks[..|blocks| - 1], width);
    }
  }

  /** In blocks of equal width, element `j` of block `i` sits at the offset of block `i` plus `j`. */
  lemma {:induction false} FlattenAt<T>(blocks: seq<seq<T>>, width: nat, i: nat, j: nat)
    requires forall k :: 0 <= k < |blocks| ==> |blocks[k]| == width
    requires i < |blocks| && j < width
    ensures Offset(i, width) + j < |Flatten(blocks)|
    ensures Flatten(blocks)[Offset(i, width) + j] == blocks[i][j]
    decreases |blocks|
  {
    var init := blocks[..|blocks| - 1];
    var last := blocks[|blocks| - 1];
    assert Flatten(blocks) == Flatten(init) + last;
    FlattenCount(init, width);
    if i < |blocks| - 1 {
      assert init[i] == blocks[i];
      FlattenAt(init, width, i, j);
    } else {
      assert (Flatten(init) + last)[|Flatten(init)| + j] == last[j];
    }
  }

  /** One row per source variant. */
  function Grid(family: string, sv: Num, s: Unit, srs: seq<Ratio>, t: Unit, trs: seq<Ratio>, precision: Option<int>): (r: seq<seq<Line>>)
    ensures |r| == |srs|
    ensures forall i :: 0 <= i < |srs| ==> r[i] == Row(family, sv, s, srs[i], t, trs, precision)
  {
    seq(|srs|, i requires 0 <= i < |srs| => Row(family, sv, s, srs[i], t, trs, precision))
  }

  /**
   * What the closure prints for a source unit and a target unit: with a
   * formula target, the formula applied to the source (an unknown-unit line
   * when it has no case for the source); with two ratio units, every pair
   * of variants; otherwise nothing.
   */
  function ResultLines(family: string, sv: Num, s: Unit, t: Unit, precision: Option<int>): seq<Line> {
    if t.formula.Some? then
      match ApplyNum(t.formula.value, s, sv)
      case Ok(tv) => [Converted(family, sv, s.abbr, "", FormatLocal(tv, precision), t.abbr, "")]
      case Err(u) => [UnknownUnit(u)]
    else if s.ratios.Some? && t.ratios.Some? then
      Flatten(Grid(family, sv, s, s.ratios.value, t, t.ratios.value, precision))
    else []
  }

  /** The inner loop of the closure: one line per target variant. */
  method EmitRow(family: string, sv: Num, s: Unit, sr: Ratio, t: Unit, trs: seq<Ratio>, precision: Option<int>)
    returns (row: seq<Line>)
    ensures row == Row(family, sv, s, sr, t, trs, precision)
  {
    row := [];
    for j := 0 to |trs|
      invariant |row| == j
      invariant forall k :: 0 <= k < j ==> row[k] == PairLine(family, sv, s, sr, t, trs[k], precision)
    {
      var tv := PairValue(sr, trs[j], sv);
      row := row + [Converted(family, sv, s.abbr, Suffix(sr.variant), FormatLocal(tv, precision), t.abbr, Suffix(trs[j].variant))];
    }
  }

  /** The `result` closure: the formula branch, or the two nested loops over the variants. */
  method EmitResult(family: string, sv: Num, s: Unit, t: Unit, precision: Option<int>) returns (lines: seq<Line>)
    ensures lines == ResultLines(family, sv, s, t, precision)
  {
    lines := [];
    if t.formula.Some? {
      var r := ApplyNum(t.formula.value, s, sv);
      match r
      case Ok(tv) =>
        lines := [Converted(family, sv, s.abbr, "", FormatLocal(tv, precision), t.abbr, "")];
      case Err(u) =>
        lines := [UnknownUnit(u)];
    } else if s.ratios.Some? {
      var srs := s.ratios.value;
      ghost var grid := Grid(family, sv, s, srs, t, if t.ratios.Some? then t.ratios.value else [], precision);
      for i := 0 to |srs|
        invariant t.ratios.Some? ==> lines == Flatten(grid[..i])
        invariant t.ratios.None? ==> lines == []
      {
        if t.ratios.Some? {
          var row := EmitRow(family, sv, s, srs[i], t, t.ratios.value, precision);
          FlattenSnoc(grid, i);
          lines := lines + row;
        }
      }
      assert grid[..|srs|] == grid;
    }
  }

  /**
   * For two ratio units the closure prints exactly |source variants| ×
   * |target variants| lines, source variant in the outer loop, each carrying
   * the family, the scaled value rounded at the requested precision, and the
   * suffixes of its two variants, non-empty exactly for labelled variants.
   */
  lemma RatioLines(family: string, sv: Num, s: Unit, t: Unit, precision: Option<int>, i: nat, j: nat)
    requires t.formula.None? && s.ratios.Some? && t.ratios.Some?
    requires i < |s.ratios.value| && j < |t.ratios.value|
    requires s.ratios.value[i].value > 0.0 && t.ratios.value[j].value > 0.0
    ensures |ResultLines(family, sv, s, t, precision)| == |s.ratios.value| * |t.ratios.value|
    ensures i * |t.ratios.value| + j < |ResultLines(family, sv, s, t, precision)|
    ensures var line := ResultLines(family, sv, s, t, precision)[i * |t.ratios.value| + j];
      var sr, tr := s.ratios.value[i], t.ratios.value[j];
      && line.Converted? && line.family == family
      && line.value == sv && line.source == s.abbr && line.target == t.abbr
      && line.result == FormatLocal(Scale(sr.value / tr.value, sv), precision)
      && line.sourceSuffix == Suffix(sr.variant) && line.targetSuffix == Suffix(tr.variant)
      && (line.sourceSuffix == "" <==> sr.variant == "")
      && (line.targetSuffix == "" <==> tr.variant == "")
  {
    var srs, trs := s.ratios.value, t.ratios.value;
    var grid := Grid(family, sv, s, srs, t, trs, precision);
    FlattenCount(grid, |trs|);
    FlattenAt(grid, |trs|, i, j);
    OffsetIsProduct(|srs|, |trs|);
    OffsetIsProduct(i, |trs|);
    PairValueScales(srs[i], trs[j], sv);
  }

  /**
   * A formula target prints one converted line when its formula handles the
   * source unit, and otherwise one unknown-unit line naming the source's
   * abbreviation.
   */
  lemma FormulaLines(family: string, sv: Num, s: Unit, t: Unit, precision: Option<int>)
    requires t.formula.Some?
    ensures |ResultLines(family, sv, s, t, precision)| == 1
    ensures s.abbr in Sources(t.formula.value) <==> ResultLines(family, sv, s, t, precision)[0].Converted?
    ensures s.abbr !in Sources(t.formula.value) ==> ResultLines(family, sv, s, t, precision) == [UnknownUnit(s.abbr)]
  {
  }

  /** Without a formula target, a source without ratios (a temperature unit) prints nothing. */
  lemma MixedKindsLines(family: string, sv: Num, s: Unit, t: Unit, precision: Option<int>)
    requires s.ratios.None? && t.formula.None?
    ensures ResultLines(family, sv, s, t, precision) == []
  {
  }
}
