/**
 * Resolving unit text against the catalog, in the two ways the program
 * does it: `find_unit` (one text, the first family with any match) and the
 * joint source/target resolution of `main`, which runs three whole-family
 * passes and keeps every family where both sides resolve.
 */
module Resolver {
  import opened Common
  import opened Text
  import opened Units

  /*
   * Match criteria. `lc` is always text already folded with `Lower`.
   */

  /** Some alias among the first `n` of `aliases` folds to `lc`. */
  predicate HasAliasBelow(aliases: seq<string>, lc: string, n: nat)
    requires n <= |aliases|
  {
    n > 0 && (HasAliasBelow(aliases, lc, n - 1) || Lower(aliases[n - 1]) == lc)
  }

  /** An alias of `u` folds to `lc`. */
  predicate HasAlias(u: Unit, lc: string) {
    HasAliasBelow(u.aliases, lc, |u.aliases|)
  }

  lemma {:induction false} HasAliasBelowIff(aliases: seq<string>, lc: string, n: nat)
    requires n <= |aliases|
    ensures HasAliasBelow(aliases, lc, n) <==> exists b :: 0 <= b < n && Lower(aliases[b]) == lc
  {
    if n > 0 {
      HasAliasBelowIff(aliases, lc, n - 1);
    }
  }

  lemma {:induction false} HasAliasBelowGrows(aliases: seq<string>, lc: string, a: nat, b: nat)
    requires a <= b <= |aliases| && HasAliasBelow(aliases, lc, a)
    ensures HasAliasBelow(aliases, lc, b)
    decreases b
  {
    if a < b {
      HasAliasBelowGrows(aliases, lc, a, b - 1);
    }
  }

  /** What a unit is tested against in one pass. */
  datatype Criterion =
    | Exact(text: string)   // abbreviation equals the text
    | CiAbbr(lc: string)    // folded abbreviation equals the folded text
    | CiAlias(lc: string)   // some folded alias equals the folded text
    | CiAny(lc: string)     // folded abbreviation or some folded alias equals the folded text

  predicate Meets(u: Unit, c: Criterion) {
    match c
    case Exact(text) => u.abbr == text
    case CiAbbr(lc) => Lower(u.abbr) == lc
    case CiAlias(lc) => HasAlias(u, lc)
    case CiAny(lc) => Lower(u.abbr) == lc || HasAlias(u, lc)
  }

  /** The index of the first unit among `units[..n]` that meets `c`. */
  function FirstBelow(units: seq<Unit>, c: Criterion, n: nat): (r: Option<nat>)
    requires n <= |units|
    ensures r.Some? ==> r.value < n
  {
    if n == 0 then None
    else match FirstBelow(units, c, n - 1)
      case Some(i) => Some(i)
      case None => if Meets(units[n - 1], c) then Some(n - 1) else None
  }

  /** The answer is a unit meeting `c` with none before it, and there is none only if no unit meets `c`. */
  lemma {:induction false} FirstBelowSpec(units: seq<Unit>, c: Criterion, n: nat)
    requires n <= |units|
    ensures var r := FirstBelow(units, c, n);
      && (r.Some? ==> Meets(units[r.value], c) && forall j :: 0 <= j < r.value ==> !Meets(units[j], c))
      && (r.None? <==> forall j :: 0 <= j < n ==> !Meets(units[j], c))
  {
    if n > 0 {
      FirstBelowSpec(units, c, n - 1);
    }
  }

  /** The index of the first unit that meets `c`. */
  function First(units: seq<Unit>, c: Criterion): (r: Option<nat>)
    ensures r.Some? ==> r.value < |units|
  {
    FirstBelow(units, c, |units|)
  }

  /** A first match found in a prefix stays the first match of any longer prefix. */
  lemma {:induction false} FirstBelowStable(units: seq<Unit>, c: Criterion, n: nat, m: nat)
    requires n <= m <= |units| && FirstBelow(units, c, n).Some?
    ensures FirstBelow(units, c, m) == FirstBelow(units, c, n)
    decreases m
  {
    if n < m {
      FirstBelowStable(units, c, n, m - 1);
    }
  }

  function OrElse(a: Option<nat>, b: Option<nat>): Option<nat> {
    if a.Some? then a else b
  }

  /*
   * find_unit
   */

  /** The family name and unit `find_unit` returns. */
  datatype Found = Found(family: string, unit: Unit)

  /** Where a match sits: family index and unit index. */
  datatype Hit = Hit(family: nat, unit: nat)

  /**
   * Within one family: the first exact abbreviation, else the first unit
   * whose folded abbreviation or one of whose folded aliases equals the
   * folded text.
   */
  function FindInFamily(units: seq<Unit>, text: string): (r: Option<nat>)
    ensures r.Some? ==> r.value < |units|
  {
    OrElse(First(units, Exact(text)), First(units, CiAny(Lower(text))))
  }

  /** `find_unit` over `families[k..]`, as positions. */
  function LocateFrom(families: seq<Family>, text: string, k: nat): (r: Option<Hit>)
    ensures r.Some? ==>
      && k <= r.value.family < |families|
      && r.value.unit < |families[r.value.family].units|
      && FindInFamily(families[r.value.family].units, text) == Some(r.value.unit)
    ensures r.Some? ==> forall j :: k <= j < r.value.family ==> FindInFamily(families[j].units, text).None?
    ensures r.None? <==> forall j :: k <= j < |families| ==> FindInFamily(families[j].units, text).None?
    decreases |families| - k
  {
    if k >= |families| then None
    else match FindInFamily(families[k].units, text)
      case Some(i) => Some(Hit(k, i))
      case None => LocateFrom(families, text, k + 1)
  }

  /** What `find_unit` returns, by definition. */
  function FindUnitSpec(families: seq<Family>, text: string): Option<Found> {
    match LocateFrom(families, text, 0)
    case None => None
    case Some(h) => Some(Found(families[h.family].name, families[h.family].units[h.unit]))
  }

  /** The alias loop: does some alias of the unit fold to `lc`? */
  method AnyAliasFolds(aliases: seq<string>, lc: string) returns (found: bool)
    ensures found == HasAliasBelow(aliases, lc, |aliases|)
  {
    for a := 0 to |aliases|
      invariant !HasAliasBelow(aliases, lc, a)
    {
      if Lower(aliases[a]) == lc {
        HasAliasBelowGrows(aliases, lc, a + 1, |aliases|);
        return true;
      }
    }
    return false;
  }

  /** The two passes of `find_unit` over one family. */
  method SearchFamily(units: seq<Unit>, text: string) returns (r: Option<nat>)
    ensures r == FindInFamily(units, text)
  {
    for i := 0 to |units|
      invariant FirstBelow(units, Exact(text), i).None?
    {
      if units[i].abbr == text {
        FirstBelowStable(units, Exact(text), i + 1, |units|);
        return Some(i);
      }
    }
    var lc := Lower(text);
    for i := 0 to |units|
      invariant FirstBelow(units, CiAny(lc), i).None?
    {
      if Lower(units[i].abbr) == lc {
        FirstBelowStable(units, CiAny(lc), i + 1, |units|);
        return Some(i);
      }
      var hit := AnyAliasFolds(units[i].aliases, lc);
      if hit {
        FirstBelowStable(units, CiAny(lc), i + 1, |units|);
        return Some(i);
      }
    }
    return None;
  }

  /**
   * `find_unit`: families in order; in each, a pass for an exact abbreviation,
   * then a pass trying each unit's folded abbreviation and then its folded
   * aliases; the first hit is returned.
   */
  method FindUnit(families: seq<Family>, text: string) returns (r: Option<Found>)
    ensures r == FindUnitSpec(families, text)
  {
    for k := 0 to |families|
      invariant LocateFrom(families, text, 0) == LocateFrom(families, text, k)
    {
      var i := SearchFamily(families[k].units, text);
      if i.Some? {
        return Some(Found(families[k].name, families[k].units[i.value]));
      }
    }
    return None;
  }

  /** A unit answers to `text` in some way `find_unit` checks. */
  predicate Answers(u: Unit, text: string) {
    u.abbr == text || Meets(u, CiAny(Lower(text)))
  }

  lemma FindInFamilyNoneIff(units: seq<Unit>, text: string)
    ensures FindInFamily(units, text).None? <==> forall i :: 0 <= i < |units| ==> !Answers(units[i], text)
  {
    FirstBelowSpec(units, Exact(text), |units|);
    FirstBelowSpec(units, CiAny(Lower(text)), |units|);
  }

  /** `find_unit` finds nothing exactly when no unit of any family answers to the text. */
  lemma FindUnitNoneIff(families: seq<Family>, text: string)
    ensures FindUnitSpec(families, text).None? <==>
      forall k, i :: 0 <= k < |families| && 0 <= i < |families[k].units| ==> !Answers(families[k].units[i], text)
  {
    forall k | 0 <= k < |families| {
      FindInFamilyNoneIff(families[k].units, text);
    }
  }

  /**
   * A found unit belongs to the family whose name is returned, answers to
   * the text, and no earlier family has a unit that answers.
   */
  lemma FindUnitSound(families: seq<Family>, text: string)
    requires FindUnitSpec(families, text).Some?
    ensures exists k, i ::
      && 0 <= k < |families| && 0 <= i < |families[k].units|
      && FindUnitSpec(families, text) == Some(Found(families[k].name, families[k].units[i]))
      && Answers(families[k].units[i], text)
      && forall j, m :: 0 <= j < k && 0 <= m < |families[j].units| ==> !Answers(families[j].units[m], text)
  {
    var h := LocateFrom(families, text, 0).value;
    forall j | 0 <= j < h.family {
      FindInFamilyNoneIff(families[j].units, text);
    }
    FirstBelowSpec(families[h.family].units, Exact(text), |families[h.family].units|);
    FirstBelowSpec(families[h.family].units, CiAny(Lower(text)), |families[h.family].units|);
    assert Answers(families[h.family].units[h.unit], text);
  }

  /**
   * Inside the family it returns from, an exact abbreviation wins over every
   * case-insensitive match: if any unit there has the text as its
   * abbreviation, the result is the first such unit.
   */
  lemma FindUnitExactFirst(families: seq<Family>, text: string, k: nat, i: nat)
    requires LocateFrom(families, text, 0).Some? && LocateFrom(families, text, 0).value.family == k
    requires i < |families[k].units| && families[k].units[i].abbr == text
    ensures var u := LocateFrom(families, text, 0).value.unit;
      families[k].units[u].abbr == text && u <= i
  {
    FirstBelowSpec(families[k].units, Exact(text), |families[k].units|);
  }

  /**
   * Without an exact abbreviation in the family, the result is the first unit
   * that answers case-insensitively, by abbreviation or alias alike.
   */
  lemma FindUnitFoldedFirst(families: seq<Family>, text: string, k: nat, i: nat)
    requires LocateFrom(families, text, 0).Some? && LocateFrom(families, text, 0).value.family == k
    requires forall m :: 0 <= m < |families[k].units| ==> families[k].units[m].abbr != text
    requires i < |families[k].units| && Meets(families[k].units[i], CiAny(Lower(text)))
    ensures LocateFrom(families, text, 0).value.unit <= i
  {
    FirstBelowSpec(families[k].units, Exact(text), |families[k].units|);
    FirstBelowSpec(families[k].units, CiAny(Lower(text)), |families[k].units|);
  }

  /*
   * The joint resolver of `main` ('u_loop).
   */

  /**
   * One side within one family: first exact abbreviation over all units,
   * else first folded abbreviation, else first unit with a folded alias.
   */
  function ResolveSide(units: seq<Unit>, text: string): (r: Option<nat>)
    ensures r.Some? ==> r.value < |units|
  {
    OrElse(OrElse(First(units, Exact(text)), First(units, CiAbbr(Lower(text)))), First(units, CiAlias(Lower(text))))
  }

  /**
   * The exact pass for both sides: each side takes the first unit whose
   * abbreviation equals its text; the pass stops once both are resolved.
   */
  method ExactPass(units: seq<Unit>, su: string, tu: string) returns (s: Option<nat>, t: Option<nat>)
    ensures s == First(units, Exact(su))
    ensures t == First(units, Exact(tu))
  {
    s, t := None, None;
    for i := 0 to |units|
      invariant s == FirstBelow(units, Exact(su), i)
      invariant t == FirstBelow(units, Exact(tu), i)
    {
      if s.None? && units[i].abbr == su {
        s := Some(i);
      }
      if t.None? && units[i].abbr == tu {
        t := Some(i);
      }
      if s.Some? && t.Some? {
        FirstBelowStable(units, Exact(su), i + 1, |units|);
        FirstBelowStable(units, Exact(tu), i + 1, |units|);
        return;
      }
    }
  }

  /**
   * The folded-abbreviation pass: a side not resolved by the exact pass takes
   * the first unit whose folded abbreviation equals its folded text; the pass
   * stops once both are resolved.
   */
  method FoldedPass(units: seq<Unit>, suLc: string, tuLc: string, s0: Option<nat>, t0: Option<nat>)
    returns (s: Option<nat>, t: Option<nat>)
    ensures s == OrElse(s0, First(units, CiAbbr(suLc)))
    ensures t == OrElse(t0, First(units, CiAbbr(tuLc)))
  {
    s, t := s0, t0;
    for i := 0 to |units|
      invariant s == OrElse(s0, FirstBelow(units, CiAbbr(suLc), i))
      invariant t == OrElse(t0, FirstBelow(units, CiAbbr(tuLc), i))
    {
      var abbrLc := Lower(units[i].abbr);
      if s.None? && abbrLc == suLc {
        s := Some(i);
      }
      if t.None? && abbrLc == tuLc {
        t := Some(i);
      }
      if s.Some? && t.Some? {
        if s0.None? {
          FirstBelowStable(units, CiAbbr(suLc), i + 1, |units|);
        }
        if t0.None? {
          FirstBelowStable(units, CiAbbr(tuLc), i + 1, |units|);
        }
        return;
      }
    }
  }

  /**
   * The alias pass: units in order and, within each, its aliases in order;
   * it stops once both sides are resolved.
   */
  method AliasPass(units: seq<Unit>, suLc: string, tuLc: string, s0: Option<nat>, t0: Option<nat>)
    returns (s: Option<nat>, t: Option<nat>)
    ensures s == OrElse(s0, First(units, CiAlias(suLc)))
    ensures t == OrElse(t0, First(units, CiAlias(tuLc)))
  {
    s, t := s0, t0;
    for i := 0 to |units|
      invariant s == OrElse(s0, FirstBelow(units, CiAlias(suLc), i))
      invariant t == OrElse(t0, FirstBelow(units, CiAlias(tuLc), i))
    {
      var aliases := units[i].aliases;
      for a := 0 to |aliases|
        invariant s == OrElse(s0, OrElse(FirstBelow(units, CiAlias(suLc), i),
          if HasAliasBelow(aliases, suLc, a) then Some(i) else None))
        invariant t == OrElse(t0, OrElse(FirstBelow(units, CiAlias(tuLc), i),
          if HasAliasBelow(aliases, tuLc, a) then Some(i) else None))
      {
        var aLc := Lower(aliases[a]);
        if s.None? && aLc == suLc {
          s := Some(i);
        }
        if t.None? && aLc == tuLc {
          t := Some(i);
        }
        if s.Some? && t.Some? {
          AliasPassDone(units, suLc, i, a + 1, s0);
          AliasPassDone(units, tuLc, i, a + 1, t0);
          return;
        }
      }
    }
  }

  /** The three passes over one family for both sides, stopping as soon as both are resolved. */
  method ResolveInFamily(units: seq<Unit>, su: string, tu: string) returns (s: Option<nat>, t: Option<nat>)
    ensures s == ResolveSide(units, su) && t == ResolveSide(units, tu)
  {
    s, t := ExactPass(units, su, tu);
    if s.Some? && t.Some? {
      return;
    }
    var suLc := Lower(su);
    var tuLc := Lower(tu);
    s, t := FoldedPass(units, suLc, tuLc, s, t);
    if s.Some? && t.Some? {
      return;
    }
    s, t := AliasPass(units, suLc, tuLc, s, t);
  }

  /** Leaving the alias pass early at unit `i`, alias `a`, keeps the side's final answer. */
  lemma AliasPassDone(units: seq<Unit>, lc: string, i: nat, a: nat, before: Option<nat>)
    requires i < |units| && a <= |units[i].aliases|
    requires OrElse(before, OrElse(FirstBelow(units, CiAlias(lc), i),
      if HasAliasBelow(units[i].aliases, lc, a) then Some(i) else None)).Some?
    ensures OrElse(before, OrElse(FirstBelow(units, CiAlias(lc), i),
        if HasAliasBelow(units[i].aliases, lc, a) then Some(i) else None))
      == OrElse(before, First(units, CiAlias(lc)))
  {
    if before.None? {
      if FirstBelow(units, CiAlias(lc), i).Some? {
        FirstBelowStable(units, CiAlias(lc), i, |units|);
      } else {
        HasAliasBelowGrows(units[i].aliases, lc, a, |units[i].aliases|);
        FirstBelowStable(units, CiAlias(lc), i + 1, |units|);
      }
    }
  }

  /** A family where both sides resolve, with the units they resolved to. */
  datatype Pairing = Pairing(family: string, source: Unit, target: Unit)

  /** How the two sides resolve within one family (unit indices). */
  datatype Sides = Sides(s: Option<nat>, t: Option<nat>)

  /** The per-family outcome of `ResolveSide` for both texts. */
  function SidesOf(families: seq<Family>, su: string, tu: string): (table: seq<Sides>)
    ensures |table| == |families|
    ensures forall j :: 0 <= j < |families| ==>
      table[j] == Sides(ResolveSide(families[j].units, su), ResolveSide(families[j].units, tu))
  {
    seq(|families|, j requires 0 <= j < |families| =>
      Sides(ResolveSide(families[j].units, su), ResolveSide(families[j].units, tu)))
  }

  /** Every resolved index is a unit of its family. */
  predicate Fits(families: seq<Family>, table: seq<Sides>) {
    && |table| == |families|
    && forall j :: 0 <= j < |table| ==>
      && (table[j].s.Some? ==> table[j].s.value < |families[j].units|)
      && (table[j].t.Some? ==> table[j].t.value < |families[j].units|)
  }

  lemma SidesOfFits(families: seq<Family>, su: string, tu: string)
    ensures Fits(families, SidesOf(families, su, tu))
  {
  }

  /** Both sides resolve in the family. */
  predicate Both(x: Sides) { x.s.Some? && x.t.Some? }

  /** The pairings of `families[..k]`, in family order. */
  function PairingsBelow(families: seq<Family>, table: seq<Sides>, k: nat): (ps: seq<Pairing>)
    requires Fits(families, table) && k <= |families|
    ensures |ps| <= k
  {
    if k == 0 then []
    else
      var f := families[k - 1];
      var rest := PairingsBelow(families, table, k - 1);
      if Both(table[k - 1])
      then rest + [Pairing(f.name, f.units[table[k - 1].s.value], f.units[table[k - 1].t.value])]
      else rest
  }

  /** Some family among the first `k` resolves the source while the target does not resolve there. */
  predicate SourceAloneBelow(table: seq<Sides>, k: nat)
    requires k <= |table|
  {
    k > 0 && (SourceAloneBelow(table, k - 1) || (table[k - 1].s.Some? && table[k - 1].t.None?))
  }

  /** Some family among the first `k` resolves the target while the source does not resolve there. */
  predicate TargetAloneBelow(table: seq<Sides>, k: nat)
    requires k <= |table|
  {
    k > 0 && (TargetAloneBelow(table, k - 1) || (table[k - 1].t.Some? && table[k - 1].s.None?))
  }

  /**
   * The labelled loop: one pairing per family where both sides resolve;
   * `sFound`/`tFound` record a side resolving in a family where the other
   * one does not.
   */
  method JointResolve(families: seq<Family>, su: string, tu: string)
    returns (results: seq<Pairing>, sFound: bool, tFound: bool)
    ensures Fits(families, SidesOf(families, su, tu))
    ensures results == PairingsBelow(families, SidesOf(families, su, tu), |families|)
    ensures sFound == SourceAloneBelow(SidesOf(families, su, tu), |families|)
    ensures tFound == TargetAloneBelow(SidesOf(families, su, tu), |families|)
  {
    ghost var table := SidesOf(families, su, tu);
    SidesOfFits(families, su, tu);
    results, sFound, tFound := [], false, false;
    for k := 0 to |families|
      invariant results == PairingsBelow(families, table, k)
      invariant sFound == SourceAloneBelow(table, k)
      invariant tFound == TargetAloneBelow(table, k)
    {
      var s, t := ResolveInFamily(families[k].units, su, tu);
      assert table[k] == Sides(s, t);
      if s.Some? && t.Some? {
        results := results + [Pairing(families[k].name, families[k].units[s.value], families[k].units[t.value])];
        continue;
      }
      sFound := sFound || s.Some?;
      tFound := tFound || t.Some?;
    }
  }

  /** Every pairing comes from a family where both sides resolve, and carries exactly the resolved units. */
  lemma {:induction false} PairingsSound(families: seq<Family>, table: seq<Sides>, k: nat, n: nat)
    requires Fits(families, table) && k <= |families| && n < |PairingsBelow(families, table, k)|
    ensures exists j ::
      && 0 <= j < k && Both(table[j])
      && PairingsBelow(families, table, k)[n]
        == Pairing(families[j].name, families[j].units[table[j].s.value], families[j].units[table[j].t.value])
  {
    if n < |PairingsBelow(families, table, k - 1)| {
      PairingsSound(families, table, k - 1, n);
    }
  }

  /** The indices of the families among the first `k` that resolve both sides. */
  function BothBelow(table: seq<Sides>, k: nat): (js: set<nat>)
    requires k <= |table|
    ensures forall j :: j in js <==> 0 <= j < k && Both(table[j])
  {
    if k == 0 then {}
    else if Both(table[k - 1]) then BothBelow(table, k - 1) + {k - 1}
    else BothBelow(table, k - 1)
  }

  /** One pairing for each family that resolves both sides. */
  lemma {:induction false} PairingsCount(families: seq<Family>, table: seq<Sides>, k: nat)
    requires Fits(families, table) && k <= |families|
    ensures |PairingsBelow(families, table, k)| == |BothBelow(table, k)|
  {
    if k > 0 {
      PairingsCount(families, table, k - 1);
      if Both(table[k - 1]) {
        assert k - 1 !in BothBelow(table, k - 1);
      }
    }
  }

  /** No pairing at all exactly when no family resolves both sides. */
  lemma PairingsEmptyIff(families: seq<Family>, table: seq<Sides>, k: nat)
    requires Fits(families, table) && k <= |families|
    ensures PairingsBelow(families, table, k) == [] <==> forall j :: 0 <= j < k ==> !Both(table[j])
  {
    PairingsCount(families, table, k);
    if BothBelow(table, k) == {} {
      assert forall j :: 0 <= j < k ==> !Both(table[j]);
    } else {
      var j :| j in BothBelow(table, k);
    }
  }

  /**
   * With no family resolving both sides, the source is flagged exactly when
   * it resolves in some family, and likewise the target.
   */
  lemma {:induction false} AloneWhenUnpaired(table: seq<Sides>, k: nat)
    requires k <= |table|
    requires forall j :: 0 <= j < k ==> !Both(table[j])
    ensures SourceAloneBelow(table, k) <==> exists j :: 0 <= j < k && table[j].s.Some?
    ensures TargetAloneBelow(table, k) <==> exists j :: 0 <= j < k && table[j].t.Some?
  {
    if k > 0 {
      AloneWhenUnpaired(table, k - 1);
      if (exists j :: 0 <= j < k && table[j].s.Some?) && table[k - 1].s.None? {
        var j :| 0 <= j < k && table[j].s.Some?;
        assert j < k - 1;
      }
      if (exists j :: 0 <= j < k && table[j].t.Some?) && table[k - 1].t.None? {
        var j :| 0 <= j < k && table[j].t.Some?;
        assert j < k - 1;
      }
    }
  }

  /**
   * The two resolvers differ. When no unit's abbreviation is the text
   * itself, unit `i` is the first to answer case-insensitively and does so
   * by an alias, and unit `j` after it is the first whose folded
   * abbreviation matches, `find_unit` takes `i` (abbreviations and aliases
   * in one pass) and the joint resolver takes `j` (abbreviations first).
   */
  lemma ResolversDiffer(units: seq<Unit>, text: string, i: nat, j: nat)
    requires i < j < |units|
    requires forall m :: 0 <= m < |units| ==> units[m].abbr != text
    requires HasAlias(units[i], Lower(text))
    requires forall m :: 0 <= m < i ==> !Meets(units[m], CiAny(Lower(text)))
    requires Lower(units[j].abbr) == Lower(text)
    requires forall m :: 0 <= m < j ==> Lower(units[m].abbr) != Lower(text)
    ensures FindInFamily(units, text) == Some(i)
    ensures ResolveSide(units, text) == Some(j)
  {
    NoExactAbbr(units, text);
    FirstAnswer(units, Lower(text), i);
    FirstFoldedAbbr(units, Lower(text), j);
  }

  /** No unit's abbreviation is the text: the exact pass finds nothing. */
  lemma NoExactAbbr(units: seq<Unit>, text: string)
    requires forall m :: 0 <= m < |units| ==> units[m].abbr != text
    ensures First(units, Exact(text)) == None
  {
    FirstBelowSpec(units, Exact(text), |units|);
  }

  /** Unit `i` answers by an alias, and no unit before it answers at all. */
  lemma FirstAnswer(units: seq<Unit>, lc: string, i: nat)
    requires i < |units| && HasAlias(units[i], lc)
    requires forall m :: 0 <= m < i ==> !Meets(units[m], CiAny(lc))
    ensures First(units, CiAny(lc)) == Some(i)
  {
    FirstBelowSpec(units, CiAny(lc), |units|);
    assert Meets(units[i], CiAny(lc));
  }

  /** Unit `j` is the first whose folded abbreviation matches. */
  lemma FirstFoldedAbbr(units: seq<Unit>, lc: string, j: nat)
    requires j < |units| && Lower(units[j].abbr) == lc
    requires forall m :: 0 <= m < j ==> Lower(units[m].abbr) != lc
    ensures First(units, CiAbbr(lc)) == Some(j)
  {
    FirstBelowSpec(units, CiAbbr(lc), |units|);
    assert Meets(units[j], CiAbbr(lc));
  }

  /** A two-unit family where the difference shows: "FOO" is an alias of the first unit and, folded, the abbreviation of the second. */
  lemma ResolversDifferExample()
    ensures var units := [Unit("One", "x", ["foo"], None, None), Unit("Two", "Foo", [], None, None)];
      FindInFamily(units, "FOO") == Some(0) && ResolveSide(units, "FOO") == Some(1)
  {
    var units := [Unit("One", "x", ["foo"], None, None), Unit("Two", "Foo", [], None, None)];
    assert Lower("FOO") == "foo";
    assert Lower("Foo") == "foo";
    assert Lower("x") != "foo";
    assert HasAlias(units[0], "foo");
    ResolversDiffer(units, "FOO", 0, 1);
  }
}
