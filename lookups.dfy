/**
 * `find_unit` on the catalog for the texts its tests look up: a short and a
 * long alias of the square meter, and the case-sensitive pair "B" (byte)
 * and "b" (bit). Each family is searched on its own, then the answer is
 * placed in the catalog order.
 */
module Lookups {
  import opened Common
  import opened Text
  import opened Units
  import opened Resolver

  /** In AREA, the texts "m2" and "square meter" are aliases of the first unit, the square meter. */
  lemma AreaAliases(units: seq<Unit>, text: string)
    requires units == Area() && (text == "m2" || text == "square meter")
    ensures FindInFamily(units, text) == Some(0) && units[0].abbr == "m²"
  {
    var a := if text == "m2" then 0 else 2;
    assert Lower(text) == text;
    assert Lower(units[0].aliases[a]) == text;
    assert HasAliasBelow(units[0].aliases, text, a + 1);
    HasAliasBelowGrows(units[0].aliases, text, a + 1, |units[0].aliases|);
    FirstBelowSpec(units, Exact(text), |units|);
    FirstBelowSpec(units, CiAny(text), |units|);
  }

  /** A unit whose names are all longer than one letter, or the lone letter "a", does not answer to "B" or "b". */
  lemma MissesB(u: Unit, text: string)
    requires text == "B" || text == "b"
    requires |u.abbr| != 1 || u.abbr == "a"
    requires forall a :: 0 <= a < |u.aliases| ==> |u.aliases[a]| != 1
    ensures !Answers(u, text)
  {
    assert Lower(text) == "b";
    if |u.abbr| == 1 {
      assert Lower(u.abbr)[0] == 'a';
    }
    HasAliasBelowIff(u.aliases, "b", |u.aliases|);
  }

  /** No AREA unit answers to "B" or "b", in any case. */
  lemma AreaLacksB(units: seq<Unit>, text: string)
    requires units == Area() && (text == "B" || text == "b")
    ensures FindInFamily(units, text) == None
  {
    MissesB(units[0], text);
    MissesB(units[1], text);
    MissesB(units[2], text);
    MissesB(units[3], text);
    MissesB(units[4], text);
    MissesB(units[5], text);
    MissesB(units[6], text);
    MissesB(units[7], text);
    assert |units| == 8;
    FindInFamilyNoneIff(units, text);
  }

  /** In DIGITAL STORAGE the exact pass takes "B" to the byte, ahead of the bit whose abbreviation folds to the same text. */
  lemma StorageByte(units: seq<Unit>)
    requires units == DigitalStorage()
    ensures FindInFamily(units, "B") == Some(11) && units[11].name == "Byte"
  {
    assert Meets(units[11], Exact("B"));
    assert forall j :: 0 <= j < 11 ==> units[j].abbr != "B";
    FirstBelowSpec(units, Exact("B"), |units|);
  }

  /** In DIGITAL STORAGE the exact pass takes "b" to the bit. */
  lemma StorageBit(units: seq<Unit>)
    requires units == DigitalStorage()
    ensures FindInFamily(units, "b") == Some(0) && units[0].name == "Bit"
  {
    assert Meets(units[0], Exact("b"));
    FirstBelowSpec(units, Exact("b"), |units|);
  }

  /** `find_unit("m2")` and `find_unit("square meter")` give the square meter of AREA. */
  lemma FindSquareMeter(families: seq<Family>, text: string)
    requires families == UNITS && (text == "m2" || text == "square meter")
    ensures FindUnitSpec(families, text).Some?
    ensures FindUnitSpec(families, text).value.family == "AREA"
    ensures FindUnitSpec(families, text).value.unit.abbr == "m²"
  {
    assert families[0] == Family("AREA", Area());
    AreaAliases(families[0].units, text);
  }

  /** `find_unit("B")` gives the byte and `find_unit("b")` the bit, both in DIGITAL STORAGE. */
  lemma FindByteAndBit(families: seq<Family>, text: string)
    requires families == UNITS && (text == "B" || text == "b")
    ensures FindUnitSpec(families, text).Some?
    ensures FindUnitSpec(families, text).value.family == "DIGITAL STORAGE"
    ensures FindUnitSpec(families, text).value.unit.name == (if text == "B" then "Byte" else "Bit")
  {
    assert families[0] == Family("AREA", Area());
    assert families[1] == Family("DIGITAL STORAGE", DigitalStorage());
    AreaLacksB(families[0].units, text);
    if text == "B" {
      StorageByte(families[1].units);
    } else {
      StorageBit(families[1].units);
    }
  }
}
