/**
 * Facts about the constant catalog. Each family is checked by evaluating a
 * recursive predicate over its unit list; the facts are then lifted to
 * universally quantified statements about the whole table.
 */
module CatalogFacts {
  import opened Units

  /** A unit that is well formed and has a formula exactly when it is a temperature unit. */
  predicate Fits(u: Unit, temperature: bool) {
    WellFormedUnit(u) && (u.formula.Some? <==> temperature)
  }

  predicate UnitsFitFrom(us: seq<Unit>, temperature: bool, k: nat)
    decreases |us| - k
  {
    k >= |us| || (Fits(us[k], temperature) && UnitsFitFrom(us, temperature, k + 1))
  }

  predicate FamiliesFitFrom(fs: seq<Family>, k: nat)
    decreases |fs| - k
  {
    k >= |fs| || (UnitsFitFrom(fs[k].units, fs[k].name == "TEMPERATURE", 0) && FamiliesFitFrom(fs, k + 1))
  }

  lemma {:induction false} UnitsFitSound(us: seq<Unit>, temperature: bool, k: nat)
    requires UnitsFitFrom(us, temperature, k)
    ensures forall i :: k <= i < |us| ==> Fits(us[i], temperature)
    decreases |us| - k
  {
    if k < |us| {
      UnitsFitSound(us, temperature, k + 1);
    }
  }

  lemma {:induction false} FamiliesFitSound(fs: seq<Family>, k: nat)
    requires FamiliesFitFrom(fs, k)
    ensures forall i :: k <= i < |fs| ==> WellFormedFamily(fs[i])
    decreases |fs| - k
  {
    if k < |fs| {
      FamiliesFitSound(fs, k + 1);
      UnitsFitSound(fs[k].units, fs[k].name == "TEMPERATURE", 0);
    }
  }

  lemma AreaFits() ensures UnitsFitFrom(Area(), false, 0) {}
  lemma DigitalStorageTopFits() ensures UnitsFitFrom(DigitalStorage(), false, 15) {}
  lemma DigitalStorageUpperFits() ensures UnitsFitFrom(DigitalStorage(), false, 8) { DigitalStorageTopFits(); }
  lemma DigitalStorageFits() ensures UnitsFitFrom(DigitalStorage(), false, 0) { DigitalStorageUpperFits(); }
  lemma EnergyFits() ensures UnitsFitFrom(Energy(), false, 0) {}
  lemma FrequencyFits() ensures UnitsFitFrom(Frequency(), false, 0) {}
  lemma LengthFits() ensures UnitsFitFrom(Length(), false, 0) {}
  lemma MassFits() ensures UnitsFitFrom(Mass(), false, 0) {}
  lemma PlaneAngleFits() ensures UnitsFitFrom(PlaneAngle(), false, 0) {}
  lemma PressureFits() ensures UnitsFitFrom(Pressure(), false, 0) {}
  lemma TemperatureFits() ensures UnitsFitFrom(Temperature(), true, 0) {}
  lemma TimeUpperFits() ensures UnitsFitFrom(Time(), false, 6) {}
  lemma TimeFits() ensures UnitsFitFrom(Time(), false, 0) { TimeUpperFits(); }
  lemma VolumeUpperFits() ensures UnitsFitFrom(Volume(), false, 6) {}
  lemma VolumeFits() ensures UnitsFitFrom(Volume(), false, 0) { VolumeUpperFits(); }

  /**
   * Every catalog unit sets exactly one of `ratios` and `formula`; every
   * ratio list is non-empty with strictly positive ratios, uses the empty
   * variant exactly when it has one entry and has distinct variants; and
   * formulas occur exactly in the TEMPERATURE family.
   */
  lemma CatalogWellFormed()
    ensures forall k :: 0 <= k < |UNITS| ==> WellFormedFamily(UNITS[k])
  {
    CatalogFitsFrom0();
    FamiliesFitSound(UNITS, 0);
  }

  /*
   * The catalog fits from family k on, one family at a time, last family first.
   */

  lemma CatalogFitsFrom11() ensures FamiliesFitFrom(UNITS, 11) {}
  lemma CatalogFitsFrom10() ensures FamiliesFitFrom(UNITS, 10) { CatalogFitsFrom11(); VolumeFits(); }
  lemma CatalogFitsFrom9() ensures FamiliesFitFrom(UNITS, 9) { CatalogFitsFrom10(); TimeFits(); }
  lemma CatalogFitsFrom8() ensures FamiliesFitFrom(UNITS, 8) { CatalogFitsFrom9(); TemperatureFits(); }
  lemma CatalogFitsFrom7() ensures FamiliesFitFrom(UNITS, 7) { CatalogFitsFrom8(); PressureFits(); }
  lemma CatalogFitsFrom6() ensures FamiliesFitFrom(UNITS, 6) { CatalogFitsFrom7(); PlaneAngleFits(); }
  lemma CatalogFitsFrom5() ensures FamiliesFitFrom(UNITS, 5) { CatalogFitsFrom6(); MassFits(); }
  lemma CatalogFitsFrom4() ensures FamiliesFitFrom(UNITS, 4) { CatalogFitsFrom5(); LengthFits(); }
  lemma CatalogFitsFrom3() ensures FamiliesFitFrom(UNITS, 3) { CatalogFitsFrom4(); FrequencyFits(); }
  lemma CatalogFitsFrom2() ensures FamiliesFitFrom(UNITS, 2) { CatalogFitsFrom3(); EnergyFits(); }
  lemma CatalogFitsFrom1() ensures FamiliesFitFrom(UNITS, 1) { CatalogFitsFrom2(); DigitalStorageFits(); }
  lemma CatalogFitsFrom0() ensures FamiliesFitFrom(UNITS, 0) { CatalogFitsFrom1(); AreaFits(); }

  /** The temperature units form the TEMPERATURE family, and each carries the formula that converts into it. */
  lemma TemperatureFormulas()
    ensures UNITS[8] == Family("TEMPERATURE", Temperature())
    ensures forall u <- UNITS[8].units :: u.formula.Some? && Target(u.formula.value) == u.abbr
  {
    TemperatureUnitFormulas();
  }

  /** Each of Kelvin, Celsius and Fahrenheit carries the formula that converts into it. */
  lemma TemperatureUnitFormulas()
    ensures forall u <- Temperature() :: u.formula.Some? && Target(u.formula.value) == u.abbr
  {
  }
}
