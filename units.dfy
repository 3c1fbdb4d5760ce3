/**
 * The unit catalog: eleven families of units in declaration order. Each unit
 * carries either a list of (variant label, base units per unit) ratios or a
 * temperature formula, never both.
 */
module Units {
  import opened Common

  /** One ratio variant: a regional label ("" when there is only one) and base units per unit. */
  datatype Ratio = Ratio(variant: string, value: real)

  /** The three temperature closures, each converting from another temperature unit. */
  datatype Formula = KelvinFormula | CelsiusFormula | FahrenheitFormula

  /** A unit record; `ratios` and `formula` are independent optional fields, as in the source. */
  datatype Unit = Unit(
    name: string,
    abbr: string,
    aliases: seq<string>,
    ratios: Option<seq<Ratio>>,
    formula: Option<Formula>)

  /** A family of mutually convertible units. */
  datatype Family = Family(name: string, units: seq<Unit>)

  /**
   * The formula of a temperature unit applied to a value `v` expressed in
   * the unit `u`. A unit the formula has no case for, including the
   * formula's own unit, is rejected with its abbreviation.
   */
  function Apply(f: Formula, u: Unit, v: real): (r: Result<real, string>)
    ensures r.Err? ==> r.error == u.abbr
    ensures r.Ok? <==> u.abbr in Sources(f)
  {
    match f
    case KelvinFormula =>
      if u.abbr == "°F" then Ok((v - 32.0) * 5.0 / 9.0 + 273.15)
      else if u.abbr == "°C" then Ok(v + 273.15)
      else Err(u.abbr)
    case CelsiusFormula =>
      if u.abbr == "K" then Ok(v - 273.15)
      else if u.abbr == "°F" then Ok((v - 32.0) * 5.0 / 9.0)
      else Err(u.abbr)
    case FahrenheitFormula =>
      if u.abbr == "K" then Ok((v - 273.15) * 9.0 / 5.0 + 32.0)
      else if u.abbr == "°C" then Ok(v * 9.0 / 5.0 + 32.0)
      else Err(u.abbr)
  }

  /** The abbreviations each formula has a case for: the two other temperature units. */
  function Sources(f: Formula): set<string> {
    match f
    case KelvinFormula => {"°F", "°C"}
    case CelsiusFormula => {"K", "°F"}
    case FahrenheitFormula => {"K", "°C"}
  }

  /** The unit a formula converts into. */
  function Target(f: Formula): string {
    match f
    case KelvinFormula => "K"
    case CelsiusFormula => "°C"
    case FahrenheitFormula => "°F"
  }

  function Linear(name: string, abbr: string, aliases: seq<string>, ratio: real): Unit {
    Unit(name, abbr, aliases, Some([Ratio("", ratio)]), None)
  }

  function Regional(name: string, abbr: string, aliases: seq<string>, ratios: seq<Ratio>): Unit {
    Unit(name, abbr, aliases, Some(ratios), None)
  }

  function Thermo(name: string, abbr: string, aliases: seq<string>, f: Formula): Unit {
    Unit(name, abbr, aliases, None, Some(f))
  }

  const UNITS: seq<Family> := [
    Family("AREA", Area()),
    Family("DIGITAL STORAGE", DigitalStorage()),
    Family("ENERGY", Energy()),
    Family("FREQUENCY", Frequency()),
    Family("LENGTH", Length()),
    Family("MASS", Mass()),
    Family("PLANE ANGLE", PlaneAngle()),
    Family("PRESSURE", Pressure()),
    Family("TEMPERATURE", Temperature()),
    Family("TIME", Time()),
    Family("VOLUME", Volume())
  ]

  /** units.rs:12: the AREA family. */
  function Area(): seq<Unit> {
    [
      Linear("Square Meter", "m²", ["m2", "sq m", "square meter", "square meters", "square metre", "square metres"], 1.0),
      Linear("Square Kilometer", "km²", ["km2", "sq km", "square kilometer", "square kilometers", "square kilometre", "square kilometres"], 1000000.0),
      Linear("Square Mile", "mi²", ["mi2", "sq mi", "square mile", "square miles"], 2590000.0),
      Linear("Square Yard", "yd²", ["yd2", "sq yd", "square yard", "square yards"], 0.836127),
      Linear("Square Foot", "ft²", ["ft2", "sq ft", "square foot", "square feet"], 0.092903),
      Linear("Square Inch", "in²", ["in2", "sq in", "square inch", "square inches"], 0.00064516),
      Linear("Hectare", "ha", ["hectare", "hectares"], 10000.0),
      Linear("Acre", "a", ["acre", "acres"], 4046.86)
    ]
  }

  /** units.rs:70: the DIGITAL STORAGE family. */
  function DigitalStorage(): seq<Unit> {
    [
      Linear("Bit", "b", ["bit", "bits"], 1.0),
      Linear("Kilobit", "kb", ["kbit", "kbits", "kilobit", "kilobits"], 1000.0),
      Linear("Kibibit", "Kib", ["kibit", "kibits", "kibibit", "kibibits"], 1024.0),
      Linear("Megabit", "Mb", ["mbit", "mbits", "megabit", "megabits"], 1000000.0),
      Linear("Mebibit", "Mib", ["mibit", "mibits", "mebibit", "mebibits"], 1048576.0),
      Linear("Gigabit", "Gb", ["gbit", "gbits", "gigabit", "gigabits"], 1000000000.0),
      Linear("Gibibit", "Gib", ["gibit", "gibits", "gibibit", "gibibits"], 1073741824.0),
      Linear("Terabit", "Tb", ["tbit", "tbits", "terabit", "terabits"], 1000000000000.0),
      Linear("Tebibit", "Tib", ["tibit", "tibits", "tebibit", "tebibits"], 1099511627776.0),
      Linear("Petabit", "Pb", ["pbit", "pbits", "petabit", "petabits"], 1000000000000000.0),
      Linear("Pebibit", "Pib", ["pibit", "pibits", "pebibit", "pebibits"], 1125899906842624.0),
      Linear("Byte", "B", ["byte", "bytes"], 8.0),
      Linear("Kilobyte", "kB", ["kbyte", "kbytes", "kilobyte", "kilobytes"], 8000.0),
      Linear("Kibibyte", "KiB", ["kibyte", "kibytes", "kibibyte", "kibibytes"], 8192.0),
      Linear("Megabyte", "MB", ["mbyte", "mbytes", "megabyte", "megabytes"], 8000000.0),
      Linear("Mebibyte", "MiB", ["mibyte", "mibytes", "mebibyte", "mebibytes"], 8388608.0),
      Linear("Gigabyte", "GB", ["gbyte", "gbytes", "gigabyte", "gigabytes"], 8000000000.0),
      Linear("Gibibyte", "GiB", ["gibyte", "gibytes", "gibibyte", "gibibytes"], 8589934592.0),
      Linear("Terabyte", "TB", ["tbyte", "tbytes", "terabyte", "terabytes"], 8000000000000.0),
      Linear("Tebibyte", "TiB", ["tibyte", "tibytes", "tebibyte", "tebibytes"], 8796093022208.0),
      Linear("Petabyte", "PB", ["pbyte", "pbytes", "petabyte", "petabytes"], 8000000000000000.0),
      Linear("Pebibyte", "PiB", ["pibyte", "pibytes", "pebibyte", "pebibytes"], 9007199254740992.0)
    ]
  }

  /** units.rs:226: the ENERGY family. */
  function Energy(): seq<Unit> {
    [
      Linear("Joule", "J", ["joule", "joules"], 1.0),
      Linear("Kilojoule", "kJ", ["kilojoule", "kilojoules"], 1000.0),
      Linear("Calorie", "cal", ["cals", "calorie", "calories"], 4.184),
      Linear("Kilocalorie", "kcal", ["kcals", "kilocalorie", "kilocalories"], 4184.0),
      Linear("Watt-hour", "W⋅h", ["wh", "whs", "watt-hour", "watt-hours", "watt hour", "watt hours"], 3600.0),
      Linear("Kilowatt-hour", "kW⋅h", ["kwh", "kwhs", "kilowatt-hour", "kilowatt-hours", "kilowatt hour", "kilowatt hours"], 3600000.0),
      Linear("Electronvolt", "eV", ["evs", "electronvolt", "electronvolts", "electron-volt", "electron-volts", "electron volt", "electron volts"], 0.00000000000000000016022),
      Linear("British Thermal Unit", "Btu", ["btus", "british thermal unit", "british thermal units"], 1055.06),
      Linear("Therm", "thm", ["thms", "therm", "therms"], 105500000.0),
      Linear("Foot-Pound Force", "ft⋅lbf", ["ftlbf", "ftlbfs", "ftlb", "ftlbs", "foot-pound force", "foot pound force", "foot-pound", "foot pound"], 1.35582)
    ]
  }

  /** units.rs:298: the FREQUENCY family. */
  function Frequency(): seq<Unit> {
    [
      Linear("Hertz", "Hz", ["hertz"], 1.0),
      Linear("Kilohertz", "kHz", ["kilohertz"], 1000.0),
      Linear("Megahertz", "MHz", ["megahertz"], 1000000.0),
      Linear("Gigahertz", "GHz", ["gigahertz"], 1000000000.0)
    ]
  }

  /** units.rs:328: the LENGTH family. */
  function Length(): seq<Unit> {
    [
      Linear("Meter", "m", ["meter", "meters", "metre", "metres"], 1.0),
      Linear("Kilometer", "km", ["kilometer", "kilometers", "kilometre", "kilometres"], 1000.0),
      Linear("Centimeter", "cm", ["centimeter", "centimeters", "centimetre", "centimetres"], 0.01),
      Linear("Millimeter", "mm", ["millimeter", "millimeters", "millimetre", "millimetres"], 0.001),
      Linear("Micrometer", "μm", ["micrometer", "micrometers", "micrometre", "micrometres"], 0.000001),
      Linear("Nanometer", "nm", ["nanometer", "nanometers", "nanometre", "nanometres"], 0.000000001),
      Linear("Mile", "mi", ["mile", "miles"], 1609.34),
      Linear("Nautical Mile", "nmi", ["nautical mile", "nautical miles"], 1852.0),
      Linear("Yard", "yd", ["yard", "yards"], 0.9144),
      Linear("Foot", "ft", ["foot", "feet"], 0.3048),
      Linear("Inch", "″", ["\"", "in", "inch", "inches"], 0.0254)
    ]
  }

  /** units.rs:407: the MASS family. */
  function Mass(): seq<Unit> {
    [
      Linear("Kilogram", "kg", ["kilogram", "kilograms"], 1.0),
      Regional("Tonne • Metric / Imperial / US", "t", ["tonne", "tonnes"],
        [Ratio("Metric", 1000.0), Ratio("Imperial", 1016.05), Ratio("US", 907.185)]),
      Linear("Gram", "gm", ["gram", "grams"], 0.001),
      Linear("Milligram", "mg", ["milligram", "milligrams"], 0.000001),
      Linear("Microgram", "µg", ["microgram", "micrograms"], 0.000000001),
      Linear("Stone", "st", ["stone", "stones"], 6.35029),
      Linear("Pound", "lb", ["pound", "pounds"], 0.453592),
      Linear("Ounce", "oz", ["ounce", "ounces"], 0.0283495)
    ]
  }

  /** units.rs:469: the PLANE ANGLE family. */
  function PlaneAngle(): seq<Unit> {
    [
      Linear("Radian", "rad", ["rads", "r", "radian", "radians"], 1.0),
      Linear("Degree", "°", ["d", "degree", "degrees"], 0.0174533),
      Linear("Gradian", "ᵍ", ["grad", "grads", "gradian", "gradians", "gr", "grs", "grd", "grds", "gon", "gons", "grade", "grades"], 0.015708),
      Linear("Milliradian", "mrad", ["mrads", "mr", "mrs", "mil", "mils", "milliradian", "milliradians"], 0.001),
      Linear("Minute of Arc", "′", ["'", "minute of arc", "minutes of arc", "minute arc", "minutes arc", "arc minute", "arc minutes", "arcminute", "arcminutes", "arcmin", "arcmins", "ma", "am"], 0.000290888),
      Linear("Second of Arc", "″", ["\"", "second of arc", "seconds of arc", "second arc", "seconds arc", "arc second", "arc seconds", "arcsecond", "arcseconds", "arcsec", "arcsecs", "sa", "as"], 0.0000048481)
    ]
  }

  /** units.rs:513: the PRESSURE family. */
  function Pressure(): seq<Unit> {
    [
      Linear("Pascal", "Pa", ["pascal", "pascals"], 1.0),
      Linear("Bar", "bar", ["bars"], 100000.0),
      Linear("Pound-Force per Square Inch", "psi", ["psis", "lbf/in2", "pound-force per square inch"], 6894.76),
      Linear("Standard Atmosphere", "atm", ["atms", "standard atmosphere", "standard atmospheres"], 101325.0),
      Linear("Torr", "Torr", ["torrs"], 133.322)
    ]
  }

  /** units.rs:550: the TEMPERATURE family. */
  function Temperature(): seq<Unit> {
    [
      Thermo("Kelvin", "K", ["k", "kelvin"], KelvinFormula),
      Thermo("Celsius", "°C", ["c", "celsius"], CelsiusFormula),
      Thermo("Fahrenheit", "°F", ["f", "fahrenheit"], FahrenheitFormula)
    ]
  }

  /** units.rs:591: the TIME family. */
  function Time(): seq<Unit> {
    [
      Linear("Second", "s", ["sec", "second", "seconds"], 1.0),
      Linear("Nanosecond", "ns", ["nanosecond", "nanoseconds"], 0.000000001),
      Linear("Microsecond", "μs", ["microsecond", "microseconds"], 0.000001),
      Linear("Millisecond", "ms", ["millisecond", "milliseconds"], 0.001),
      Linear("Minute", "min", ["m", "mins", "minute", "minutes"], 60.0),
      Linear("Hour", "hr", ["h", "hrs", "hour", "hours"], 3600.0),
      Linear("Day", "d", ["day", "days"], 86400.0),
      Linear("Week", "wk", ["w", "week", "weeks"], 604800.0),
      Linear("Month", "mth", ["m", "month", "months"], 2629746.0),
      Linear("Year", "yr", ["y", "yrs", "year", "years"], 31556952.0),
      Linear("Decade", "dec", ["d", "decs", "decade", "decades"], 315569520.0),
      Linear("Century", "cent", ["c", "century", "centuries"], 3155695200.0)
    ]
  }

  /** units.rs:677: the VOLUME family. */
  function Volume(): seq<Unit> {
    [
      Linear("Cubic Meter", "m³", ["m3", "meter3", "meters3", "metre3", "metres3", "cubic meter", "cubic meters", "cubic metre", "cubic metres"], 1.0),
      Linear("Liter", "l", ["liter", "liters", "litre", "litres"], 0.001),
      Linear("Milliliter", "ml", ["milliliter", "milliliters", "millilitre", "millilitres"], 0.000001),
      Regional("Gallon • Imperial / US liquid", "gal", ["gallon", "gallons"],
        [Ratio("Imperial", 0.00454609), Ratio("US liquid", 0.00378541)]),
      Regional("Quart • Imperial / US liquid", "qt", ["quart", "quarts"],
        [Ratio("Imperial", 0.00113652), Ratio("US liquid", 0.000946353)]),
      Regional("Pint • Imperial / US liquid", "pt", ["pint", "pints"],
        [Ratio("Imperial", 0.000568261), Ratio("US liquid", 0.000473176)]),
      Regional("Cup • Imperial / US legal", "c", ["cup", "cups"],
        [Ratio("Imperial", 0.000284131), Ratio("US legal", 0.00024)]),
      Regional("Fluid Ounce • Imperial / US", "fl oz", ["floz", "fluid ounce", "fluid ounces", "oz", "ounce", "ounces"],
        [Ratio("Imperial", 0.000028413), Ratio("US", 0.000029574)]),
      Regional("Tablespoon • Imperial / US", "tbsp", ["tablespoon", "tablespoons"],
        [Ratio("Imperial", 0.000017758), Ratio("US", 0.000014787)]),
      Regional("Teaspoon • Imperial / US", "tsp", ["teaspoon", "teaspoons"],
        [Ratio("Imperial", 0.0000059194), Ratio("US", 0.0000049289)]),
      Linear("Cubic Foot", "ft³", ["ft3", "cu ft", "cubic foot", "cubic feet"], 0.0283168),
      Linear("Cubic Inch", "in³", ["in3", "cu in", "cubic inch", "cubic inches"], 0.000016387)
    ]
  }
  /**
   * A well-formed ratio list: non-empty, every ratio strictly positive, the
   * empty label used exactly when the list has one entry, and distinct variants.
   */
  predicate WellFormedRatios(rs: seq<Ratio>) {
    && |rs| >= 1
    && (forall i :: 0 <= i < |rs| ==> rs[i].value > 0.0)
    && (forall i :: 0 <= i < |rs| ==> (rs[i].variant == "" <==> |rs| == 1))
    && (forall i, j :: 0 <= i < j < |rs| ==> rs[i].variant != rs[j].variant)
  }

  /** Exactly one of `ratios` and `formula` is set, and a ratio list is well formed. */
  predicate WellFormedUnit(u: Unit) {
    && (u.ratios.Some? <==> u.formula.None?)
    && (u.ratios.Some? ==> WellFormedRatios(u.ratios.value))
  }

  /** Every unit of a family is well formed and has a formula exactly when the family is TEMPERATURE. */
  predicate WellFormedFamily(f: Family) {
    forall u <- f.units :: WellFormedUnit(u) && (u.formula.Some? <==> f.name == "TEMPERATURE")
  }

  /** Converting Fahrenheit to Celsius and back, or Celsius to Fahrenheit and back, is the identity. */
  lemma CelsiusFahrenheitInverse(c: Unit, f: Unit, x: real)
    requires c.abbr == "°C" && f.abbr == "°F"
    ensures Apply(CelsiusFormula, f, Apply(FahrenheitFormula, c, x).value) == Ok(x)
    ensures Apply(FahrenheitFormula, c, Apply(CelsiusFormula, f, x).value) == Ok(x)
  {
  }

  /** Kelvin and Celsius differ by 273.15 and undo each other. */
  lemma KelvinCelsiusInverse(k: Unit, c: Unit, x: real)
    requires k.abbr == "K" && c.abbr == "°C"
    ensures Apply(KelvinFormula, c, x) == Ok(x + 273.15)
    ensures Apply(CelsiusFormula, k, Apply(KelvinFormula, c, x).value) == Ok(x)
    ensures Apply(KelvinFormula, c, Apply(CelsiusFormula, k, x).value) == Ok(x)
  {
  }

  /** Kelvin and Fahrenheit undo each other. */
  lemma KelvinFahrenheitInverse(k: Unit, f: Unit, x: real)
    requires k.abbr == "K" && f.abbr == "°F"
    ensures Apply(FahrenheitFormula, k, Apply(KelvinFormula, f, x).value) == Ok(x)
    ensures Apply(KelvinFormula, f, Apply(FahrenheitFormula, k, x).value) == Ok(x)
  {
  }

  /** The direct formulas agree with going through Celsius. */
  lemma FormulasAgree(k: Unit, c: Unit, f: Unit, x: real)
    requires k.abbr == "K" && c.abbr == "°C" && f.abbr == "°F"
    ensures Apply(KelvinFormula, f, x) == Ok(Apply(CelsiusFormula, f, x).value + 273.15)
    ensures Apply(FahrenheitFormula, k, x) == Apply(FahrenheitFormula, c, x - 273.15)
  {
  }

  /** Freezing and boiling points of water and absolute zero. */
  lemma FormulaAnchors(k: Unit, c: Unit, f: Unit)
    requires k.abbr == "K" && c.abbr == "°C" && f.abbr == "°F"
    ensures Apply(CelsiusFormula, f, 32.0) == Ok(0.0)
    ensures Apply(FahrenheitFormula, c, 100.0) == Ok(212.0)
    ensures Apply(CelsiusFormula, k, 0.0) == Ok(-273.15)
    ensures Apply(FahrenheitFormula, c, 36.6) == Ok(97.88)
  {
  }

  /** Every formula case is strictly increasing, so it maps +inf to +inf and -inf to -inf. */
  lemma FormulaIncreasing(f: Formula, u: Unit, x: real, y: real)
    requires Apply(f, u, x).Ok? && x < y
    ensures Apply(f, u, y).Ok? && Apply(f, u, x).value < Apply(f, u, y).value
  {
  }

  /** A formula has no case for its own unit. */
  lemma FormulaRejectsOwnUnit(f: Formula, u: Unit, v: real)
    requires u.abbr == Target(f)
    ensures Apply(f, u, v) == Err(Target(f))
  {
  }
}
