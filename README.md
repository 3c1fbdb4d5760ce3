# cu — a Dafny model of the unit converter's engine

`cu` is a command-line unit converter. The user types a value, a source unit,
a separator (`=` or ` to `) and a target unit, optionally followed by
`:<precision>`. It prints one line per way the conversion can be read. This
project models, in Dafny, the engine behind that:

- **the unit catalog** (`src/units.rs`): eleven families of units, each unit
  carrying either a list of ratio variants or a temperature formula, and the
  three temperature formulas;
- **the value/unit tokenizer** (`parse_value_unit`, and its inline copy in
  `main`): a hand-written scanner for the pattern `(-?[\d/.]+)(.*)`, decimal
  and single-fraction reading, and the trimmed unit text;
- **the two unit resolvers**: `find_unit` (first family with any match; per
  family an exact pass, then per unit a folded abbreviation and then folded
  aliases), and the joint source/target resolver of `main` (three
  whole-family passes, one pairing per family where both sides resolve, and
  the mismatch/unknown classification);
- **the `result` closure**: the formula branch and the ratio fan-out over
  every pair of variants;
- **framing and rounding**: the separator choice, the two-sided split, the
  `:precision` suffix, and both `format_number`s.

Modules:

| file | module | models |
|---|---|---|
| common.dfy | Common | `Option` / `Result` |
| text.dfy | Text | `trim`, `contains`, `split`, ASCII `to_lowercase` |
| literals.dfy | Literals | `parse::<f64>` on decimal literals, `parse::<i32>` |
| numbers.dfy | Numbers | f64 values as reals plus ±infinity and NaN; division and multiplication |
| units.dfy | Units | `Unit`, `UNITS`, the temperature formulas |
| catalog_facts.dfy | CatalogFacts | facts proved about the constant catalog |
| tokenizer.dfy | Tokenizer | `parse_value_unit` |
| format.dfy | Format | `format_number` of both files, and rounding |
| resolver.dfy | Resolver | `find_unit` and the `'u_loop` joint resolver |
| lookups.dfy | Lookups | `find_unit` on the catalog for the texts of the unit tests |
| conversion.dfy | Conversion | the `result` closure |
| cli.dfy | Cli | `main`: flags, framing, resolution, report |

Pure code (the catalog, `parse_value_unit`, `format_number`) is modelled as
functions. The step-by-step code of `main` and the loops of `find_unit` are
modelled as methods with loops. Each method is proved equal to a
specification function, and the properties are proved about those functions.
Output is a list of `Line` values, one per `println!`.

Two behaviours of the program are worth stating outright:

- `find_unit` runs its exact-abbreviation pass family by family
  (src/utils.rs:45-56), not once over the whole catalog. A later family's
  exact match does not beat an earlier family's folded match.
- A zero divisor is not an error: `1/0` reads as +infinity (src/utils.rs:21).

## Model

| member | source | states |
|---|---|---|
| Text.Lower | src/utils.rs:58-66 | folding keeps the length and lowers each ASCII capital, leaving every other character alone |
| Text.LowerIdempotent | src/utils.rs:58-66 | folding twice is folding once, so comparing folded texts is an equivalence |
| Text.Trim | src/utils.rs:11 | the trimmed text is a slice `s[i..j]` of the input with only whitespace before `i` and after `j`; it neither starts nor ends with whitespace, and is the input itself when the input has no whitespace |
| Text.TrimIdempotent | src/utils.rs:11 | trimming twice is trimming once |
| Text.IndexOf | src/utils.rs:14 | the position found is an occurrence with none before it; no position means no occurrence at all |
| Text.ContainsIff | src/utils.rs:14 | `contains` holds exactly when the pattern occurs somewhere |
| Text.Split | src/utils.rs:15 | a split has at least one piece, and exactly one exactly when the separator does not occur |
| Text.JoinSplit | src/utils.rs:15 | joining the pieces back with the separator gives the input |
| Text.SplitPiecesFree | src/utils.rs:15 | no piece of a split contains the separator |
| Text.SplitFirst | src/main.rs:114-115 | the first piece is the text before the first separator |
| Text.SplitAtChar | src/main.rs:114 | text with one occurrence of a character splits on it into the two sides |
| Text.TrimAll | src/utils.rs:15 | every piece is trimmed, none added or lost |
| Literals.ParseDecimal | src/utils.rs:27 | a text parses exactly when it is digits and '.' with at most one dot, at least one digit, and '-' only in front |
| Literals.DecimalRejects | src/utils.rs:27 | two dots, a '-' after the first character, or no digit at all (".", "-", "-.") do not parse |
| Literals.DecimalFraction | src/utils.rs:27 | the digits after the dot are a value in [0, 1) whose first digit is the tenths |
| Literals.PointValue | src/utils.rs:27 | digits `w`, a dot and digits `f`, with at least one digit, read as value(w) + the fraction of f, and with a leading '-' as its negation |
| Literals.DecimalRoundTrip | src/utils.rs:27 | the decimal rendering of n, with or without a leading '-', parses back to n or -n |
| Literals.ParseI32 | src/main.rs:119 | a precision parses exactly when it is an optional sign and at least one digit whose signed value lies in the 32-bit range, and the result is that signed value |
| Literals.I32Unsigned | src/main.rs:119-124 | unsigned digits parse exactly when their value is at most 2147483647, to that value, so "99999999999" does not parse |
| Literals.I32Plus | src/main.rs:119 | a leading '+' changes nothing |
| Literals.I32Minus | src/main.rs:119 | after '-', digits parse exactly when their value is at most 2147483648, to its negation |
| Literals.I32RoundTrip | src/main.rs:119-123 | every 32-bit integer rendered in decimal parses back to itself |
| Literals.I32RejectsNonDigits | src/main.rs:119-124 | a text with a non-digit after its first character is not a precision |
| Numbers.Quotient | src/utils.rs:21 | the quotient is finite exactly when the divisor is non-zero, and then times the divisor gives the dividend; a zero divisor gives +inf or -inf by the dividend's sign |
| Numbers.Scale | src/main.rs:156 | scaling by a positive factor keeps finiteness, keeps infinities, and multiplies a finite value |
| Numbers.Mul | src/main.rs:156 | finite times finite is the real product; NaN absorbs |
| Numbers.MulCommutes | src/main.rs:156 | the product does not depend on the order of the factors |
| Numbers.ScaleInverse | src/main.rs:156 | scaling by k and then by 1/k gives the value back |
| Units.Apply | src/units.rs:556-588 | a formula succeeds exactly for the abbreviations it has a case for, and otherwise fails with the given unit's abbreviation |
| Units.CelsiusFahrenheitInverse | src/units.rs:569-588 | the Celsius and Fahrenheit formulas undo each other |
| Units.KelvinCelsiusInverse | src/units.rs:556-575 | Kelvin is Celsius plus 273.15, and the two formulas undo each other |
| Units.KelvinFahrenheitInverse | src/units.rs:556-588 | the Kelvin and Fahrenheit formulas undo each other |
| Units.FormulasAgree | src/units.rs:556-588 | Kelvin from °F is Celsius from °F plus 273.15, and Fahrenheit from K is Fahrenheit from °C of v - 273.15 |
| Units.FormulaAnchors | src/units.rs:569-588 | 32 °F is 0 °C, 100 °C is 212 °F, 0 K is -273.15 °C, 36.6 °C is 97.88 °F |
| Units.FormulaIncreasing | src/units.rs:556-588 | every formula case is strictly increasing |
| Units.FormulaRejectsOwnUnit | src/units.rs:556-588 | a formula applied to its own unit fails with that unit's abbreviation |
| CatalogFacts.CatalogWellFormed | src/units.rs:11-783 | every catalog unit sets exactly one of ratios and formula; every ratio list is non-empty with positive ratios, uses the empty label exactly when it has one entry and has distinct labels; formulas occur exactly in TEMPERATURE |
| CatalogFacts.TemperatureFormulas | src/units.rs:550-590 | the ninth family is TEMPERATURE with the Kelvin, Celsius and Fahrenheit units, and each carries the formula that converts into it |
| Tokenizer.Scan | src/utils.rs:6-7 | the match is the leftmost one, its number part is a maximal run of `[\d/.]` with an optional leading '-', and its unit part runs to the end of the line; no match exactly when the text has no digit, '/' or '.' |
| Tokenizer.ParseValueText | src/utils.rs:14-32 | without a '/', the decimal, else a bad number naming the whole text; with a '/', other than two trimmed pieces is too many slashes, a first piece that does not parse is a bad dividend naming it, then a second that does not is a bad divisor naming it, and otherwise the quotient |
| Tokenizer.FractionPieces | src/utils.rs:14-15 | `a/b` with one slash contains '/' and splits into the trimmed `a` and `b` |
| Tokenizer.FractionValue | src/utils.rs:14-21 | a value `a/b` with one slash is the quotient of its two sides |
| Tokenizer.TwoSlashesRejected | src/utils.rs:14-16 | a value with two or more slashes is rejected |
| Tokenizer.ParseValueUnit | src/utils.rs:5-41 | a result exactly when there is a match whose trimmed number text reads, and then it is that reading and the trimmed rest of its line; none for text without a digit, '/' or '.' |
| Tokenizer.ScanLeading | src/utils.rs:6-7 | a number literal followed by unit text is captured whole, the unit running to the end |
| Tokenizer.ReadLeading | src/utils.rs:5-41 | with a leading literal, the value is the literal's reading and the unit the trimmed rest |
| Tokenizer.IntegerText | src/utils.rs:26-31 | a rendered integer is a literal that reads as itself |
| Tokenizer.PointLiteral | src/utils.rs:6 | digits around a decimal point, with or without a leading '-', form a literal the pattern captures, without a slash |
| Tokenizer.PointText | src/utils.rs:26-31 | digits around a decimal point, signed or not, read as the whole part plus the fraction |
| Tokenizer.PointThenUnit | src/utils.rs:5-41 | digits with a decimal point followed by unit text read back as the whole part plus the fraction and the trimmed unit (the "3.14m" case) |
| Tokenizer.NegativePointThenUnit | src/utils.rs:5-41 | the same with a leading '-' reads back as the negation |
| Tokenizer.IntegerThenUnit | src/utils.rs:5-41 | any integer followed by unit text reads back as that integer and the trimmed unit (the "42 kg" and "-10km" cases) |
| Tokenizer.FractionText | src/utils.rs:14-21 | a rendered fraction a/b reads as a ÷ b |
| Tokenizer.FractionThenUnit | src/utils.rs:14-36 | any fraction a/b followed by unit text reads back as a ÷ b and the trimmed unit (the "1/2in" case) |
| Tokenizer.NoNumberExamples | tests/utils_test.rs:48-54 | "abc" and "" give no value |
| Format.Round | src/utils.rs:85 | `round` is the integer within one half, halves going away from zero |
| Format.RoundInteger | src/utils.rs:85 | an integer rounds to itself |
| Format.RoundOdd | src/utils.rs:85 | rounding is symmetric about zero |
| Format.RoundMonotone | src/utils.rs:85 | rounding keeps order |
| Format.RoundNearest | src/utils.rs:85 | no integer is closer than the rounded one, which is at most one half away |
| Format.RoundToScaled | src/utils.rs:84-85 | the rounded value, shifted p decimal places, is the nearest integer to the value shifted p places |
| Format.RoundToError | src/utils.rs:84-85 | the rounded value is within half a unit of the p-th place and has no digit beyond it |
| Format.RoundToNearest | src/utils.rs:84-85 | no multiple of 10^-p is closer to the value than the rounded value |
| Format.RoundToIdempotent | src/utils.rs:84-85 | rounding a rounded value changes nothing |
| Format.RoundToKeepsExact | src/utils.rs:84-85 | a value exact at precision p is unchanged at any higher precision |
| Format.HalfUnitShrinks | src/utils.rs:84-85 | a higher precision never allows a larger error |
| Format.RoundToSign | src/utils.rs:84-85 | rounding keeps the sign |
| Format.RoundToMonotone | src/utils.rs:84-85 | rounding to a precision keeps order |
| Format.FormatLocal | src/main.rs:42-49 | no precision leaves the number unchanged; a precision rounds a finite value with `RoundTo` at that place (within half a unit, halves away from zero), with no clamping; infinities and NaN pass through |
| Format.EffectivePrecision | src/utils.rs:77-83 | the precision is 2 when absent, the given one up to MAX_PRECISION, and MAX_PRECISION above it |
| Format.FormatNumber | src/utils.rs:76-86 | a finite input is rounded with `RoundTo` at the effective precision, within half a unit of it; infinities and NaN pass through unchanged |
| Format.FormatNumberDefault | src/utils.rs:77-79 | no precision behaves as precision 2 |
| Format.FormatNumberClamps | src/utils.rs:80-82 | any precision above the maximum behaves as the maximum |
| Format.FormatNumberAgrees | src/utils.rs:76-86 | up to the maximum, the clamping `format_number` agrees with the local one of src/main.rs |
| Format.FormatExamples | tests/utils_test.rs:58-88 | 3.14159 rounds to 3.14 and 3.1416, 3.145 to 3.15, 3.144 to 3.14, -3.14159 to -3.14, 1234567.89 stays, 0.000123 to 0.00012, and no precision gives 3.14 |
| Resolver.HasAliasBelowIff | src/utils.rs:65-69 | the alias flag holds exactly when some alias folds to the text |
| Resolver.FirstBelowSpec | src/utils.rs:51-70 | a search answer meets the criterion with none before it, and no answer means no unit meets it |
| Resolver.FirstBelowStable | src/utils.rs:51-70 | returning at the first hit gives the same answer as searching to the end |
| Resolver.LocateFrom | src/utils.rs:45-72 | the hit is in the first family with any match, and no match means no family matches |
| Resolver.AnyAliasFolds | src/utils.rs:65-69 | the alias loop reports whether some alias folds to the text |
| Resolver.SearchFamily | src/utils.rs:51-70 | the two passes over one family return the exact match if any, else the first folded abbreviation-or-alias match |
| Resolver.FindUnit | src/utils.rs:44-73 | the loop over the families returns what `find_unit` is specified to return |
| Resolver.FindInFamilyNoneIff | src/utils.rs:51-70 | a family gives nothing exactly when none of its units answers to the text |
| Resolver.FindUnitNoneIff | src/utils.rs:44-73 | `find_unit` gives nothing exactly when no unit of any family answers to the text |
| Resolver.FindUnitSound | src/utils.rs:44-73 | a found unit is an element of the returned family, answers to the text, and no earlier family has a unit that answers |
| Resolver.FindUnitExactFirst | src/utils.rs:45-56 | when the returned family has a unit whose abbreviation is exactly the text, the unit returned has that exact abbreviation and is the first such unit |
| Resolver.FindUnitFoldedFirst | src/utils.rs:58-70 | without an exact match, the first unit whose folded abbreviation or alias matches wins, whichever of the two it is |
| Resolver.ExactPass | src/main.rs:177-188 | each side gets the first unit with its exact abbreviation, the early exit included |
| Resolver.FoldedPass | src/main.rs:189-201 | a side still open gets the first unit whose folded abbreviation matches |
| Resolver.AliasPass | src/main.rs:202-216 | a side still open gets the first unit with a matching folded alias |
| Resolver.AliasPassDone | src/main.rs:211-214 | leaving the alias loops early keeps each side's final answer |
| Resolver.ResolveInFamily | src/main.rs:175-216 | the three passes give each side its exact, else folded-abbreviation, else alias resolution |
| Resolver.SidesOfFits | src/main.rs:174-216 | every resolved index is a unit of its family |
| Resolver.JointResolve | src/main.rs:174-219 | the labelled loop records one pairing per family where both sides resolve, in family order, and flags a side resolving where the other does not |
| Resolver.PairingsSound | src/main.rs:184-186 | every pairing comes from a family that resolves both sides and carries the resolved units |
| Resolver.PairingsCount | src/main.rs:174-219 | there is one pairing per family that resolves both sides |
| Resolver.PairingsEmptyIff | src/main.rs:220 | no pairing exactly when no family resolves both sides |
| Resolver.AloneWhenUnpaired | src/main.rs:217-218 | with no pairing, a side is flagged exactly when it resolves in some family |
| Resolver.ResolversDiffer | src/main.rs:189-216 | when no abbreviation is the text itself, unit i is the first to answer case-insensitively and does so by an alias, and a later unit j is the first whose folded abbreviation matches, `find_unit` picks i and the joint resolver j |
| Resolver.ResolversDifferExample | src/main.rs:189-216 | a two-unit family built for the purpose where "FOO" is the first unit's alias and the second unit's folded abbreviation: `find_unit` picks the first, the joint resolver the second |
| Lookups.AreaAliases | src/utils.rs:58-70 | in AREA, "m2" and "square meter" resolve to the square meter |
| Lookups.AreaLacksB | src/utils.rs:51-70 | no AREA unit answers to "B" or "b" |
| Lookups.StorageByte | src/utils.rs:51-56 | in DIGITAL STORAGE the exact pass takes "B" to the byte, ahead of the bit |
| Lookups.StorageBit | src/utils.rs:51-56 | in DIGITAL STORAGE "b" is the bit |
| Lookups.FindByteAndBit | tests/utils_test.rs:100-112 | `find_unit("B")` is the byte and `find_unit("b")` the bit, both in DIGITAL STORAGE |
| Lookups.FindSquareMeter | tests/utils_test.rs:121-133 | `find_unit` of "m2" and of "square meter" is the AREA unit m² |
| Conversion.Suffix | src/main.rs:160-162 | the suffix is empty exactly for the empty label, and otherwise encloses the label |
| Conversion.SuffixInjective | src/main.rs:160-162 | distinct labels give distinct suffixes |
| Conversion.ApplyNum | src/main.rs:142-151 | the formula fails exactly for a source it has no case for, naming its abbreviation; finite values go through the formula and infinities and NaN pass through |
| Conversion.PairValueScales | src/main.rs:156 | `sur.1 / tur.1 * sv` scales the value by the ratio of the ratios |
| Conversion.PairValueRoundTrip | src/main.rs:156 | converting with a pair of variants and back gives the value back |
| Conversion.Row | src/main.rs:155-164 | one line per target variant, in order, each for that pair |
| Conversion.Grid | src/main.rs:153-165 | one row per source variant, in order |
| Conversion.EmitRow | src/main.rs:155-164 | the inner loop emits the row |
| Conversion.EmitResult | src/main.rs:141-167 | the closure emits the formula line, the unknown-unit line, the flattened rows, or nothing |
| Conversion.RatioLines | src/main.rs:152-166 | two ratio units give exactly |source variants| × |target variants| lines, source variant outer; each carries the family, both unit abbreviations, the scaled value rounded at the precision, and the suffixes of its two variants, non-empty exactly for a labelled variant |
| Conversion.FormulaLines | src/main.rs:142-151 | a formula target gives one line: the conversion when the formula handles the source, else an unknown-unit line naming the source's abbreviation |
| Conversion.MixedKindsLines | src/main.rs:152-166 | a source without ratios and a target without formula give no line |
| Cli.Separator | src/main.rs:64-69 | the separator is "=" whenever the input has one, else " to " if present, else none |
| Cli.ReadNumberText | src/main.rs:81-109 | a value exactly when the number text reads; a bad number prints "not a valid number" with the whole text, a bad dividend the dividend message with the first piece, a bad divisor the divisor message with the second piece, and too many slashes prints nothing |
| Cli.Complaint | src/main.rs:95-107 | no message for a reading or too many slashes; otherwise the number, dividend or divisor message carrying the offending text |
| Cli.ReadLeft | src/main.rs:76-111 | the value and unit are exactly what `parse_value_unit` reads; no match prints nothing, and a match prints the message of its number text, none when a value is read |
| Cli.ReadRight | src/main.rs:112-130 | without ':' the target is the trimmed right side at precision 2; a message means precision 2 and one invalid-precision line |
| Cli.ReadPieces | src/main.rs:114-127 | the target is the trimmed text before ':'; "*" gives no rounding, an i32 gives that precision, anything else keeps the default with one invalid-precision line naming the text |
| Cli.ReadRightPieces | src/main.rs:113-127 | `u:p` reads as the trimmed `u` with `*` giving no rounding, an i32 giving that precision, and anything else the default with a warning |
| Cli.PrecisionRoundTrip | src/main.rs:119-123 | every 32-bit precision written after ':' is used, without a warning |
| Cli.PrecisionOverflow | src/main.rs:119-125 | digits too large for an i32 after ':' keep the default precision and print one invalid-precision line naming them |
| Cli.FrameSound | src/main.rs:65-131 | a request comes from an input with a separator and exactly two sides; its value and unit are what `parse_value_unit` reads from the left, its target and precision what the right says |
| Cli.FrameComplete | src/main.rs:65-131 | conversely, a separator, two trimmed sides and a left side that `parse_value_unit` reads give that request, with only the right side's messages |
| Cli.ReadLeftSide | src/main.rs:76-111 | the left-side steps of `main` compute the left reading, value and unit set together |
| Cli.ReadNumber | src/main.rs:81-109 | reading the captured number text computes its value or message |
| Cli.ReadRightSide | src/main.rs:112-130 | the right-side steps of `main` compute the right reading |
| Cli.ReadPrecision | src/main.rs:116-127 | the precision steps compute the reading of the pieces |
| Cli.FrameInput | src/main.rs:61-134 | the framing steps of `main` compute the framing |
| Cli.Blocks | src/main.rs:221-223 | one block of lines per pairing, in order |
| Cli.EmitPairings | src/main.rs:220-223 | the loop over the pairings emits every pairing's lines, in order |
| Cli.UnpairedReport | src/main.rs:224-235 | with no family resolving both sides: a type mismatch exactly when each side resolves somewhere, otherwise one unknown-unit line per unresolved side, source first |
| Cli.PairedReport | src/main.rs:220-223 | with some family resolving both sides, the report is the conversion lines of the pairings and nothing else |
| Cli.NoSeparatorUsage | src/main.rs:65-71 | an input that is not a flag and has neither "=" nor " to " prints the usage text only |
| Cli.ResolveAndReport | src/main.rs:169-235 | the labelled resolution loop and the report after it print the report of the resolution |
| Cli.Run | src/main.rs:51-239 | `main` prints the version for a version flag, the usage text for a help flag, the unit list for a units flag; otherwise the framing messages, then the usage text when framing fails, or the report of the resolution |

## Left out

- f64 arithmetic is modelled over the reals: rounding error, binary
  representation, and the overflow of 10^p for huge precisions are not
  modelled. `306.38750000000005` at precision 14 (tests/utils_test.rs:69-72)
  is a binary-float artefact and has no real-number counterpart.
- `format!("{}")` rendering is abstract: a formatted value is the rounded
  number itself, not its text.
- Format.FormatNumber, Conversion.PairValue, Literals.ParseDecimal: the sign
  of zero is lost. Reals have one zero, so "-0 kg = g" and -0.001 at
  precision 2 give 0 in the model where the program prints "-0".
- `parse::<f64>` is modelled only on the texts the scanner can capture:
  digits, '.', '/' and a leading '-'.
- `to_lowercase` folds ASCII letters only. Every non-ASCII character in the
  catalog is left as it is.
- `\d` is ASCII digits only. The regex crate is replaced by a scanner for the
  one pattern.
- Command-line collection (`std::env::args`) and printing are left out.
  Output is a list of `Line` values, so the version, usage and
  supported-units texts appear as single markers.
- `lazy_static` initialisation is left out; `UNITS` is a constant.
- `Cli.Run` takes the catalog as a parameter. `main` uses `UNITS`, and the
  catalog facts are proved about `UNITS` separately.
- The compound-expression behaviour some command-line tests expect (several
  tokens summed, "mixed" messages) does not exist in src/main.rs and is not
  modelled.
- src/utils.rs:1 imports MAX_PRECISION and DEFAULT_PRECISION from
  src/units.rs, but src/units.rs declares neither. MAX_PRECISION is taken as 14, the value
  tests/comprehensive_test.rs:213-217 uses as the maximum. DEFAULT_PRECISION
  is taken as 2, the value of src/main.rs:9 and of the comment in
  tests/utils_test.rs:59.
- Tokenizer.IntegerThenUnit, Tokenizer.FractionThenUnit: the literal test
  inputs "42 kg", "-10km", "5ft", "3.14m" and "1/2in" (tests/utils_test.rs:14-46)
  are covered by these general lemmas for all integers and fractions, and by
  Tokenizer.PointThenUnit for decimals with a point, not stated one by one.
- Lookups.FindByteAndBit, Lookups.FindSquareMeter: the find_unit tests for
  "m", "KM", "°C", "invalid_unit" and "" (tests/utils_test.rs:93-99,
  114-119, 135-148) are not stated. They would require evaluating the
  whole literal catalog. Resolver.FindUnitNoneIff and
  Resolver.FindUnitFoldedFirst state the general rules those tests
  exercise.
- Conversion.PairValueScales, Conversion.RatioLines: the value of a pair is
  stated for strictly positive ratios, which CatalogFacts.CatalogWellFormed
  proves for the catalog.
