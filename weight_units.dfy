/**
 * Unit conversion, water volume helpers and the display-unit choice of
 * src/lib/utils/weightCalculations.js. Every weight is converted through a
 * canonical gram value. Numbers are exact reals, so the decimal constants
 * below are the source's constants and the algebra holds without rounding.
 */
module WeightUnits {
  import opened Wrappers

  const GramsPerOz: real := 28.3495
  const GramsPerLb: real := 453.592
  const GramsPerKg: real := 1000.0
  const GramsPerLiterWater: real := 1000.0
  const LitersPerFlOz: real := 0.02957

  /** ASCII part of `String.prototype.toLowerCase`. */
  function LowerChar(c: char): char
  {
    if 'A' <= c <= 'Z' then (c as int + 32) as char else c
  }

  function ToLower(s: string): (r: string)
    ensures |r| == |s|
    ensures forall i :: 0 <= i < |s| ==> r[i] == LowerChar(s[i])
  {
    seq(|s|, i requires 0 <= i < |s| => LowerChar(s[i]))
  }

  /** `(unit || 'oz').toLowerCase()`; `None` is null or undefined. */
  function NormalizeUnit(unit: Option<string>): (r: string)
    ensures unit.None? || unit == Some("") ==> r == "oz"
    ensures unit.Some? && unit.value != "" ==> r == ToLower(unit.value)
  {
    if unit.None? || unit.value == "" then "oz" else ToLower(unit.value)
  }

  /** The factor of the `switch` on a normalised unit; anything unrecognised is an ounce. */
  function GramsPer(normalized: string): (f: real)
    ensures f > 0.0
    ensures normalized == "oz" ==> f == GramsPerOz
    ensures normalized == "lb" ==> f == GramsPerLb
    ensures normalized == "kg" ==> f == GramsPerKg
    ensures normalized == "g" ==> f == 1.0
    ensures normalized !in {"oz", "lb", "kg", "g"} ==> f == GramsPerOz
  {
    if normalized == "lb" then GramsPerLb
    else if normalized == "kg" then GramsPerKg
    else if normalized == "g" then 1.0
    else GramsPerOz
  }

  /** `convertToGrams(weight, unit)`; `None` is a null or undefined weight. */
  function ConvertToGrams(weight: Option<real>, unit: Option<string>): (grams: real)
    ensures weight.None? ==> grams == 0.0
    ensures weight.Some? ==> grams == weight.value * GramsPer(NormalizeUnit(unit))
    ensures weight.Some? ==> (grams == 0.0 <==> weight.value == 0.0)
    ensures weight.Some? && NormalizeUnit(unit) == "g" ==> grams == weight.value
  {
    if weight.None? then 0.0 else weight.value * GramsPer(NormalizeUnit(unit))
  }

  /**
   * `convertFromGrams(grams, unit)`: the amount of the unit that weighs
   * `grams`. A zero gram value returns 0 without dividing.
   */
  function ConvertFromGrams(grams: real, unit: Option<string>): (amount: real)
    ensures grams == 0.0 ==> amount == 0.0
    ensures amount * GramsPer(NormalizeUnit(unit)) == grams
  {
    if grams == 0.0 then 0.0 else grams / GramsPer(NormalizeUnit(unit))
  }

  /** Every weight and every unit string, the oz fallback included, round-trips through grams. */
  lemma RoundTrip(weight: real, unit: Option<string>)
    ensures ConvertFromGrams(ConvertToGrams(Some(weight), unit), unit) == weight
  {
    var f := GramsPer(NormalizeUnit(unit));
    var back := ConvertFromGrams(ConvertToGrams(Some(weight), unit), unit);
    assert back * f == weight * f;
  }

  /** `getWaterWeightInGrams`: one litre of water weighs a kilogram; non-positive volumes weigh nothing. */
  function WaterWeightInGrams(liters: real): (grams: real)
    ensures liters <= 0.0 ==> grams == 0.0
    ensures liters > 0.0 ==> grams == liters * GramsPerLiterWater
    ensures grams >= 0.0
  {
    if liters <= 0.0 then 0.0 else liters * GramsPerLiterWater
  }

  /** `flOzToLiters` */
  function FlOzToLiters(flOz: real): (liters: real)
    ensures flOz <= 0.0 ==> liters == 0.0
    ensures flOz > 0.0 ==> liters == flOz * LitersPerFlOz && liters > 0.0
  {
    if flOz <= 0.0 then 0.0 else flOz * LitersPerFlOz
  }

  /** `litersToFlOz` */
  function LitersToFlOz(liters: real): (flOz: real)
    ensures liters <= 0.0 ==> flOz == 0.0
    ensures liters > 0.0 ==> flOz * LitersPerFlOz == liters && flOz > 0.0
  {
    if liters <= 0.0 then 0.0 else liters / LitersPerFlOz
  }

  /** The two volume conversions are inverse on positive volumes. */
  lemma VolumeRoundTrip(x: real)
    requires x > 0.0
    ensures LitersToFlOz(FlOzToLiters(x)) == x
    ensures FlOzToLiters(LitersToFlOz(x)) == x
  {
    var l := FlOzToLiters(x);
    assert LitersToFlOz(l) * LitersPerFlOz == x * LitersPerFlOz;
  }

  /** The unit a formatter picks; the number shown is `amount` rendered with `decimals` digits. */
  datatype DisplayUnit = Oz | Lb | G | Kg

  function UnitGrams(u: DisplayUnit): real
  {
    match u
    case Oz => GramsPerOz
    case Lb => GramsPerLb
    case G => 1.0
    case Kg => GramsPerKg
  }

  /**
   * A formatted weight before `toFixed`/`Math.round` turn it into digits:
   * `Shown(a, Lb, 1)` is `${a.toFixed(1)} lb`; the literal '0 lb' is `Shown(0.0, Lb, 0)`.
   */
  datatype Shown = Shown(amount: real, unit: DisplayUnit, decimals: nat)

  /**
   * `formatWeightForDisplay`: pounds, except below 0.1 lb where ounces are
   * shown; the amount is always the same weight as `grams`.
   */
  function FormatWeightForDisplay(grams: real): (s: Shown)
    ensures grams == 0.0 ==> s == Shown(0.0, Lb, 0)
    ensures grams != 0.0 ==> s.decimals == 1 && (s.unit == Oz <==> grams / GramsPerLb < 0.1)
    ensures grams != 0.0 ==> s.unit in {Oz, Lb} && s.amount * UnitGrams(s.unit) == grams
  {
    if grams == 0.0 then Shown(0.0, Lb, 0)
    else
      var lbs := grams / GramsPerLb;
      if lbs < 0.1 then Shown(grams / GramsPerOz, Oz, 1)
      else Shown(lbs, Lb, 1)
  }

  /** The decimals `formatWeight` renders a normalised unit with, and the unit it names. */
  function PreferredDisplay(normalized: string): (DisplayUnit, nat)
  {
    if normalized == "lb" then (Lb, 1)
    else if normalized == "g" then (G, 0)
    else if normalized == "kg" then (Kg, 2)
    else (Oz, 1)
  }

  /** The `preferredUnit` argument: left out (so the default 'auto' applies), `null`, or a string. */
  datatype UnitArgument = Omitted | NullUnit | Given(unit: string)

  /** The TypeError `null.toLowerCase()` throws. */
  const NullUnitError: string := "TypeError: preferredUnit is null"

  /**
   * `formatWeight(grams, preferredUnit = 'auto')`: in 'auto' mode ounces
   * below one pound and pounds from one pound up; otherwise the preferred
   * unit, with anything unrecognised shown in ounces. A `null` unit gets past
   * the zero check and `convertFromGrams`, then throws at `toLowerCase`.
   */
  function FormatWeight(grams: real, preferredUnit: UnitArgument): (r: Result<Shown>)
    ensures r.Err? <==> grams != 0.0 && preferredUnit.NullUnit?
    ensures r.Err? ==> r.message == NullUnitError
    ensures grams == 0.0 ==> r == Ok(Shown(0.0, Oz, 0))
    ensures grams != 0.0 && preferredUnit in {Omitted, Given("auto")} ==>
      r.Ok? && r.value.decimals == 1 && r.value.unit in {Oz, Lb} && (r.value.unit == Oz <==> grams < GramsPerLb)
    ensures grams != 0.0 && preferredUnit.Given? && preferredUnit.unit != "auto" ==>
      r.Ok? &&
      r.value.unit == PreferredDisplay(ToLower(preferredUnit.unit)).0 &&
      r.value.decimals == PreferredDisplay(ToLower(preferredUnit.unit)).1
    ensures grams != 0.0 && r.Ok? ==> r.value.amount * UnitGrams(r.value.unit) == grams
  {
    var unitArg := if preferredUnit.Omitted? then Given("auto") else preferredUnit;
    if grams == 0.0 then Ok(Shown(0.0, Oz, 0))
    else if unitArg == Given("auto") then
      var lbs := grams / GramsPerLb;
      if lbs < 1.0 then Ok(Shown(grams / GramsPerOz, Oz, 1)) else Ok(Shown(lbs, Lb, 1))
    else if unitArg.NullUnit? then
      Err(NullUnitError)
    else
      var value := ConvertFromGrams(grams, Some(unitArg.unit));
      var normalized := ToLower(unitArg.unit);
      var (unit, decimals) := PreferredDisplay(normalized);
      assert unitArg.unit == "" ==> normalized == "" && NormalizeUnit(Some(unitArg.unit)) == "oz";
      Ok(Shown(value, unit, decimals))
  }

  /**
   * The 0.1 lb boundary with the source's 453.592 g/lb: 45.3592 g is exactly
   * 0.1 lb and 45.359237 g (0.1 of the international pound) is above it, so
   * both are shown in pounds; 45.35 g is shown in ounces; 453.592 g is 1 lb.
   */
  lemma DisplayBoundary()
    ensures FormatWeightForDisplay(45.3592).unit == Lb
    ensures FormatWeightForDisplay(45.359237).unit == Lb
    ensures FormatWeightForDisplay(45.35).unit == Oz
    ensures FormatWeightForDisplay(453.592) == Shown(1.0, Lb, 1)
  {
  }
}
