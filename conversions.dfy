/**
 * Age from two dates, unit conversions and the body-mass index
 * (src/utils/calculations.ts: calculateAge, convertHeight, convertWeight,
 * calculateBMI).
 *
 * A date is a day number; a date string that does not parse is None.
 */
module Conversions {
  import opened Types
  import opened Numerics

  /** The average month length the age arithmetic divides by. */
  const DaysPerMonth: real := 30.4375
  const CmPerInch: real := 2.54
  const KgPerLb: real := 0.45359237

  /**
   * calculateAge: fails on an unparseable date and on a measurement before
   * birth; otherwise whole days, fractional months, whole years and the
   * whole months left over after the years.
   */
  function CalculateAge(birth: Option<int>, measurement: Option<int>): (r: Result<AgeCalculation>)
    ensures birth.None? || measurement.None? ==> r == Failure(InvalidDate)
    ensures birth.Some? && measurement.Some? ==>
              (r.Failure? <==> measurement.value < birth.value)
    ensures r.Failure? ==> r.error == InvalidDate || r.error == MeasurementBeforeBirth
    ensures r.Success? ==>
              && r.value.ageInDays == measurement.value - birth.value
              && r.value.ageInDays >= 0
              && r.value.ageInMonths * DaysPerMonth == r.value.ageInDays as real
              && r.value.ageYears >= 0
              && 0 <= r.value.ageMonths <= 11
              && r.value.ageYears * 12 + r.value.ageMonths == Floor(r.value.ageInMonths)
  {
    if birth.None? || measurement.None? then Failure(InvalidDate)
    else if measurement.value < birth.value then Failure(MeasurementBeforeBirth)
    else
      var days := measurement.value - birth.value;
      var months := days as real / DaysPerMonth;
      var years := Floor(months / 12.0);
      var rest := Floor(months - 12.0 * years as real);
      YearsAndMonths(months, years, rest);
      Success(AgeCalculation(years, rest, months, days))
  }

  /** Whole years and the whole-month remainder add up to the floor of the months. */
  lemma YearsAndMonths(months: real, years: int, rest: int)
    requires months >= 0.0
    requires years as real <= months / 12.0 < years as real + 1.0
    requires rest as real <= months - 12.0 * years as real < rest as real + 1.0
    ensures years >= 0 && 0 <= rest <= 11
    ensures years * 12 + rest == Floor(months)
  {
    assert 12.0 * years as real <= months < 12.0 * years as real + 12.0;
  }

  /** A child measured 731 days after birth is 2 years and 0 months old (24.02 months). */
  lemma CalculateAgeExample()
    ensures CalculateAge(Some(0), Some(731)).Success?
    ensures CalculateAge(Some(0), Some(731)).value.ageYears == 2
    ensures CalculateAge(Some(0), Some(731)).value.ageMonths == 0
    ensures CalculateAge(Some(10), Some(9)) == Failure(MeasurementBeforeBirth)
  {
    var r := CalculateAge(Some(0), Some(731)).value;
    assert 24.0 <= r.ageInMonths < 25.0;
  }

  /** The length of a height in centimetres. */
  function HeightInCm(v: real, unit: HeightUnit): real
  {
    if unit == Cm then v else v * CmPerInch
  }

  /** The mass of a weight in kilograms. */
  function WeightInKg(v: real, unit: WeightUnit): real
  {
    if unit == Kg then v else v * KgPerLb
  }

  /**
   * convertHeight: a negative height is rejected whatever the units; the
   * converted value denotes the same length.
   */
  function ConvertHeight(v: real, from: HeightUnit, to: HeightUnit): (r: Result<real>)
    ensures r.Failure? <==> v < 0.0
    ensures r.Failure? ==> r.error == NegativeHeight
    ensures r.Success? ==> r.value >= 0.0 && HeightInCm(r.value, to) == HeightInCm(v, from)
    ensures from == to && v >= 0.0 ==> r == Success(v)
  {
    if v < 0.0 then Failure(NegativeHeight)
    else if from == to then Success(v)
    else if from == Inches && to == Cm then Success(v * CmPerInch)
    else Success(v / CmPerInch)
  }

  /** convertWeight: as convertHeight, for kilograms and pounds. */
  function ConvertWeight(v: real, from: WeightUnit, to: WeightUnit): (r: Result<real>)
    ensures r.Failure? <==> v < 0.0
    ensures r.Failure? ==> r.error == NegativeWeight
    ensures r.Success? ==> r.value >= 0.0 && WeightInKg(r.value, to) == WeightInKg(v, from)
    ensures from == to && v >= 0.0 ==> r == Success(v)
  {
    if v < 0.0 then Failure(NegativeWeight)
    else if from == to then Success(v)
    else if from == Lb && to == Kg then Success(v * KgPerLb)
    else Success(v / KgPerLb)
  }

  /** Converting a height there and back gives the height again. */
  lemma ConvertHeightRoundTrip(v: real, from: HeightUnit, to: HeightUnit)
    requires v >= 0.0
    ensures ConvertHeight(ConvertHeight(v, from, to).value, to, from) == Success(v)
  {
  }

  /** Converting a weight there and back gives the weight again. */
  lemma ConvertWeightRoundTrip(v: real, from: WeightUnit, to: WeightUnit)
    requires v >= 0.0
    ensures ConvertWeight(ConvertWeight(v, from, to).value, to, from) == Success(v)
  {
  }

  /** Converting through the intermediate unit agrees with converting directly. */
  lemma ConvertHeightCompose(v: real, a: HeightUnit, b: HeightUnit, c: HeightUnit)
    requires v >= 0.0
    ensures ConvertHeight(ConvertHeight(v, a, b).value, b, c) == ConvertHeight(v, a, c)
  {
  }

  /**
   * calculateBMI: weight in kg over the square of the height in metres,
   * rounded to two decimals; a weight or height that is not positive is rejected.
   */
  function CalculateBmi(weightKg: real, heightCm: real): (r: Result<real>)
    ensures r.Failure? <==> weightKg <= 0.0 || heightCm <= 0.0
    ensures r.Failure? ==> r.error == NonPositiveBmiInput
    ensures r.Success? ==> Abs(r.value - Bmi(weightKg, heightCm)) <= 0.005
  {
    if weightKg <= 0.0 || heightCm <= 0.0 then Failure(NonPositiveBmiInput)
    else
      Success(Round2(Bmi(weightKg, heightCm)))
  }

  /** The unrounded body-mass index, kg/m^2. */
  function Bmi(weightKg: real, heightCm: real): real
    requires heightCm > 0.0
  {
    weightKg / ((heightCm / 100.0) * (heightCm / 100.0))
  }

  /** A positive weight gives a positive index, and a heavier child of the same height a larger one. */
  lemma BmiMonotone(w1: real, w2: real, h: real)
    requires 0.0 < w1 <= w2 && h > 0.0
    ensures 0.0 < Bmi(w1, h) <= Bmi(w2, h)
  {
    DivProductMonotone(w1, w2, h / 100.0, h / 100.0);
  }

  lemma CalculateBmiExample()
    ensures CalculateBmi(20.0, 100.0) == Success(20.0)
    ensures CalculateBmi(0.0, 100.0) == Failure(NonPositiveBmiInput)
  {
    RoundToExact(20.0, 2000, 100.0);
  }
}
