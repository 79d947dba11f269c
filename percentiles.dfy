/**
 * The four growth-result paths of src/utils/calculations.ts:
 * calculateGrowthResult (length/height-for-age), calculateWeightPercentile,
 * calculateBMIPercentile and calculateWeightForLengthPercentile.
 *
 * The reference tables the repository imports but does not show (CDC
 * height, CDC weight, WHO and CDC BMI, WHO weight-for-length) are the
 * fields of a `ReferenceTables` value; `ValidTables` states what the engine
 * needs of them. interpolateLMS sorts its table in place: the height path
 * reads its table through `InterpolateTable`, which takes the table in any
 * order; the weight and BMI paths take tables that `ValidTables` keeps
 * sorted, on which `InterpolateTable` and `Interpolate` agree.
 */
module Percentiles {
  import opened Types
  import opened Numerics
  import opened Interpolation
  import opened LmsMath
  import opened Interpretation
  import opened Conversions
  import WhoHeight
  import WhoWeight

  datatype ReferenceTables = ReferenceTables(
    cdcHeight: Gender -> seq<LmsPoint>,
    cdcWeight: Gender -> seq<LmsPoint>,
    whoBmi: Gender -> seq<LmsPoint>,
    cdcBmi: Gender -> seq<LmsPoint>,
    whoWeightForLength: Gender -> seq<LmsPoint>)

  /** Every unseen table, for either gender, is a valid LMS table. */
  ghost predicate ValidTables(rt: ReferenceTables)
  {
    forall g: Gender ::
      && ValidTable(rt.cdcHeight(g)) && ValidTable(rt.cdcWeight(g))
      && ValidTable(rt.whoBmi(g)) && ValidTable(rt.cdcBmi(g))
      && ValidTable(rt.whoWeightForLength(g))
  }

  // ---------------------------------------------------------------------------
  // Height (calculateGrowthResult, calculations.ts:196-237)
  // ---------------------------------------------------------------------------

  /** The growth result of a height Z-score: Z to 2 decimals, percentile to 1, texts and flag from the unrounded percentile. */
  function HeightResultFromZ(m: MathLib, z: real, standard: GrowthStandard): (r: GrowthResult)
    ensures r.standard == standard
    ensures Abs(r.zScore - z) <= 0.005
    ensures Abs(r.percentile - ZScoreToPercentile(m, z)) <= 0.05
    ensures 0.0 <= r.percentile <= 100.0
    ensures r.isNormal <==> ZScoreToPercentile(m, z) >= 10.0
    ensures r.interpretation.band == HeightBand(ZScoreToPercentile(m, z))
  {
    var p := ZScoreToPercentile(m, z);
    var v := GenerateInterpretation(p, standard);
    Round1Percent(p);
    GrowthResult(Round2(z), Round1(p), standard, v.interpretation, v.advice, v.isNormal)
  }

  /** The height table calculateGrowthResult reads: WHO up to 24 months, CDC after. */
  function HeightTable(gender: Gender, standard: GrowthStandard, rt: ReferenceTables): seq<LmsPoint>
  {
    if standard == WHO then WhoHeight.GetWhoData(gender) else rt.cdcHeight(gender)
  }

  /** The Z-score of the child's height, in cm, against the table row interpolated at the child's age. */
  function HeightZ(m: MathLib, heightCm: real, ageInMonths: real, table: seq<LmsPoint>): (r: Result<real>)
    ensures |table| == 0 ==> r == Failure(EmptyTable)
    ensures |table| > 0 && ageInMonths < 0.0 ==> r == Failure(NegativeAge)
    ensures heightCm <= 0.0 ==> r.Failure?
  {
    if |table| == 0 then Failure(EmptyTable)
    else match InterpolateTable(table, ageInMonths)
      case Failure(e) => Failure(e)
      case Success(lms) => CalculateZScore(m, heightCm, lms.L, lms.M, lms.S)
  }

  /**
   * calculateGrowthResult: refuses a missing gender, a missing or zero
   * height and a missing unit; converts the height to cm; picks the
   * standard from the age; the result is the one HeightResultFromZ builds.
   */
  function CalculateGrowthResult(m: MathLib, child: ChildDraft, age: AgeCalculation, rt: ReferenceTables): (r: Result<GrowthResult>)
    ensures child.gender.None? || !Truthy(child.height) || child.heightUnit.None? ==> r == Failure(InvalidChildData)
    ensures child.gender.Some? && Truthy(child.height) && child.heightUnit.Some? && child.height.value < 0.0 ==> r == Failure(NegativeHeight)
    ensures r.Success? ==> r.value.standard == DetermineGrowthStandard(age.ageInMonths)
    ensures r.Success? ==>
              && child.gender.Some? && child.heightUnit.Some?
              && var standard := DetermineGrowthStandard(age.ageInMonths);
                 var z := HeightZ(m, HeightInCm(child.height.value, child.heightUnit.value), age.ageInMonths,
                                  HeightTable(child.gender.value, standard, rt));
                 z.Success? && r.value == HeightResultFromZ(m, z.value, standard)
  {
    if child.gender.None? || !Truthy(child.height) || child.heightUnit.None? then Failure(InvalidChildData)
    else match ConvertHeight(child.height.value, child.heightUnit.value, Cm)
      case Failure(e) => Failure(e)
      case Success(heightCm) =>
        var standard := DetermineGrowthStandard(age.ageInMonths);
        match HeightZ(m, heightCm, age.ageInMonths, HeightTable(child.gender.value, standard, rt))
        case Failure(e) => Failure(e)
        case Success(z) => Success(HeightResultFromZ(m, z, standard))
  }

  /** A height given in inches gives the same result as the same height given in centimetres. */
  lemma GrowthResultUnitInvariant(m: MathLib, child: ChildDraft, age: AgeCalculation, rt: ReferenceTables, h: real)
    requires h > 0.0
    ensures CalculateGrowthResult(m, child.(height := Some(h), heightUnit := Some(Inches)), age, rt)
         == CalculateGrowthResult(m, child.(height := Some(h * CmPerInch), heightUnit := Some(Cm)), age, rt)
  {
  }

  /** Within the WHO range, a valid age and a positive height always give a result. */
  lemma GrowthResultDefinedForInfants(m: MathLib, child: ChildDraft, age: AgeCalculation, rt: ReferenceTables)
    requires child.gender.Some? && child.heightUnit.Some? && child.height.Some? && child.height.value > 0.0
    requires 0.0 <= age.ageInMonths <= 24.0
    ensures CalculateGrowthResult(m, child, age, rt).Success?
    ensures CalculateGrowthResult(m, child, age, rt).value.standard == WHO
  {
    var t := WhoHeight.GetWhoData(child.gender.value);
    InterpolatePositive(t, age.ageInMonths);
    MulPositive(child.height.value, CmPerInch);
  }

  /** A 6-month boy of exactly the WHO median length, 67.6236 cm, is at Z = 0, the 50th percentile, in the normal band. */
  lemma SixMonthBoyAtMedianResult(m: MathLib, child: ChildDraft, age: AgeCalculation, rt: ReferenceTables)
    requires Lawful(m)
    requires child.gender == Some(Male) && child.height == Some(67.6236) && child.heightUnit == Some(Cm)
    requires age.ageInMonths == 6.0
    ensures CalculateGrowthResult(m, child, age, rt).Success?
    ensures CalculateGrowthResult(m, child, age, rt).value.zScore == 0.0
    ensures CalculateGrowthResult(m, child, age, rt).value.percentile == 50.0
    ensures CalculateGrowthResult(m, child, age, rt).value.isNormal
    ensures CalculateGrowthResult(m, child, age, rt).value.interpretation == Text(HeightFor(LengthTerm), Interpretation, 3)
  {
    WhoHeight.SixMonthBoyAtMedian(m);
    PercentileAtZero(m);
    RoundToExact(0.0, 0, 100.0);
    assert RoundHalfUp(50.00000005 * 10.0) == 500;
  }

  // ---------------------------------------------------------------------------
  // Weight, BMI and weight-for-length (calculations.ts:355-400, 469-512, 560-605)
  // ---------------------------------------------------------------------------

  /**
   * The tail the three weight-style paths share: the inline LMS Z-score of
   * the value (no positivity check), its percentile, the band texts of the
   * metric, and isNormal from 3 to 97 inclusive on the unrounded percentile.
   */
  function WeightStyleResult(m: MathLib, value: real, lms: LmsPoint, standard: GrowthStandard, metric: Metric): (r: GrowthResult)
    requires lms.M > 0.0 && lms.S > 0.0
    ensures r.standard == standard
    ensures Abs(r.zScore - LmsZ(m, value, lms.L, lms.M, lms.S)) <= 0.005
    ensures Abs(r.percentile - ZScoreToPercentile(m, LmsZ(m, value, lms.L, lms.M, lms.S))) <= 0.05
    ensures 0.0 <= r.percentile <= 100.0
    ensures r.isNormal <==> 3.0 <= ZScoreToPercentile(m, LmsZ(m, value, lms.L, lms.M, lms.S)) <= 97.0
    ensures r.interpretation == Text(metric, Interpretation, WeightBand(ZScoreToPercentile(m, LmsZ(m, value, lms.L, lms.M, lms.S))))
    ensures r.advice == Text(metric, Advice, WeightBand(ZScoreToPercentile(m, LmsZ(m, value, lms.L, lms.M, lms.S))))
  {
    var z := LmsZ(m, value, lms.L, lms.M, lms.S);
    var p := ZScoreToPercentile(m, z);
    var v := WeightStyleVerdict(metric, p);
    Round1Percent(p);
    GrowthResult(Round2(z), Round1(p), standard, v.interpretation, v.advice, v.isNormal)
  }

  /** The standard the weight and BMI paths choose inline: WHO up to 24 months. */
  function AgeStandard(ageInMonths: real): (s: GrowthStandard)
    ensures s == DetermineGrowthStandard(ageInMonths)
  {
    if ageInMonths <= 24.0 then WHO else CDC
  }

  /**
   * calculateWeightPercentile: WHO weight-for-age up to 24 months, CDC after;
   * only a negative age fails, whatever the weight, since the inline Z-score
   * checks nothing.
   */
  function CalculateWeightPercentile(m: MathLib, weightKg: real, ageInMonths: real, gender: Gender, rt: ReferenceTables): (r: Result<GrowthResult>)
    requires ValidTables(rt)
    ensures r.Failure? <==> ageInMonths < 0.0
    ensures r.Failure? ==> r.error == NegativeAge
    ensures r.Success? ==> r.value.standard == AgeStandard(ageInMonths)
    ensures r.Success? ==>
              var table := if ageInMonths <= 24.0 then WhoWeight.GetWhoWeightData(gender) else rt.cdcWeight(gender);
              var lms := Interpolate(table, ageInMonths).value;
              lms.M > 0.0 && lms.S > 0.0 && r.value == WeightStyleResult(m, weightKg, lms, AgeStandard(ageInMonths), WeightForAge)
  {
    var table := if ageInMonths <= 24.0 then WhoWeight.GetWhoWeightData(gender) else rt.cdcWeight(gender);
    if ageInMonths < 0.0 then Failure(NegativeAge)
    else
      InterpolatePositive(table, ageInMonths);
      var lms := Interpolate(table, ageInMonths).value;
      Success(WeightStyleResult(m, weightKg, lms, AgeStandard(ageInMonths), WeightForAge))
  }

  /** calculateBMIPercentile: the same as the weight path over the BMI tables. */
  function CalculateBmiPercentile(m: MathLib, bmi: real, ageInMonths: real, gender: Gender, rt: ReferenceTables): (r: Result<GrowthResult>)
    requires ValidTables(rt)
    ensures r.Failure? <==> ageInMonths < 0.0
    ensures r.Failure? ==> r.error == NegativeAge
    ensures r.Success? ==> r.value.standard == AgeStandard(ageInMonths)
    ensures r.Success? ==>
              var table := if ageInMonths <= 24.0 then rt.whoBmi(gender) else rt.cdcBmi(gender);
              var lms := Interpolate(table, ageInMonths).value;
              lms.M > 0.0 && lms.S > 0.0 && r.value == WeightStyleResult(m, bmi, lms, AgeStandard(ageInMonths), BmiForAge)
  {
    var table := if ageInMonths <= 24.0 then rt.whoBmi(gender) else rt.cdcBmi(gender);
    if ageInMonths < 0.0 then Failure(NegativeAge)
    else
      InterpolatePositive(table, ageInMonths);
      var lms := Interpolate(table, ageInMonths).value;
      Success(WeightStyleResult(m, bmi, lms, AgeStandard(ageInMonths), BmiForAge))
  }

  /**
   * calculateWeightForLengthPercentile: always WHO; fails only when the
   * table is empty (interpolateWFL returns null), otherwise clamps or
   * interpolates on the length.
   */
  function CalculateWeightForLengthPercentile(m: MathLib, weightKg: real, lengthCm: real, table: seq<LmsPoint>): (r: Result<GrowthResult>)
    requires PositiveMS(table)
    ensures r.Failure? <==> |table| == 0
    ensures r.Failure? ==> r.error == LengthOutOfRange
    ensures r.Success? ==> r.value.standard == WHO
    ensures r.Success? ==>
              && WflLookup(table, lengthCm).Some?
              && var lms := WflLookup(table, lengthCm).value;
                 lms.M > 0.0 && lms.S > 0.0 && r.value == WeightStyleResult(m, weightKg, lms, WHO, WeightForLength)
  {
    if |table| == 0 then
      assert WflLookup(table, lengthCm).None?;
      Failure(LengthOutOfRange)
    else
      WflPositive(table, lengthCm);
      match WflLookup(table, lengthCm)
      case None => Failure(LengthOutOfRange)
      case Some(lms) => Success(WeightStyleResult(m, weightKg, lms, WHO, WeightForLength))
  }

  /** With the WHO weight-for-length table of the child's gender. */
  lemma WeightForLengthFromTables(m: MathLib, weightKg: real, lengthCm: real, gender: Gender, rt: ReferenceTables)
    requires ValidTables(rt)
    ensures CalculateWeightForLengthPercentile(m, weightKg, lengthCm, rt.whoWeightForLength(gender)).Success?
  {
  }
}
