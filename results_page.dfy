/**
 * The results page (src/pages/ResultsPage.tsx): the weight and BMI results
 * it derives from the stored child, the mid-parental height recommendation,
 * the percentile colour and label, the age wording and the tab selection.
 * Rendering, the PDF export and navigation are not modelled.
 */
module ResultsPage {
  import opened Types
  import opened Numerics
  import opened Interpolation
  import opened LmsMath
  import opened Conversions
  import opened Percentiles
  import opened ChartCurves
  import opened Interpretation

  // ---------------------------------------------------------------------------
  // The stored child (ResultsPage.tsx:36)
  // ---------------------------------------------------------------------------

  /**
   * What stored results guarantee of their child: they are only built after
   * calculateGrowthResult accepted it, so gender, a positive height and its
   * unit are present.
   */
  predicate Accepted(child: ChildDraft)
  {
    child.gender.Some? && child.height.Some? && child.height.value > 0.0 && child.heightUnit.Some?
  }

  /** A child for which calculateGrowthResult succeeds is an accepted child. */
  lemma AcceptedByGrowthResult(m: MathLib, child: ChildDraft, age: AgeCalculation, rt: ReferenceTables)
    ensures CalculateGrowthResult(m, child, age, rt).Success? ==> Accepted(child)
  {
    if CalculateGrowthResult(m, child, age, rt).Success? {
      var u := child.heightUnit.value;
      var standard := DetermineGrowthStandard(age.ageInMonths);
      var z := HeightZ(m, HeightInCm(child.height.value, u), age.ageInMonths, HeightTable(child.gender.value, standard, rt));
      assert z.Success?;
      assert HeightInCm(child.height.value, u) > 0.0;
    }
  }

  // ---------------------------------------------------------------------------
  // Weight and BMI results (ResultsPage.tsx:38-64)
  // ---------------------------------------------------------------------------

  /**
   * weightResult: absent unless the weight is truthy and has a unit;
   * otherwise calculateWeightPercentile of the weight in kg, which throws on
   * a negative weight (convertWeight) or a negative age.
   */
  function WeightResultOf(m: MathLib, child: ChildDraft, age: AgeCalculation, rt: ReferenceTables)
    : (r: Option<Result<GrowthResult>>)
    requires Accepted(child) && ValidTables(rt)
    ensures r.None? <==> !Truthy(child.weight) || child.weightUnit.None?
    ensures r.Some? ==> (r.value.Failure? <==> child.weight.value < 0.0 || age.ageInMonths < 0.0)
    ensures r.Some? && r.value.Success? ==>
              && r.value.value.standard == AgeStandard(age.ageInMonths)
              && r.value.value.interpretation.metric == WeightForAge
              && r.value.value == CalculateWeightPercentile(m, WeightInKg(child.weight.value, child.weightUnit.value),
                                                            age.ageInMonths, child.gender.value, rt).value
  {
    if !Truthy(child.weight) || child.weightUnit.None? then None
    else match ConvertWeight(child.weight.value, child.weightUnit.value, Kg)
      case Failure(e) => Some(Failure(e))
      case Success(kg) => Some(CalculateWeightPercentile(m, kg, age.ageInMonths, child.gender.value, rt))
  }

  /**
   * bmiResult: absent unless weight and height are truthy and both have a
   * unit; up to 24 months the weight-for-length result at the child's
   * length, after 24 months the BMI percentile of calculateBMI.
   */
  function BmiResultOf(m: MathLib, child: ChildDraft, age: AgeCalculation, rt: ReferenceTables)
    : (r: Option<Result<GrowthResult>>)
    requires Accepted(child) && ValidTables(rt)
    ensures r.None? <==> !Truthy(child.weight) || child.weightUnit.None?
    ensures r.Some? ==> (r.value.Failure? <==> child.weight.value < 0.0)
    ensures r.Some? && r.value.Success? ==>
              var kg := WeightInKg(child.weight.value, child.weightUnit.value);
              var cm := HeightInCm(child.height.value, child.heightUnit.value);
              if age.ageInMonths <= 24.0 then
                && r.value.value.standard == WHO
                && r.value.value.interpretation.metric == WeightForLength
                && WflLookup(rt.whoWeightForLength(child.gender.value), cm).Some?
                && var lms := WflLookup(rt.whoWeightForLength(child.gender.value), cm).value;
                   lms.M > 0.0 && lms.S > 0.0 && r.value.value == WeightStyleResult(m, kg, lms, WHO, WeightForLength)
              else
                && r.value.value.standard == CDC
                && r.value.value.interpretation.metric == BmiForAge
                && CalculateBmi(kg, cm).Success?
                && r.value.value == CalculateBmiPercentile(m, CalculateBmi(kg, cm).value, age.ageInMonths,
                                                           child.gender.value, rt).value
  {
    if !Truthy(child.weight) || child.weightUnit.None? || !Truthy(child.height) || child.heightUnit.None? then None
    else match ConvertWeight(child.weight.value, child.weightUnit.value, Kg)
      case Failure(e) => Some(Failure(e))
      case Success(kg) =>
        match ConvertHeight(child.height.value, child.heightUnit.value, Cm)
        case Failure(e) => Some(Failure(e))
        case Success(cm) =>
          var g := child.gender.value;
          if age.ageInMonths <= 24.0 then
            WeightForLengthFromTables(m, kg, cm, g, rt);
            Some(CalculateWeightForLengthPercentile(m, kg, cm, rt.whoWeightForLength(g)))
          else match CalculateBmi(kg, cm)
            case Failure(e) => Some(Failure(e))
            case Success(bmi) => Some(CalculateBmiPercentile(m, bmi, age.ageInMonths, g, rt))
  }

  // ---------------------------------------------------------------------------
  // The mid-parental height recommendation (ResultsPage.tsx:67-117)
  // ---------------------------------------------------------------------------

  /**
   * getMPHHeightRecommendation: nothing up to 24 months or without a
   * mid-parental height; otherwise whether the child's height in cm lies,
   * bounds included, between the CDC curves at the child's age for the two
   * target-range Z-scores. interpolateLMS throws on an empty table.
   */
  function MphRecommendation(m: MathLib, child: ChildDraft, age: AgeCalculation, mph: Option<MidParentalHeight>,
                             cdcHeight: Gender -> seq<LmsPoint>)
    : (r: Result<Option<bool>>)
    requires Accepted(child)
    ensures age.ageInMonths <= 24.0 || mph.None? ==> r == Success(None)
    ensures age.ageInMonths > 24.0 && mph.Some? ==>
              && (r.Failure? <==> |cdcHeight(child.gender.value)| == 0)
              && (r.Failure? ==> r.error == EmptyTable)
              && (r.Success? ==> r.value.Some?)
  {
    if age.ageInMonths <= 24.0 || mph.None? then Success(None)
    else
      var cm := HeightInCm(child.height.value, child.heightUnit.value);
      match InterpolateTable(cdcHeight(child.gender.value), age.ageInMonths)
      case Failure(e) => Failure(e)
      case Success(lms) => Success(Some(WithinTarget(m, lms, mph.value, cm)))
  }

  /** The child's height is between the curves of the two level-1 Z-scores, bounds included. */
  predicate WithinTarget(m: MathLib, lms: LmsPoint, mph: MidParentalHeight, cm: real)
  {
    CurveValue(m, lms, mph.thrLevel1MinZScore) <= cm <= CurveValue(m, lms, mph.thrLevel1MaxZScore)
  }

  /** The recommendation judges the child's height against the interpolated CDC row at the child's age. */
  lemma RecommendationUsesCurrentRow(m: MathLib, child: ChildDraft, age: AgeCalculation, mph: MidParentalHeight,
                                     cdcHeight: Gender -> seq<LmsPoint>)
    requires Accepted(child) && age.ageInMonths > 24.0 && |cdcHeight(child.gender.value)| > 0
    ensures var r := MphRecommendation(m, child, age, Some(mph), cdcHeight);
            && InterpolateTable(cdcHeight(child.gender.value), age.ageInMonths).Success?
            && r == Success(Some(WithinTarget(m, InterpolateTable(cdcHeight(child.gender.value), age.ageInMonths).value, mph,
                                              HeightInCm(child.height.value, child.heightUnit.value))))
  {
  }

  /**
   * Where the curve rises with the Z-score, a child whose height sits on the
   * curve of Z-score z is within the target range exactly when z lies
   * between the two target-range Z-scores.
   */
  lemma WithinTargetByZScore(m: MathLib, lms: LmsPoint, mph: MidParentalHeight, z: real)
    requires forall x, y :: x < y ==> CurveValue(m, lms, x) < CurveValue(m, lms, y)
    ensures WithinTarget(m, lms, mph, CurveValue(m, lms, z))
            <==> mph.thrLevel1MinZScore <= z <= mph.thrLevel1MaxZScore
  {
    if z < mph.thrLevel1MinZScore {
      assert CurveValue(m, lms, z) < CurveValue(m, lms, mph.thrLevel1MinZScore);
    }
    if z > mph.thrLevel1MaxZScore {
      assert CurveValue(m, lms, mph.thrLevel1MaxZScore) < CurveValue(m, lms, z);
    }
    if mph.thrLevel1MinZScore < z {
      assert CurveValue(m, lms, mph.thrLevel1MinZScore) < CurveValue(m, lms, z);
    }
    if z < mph.thrLevel1MaxZScore {
      assert CurveValue(m, lms, z) < CurveValue(m, lms, mph.thrLevel1MaxZScore);
    }
  }

  /** With L = 1 the curve rises with the Z-score, so the criterion above applies to such a row. */
  lemma LinearRowRises(m: MathLib, lms: LmsPoint)
    requires Lawful(m) && lms.L == 1.0 && lms.M > 0.0 && lms.S > 0.0
    ensures forall x, y :: x < y ==> CurveValue(m, lms, x) < CurveValue(m, lms, y)
  {
    forall x, y | x < y
      ensures CurveValue(m, lms, x) < CurveValue(m, lms, y)
    {
      CurveIncreasing(m, lms, x, y);
    }
  }

  // ---------------------------------------------------------------------------
  // Percentile colour and label (ResultsPage.tsx:309-315, 397-401)
  // ---------------------------------------------------------------------------

  datatype Color = Red | Orange | Blue | Green | Gray

  /**
   * getPercentileColor: the first matching test of below 3, below 10, above
   * 97, above 90; gray otherwise. Each colour is an interval of percentiles.
   */
  function PercentileColor(p: real): (c: Color)
    ensures c == Red <==> p < 3.0
    ensures c == Orange <==> 3.0 <= p < 10.0
    ensures c == Gray <==> 10.0 <= p <= 90.0
    ensures c == Green <==> 90.0 < p <= 97.0
    ensures c == Blue <==> p > 97.0
  {
    if p < 3.0 then Red
    else if p < 10.0 then Orange
    else if p > 97.0 then Blue
    else if p > 90.0 then Green
    else Gray
  }

  /** The colours in order from the lowest to the highest percentiles. */
  function Rank(c: Color): (n: nat)
    ensures n < 5
  {
    match c
    case Red => 0
    case Orange => 1
    case Gray => 2
    case Green => 3
    case Blue => 4
  }

  /** A higher percentile never gets a colour of a lower band. */
  lemma ColorMonotone(p: real, q: real)
    requires p <= q
    ensures Rank(PercentileColor(p)) <= Rank(PercentileColor(q))
  {
  }

  /** The percentile label: '<3rd' below 3, otherwise the percentile itself (shown to one decimal). */
  datatype PercentileLabel = BelowThird | Ordinal(value: real)

  function PercentileText(p: real): (t: PercentileLabel)
    ensures t.BelowThird? <==> PercentileColor(p) == Red
    ensures t.Ordinal? ==> t.value == p && t.value >= 3.0
  {
    if p >= 3.0 then Ordinal(p) else BelowThird
  }

  /** A percentile rounded to one decimal below the whole number n was below n before the rounding. */
  lemma Round1Below(p: real, n: int)
    requires Round1(p) < n as real
    ensures p < n as real
  {
    var k := RoundHalfUp(p * 10.0);
    assert Round1(p) == k as real / 10.0;
    assert k < 10 * n;
  }

  /** A percentile rounded to one decimal above the whole number n was above n before the rounding. */
  lemma Round1Above(p: real, n: int)
    requires Round1(p) > n as real
    ensures p > n as real
  {
    var k := RoundHalfUp(p * 10.0);
    assert Round1(p) == k as real / 10.0;
    assert k > 10 * n;
  }

  /**
   * On a weight, BMI or weight-for-length result, a red or blue percentile
   * always comes with isNormal false: the colour is read from the rounded
   * percentile and the flag from the unrounded one.
   */
  lemma ColorAgreesWithWeightFlag(m: MathLib, value: real, lms: LmsPoint, standard: GrowthStandard, metric: Metric)
    requires lms.M > 0.0 && lms.S > 0.0
    ensures var r := WeightStyleResult(m, value, lms, standard, metric);
            PercentileColor(r.percentile) == Red || PercentileColor(r.percentile) == Blue ==> !r.isNormal
  {
    var p := ZScoreToPercentile(m, LmsZ(m, value, lms.L, lms.M, lms.S));
    var r := WeightStyleResult(m, value, lms, standard, metric);
    assert r.percentile == Round1(p);
    if r.percentile < 3.0 {
      Round1Below(p, 3);
    }
    if r.percentile > 97.0 {
      Round1Above(p, 97);
    }
  }

  /** On a height result, a red or orange percentile always comes with isNormal false (which needs 10 or more). */
  lemma ColorAgreesWithHeightFlag(m: MathLib, z: real, standard: GrowthStandard)
    ensures var r := HeightResultFromZ(m, z, standard);
            PercentileColor(r.percentile) == Red || PercentileColor(r.percentile) == Orange ==> !r.isNormal
  {
    var p := ZScoreToPercentile(m, z);
    var r := HeightResultFromZ(m, z, standard);
    assert r.percentile == Round1(p);
    if r.percentile < 10.0 {
      Round1Below(p, 10);
    }
  }

  /**
   * The converse holds away from the cut-offs: a weight-style percentile
   * below 2.95 is shown red and one above 97.05 blue, both flagged abnormal.
   */
  lemma WeightFlagShowsWarningColor(m: MathLib, value: real, lms: LmsPoint, standard: GrowthStandard, metric: Metric)
    requires lms.M > 0.0 && lms.S > 0.0
    ensures var p := ZScoreToPercentile(m, LmsZ(m, value, lms.L, lms.M, lms.S));
            var r := WeightStyleResult(m, value, lms, standard, metric);
            && (p < 2.95 ==> !r.isNormal && PercentileColor(r.percentile) == Red)
            && (p > 97.05 ==> !r.isNormal && PercentileColor(r.percentile) == Blue)
  {
  }

  /** A height percentile below 9.95 is shown red or orange and flagged abnormal. */
  lemma HeightFlagShowsWarningColor(m: MathLib, z: real, standard: GrowthStandard)
    ensures var r := HeightResultFromZ(m, z, standard);
            ZScoreToPercentile(m, z) < 9.95 ==>
              !r.isNormal && (PercentileColor(r.percentile) == Red || PercentileColor(r.percentile) == Orange)
  {
  }

  /**
   * At the cut-off the converse fails: a weight percentile of 2.96 is
   * flagged abnormal but is shown as 3.0, in orange.
   */
  lemma RoundedUpToOrange()
    ensures Round1(2.96) == 3.0 && PercentileColor(Round1(2.96)) == Orange
    ensures !(3.0 <= 2.96)
  {
    assert RoundHalfUp(2.96 * 10.0) == 30;
  }

  // ---------------------------------------------------------------------------
  // Age wording (ResultsPage.tsx:299-307)
  // ---------------------------------------------------------------------------

  /** '<m> months old', '<y> years old' or '<y> years, <m> months old'. */
  datatype AgeText = MonthsOld(months: int) | YearsOld(years: int) | YearsMonthsOld(years: int, months: int)

  /** formatAge: months alone under one year, years alone on a whole year, both otherwise. */
  function FormatAge(age: AgeCalculation): (t: AgeText)
    ensures t.MonthsOld? <==> age.ageYears == 0
    ensures t.YearsOld? <==> age.ageYears != 0 && age.ageMonths == 0
    ensures t.YearsMonthsOld? ==> t.years != 0 && t.months != 0
  {
    if age.ageYears == 0 then MonthsOld(age.ageMonths)
    else if age.ageMonths == 0 then YearsOld(age.ageYears)
    else YearsMonthsOld(age.ageYears, age.ageMonths)
  }

  /** The number of whole months the wording denotes. */
  function DenotedMonths(t: AgeText): int
  {
    match t
    case MonthsOld(mo) => mo
    case YearsOld(y) => 12 * y
    case YearsMonthsOld(y, mo) => 12 * y + mo
  }

  /**
   * For an age computed by calculateAge the wording denotes exactly the
   * whole months of the age, and shows a month count below 12.
   */
  lemma FormatAgeDenotesAge(birth: Option<int>, measurement: Option<int>)
    requires CalculateAge(birth, measurement).Success?
    ensures var age := CalculateAge(birth, measurement).value;
            && DenotedMonths(FormatAge(age)) == Floor(age.ageInMonths)
            && (FormatAge(age).MonthsOld? ==> FormatAge(age).months < 12)
            && (FormatAge(age).YearsMonthsOld? ==> 0 < FormatAge(age).months < 12)
  {
  }

  // ---------------------------------------------------------------------------
  // Tabs (ResultsPage.tsx:17, 119-129, 353)
  // ---------------------------------------------------------------------------

  /**
   * availableTabs: the stored selection, or ['height'] when there is none;
   * an empty selection is truthy in JavaScript and gives no tab. The filter
   * keeps every entry, since height, weight and bmi are the only measurements.
   */
  function AvailableTabs(selected: Option<seq<Measurement>>): (tabs: seq<Measurement>)
    ensures selected.None? ==> tabs == [HeightM]
    ensures selected.Some? ==> tabs == selected.value
  {
    match selected
    case None => [HeightM]
    case Some(s) => s
  }

  /** The tab bar is shown only for more than one tab. */
  predicate ShowsTabBar(tabs: seq<Measurement>)
  {
    |tabs| > 1
  }

  /** The effect on the active tab: the first available tab when the active one is not available. */
  function NextActiveTab(tabs: seq<Measurement>, active: Measurement): (next: Measurement)
    ensures |tabs| > 0 ==> next in tabs
    ensures active in tabs || |tabs| == 0 ==> next == active
  {
    if |tabs| > 0 && active !in tabs then tabs[0] else active
  }

  /** The effect settles after one run: applying it again changes nothing. */
  lemma NextActiveTabSettles(tabs: seq<Measurement>, active: Measurement)
    ensures NextActiveTab(tabs, NextActiveTab(tabs, active)) == NextActiveTab(tabs, active)
  {
  }

  /** Without a stored selection the page starts, and stays, on the height tab. */
  lemma DefaultTabIsHeight(active: Measurement)
    ensures NextActiveTab(AvailableTabs(None), active) == HeightM
    ensures NextActiveTab(AvailableTabs(None), HeightM) == HeightM
  {
    assert AvailableTabs(None) == [HeightM];
  }
}
