/**
 * calculateMidParentalHeight (src/utils/calculations.ts:286-350): the
 * mid-parental height, its level-1 target range and their Z-scores
 * against the CDC row of a 20-year-old of the child's gender.
 *
 * `isAdopted` is not a field of ChildData; the engine still reads it, so
 * it is a parameter here.
 */
module MidParental {
  import opened Types
  import opened Numerics
  import opened Interpolation
  import opened LmsMath
  import opened Conversions
  import opened Percentiles

  /** 20 years: the age of the CDC row the parental Z-scores use. */
  const AdultAgeMonths: real := 240.0

  /** (mother + father ± 13) / 2: plus for boys, minus for girls. */
  function Mph(g: Gender, motherCm: real, fatherCm: real): (mph: real)
    ensures g == Male ==> 2.0 * mph == motherCm + fatherCm + 13.0
    ensures g == Female ==> 2.0 * mph == motherCm + fatherCm - 13.0
  {
    if g == Male then (motherCm + fatherCm + 13.0) / 2.0
    else (motherCm + fatherCm - 13.0) / 2.0
  }

  /** The half-width of the level-1 target range: 10 cm for boys, 8.5 cm for girls. */
  function Margin(g: Gender): (d: real)
    ensures d == 10.0 || d == 8.5
    ensures d == 10.0 <==> g == Male
  {
    if g == Male then 10.0 else 8.5
  }

  /** The margin in tenths of a centimetre. */
  function MarginTenths(g: Gender): (n: int)
    ensures n as real / 10.0 == Margin(g)
  {
    if g == Male then 100 else 85
  }

  /**
   * The three calculateZScore calls on one LMS row, or their common error;
   * the lowest of the three heights decides whether any of them fails.
   */
  function ParentalZScores(m: MathLib, mph: real, lo: real, hi: real, lms: LmsPoint): (r: Result<(real, real, real)>)
    requires lo < mph < hi
    ensures r.Failure? <==> lo <= 0.0 || lms.M <= 0.0 || lms.S <= 0.0
    ensures r.Failure? ==> r.error == NonPositiveLmsInput
    ensures r.Success? ==>
              && CalculateZScore(m, mph, lms.L, lms.M, lms.S) == Success(r.value.0)
              && CalculateZScore(m, lo, lms.L, lms.M, lms.S) == Success(r.value.1)
              && CalculateZScore(m, hi, lms.L, lms.M, lms.S) == Success(r.value.2)
  {
    var zMph := CalculateZScore(m, mph, lms.L, lms.M, lms.S);
    var zLo := CalculateZScore(m, lo, lms.L, lms.M, lms.S);
    var zHi := CalculateZScore(m, hi, lms.L, lms.M, lms.S);
    if zMph.Failure? then Failure(zMph.error)
    else if zLo.Failure? then Failure(zLo.error)
    else Success((zMph.value, zLo.value, zHi.value))
  }

  /**
   * calculateMidParentalHeight: None for an adopted child with a missing
   * (or zero) parent height; MissingParentData for any other missing
   * value; otherwise the rounded mid-parental height, the range
   * mph ± margin, and their Z-scores against the CDC row at 240 months.
   * The level-2 fields are never computed.
   */
  function CalculateMidParentalHeight(m: MathLib, child: ChildDraft, isAdopted: bool, cdcHeight: Gender -> seq<LmsPoint>)
    : (r: Result<Option<MidParentalHeight>>)
    ensures isAdopted && (!Truthy(child.motherHeight) || !Truthy(child.fatherHeight)) ==> r == Success(None)
    ensures !isAdopted && (child.gender.None? || !Truthy(child.motherHeight) || !Truthy(child.fatherHeight)
                           || child.motherHeightUnit.None? || child.fatherHeightUnit.None?)
            ==> r == Failure(MissingParentData)
    ensures r == Success(None) ==> isAdopted
    ensures r.Success? && r.value.Some? ==>
              && child.gender.Some? && child.motherHeight.Some? && child.fatherHeight.Some?
              && child.motherHeightUnit.Some? && child.fatherHeightUnit.Some?
              && var g := child.gender.value;
                 var mph := Mph(g, HeightInCm(child.motherHeight.value, child.motherHeightUnit.value),
                                   HeightInCm(child.fatherHeight.value, child.fatherHeightUnit.value));
                 var v := r.value.value;
                 && Abs(v.mph - mph) <= 0.05
                 && v.thrLevel1Min == v.mph - Margin(g)
                 && v.thrLevel1Max == v.mph + Margin(g)
                 && v.thrLevel2Min.None? && v.thrLevel2Max.None?
                 && v.thrLevel2MinZScore.None? && v.thrLevel2MaxZScore.None?
                 && InterpolateTable(cdcHeight(g), AdultAgeMonths).Success?
                 && var lms := InterpolateTable(cdcHeight(g), AdultAgeMonths).value;
                    && mph - Margin(g) > 0.0 && lms.M > 0.0 && lms.S > 0.0
                    && Abs(v.mphZScore - LmsZ(m, mph, lms.L, lms.M, lms.S)) <= 0.005
                    && Abs(v.thrLevel1MinZScore - LmsZ(m, mph - Margin(g), lms.L, lms.M, lms.S)) <= 0.005
                    && Abs(v.thrLevel1MaxZScore - LmsZ(m, mph + Margin(g), lms.L, lms.M, lms.S)) <= 0.005
  {
    if isAdopted && (!Truthy(child.motherHeight) || !Truthy(child.fatherHeight)) then Success(None)
    else if child.gender.None? || !Truthy(child.motherHeight) || child.motherHeightUnit.None?
            || !Truthy(child.fatherHeight) || child.fatherHeightUnit.None? then Failure(MissingParentData)
    else match ConvertHeight(child.motherHeight.value, child.motherHeightUnit.value, Cm)
      case Failure(e) => Failure(e)
      case Success(motherCm) =>
        match ConvertHeight(child.fatherHeight.value, child.fatherHeightUnit.value, Cm)
        case Failure(e) => Failure(e)
        case Success(fatherCm) =>
          var g := child.gender.value;
          var mph := Mph(g, motherCm, fatherCm);
          var lo := mph - Margin(g);
          var hi := mph + Margin(g);
          var table := cdcHeight(g);
          if |table| == 0 then Failure(EmptyTable)
          else match InterpolateTable(table, AdultAgeMonths)
            case Failure(e) => Failure(e)
            case Success(lms) =>
              match ParentalZScores(m, mph, lo, hi, lms)
              case Failure(e) => Failure(e)
              case Success(zs) =>
                Round1Shift(mph, -MarginTenths(g));
                Round1Shift(mph, MarginTenths(g));
                Success(Some(MidParentalHeight(
                  Round1(mph), Round1(lo), Round1(hi), None, None,
                  Round2(zs.0), Round2(zs.1), Round2(zs.2), None, None)))
  }

  /** The rounded target range is centred on the rounded mid-parental height and is twice the margin wide. */
  lemma TargetRangeWidth(m: MathLib, child: ChildDraft, isAdopted: bool, cdcHeight: Gender -> seq<LmsPoint>)
    requires CalculateMidParentalHeight(m, child, isAdopted, cdcHeight).Success?
    requires CalculateMidParentalHeight(m, child, isAdopted, cdcHeight).value.Some?
    ensures var v := CalculateMidParentalHeight(m, child, isAdopted, cdcHeight).value.value;
            && v.thrLevel1Min < v.mph < v.thrLevel1Max
            && v.thrLevel1Max - v.thrLevel1Min == 2.0 * Margin(child.gender.value)
  {
  }

  /**
   * With valid reference tables, the parents' heights alone decide the
   * outcome: a non-adopted child with positive parent heights and units
   * gets a result whenever the lower end of the range is above zero.
   */
  lemma MidParentalDefined(m: MathLib, child: ChildDraft, rt: ReferenceTables)
    requires ValidTables(rt)
    requires child.gender.Some? && child.motherHeightUnit.Some? && child.fatherHeightUnit.Some?
    requires child.motherHeight.Some? && child.motherHeight.value > 0.0
    requires child.fatherHeight.Some? && child.fatherHeight.value > 0.0
    requires Mph(child.gender.value, HeightInCm(child.motherHeight.value, child.motherHeightUnit.value),
                 HeightInCm(child.fatherHeight.value, child.fatherHeightUnit.value)) > Margin(child.gender.value)
    ensures CalculateMidParentalHeight(m, child, false, rt.cdcHeight).Success?
    ensures CalculateMidParentalHeight(m, child, false, rt.cdcHeight).value.Some?
  {
    InterpolatePositive(rt.cdcHeight(child.gender.value), AdultAgeMonths);
  }

  /** A boy of a 165 cm mother and a 180 cm father: 179 cm, target range 169 to 189 cm. */
  lemma BoyExample(m: MathLib, child: ChildDraft, rt: ReferenceTables)
    requires ValidTables(rt)
    requires child.gender == Some(Male)
    requires child.motherHeight == Some(165.0) && child.fatherHeight == Some(180.0)
    requires child.motherHeightUnit == Some(Cm) && child.fatherHeightUnit == Some(Cm)
    ensures CalculateMidParentalHeight(m, child, false, rt.cdcHeight).Success?
    ensures CalculateMidParentalHeight(m, child, false, rt.cdcHeight).value.Some?
    ensures CalculateMidParentalHeight(m, child, false, rt.cdcHeight).value.value.mph == 179.0
    ensures CalculateMidParentalHeight(m, child, false, rt.cdcHeight).value.value.thrLevel1Min == 169.0
    ensures CalculateMidParentalHeight(m, child, false, rt.cdcHeight).value.value.thrLevel1Max == 189.0
  {
    MidParentalDefined(m, child, rt);
    RoundToExact(179.0, 1790, 10.0);
  }

  /** A girl of the same parents: 166 cm, target range 157.5 to 174.5 cm. */
  lemma GirlExample(m: MathLib, child: ChildDraft, rt: ReferenceTables)
    requires ValidTables(rt)
    requires child.gender == Some(Female)
    requires child.motherHeight == Some(165.0) && child.fatherHeight == Some(180.0)
    requires child.motherHeightUnit == Some(Cm) && child.fatherHeightUnit == Some(Cm)
    ensures CalculateMidParentalHeight(m, child, false, rt.cdcHeight).Success?
    ensures CalculateMidParentalHeight(m, child, false, rt.cdcHeight).value.Some?
    ensures CalculateMidParentalHeight(m, child, false, rt.cdcHeight).value.value.mph == 166.0
    ensures CalculateMidParentalHeight(m, child, false, rt.cdcHeight).value.value.thrLevel1Min == 157.5
    ensures CalculateMidParentalHeight(m, child, false, rt.cdcHeight).value.value.thrLevel1Max == 174.5
  {
    MidParentalDefined(m, child, rt);
    RoundToExact(166.0, 1660, 10.0);
  }
}
