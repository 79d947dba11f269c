/**
 * The weight-for-age chart (src/components/WeightChart.tsx): the same month
 * grid as the height chart without any overlay, the child's weight in kg
 * and its single point.
 */
module WeightChart {
  import opened Types
  import opened Numerics
  import opened Interpolation
  import opened Conversions
  import opened ChartCurves
  import GrowthChart

  /**
   * The chart points: months 24..240 on the CDC weight table past 24
   * months, months 0..24 on the WHO weight table otherwise; no point
   * carries the overlay fields.
   */
  method WeightChartData(m: MathLib, ageInMonths: real, whoTable: array<LmsPoint>, cdcTable: array<LmsPoint>)
    returns (r: Result<seq<ChartPoint>>)
    modifies whoTable, cdcTable
    ensures whoTable[..] == old(whoTable[..]) || whoTable[..] == SortTable(old(whoTable[..]))
    ensures cdcTable[..] == old(cdcTable[..]) || cdcTable[..] == SortTable(old(cdcTable[..]))
    ensures SortedByX(old(whoTable[..])) ==> whoTable[..] == old(whoTable[..])
    ensures SortedByX(old(cdcTable[..])) ==> cdcTable[..] == old(cdcTable[..])
    ensures ageInMonths > 24.0 && whoTable != cdcTable ==> whoTable[..] == old(whoTable[..])
    ensures ageInMonths <= 24.0 && whoTable != cdcTable ==> cdcTable[..] == old(cdcTable[..])
    ensures ageInMonths > 24.0 ==> r == GridPoints(m, RowsOf(SortTable(old(cdcTable[..]))), 24, 240, None)
    ensures ageInMonths <= 24.0 ==> r == GridPoints(m, RowsOf(SortTable(old(whoTable[..]))), 0, 24, None)
  {
    var (start, end) := AgeWindow(ageInMonths);
    if ageInMonths > 24.0 {
      r := BuildAgeGrid(m, cdcTable, start, end, None);
    } else {
      r := BuildAgeGrid(m, whoTable, start, end, None);
    }
  }

  /** Without an overlay no grid point has a mid-parental or target-range field. */
  lemma WeightPointsPlain(m: MathLib, t: seq<LmsPoint>, start: int, end: int, i: int)
    requires ValidTable(t) && 0 <= start && 0 <= i < end - start + 1
    ensures var g := GridPoints(m, RowsOf(t), start, end, None);
            && g.Success? && |g.value| == end - start + 1
            && g.value[i].mphLine.None? && g.value[i].thrLevel1Min.None? && g.value[i].thrLevel1Max.None?
            && g.value[i].thrLevel2Min.None? && g.value[i].thrLevel2Max.None?
  {
    AgeGridPoints(m, t, start, end, None);
  }

  /**
   * childWeightKg: 0 when the weight is missing or zero or has no unit,
   * otherwise convertWeight to kg (which throws on a negative weight).
   */
  function ChildWeightKg(weight: Option<real>, unit: Option<WeightUnit>): (r: Result<real>)
    ensures !Truthy(weight) || unit.None? ==> r == Success(0.0)
    ensures Truthy(weight) && unit.Some? ==>
              (r.Failure? <==> weight.value < 0.0)
              && (r.Success? ==> r.value == WeightInKg(weight.value, unit.value))
  {
    if Truthy(weight) && unit.Some? then ConvertWeight(weight.value, unit.value, Kg)
    else Success(0.0)
  }

  /** The child dataset: the weight in kg at the first point within 0.05 years of the child's age. */
  function ChildWeightSeries(points: seq<ChartPoint>, ageInMonths: real, weight: Option<real>, unit: Option<WeightUnit>)
    : (r: Result<seq<Option<real>>>)
    ensures r.Failure? <==> ChildWeightKg(weight, unit).Failure?
    ensures r.Success? ==>
              && |r.value| == |points|
              && forall i :: 0 <= i < |points| ==>
                   (r.value[i].Some? <==> i == FirstWithin(GrowthChart.Ages(points), ageInMonths / 12.0, 0.05))
                   && (r.value[i].Some? ==> r.value[i].value == ChildWeightKg(weight, unit).value)
  {
    match ChildWeightKg(weight, unit)
    case Failure(e) => Failure(e)
    case Success(kg) => Success(ChildSeries(GrowthChart.Ages(points), ageInMonths / 12.0, 0.05, kg))
  }
}
