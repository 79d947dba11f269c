/**
 * The height chart (src/components/GrowthChart.tsx): the month grid with
 * the mid-parental overlay, the x-axis labels, the child's single point and
 * the overlay datasets.
 */
module GrowthChart {
  import opened Types
  import opened Numerics
  import opened Interpolation
  import opened Conversions
  import opened ChartCurves

  /**
   * The chart points of a child of the given age: one grid over the CDC
   * table (months 24..240) past 24 months, over the WHO table (months
   * 0..24) otherwise, with the mid-parental overlay. Only the chosen
   * table is read; a call may leave it sorted in place.
   */
  method GrowthChartData(m: MathLib, ageInMonths: real, whoTable: array<LmsPoint>, cdcTable: array<LmsPoint>,
                         mph: MidParentalHeight)
    returns (r: Result<seq<ChartPoint>>)
    modifies whoTable, cdcTable
    ensures whoTable[..] == old(whoTable[..]) || whoTable[..] == SortTable(old(whoTable[..]))
    ensures cdcTable[..] == old(cdcTable[..]) || cdcTable[..] == SortTable(old(cdcTable[..]))
    ensures SortedByX(old(whoTable[..])) ==> whoTable[..] == old(whoTable[..])
    ensures SortedByX(old(cdcTable[..])) ==> cdcTable[..] == old(cdcTable[..])
    ensures ageInMonths > 24.0 && whoTable != cdcTable ==> whoTable[..] == old(whoTable[..])
    ensures ageInMonths <= 24.0 && whoTable != cdcTable ==> cdcTable[..] == old(cdcTable[..])
    ensures ageInMonths > 24.0 ==> r == GridPoints(m, RowsOf(SortTable(old(cdcTable[..]))), 24, 240, Some(mph))
    ensures ageInMonths <= 24.0 ==> r == GridPoints(m, RowsOf(SortTable(old(whoTable[..]))), 0, 24, Some(mph))
  {
    var (start, end) := AgeWindow(ageInMonths);
    var usingCdc := ageInMonths > 24.0;
    if usingCdc {
      r := BuildAgeGrid(m, cdcTable, start, end, Some(mph));
    } else {
      r := BuildAgeGrid(m, whoTable, start, end, Some(mph));
    }
  }

  // ---------------------------------------------------------------------------
  // x-axis labels (GrowthChart.tsx:148-158)
  // ---------------------------------------------------------------------------

  /**
   * The label of a point: past 24 months the whole year when the age is
   * within 1e-6 of one and blank (None) otherwise; up to 24 months the
   * age in months.
   */
  function Label(ageInMonths: real, pointAge: real): Option<int>
  {
    if ageInMonths > 24.0 then
      if Abs(pointAge - RoundHalfUp(pointAge) as real) < 0.000001 then Some(RoundHalfUp(pointAge)) else None
    else Some(RoundHalfUp(pointAge * 12.0))
  }

  /** On the month grid, the CDC chart labels exactly the whole years and the WHO chart every month. */
  lemma LabelOfMonth(ageInMonths: real, pointAge: real, k: int)
    requires pointAge * 12.0 == k as real
    ensures ageInMonths > 24.0 ==> Label(ageInMonths, pointAge) == (if k % 12 == 0 then Some(k / 12) else None)
    ensures ageInMonths <= 24.0 ==> Label(ageInMonths, pointAge) == Some(k)
  {
    var q, r := k / 12, k % 12;
    assert pointAge == q as real + r as real / 12.0;
    var n := RoundHalfUp(pointAge);
    if r < 6 {
      assert n == q;
      assert Abs(pointAge - n as real) == r as real / 12.0;
    } else {
      assert n == q + 1;
      assert Abs(pointAge - n as real) == (12 - r) as real / 12.0;
    }
    assert RoundHalfUp(pointAge * 12.0) == k;
  }

  // ---------------------------------------------------------------------------
  // The child's point (GrowthChart.tsx:145-146, 262-268)
  // ---------------------------------------------------------------------------

  /** The ages of the points, in years. */
  function Ages(points: seq<ChartPoint>): (ages: seq<real>)
    ensures |ages| == |points| && forall i :: 0 <= i < |points| ==> ages[i] == points[i].age
  {
    seq(|points|, i requires 0 <= i < |points| => points[i].age)
  }

  /**
   * The child dataset: the child's height in cm at the first point within
   * 0.05 years of the child's age; a negative height makes convertHeight throw.
   */
  function ChildHeightSeries(points: seq<ChartPoint>, ageInMonths: real, height: real, unit: HeightUnit)
    : (r: Result<seq<Option<real>>>)
    ensures r.Failure? <==> height < 0.0
    ensures r.Success? ==>
              && |r.value| == |points|
              && forall i :: 0 <= i < |points| ==>
                   (r.value[i].Some? <==> i == FirstWithin(Ages(points), ageInMonths / 12.0, 0.05))
                   && (r.value[i].Some? ==> r.value[i].value == HeightInCm(height, unit))
  {
    match ConvertHeight(height, unit, Cm)
    case Failure(e) => Failure(e)
    case Success(cm) => Success(ChildSeries(Ages(points), ageInMonths / 12.0, 0.05, cm))
  }

  // ---------------------------------------------------------------------------
  // The overlay datasets (GrowthChart.tsx:227-258)
  // ---------------------------------------------------------------------------

  /** The mid-parental height of every point, undefined where the point has none: one entry per label. */
  function OverlayDataset(points: seq<ChartPoint>): (s: seq<Option<real>>)
    ensures |s| == |points|
    ensures forall i :: 0 <= i < |points| ==> s[i] == points[i].mphLine
  {
    seq(|points|, i requires 0 <= i < |points| => points[i].mphLine)
  }

  /** The dataset as written: `map(point => point.mphLine).filter(Boolean)`. */
  function OverlayDatasetAsWritten(points: seq<ChartPoint>): (s: seq<real>)
    ensures |s| <= |points|
  {
    Compact(OverlayDataset(points))
  }

  /** A run of k undefined entries followed by defined non-zero copies of v compacts to those copies. */
  lemma {:induction false} CompactTail(s: seq<Option<real>>, k: nat, v: real)
    requires k <= |s| && v != 0.0
    requires forall i :: 0 <= i < k ==> s[i].None?
    requires forall i :: k <= i < |s| ==> s[i] == Some(v)
    ensures |Compact(s)| == |s| - k
    ensures forall i :: 0 <= i < |Compact(s)| ==> Compact(s)[i] == v
    decreases |s|
  {
    if |s| > 0 {
      if k > 0 {
        CompactTail(s[1..], k - 1, v);
      } else {
        CompactTail(s[1..], 0, v);
      }
    }
  }

  /**
   * On the CDC chart the filtered series holds the 25 values of months
   * 216..240, and Chart.js plots them at the first 25 labels: its first
   * value sits on the point of month 24 (age 2), which has no overlay.
   */
  lemma OverlayMisplaced(m: MathLib, t: seq<LmsPoint>, mph: MidParentalHeight)
    requires ValidTable(t) && mph.mph != 0.0
    ensures var g := GridPoints(m, RowsOf(t), 24, 240, Some(mph));
            && g.Success? && |g.value| == 217
            && |OverlayDatasetAsWritten(g.value)| == 25
            && OverlayDatasetAsWritten(g.value)[0] == mph.mph
            && g.value[0].age == 2.0 && g.value[0].mphLine.None?
  {
    AgeGridPoints(m, t, 24, 240, Some(mph));
    var g := GridPoints(m, RowsOf(t), 24, 240, Some(mph)).value;
    var s := OverlayDataset(g);
    CompactTail(s, 192, mph.mph);
  }

  /** Kept one entry per label, the overlay sits exactly on the points of 18 years and older. */
  lemma OverlayAligned(m: MathLib, t: seq<LmsPoint>, mph: MidParentalHeight, i: int)
    requires ValidTable(t) && 0 <= i < 217
    ensures var g := GridPoints(m, RowsOf(t), 24, 240, Some(mph));
            && g.Success? && |OverlayDataset(g.value)| == 217
            && (OverlayDataset(g.value)[i].Some? <==> 24 + i >= 216)
            && (OverlayDataset(g.value)[i].Some? ==> OverlayDataset(g.value)[i].value == mph.mph)
  {
    AgeGridPoints(m, t, 24, 240, Some(mph));
  }
}
