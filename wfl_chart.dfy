/**
 * The weight-for-length chart (src/components/WeightForLengthChart.tsx):
 * the 45-110 cm grid in half-centimetre steps over the WHO
 * weight-for-length table, the child's inline unit conversions and its
 * single point. The component's own interpolateWFL (lines 310-348) is the
 * same code as the one in calculations.ts, modelled once as
 * Interpolation.InterpolateWfl.
 */
module WflChart {
  import opened Types
  import opened Numerics
  import opened Interpolation
  import opened Conversions
  import opened ChartCurves

  /** A point of the weight-for-length chart: the length in cm and the seven curves. */
  datatype WflPoint = WflPoint(length: real, curves: Curves)

  const StartLength: real := 45.0
  const EndLength: real := 110.0
  /** The index of the last grid step, 110 cm. */
  const LastStep: int := 130

  /** The k-th length of the grid, 45 + k/2 cm. */
  function GridLength(k: int): (len: real)
    ensures 2.0 * len == 90.0 + k as real
  {
    StartLength + k as real * 0.5
  }

  /** interpolateWFL(length, wflData) for each step of the grid. */
  function WflRowsOf(t: seq<LmsPoint>): int -> Option<LmsPoint>
  {
    k => WflLookup(t, GridLength(k))
  }

  /** The points of grid steps k..130 in order, from each step's row; a step without a row is skipped. */
  function WflPoints(m: MathLib, rows: int -> Option<LmsPoint>, k: int, last: int): seq<WflPoint>
    decreases last - k
  {
    if k > last then []
    else match rows(k)
      case None => WflPoints(m, rows, k + 1, last)
      case Some(lms) => [WflPoint(GridLength(k), CurvesAt(m, lms))] + WflPoints(m, rows, k + 1, last)
  }

  /** One step of the chart loop: step k appends its point, if it has a row, and the rest follow. */
  lemma WflPointsStep(m: MathLib, rows: int -> Option<LmsPoint>, k: int, last: int, data: seq<WflPoint>)
    requires k <= last
    ensures data + WflPoints(m, rows, k, last)
            == (if rows(k).Some? then data + [WflPoint(GridLength(k), CurvesAt(m, rows(k).value))] else data)
               + WflPoints(m, rows, k + 1, last)
  {
    if rows(k).Some? {
      var pt := WflPoint(GridLength(k), CurvesAt(m, rows(k).value));
      assert (data + [pt]) + WflPoints(m, rows, k + 1, last) == data + ([pt] + WflPoints(m, rows, k + 1, last));
    }
  }

  /** The chart loop: `for (length = 45; length <= 110; length += 0.5)`, one interpolateWFL call per length. */
  method WflChartData(m: MathLib, t: seq<LmsPoint>) returns (data: seq<WflPoint>)
    ensures data == WflPoints(m, WflRowsOf(t), 0, LastStep)
  {
    ghost var rows := WflRowsOf(t);
    ghost var last := LastStep;
    data := [];
    var length := StartLength;
    ghost var k := 0;
    while length <= EndLength
      invariant 0 <= k <= last + 1 && length == GridLength(k)
      invariant data + WflPoints(m, rows, k, last) == WflPoints(m, rows, 0, last)
      decreases last - k
    {
      var lms := InterpolateWfl(length, t);
      assert lms == rows(k);
      WflPointsStep(m, rows, k, last, data);
      if lms.Some? {
        data := data + [WflPoint(length, CurvesAt(m, lms.value))];
      }
      length := length + 0.5;
      k := k + 1;
    }
    assert data + [] == data;
  }

  /** An empty table gives an empty chart. */
  lemma {:induction false} WflPointsEmpty(m: MathLib, k: int)
    ensures WflPoints(m, WflRowsOf([]), k, LastStep) == []
    decreases LastStep - k
  {
    if k <= LastStep {
      WflPointsEmpty(m, k + 1);
    }
  }

  /** When every step has a row, there is one point per step ... */
  lemma {:induction false} WflPointsLength(m: MathLib, rows: int -> Option<LmsPoint>, k: int, last: int)
    requires k <= last + 1
    requires forall j :: k <= j <= last ==> rows(j).Some?
    ensures |WflPoints(m, rows, k, last)| == last + 1 - k
    decreases last - k
  {
    if k <= last {
      WflPointsLength(m, rows, k + 1, last);
    }
  }

  /** ... and the i-th point is at the length 45 + (k + i)/2 with the curves of that step's row. */
  lemma {:induction false} WflPointAt(m: MathLib, rows: int -> Option<LmsPoint>, k: int, last: int, i: int)
    requires 0 <= i < last + 1 - k
    requires forall j :: k <= j <= last ==> rows(j).Some?
    ensures |WflPoints(m, rows, k, last)| == last + 1 - k
    ensures WflPoints(m, rows, k, last)[i] == WflPoint(GridLength(k + i), CurvesAt(m, rows(k + i).value))
    decreases i
  {
    WflPointsLength(m, rows, k, last);
    var pt := WflPoint(GridLength(k), CurvesAt(m, rows(k).value));
    var rest := WflPoints(m, rows, k + 1, last);
    assert WflPoints(m, rows, k, last) == [pt] + rest;
    if i > 0 {
      WflPointAt(m, rows, k + 1, last, i - 1);
      assert k + 1 + (i - 1) == k + i;
      assert ([pt] + rest)[i] == rest[i - 1];
    }
  }

  /** On a non-empty table interpolateWFL finds a row for every length. */
  lemma WflRowsFound(t: seq<LmsPoint>)
    requires |t| > 0
    ensures forall j :: WflRowsOf(t)(j).Some?
  {
    forall j
      ensures WflRowsOf(t)(j).Some?
    {
      assert WflLookup(t, GridLength(j)).Some?;
    }
  }

  /**
   * On a non-empty table the chart has 131 points, the i-th at the length
   * 45 + i/2 cm (so from 45 to 110 cm, strictly increasing).
   */
  lemma WflChartLengths(m: MathLib, t: seq<LmsPoint>)
    requires |t| > 0
    ensures var g := WflPoints(m, WflRowsOf(t), 0, LastStep);
            && |g| == 131
            && (forall i :: 0 <= i < 131 ==> g[i].length == GridLength(i))
            && g[0].length == 45.0 && g[130].length == 110.0
  {
    WflRowsFound(t);
    WflPointsLength(m, WflRowsOf(t), 0, LastStep);
    forall i | 0 <= i < 131
      ensures WflPoints(m, WflRowsOf(t), 0, LastStep)[i].length == GridLength(i)
    {
      WflPointAt(m, WflRowsOf(t), 0, LastStep, i);
    }
  }

  /** The lengths of the chart strictly increase. */
  lemma WflChartIncreasing(m: MathLib, t: seq<LmsPoint>, i: int, j: int)
    requires |t| > 0 && 0 <= i < j < 131
    ensures var g := WflPoints(m, WflRowsOf(t), 0, LastStep);
            |g| == 131 && g[i].length < g[j].length
  {
    WflChartLengths(m, t);
  }

  /** Point i of the chart carries the curves of the table's row at 45 + i/2 cm. */
  lemma WflChartCurves(m: MathLib, t: seq<LmsPoint>, i: int)
    requires |t| > 0 && 0 <= i < 131
    ensures var g := WflPoints(m, WflRowsOf(t), 0, LastStep);
            && |g| == 131
            && WflLookup(t, GridLength(i)).Some?
            && g[i].curves == CurvesAt(m, WflLookup(t, GridLength(i)).value)
  {
    WflRowsFound(t);
    WflPointAt(m, WflRowsOf(t), 0, LastStep, i);
  }

  /**
   * childWeight: 0 when the weight is missing or zero; the weight when the
   * unit is kg; otherwise (lb, or no unit at all) the weight times 0.45359237.
   */
  function ChildWeight(weight: Option<real>, unit: Option<WeightUnit>): (w: real)
    ensures !Truthy(weight) ==> w == 0.0
    ensures Truthy(weight) && unit.Some? ==> w == WeightInKg(weight.value, unit.value)
    ensures Truthy(weight) && unit.None? ==> w == weight.value * KgPerLb
  {
    if !Truthy(weight) then 0.0
    else if unit == Some(Kg) then weight.value
    else weight.value * KgPerLb
  }

  /** childLength: as childWeight, for cm and inches with 2.54. */
  function ChildLength(height: Option<real>, unit: Option<HeightUnit>): (len: real)
    ensures !Truthy(height) ==> len == 0.0
    ensures Truthy(height) && unit.Some? ==> len == HeightInCm(height.value, unit.value)
    ensures Truthy(height) && unit.None? ==> len == height.value * CmPerInch
  {
    if !Truthy(height) then 0.0
    else if unit == Some(Cm) then height.value
    else height.value * CmPerInch
  }

  /** For a present, non-negative value the inline conversions agree with convertWeight and convertHeight. */
  lemma InlineConversionsAgree(w: real, wu: WeightUnit, h: real, hu: HeightUnit)
    requires w > 0.0 && h > 0.0
    ensures ConvertWeight(w, wu, Kg) == Success(ChildWeight(Some(w), Some(wu)))
    ensures ConvertHeight(h, hu, Cm) == Success(ChildLength(Some(h), Some(hu)))
  {
  }

  /** The lengths of the points. */
  function Lengths(points: seq<WflPoint>): (ls: seq<real>)
    ensures |ls| == |points| && forall i :: 0 <= i < |points| ==> ls[i] == points[i].length
  {
    seq(|points|, i requires 0 <= i < |points| => points[i].length)
  }

  /** The child dataset: the child's weight at the first point within 0.5 cm of the child's length. */
  function ChildWflSeries(points: seq<WflPoint>, child: ChildDraft): (s: seq<Option<real>>)
    ensures |s| == |points|
    ensures forall i :: 0 <= i < |points| ==>
              (s[i].Some? <==> i == FirstWithin(Lengths(points), ChildLength(child.height, child.heightUnit), 0.5))
              && (s[i].Some? ==> s[i].value == ChildWeight(child.weight, child.weightUnit))
  {
    ChildSeries(Lengths(points), ChildLength(child.height, child.heightUnit), 0.5, ChildWeight(child.weight, child.weightUnit))
  }
}
