/**
 * What the three chart components share: the fixed percentile-to-Z table
 * with its nearest-member fallback (calculateHeightForPercentile and its
 * two copies), the LMS curve value, the month grid the two age charts
 * build, the single child point and the `.filter(Boolean)` compaction.
 */
module ChartCurves {
  import opened Types
  import opened Numerics
  import opened Interpolation

  /** The percentiles the switch knows, in the order the fallback scans them. */
  const Supported: seq<real> := [3.0, 10.0, 25.0, 50.0, 75.0, 90.0, 97.0]

  /** Standard normal quantiles of the 97th, 90th and 75th percentiles. */
  const Z97: real := 1.8807936081512509
  const Z90: real := 1.2815515655446004
  const Z75: real := 0.6744897501960817

  /**
   * The switch of calculateHeightForPercentile: a fixed Z for each supported
   * percentile, none for the rest. The table is antisymmetric about the
   * median: p and 100 - p get opposite values.
   */
  function FixedZ(p: real): (r: Option<real>)
    ensures r.Some? <==> p in Supported
    ensures r.Some? ==> (r.value < 0.0 <==> p < 50.0) && (r.value == 0.0 <==> p == 50.0)
  {
    if p == 3.0 then Some(-Z97)
    else if p == 10.0 then Some(-Z90)
    else if p == 25.0 then Some(-Z75)
    else if p == 50.0 then Some(0.0)
    else if p == 75.0 then Some(Z75)
    else if p == 90.0 then Some(Z90)
    else if p == 97.0 then Some(Z97)
    else None
  }

  /** The fixed table is antisymmetric about the median: p and 100 - p get opposite values. */
  lemma FixedZAntisymmetric(p: real)
    requires p in Supported
    ensures 100.0 - p in Supported
    ensures FixedZ(100.0 - p).value == -FixedZ(p).value
  {
  }

  /** A higher supported percentile has a higher fixed Z. */
  lemma FixedZIncreasing(i: int, j: int)
    requires 0 <= i < j < |Supported|
    ensures FixedZ(Supported[i]).value < FixedZ(Supported[j]).value
  {
  }

  /** The reduce of the fallback: keep the accumulator unless the next member is strictly closer. */
  function NearestFrom(p: real, acc: real, rest: seq<real>): (n: real)
    ensures n == acc || exists i :: 0 <= i < |rest| && n == rest[i]
    ensures Abs(n - p) <= Abs(acc - p)
    ensures forall i :: 0 <= i < |rest| ==> Abs(n - p) <= Abs(rest[i] - p)
    decreases |rest|
  {
    if |rest| == 0 then acc
    else
      var n := NearestFrom(p, if Abs(rest[0] - p) < Abs(acc - p) then rest[0] else acc, rest[1..]);
      assert forall i :: 1 <= i < |rest| ==> rest[i] == rest[1..][i - 1];
      n
  }

  /** supported.reduce(..., 50): a supported percentile at minimum distance from p. */
  function Nearest(p: real): (n: real)
    ensures exists i :: 0 <= i < |Supported| && n == Supported[i]
    ensures forall i :: 0 <= i < |Supported| ==> Abs(n - p) <= Abs(Supported[i] - p)
  {
    assert Supported[3] == 50.0;
    NearestFrom(p, 50.0, Supported)
  }

  /** Starting from 50 with a strict comparison, a tie with the median resolves to the median. */
  lemma NearestPrefersMedian(p: real)
    requires forall i :: 0 <= i < |Supported| ==> Abs(50.0 - p) <= Abs(Supported[i] - p)
    ensures Nearest(p) == 50.0
  {
    NearestFromKeeps(p, 50.0, Supported);
  }

  lemma {:induction false} NearestFromKeeps(p: real, acc: real, rest: seq<real>)
    requires forall i :: 0 <= i < |rest| ==> Abs(acc - p) <= Abs(rest[i] - p)
    ensures NearestFrom(p, acc, rest) == acc
    decreases |rest|
  {
    if |rest| > 0 {
      assert forall i :: 0 <= i < |rest[1..]| ==> rest[1..][i] == rest[i + 1];
      NearestFromKeeps(p, acc, rest[1..]);
    }
  }

  /** 37.5 is as far from 25 as from 50: the fallback picks 50. */
  lemma NearestTieExample()
    ensures Nearest(37.5) == 50.0
  {
    NearestPrefersMedian(37.5);
  }

  /** A supported percentile is its own nearest member. */
  lemma NearestOfSupported(p: real)
    requires p in Supported
    ensures Nearest(p) == p
  {
    var j :| 0 <= j < |Supported| && Supported[j] == p;
    var n := Nearest(p);
    assert Abs(n - p) <= Abs(Supported[j] - p);
  }

  /** The Z a curve uses: the fixed one, or that of the nearest supported percentile. */
  function ZFor(p: real): (z: real)
    ensures p in Supported ==> Some(z) == FixedZ(p)
  {
    match FixedZ(p)
    case Some(z) => z
    case None => FixedZ(Nearest(p)).value
  }

  /** An unsupported percentile is drawn on the curve of its nearest supported one. */
  lemma ZForFallback(p: real)
    requires p !in Supported
    ensures ZFor(p) == ZFor(Nearest(p))
  {
    var j :| 0 <= j < |Supported| && Supported[j] == Nearest(p);
  }

  /** M (1 + L S z)^(1/L), or M e^(S z) when L is zero: the measurement at Z-score z. */
  function CurveValue(m: MathLib, lms: LmsPoint, z: real): real
  {
    if lms.L != 0.0 then lms.M * m.pow(1.0 + lms.L * lms.S * z, 1.0 / lms.L)
    else lms.M * m.exp(lms.S * z)
  }

  /** The seven percentile curves at one LMS row. */
  function CurvesAt(m: MathLib, lms: LmsPoint): Curves
  {
    Curves(CurveValue(m, lms, -Z97), CurveValue(m, lms, -Z90), CurveValue(m, lms, -Z75),
           CurveValue(m, lms, 0.0), CurveValue(m, lms, Z75), CurveValue(m, lms, Z90),
           CurveValue(m, lms, Z97))
  }

  /** Each of the seven curves is calculateHeightForPercentile at its percentile. */
  lemma CurvesAtUseZFor(m: MathLib, lms: LmsPoint)
    ensures var c := CurvesAt(m, lms);
            && c.p3 == CurveValue(m, lms, ZFor(3.0)) && c.p10 == CurveValue(m, lms, ZFor(10.0))
            && c.p25 == CurveValue(m, lms, ZFor(25.0)) && c.p50 == CurveValue(m, lms, ZFor(50.0))
            && c.p75 == CurveValue(m, lms, ZFor(75.0)) && c.p90 == CurveValue(m, lms, ZFor(90.0))
            && c.p97 == CurveValue(m, lms, ZFor(97.0))
  {
    SupportedZ();
  }

  /** The 50th-percentile curve is the median M, in both branches. */
  lemma MedianCurveIsM(m: MathLib, lms: LmsPoint)
    requires Lawful(m)
    ensures CurvesAt(m, lms).p50 == lms.M
  {
    if lms.L != 0.0 {
      assert 1.0 + lms.L * lms.S * 0.0 == 1.0;
      assert m.pow(1.0, 1.0 / lms.L) == 1.0;
    } else {
      assert lms.S * 0.0 == 0.0;
    }
  }

  /** With L = 1 (every WHO height row) and M, S > 0 the seven curves are strictly ordered. */
  lemma CurvesOrderedWhenLinear(m: MathLib, lms: LmsPoint)
    requires Lawful(m)
    requires lms.L == 1.0 && lms.M > 0.0 && lms.S > 0.0
    ensures var c := CurvesAt(m, lms);
            c.p3 < c.p10 < c.p25 < c.p50 < c.p75 < c.p90 < c.p97
  {
    CurveIncreasing(m, lms, -Z97, -Z90);
    CurveIncreasing(m, lms, -Z90, -Z75);
    CurveIncreasing(m, lms, -Z75, 0.0);
    CurveIncreasing(m, lms, 0.0, Z75);
    CurveIncreasing(m, lms, Z75, Z90);
    CurveIncreasing(m, lms, Z90, Z97);
  }

  /** The seven Z values the chart points use. */
  lemma SupportedZ()
    ensures ZFor(3.0) == -Z97 && ZFor(10.0) == -Z90 && ZFor(25.0) == -Z75 && ZFor(50.0) == 0.0
    ensures ZFor(75.0) == Z75 && ZFor(90.0) == Z90 && ZFor(97.0) == Z97
  {
    assert Supported[0] == 3.0 && Supported[1] == 10.0 && Supported[2] == 25.0 && Supported[3] == 50.0;
    assert Supported[4] == 75.0 && Supported[5] == 90.0 && Supported[6] == 97.0;
  }

  /** With L = 1 the curve is M (1 + S z), increasing in z. */
  lemma CurveIncreasing(m: MathLib, lms: LmsPoint, x: real, y: real)
    requires Lawful(m)
    requires lms.L == 1.0 && lms.M > 0.0 && lms.S > 0.0 && x < y
    ensures CurveValue(m, lms, x) < CurveValue(m, lms, y)
  {
    assert 1.0 / lms.L == 1.0;
    assert m.pow(1.0 + lms.L * lms.S * x, 1.0) == 1.0 + lms.S * x;
    assert m.pow(1.0 + lms.L * lms.S * y, 1.0) == 1.0 + lms.S * y;
    MulPositive(lms.S, y - x);
    MulPositive(lms.M, lms.S * (y - x));
    assert lms.M * (1.0 + lms.S * y) - lms.M * (1.0 + lms.S * x) == lms.M * (lms.S * (y - x));
  }

  // ---------------------------------------------------------------------------
  // The month grid (GrowthChart.tsx:37-141, WeightChart.tsx:36-128)
  // ---------------------------------------------------------------------------

  /** The chart window: months 24 to 240 past 24 months, 0 to 24 otherwise. */
  function AgeWindow(ageInMonths: real): (w: (int, int))
    ensures ageInMonths > 24.0 ==> w == (24, 240)
    ensures ageInMonths <= 24.0 ==> w == (0, 24)
  {
    if ageInMonths > 24.0 then (24, 240) else (0, 24)
  }

  /**
   * One chart point: the age in years, the seven curves and, when an
   * overlay is given and the month is 216 (18 years) or later, the
   * mid-parental height and the target range fields.
   */
  function PointAt(m: MathLib, lms: LmsPoint, month: int, overlay: Option<MidParentalHeight>): ChartPoint
  {
    var age := month as real / 12.0;
    if overlay.Some? && month >= 216 then
      var v := overlay.value;
      ChartPoint(age, CurvesAt(m, lms), Some(v.mph), Some(v.thrLevel1Min), Some(v.thrLevel1Max),
                 v.thrLevel2Min, v.thrLevel2Max)
    else
      ChartPoint(age, CurvesAt(m, lms), None, None, None, None, None)
  }

  /**
   * The point of a month: its age in years is month / 12, its curves are
   * the row's, and the overlay fields are set exactly when an overlay is
   * given and the month is 216 (18 years) or later.
   */
  lemma PointAtFacts(m: MathLib, lms: LmsPoint, month: int, overlay: Option<MidParentalHeight>)
    ensures var pt := PointAt(m, lms, month, overlay);
            && pt.age * 12.0 == month as real
            && pt.curves == CurvesAt(m, lms)
            && (pt.mphLine.Some? <==> overlay.Some? && month >= 216)
            && (pt.mphLine.Some? ==> pt.mphLine.value == overlay.value.mph
                                     && pt.thrLevel1Min == Some(overlay.value.thrLevel1Min)
                                     && pt.thrLevel1Max == Some(overlay.value.thrLevel1Max)
                                     && pt.thrLevel2Min == overlay.value.thrLevel2Min
                                     && pt.thrLevel2Max == overlay.value.thrLevel2Max)
            && (pt.mphLine.None? ==> pt.thrLevel1Min.None? && pt.thrLevel1Max.None?
                                     && pt.thrLevel2Min.None? && pt.thrLevel2Max.None?)
  {
  }

  /** interpolateLMS(ageMonths, lmsData) for each month of the grid. */
  function RowsOf(t: seq<LmsPoint>): int -> Result<LmsPoint>
  {
    month => Interpolate(t, month as real)
  }

  /** The point the loop pushes for a month's row. */
  function PointMaker(m: MathLib, overlay: Option<MidParentalHeight>): (LmsPoint, int) -> ChartPoint
  {
    (lms, month) => PointAt(m, lms, month, overlay)
  }

  /** The points of months month..end in order, one `point` per month's row, or the first row's error. */
  function Grid(rows: int -> Result<LmsPoint>, point: (LmsPoint, int) -> ChartPoint, month: int, end: int)
    : Result<seq<ChartPoint>>
    decreases end - month
  {
    if month > end then Success([])
    else match rows(month)
      case Failure(e) => Failure(e)
      case Success(lms) => Prepend([point(lms, month)], Grid(rows, point, month + 1, end))
  }

  /** The age grid of the two age charts: a chart point per month, from each month's row. */
  function GridPoints(m: MathLib, rows: int -> Result<LmsPoint>, month: int, end: int, overlay: Option<MidParentalHeight>)
    : Result<seq<ChartPoint>>
  {
    Grid(rows, PointMaker(m, overlay), month, end)
  }

  /** The points already pushed, followed by the rest of the grid. */
  function Prepend(data: seq<ChartPoint>, rest: Result<seq<ChartPoint>>): (r: Result<seq<ChartPoint>>)
    ensures r.Failure? <==> rest.Failure?
    ensures r.Success? ==> r.value == data + rest.value
  {
    match rest
    case Failure(e) => Failure(e)
    case Success(s) => Success(data + s)
  }

  /**
   * The chart loop: one interpolateLMS call per month on the caller's
   * table, one point pushed per month. A call may sort the table in place;
   * every call finds the row the sorted table gives.
   */
  method BuildAgeGrid(m: MathLib, table: array<LmsPoint>, start: int, end: int, overlay: Option<MidParentalHeight>)
    returns (r: Result<seq<ChartPoint>>)
    modifies table
    ensures table[..] == old(table[..]) || table[..] == SortTable(old(table[..]))
    ensures SortedByX(old(table[..])) ==> table[..] == old(table[..])
    ensures r == GridPoints(m, RowsOf(SortTable(old(table[..]))), start, end, overlay)
  {
    ghost var o := table[..];
    ghost var sorted := SortTable(o);
    SortTableOfSorted(o);
    ghost var rows := RowsOf(sorted);
    ghost var point := PointMaker(m, overlay);
    var data: seq<ChartPoint> := [];
    var month := start;
    PrependNothing(Grid(rows, point, month, end));
    while month <= end
      invariant table[..] == o || table[..] == sorted
      invariant Grid(rows, point, start, end) == Prepend(data, Grid(rows, point, month, end))
      decreases end - month
    {
      var lms := RowOfMonth(table, o, sorted, month);
      if lms.Failure? {
        return Failure(lms.error);
      }
      var pt := PointAt(m, lms.value, month, overlay);
      assert pt == point(lms.value, month);
      PrependStep(data, pt, Grid(rows, point, month + 1, end));
      data := data + [pt];
      month := month + 1;
    }
    assert data + [] == data;
    return Success(data);
  }

  /** One interpolateLMS call of the chart loop, on a table an earlier call may have sorted. */
  method RowOfMonth(table: array<LmsPoint>, ghost o: seq<LmsPoint>, ghost sorted: seq<LmsPoint>, month: int)
    returns (lms: Result<LmsPoint>)
    requires sorted == SortTable(o)
    requires table[..] == o || table[..] == sorted
    modifies table
    ensures table[..] == o || table[..] == sorted
    ensures lms == RowsOf(sorted)(month)
  {
    ghost var c := table[..];
    lms := InterpolateLms(month as real, table);
    TableSeenByCall(o, c, table[..], month as real, lms);
  }

  /** Whether or not an earlier call sorted the table, a call finds the sorted table's row and leaves it sorted or as it was. */
  lemma TableSeenByCall(o: seq<LmsPoint>, c: seq<LmsPoint>, after: seq<LmsPoint>, q: real, lms: Result<LmsPoint>)
    requires c == o || c == SortTable(o)
    requires lms == InterpolateTable(c, q)
    requires after == c || after == SortTable(c)
    ensures lms == Interpolate(SortTable(o), q)
    ensures after == o || after == SortTable(o)
  {
    InterpolateTableOfSorted(o, q);
    SortTableOfSorted(SortTable(o));
  }

  lemma PrependStep(data: seq<ChartPoint>, p: ChartPoint, rest: Result<seq<ChartPoint>>)
    ensures Prepend(data, Prepend([p], rest)) == Prepend(data + [p], rest)
  {
    if rest.Success? {
      assert data + ([p] + rest.value) == (data + [p]) + rest.value;
    }
  }

  lemma PrependNothing(r: Result<seq<ChartPoint>>)
    ensures Prepend([], r) == r
  {
    if r.Success? {
      assert [] + r.value == r.value;
    }
  }

  /** When every month's row is found, the grid has one point per month ... */
  lemma {:induction false} GridSize(rows: int -> Result<LmsPoint>, point: (LmsPoint, int) -> ChartPoint, start: int, end: int)
    requires start <= end + 1
    requires forall k :: start <= k <= end ==> rows(k).Success?
    ensures Grid(rows, point, start, end).Success?
    ensures |Grid(rows, point, start, end).value| == end - start + 1
    decreases end - start
  {
    if start <= end {
      GridSize(rows, point, start + 1, end);
    }
  }

  /** ... and its i-th point is the point of month start + i at that month's row. */
  lemma {:induction false} GridAt(rows: int -> Result<LmsPoint>, point: (LmsPoint, int) -> ChartPoint, start: int, end: int, i: int)
    requires 0 <= i < end - start + 1
    requires forall k :: start <= k <= end ==> rows(k).Success?
    ensures Grid(rows, point, start, end).Success?
    ensures |Grid(rows, point, start, end).value| == end - start + 1
    ensures Grid(rows, point, start, end).value[i] == point(rows(start + i).value, start + i)
    decreases i
  {
    GridSize(rows, point, start, end);
    GridSize(rows, point, start + 1, end);
    if i > 0 {
      GridAt(rows, point, start + 1, end, i - 1);
      assert start + 1 + (i - 1) == start + i;
    }
  }

  /** On a valid table interpolateLMS finds a row for every month from 0 on. */
  lemma RowsFound(t: seq<LmsPoint>, start: int, end: int)
    requires ValidTable(t) && 0 <= start
    ensures forall k :: start <= k <= end ==> RowsOf(t)(k).Success?
  {
    forall k | start <= k <= end
      ensures RowsOf(t)(k).Success?
    {
      InterpolatePositive(t, k as real);
    }
  }

  /** On a valid table the grid from month `start` on has a point for every month, at that month's row. */
  lemma AgeGridPoints(m: MathLib, t: seq<LmsPoint>, start: int, end: int, overlay: Option<MidParentalHeight>)
    requires ValidTable(t) && 0 <= start <= end + 1
    ensures GridPoints(m, RowsOf(t), start, end, overlay).Success?
    ensures |GridPoints(m, RowsOf(t), start, end, overlay).value| == end - start + 1
    ensures forall i :: 0 <= i < end - start + 1 ==>
              Interpolate(t, (start + i) as real).Success?
              && GridPoints(m, RowsOf(t), start, end, overlay).value[i]
                 == PointAt(m, Interpolate(t, (start + i) as real).value, start + i, overlay)
  {
    RowsFound(t, start, end);
    GridSize(RowsOf(t), PointMaker(m, overlay), start, end);
    forall i | 0 <= i < end - start + 1
      ensures Interpolate(t, (start + i) as real).Success?
      ensures GridPoints(m, RowsOf(t), start, end, overlay).value[i]
              == PointAt(m, Interpolate(t, (start + i) as real).value, start + i, overlay)
    {
      GridAt(RowsOf(t), PointMaker(m, overlay), start, end, i);
      var lms := RowsOf(t)(start + i).value;
      assert lms == Interpolate(t, (start + i) as real).value;
      assert PointMaker(m, overlay)(lms, start + i) == PointAt(m, lms, start + i, overlay);
    }
  }

  /** The chart window holds 217 points past 24 months and 25 otherwise. */
  lemma AgeChartLength(m: MathLib, t: seq<LmsPoint>, ageInMonths: real, overlay: Option<MidParentalHeight>)
    requires ValidTable(t)
    ensures GridPoints(m, RowsOf(t), AgeWindow(ageInMonths).0, AgeWindow(ageInMonths).1, overlay).Success?
    ensures |GridPoints(m, RowsOf(t), AgeWindow(ageInMonths).0, AgeWindow(ageInMonths).1, overlay).value|
            == if ageInMonths > 24.0 then 217 else 25
  {
    AgeGridPoints(m, t, AgeWindow(ageInMonths).0, AgeWindow(ageInMonths).1, overlay);
  }

  /**
   * Point i of the grid is month start + i: its age is (start + i) / 12
   * years, so ages strictly increase; it carries the overlay exactly from
   * month 216 on; and its 50th-percentile curve is the row's median.
   */
  lemma AgeGridPointFacts(m: MathLib, t: seq<LmsPoint>, start: int, end: int, overlay: Option<MidParentalHeight>, i: int, j: int)
    requires ValidTable(t) && Lawful(m) && 0 <= start && 0 <= i < j < end - start + 1
    ensures var g := GridPoints(m, RowsOf(t), start, end, overlay);
            && g.Success? && |g.value| == end - start + 1
            && g.value[i].age * 12.0 == (start + i) as real
            && g.value[i].age < g.value[j].age
            && (g.value[i].mphLine.Some? <==> overlay.Some? && start + i >= 216)
            && g.value[i].curves.p50 == Interpolate(t, (start + i) as real).value.M
  {
    AgeGridPoints(m, t, start, end, overlay);
    MedianCurveIsM(m, Interpolate(t, (start + i) as real).value);
  }

  // ---------------------------------------------------------------------------
  // The child's single point and the compacted overlay series
  // ---------------------------------------------------------------------------

  /** findIndex: the first index whose key is within tol of the target, or -1. */
  function FirstWithin(keys: seq<real>, target: real, tol: real): (i: int)
    ensures -1 <= i < |keys|
    ensures i >= 0 ==> Abs(keys[i] - target) < tol
    ensures forall j :: 0 <= j < |keys| && (i == -1 || j < i) ==> Abs(keys[j] - target) >= tol
  {
    if |keys| == 0 then -1
    else if Abs(keys[0] - target) < tol then 0
    else
      var k := FirstWithin(keys[1..], target, tol);
      if k == -1 then -1 else k + 1
  }

  /**
   * The child dataset: `value` at the first key within tol of the target
   * and undefined everywhere else.
   */
  function ChildSeries(keys: seq<real>, target: real, tol: real, value: real): (s: seq<Option<real>>)
    ensures |s| == |keys|
    ensures forall i :: 0 <= i < |s| ==> (s[i].Some? <==> i == FirstWithin(keys, target, tol))
    ensures forall i :: 0 <= i < |s| && s[i].Some? ==> s[i].value == value
  {
    var first := FirstWithin(keys, target, tol);
    seq(|keys|, i requires 0 <= i < |keys| =>
      if Abs(keys[i] - target) < tol && first == i then Some(value) else None)
  }

  /** At most one point is drawn, and one is drawn exactly when some key is close enough. */
  lemma ChildSeriesSingle(keys: seq<real>, target: real, tol: real, value: real)
    ensures var s := ChildSeries(keys, target, tol, value);
            && (forall i, j :: 0 <= i < |s| && 0 <= j < |s| && s[i].Some? && s[j].Some? ==> i == j)
            && ((exists i :: 0 <= i < |s| && s[i].Some?) <==> (exists j :: 0 <= j < |keys| && Abs(keys[j] - target) < tol))
  {
    var s := ChildSeries(keys, target, tol, value);
    var f := FirstWithin(keys, target, tol);
    if exists j :: 0 <= j < |keys| && Abs(keys[j] - target) < tol {
      assert f >= 0 && s[f].Some?;
    }
  }

  /** `.filter(Boolean)`: the defined, non-zero values, without their positions. */
  function Compact(s: seq<Option<real>>): (r: seq<real>)
    ensures |r| <= |s|
    ensures forall x :: x in r ==> x != 0.0 && Some(x) in s
  {
    if |s| == 0 then []
    else if Truthy(s[0]) then [s[0].value] + Compact(s[1..])
    else Compact(s[1..])
  }
}
