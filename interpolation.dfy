/**
 * The LMS interpolator of src/utils/calculations.ts: interpolateLMS (which
 * sorts the caller's table in place before scanning it) and interpolateWFL
 * (an index scan over a weight-for-length table). Both clamp to the end rows
 * and interpolate L, M and S linearly in between.
 */
module Interpolation {
  import opened Types
  import opened Numerics

  /** Ascending by key, ties allowed: what `sort((a, b) => a.ageMonths - b.ageMonths)` produces. */
  ghost predicate SortedByX(t: seq<LmsPoint>)
  {
    forall i, j :: 0 <= i < j < |t| ==> t[i].x <= t[j].x
  }

  /** Strictly ascending keys, stated on neighbours (how the constant tables are checked). */
  predicate StrictlyIncreasing(t: seq<LmsPoint>)
  {
    forall i :: 0 < i < |t| ==> t[i - 1].x < t[i].x
  }

  /** M and S positive in every row: the LMS formula is defined only then. */
  predicate PositiveMS(t: seq<LmsPoint>)
  {
    forall i :: 0 <= i < |t| ==> t[i].M > 0.0 && t[i].S > 0.0
  }

  /** The shape every reference table has: non-empty, strictly ascending, M and S positive. */
  ghost predicate WellFormedTable(t: seq<LmsPoint>)
  {
    |t| > 0 && StrictlyIncreasing(t) && PositiveMS(t)
  }

  /** 25 rows at ages 0, 1, ..., 24 months: the layout of the WHO tables. */
  predicate MonthlyAges(t: seq<LmsPoint>)
  {
    |t| == 25 && forall i :: 0 <= i < |t| ==> t[i].x == i as real
  }

  /** The median grows from row to row. */
  predicate MIncreasing(t: seq<LmsPoint>)
  {
    forall i :: 0 < i < |t| ==> t[i - 1].M < t[i].M
  }

  /** The Box-Cox power falls from row to row. */
  predicate LDecreasing(t: seq<LmsPoint>)
  {
    forall i :: 0 < i < |t| ==> t[i - 1].L > t[i].L
  }

  /** What the engine needs of a reference table it has not seen: rows, ascending keys, positive M and S. */
  ghost predicate ValidTable(t: seq<LmsPoint>)
  {
    |t| > 0 && SortedByX(t) && PositiveMS(t)
  }

  lemma WellFormedIsValid(t: seq<LmsPoint>)
    requires WellFormedTable(t)
    ensures ValidTable(t)
  {
    StrictlyIncreasingIsSorted(t);
  }

  lemma {:induction false} StrictlyIncreasingIsSorted(t: seq<LmsPoint>)
    requires StrictlyIncreasing(t)
    ensures forall i, j :: 0 <= i < j < |t| ==> t[i].x < t[j].x
    ensures SortedByX(t)
  {
    if |t| > 1 {
      StrictlyIncreasingIsSorted(t[..|t| - 1]);
      assert forall i :: 0 <= i < |t| - 1 ==> t[i].x < t[|t| - 1].x by {
        forall i | 0 <= i < |t| - 1 ensures t[i].x < t[|t| - 1].x {
          if i < |t| - 2 {
            assert t[..|t| - 1][i].x < t[..|t| - 1][|t| - 2].x;
          }
        }
      }
    }
  }

  // ---------------------------------------------------------------------------
  // Linear interpolation between two rows
  // ---------------------------------------------------------------------------

  predicate Between(v: real, a: real, b: real)
  {
    Min(a, b) <= v <= Max(a, b)
  }

  /** L, M and S of `r` each lie between the corresponding values of `lo` and `hi`. */
  predicate RowBetween(r: LmsPoint, lo: LmsPoint, hi: LmsPoint)
  {
    Between(r.L, lo.L, hi.L) && Between(r.M, lo.M, hi.M) && Between(r.S, lo.S, hi.S)
  }

  /** The row at key q on the straight line through `lo` and `hi`. */
  function Lerp(lo: LmsPoint, hi: LmsPoint, q: real): LmsPoint
    requires lo.x != hi.x
  {
    var ratio := (q - lo.x) / (hi.x - lo.x);
    LmsPoint(q, lo.L + (hi.L - lo.L) * ratio, lo.M + (hi.M - lo.M) * ratio, lo.S + (hi.S - lo.S) * ratio)
  }

  lemma MulNonNegative(x: real, y: real)
    requires x >= 0.0 && y >= 0.0
    ensures x * y >= 0.0
  {
  }

  lemma BetweenOfRatio(a: real, b: real, ratio: real)
    requires 0.0 <= ratio <= 1.0
    ensures Between(a + (b - a) * ratio, a, b)
  {
    assert (b - a) * (1.0 - ratio) == (b - a) - (b - a) * ratio;
    if a <= b {
      MulNonNegative(b - a, ratio);
      MulNonNegative(b - a, 1.0 - ratio);
    } else {
      MulNonNegative(a - b, ratio);
      MulNonNegative(a - b, 1.0 - ratio);
    }
  }

  /** A quotient of 0 <= n <= d by a positive d lies in [0, 1]. */
  lemma RatioInUnit(n: real, d: real)
    requires d > 0.0 && 0.0 <= n <= d
    ensures 0.0 <= n / d <= 1.0
  {
    var r := n / d;
    assert r * d == n;
    if r < 0.0 {
      MulNonNegative(-r, d);
    } else if r > 1.0 {
      MulNonNegative(r - 1.0, d);
    }
  }

  /** Between two bracketing rows the interpolated row has key q and L, M, S in between. */
  lemma LerpBetween(lo: LmsPoint, hi: LmsPoint, q: real)
    requires lo.x <= q <= hi.x && lo.x < hi.x
    ensures Lerp(lo, hi, q).x == q
    ensures RowBetween(Lerp(lo, hi, q), lo, hi)
  {
    var ratio := (q - lo.x) / (hi.x - lo.x);
    RatioInUnit(q - lo.x, hi.x - lo.x);
    BetweenOfRatio(lo.L, hi.L, ratio);
    BetweenOfRatio(lo.M, hi.M, ratio);
    BetweenOfRatio(lo.S, hi.S, ratio);
  }

  /** Interpolation between rows with positive M and S keeps M and S positive. */
  lemma BetweenKeepsPositive(r: LmsPoint, lo: LmsPoint, hi: LmsPoint)
    requires RowBetween(r, lo, hi)
    requires lo.M > 0.0 && lo.S > 0.0 && hi.M > 0.0 && hi.S > 0.0
    ensures r.M > 0.0 && r.S > 0.0
  {
  }

  // ---------------------------------------------------------------------------
  // interpolateLMS (calculations.ts:83-139)
  // ---------------------------------------------------------------------------

  /** `lmsData.find(data => data.ageMonths === q)`: the first row with key q, or |t| when none. */
  function IndexOfKey(t: seq<LmsPoint>, q: real): (i: nat)
    ensures i <= |t|
    ensures i < |t| ==> t[i].x == q
    ensures forall j :: 0 <= j < i ==> t[j].x != q
  {
    if |t| == 0 then 0
    else if t[0].x == q then 0
    else 1 + IndexOfKey(t[1..], q)
  }

  /** The bracket test of the scan at calculations.ts:104. */
  predicate Brackets(t: seq<LmsPoint>, i: int, q: real)
    requires 0 <= i && i + 1 < |t|
  {
    t[i].x <= q && t[i + 1].x >= q
  }

  /** The index at which the scan of calculations.ts:103-109 stops (from i on), or |t| when it finds no bracket. */
  function FirstBracketFrom(t: seq<LmsPoint>, q: real, i: nat): (b: nat)
    requires i <= |t|
    ensures i <= b <= |t|
    ensures b == |t| || (b + 1 < |t| && Brackets(t, b, q))
    ensures forall j :: i <= j < b && j + 1 < |t| ==> !Brackets(t, j, q)
    decreases |t| - i
  {
    if i + 1 >= |t| then |t|
    else if Brackets(t, i, q) then i
    else FirstBracketFrom(t, q, i + 1)
  }

  /**
   * What interpolateLMS returns after the exact-match test failed, from the
   * (sorted) table: the endpoint row when no bracket exists, otherwise the
   * interpolated row. The `ageDiff === 0` branch of the source cannot be
   * taken here, because no row has key q.
   */
  function ScanResult(t: seq<LmsPoint>, q: real): LmsPoint
    requires |t| > 0 && IndexOfKey(t, q) == |t|
  {
    var b := FirstBracketFrom(t, q, 0);
    if b == |t| then
      (if q < t[0].x then t[0] else t[|t| - 1])
    else
      assert t[b].x != q && t[b + 1].x != q;
      Lerp(t[b], t[b + 1], q)
  }

  /** interpolateLMS on a table that needs no reordering (the spec of the method below). */
  function Interpolate(t: seq<LmsPoint>, q: real): Result<LmsPoint>
  {
    if q < 0.0 then Failure(NegativeAge)
    else if |t| == 0 then Failure(EmptyTable)
    else if IndexOfKey(t, q) < |t| then Success(t[IndexOfKey(t, q)])
    else Success(ScanResult(t, q))
  }

  /**
   * interpolateLMS as a function of the caller's table in whatever order it
   * comes: the exact-match test runs on the table as given, the scan on the
   * sorted table. Sorting a sorted table changes nothing, so the sort the
   * source leaves behind in the shared table does not change later results.
   */
  function InterpolateTable(t: seq<LmsPoint>, q: real): (r: Result<LmsPoint>)
    ensures q < 0.0 ==> r == Failure(NegativeAge)
    ensures q >= 0.0 && |t| == 0 ==> r == Failure(EmptyTable)
    ensures r.Success? <==> q >= 0.0 && |t| > 0
    ensures SortedByX(t) ==> r == Interpolate(t, q)
  {
    SortTableOfSorted(t);
    if q < 0.0 then Failure(NegativeAge)
    else if |t| == 0 then Failure(EmptyTable)
    else if IndexOfKey(t, q) < |t| then Success(t[IndexOfKey(t, q)])
    else Interpolate(SortTable(t), q)
  }

  /**
   * Inserts a row before the first row with a larger key, so after every row
   * with the same key: one step of a stable insertion sort.
   */
  function InsertByX(p: LmsPoint, s: seq<LmsPoint>): (r: seq<LmsPoint>)
    ensures |r| == |s| + 1
  {
    if |s| == 0 then [p]
    else if p.x < s[0].x then [p] + s
    else
      assert s == [s[0]] + s[1..];
      [s[0]] + InsertByX(p, s[1..])
  }

  /** An insertion adds exactly the new row. */
  lemma {:induction false} InsertPermutes(p: LmsPoint, s: seq<LmsPoint>)
    ensures multiset(InsertByX(p, s)) == multiset(s) + multiset{p}
  {
    if |s| > 0 && p.x >= s[0].x {
      InsertPermutes(p, s[1..]);
      assert s == [s[0]] + s[1..];
    }
  }

  /** Inserting into sorted rows keeps them sorted; the first row is the new one or the old first. */
  lemma {:induction false} InsertSorted(p: LmsPoint, s: seq<LmsPoint>)
    requires SortedByX(s)
    ensures SortedByX(InsertByX(p, s))
    ensures |s| > 0 ==> InsertByX(p, s)[0] == p || InsertByX(p, s)[0] == s[0]
  {
    if |s| > 0 && p.x >= s[0].x {
      var r' := InsertByX(p, s[1..]);
      InsertSorted(p, s[1..]);
      var r := [s[0]] + r';
      assert InsertByX(p, s) == r;
      forall i, j | 0 <= i < j < |r| ensures r[i].x <= r[j].x {
        if i == 0 {
          assert r[0].x <= r'[0].x;
          assert r'[0].x <= r'[j - 1].x || j == 1;
        } else {
          assert r[i] == r'[i - 1] && r[j] == r'[j - 1];
        }
      }
    }
  }

  /** Where the insertion stops: after the rows with keys up to p's, before the larger ones. */
  lemma {:induction false} InsertSplit(p: LmsPoint, s: seq<LmsPoint>, j: nat)
    requires j <= |s|
    requires forall k :: 0 <= k < j ==> s[k].x <= p.x
    requires forall k :: j <= k < |s| ==> s[k].x > p.x
    ensures InsertByX(p, s) == s[..j] + [p] + s[j..]
  {
    if j == 0 {
      assert s[..0] + [p] + s[0..] == [p] + s;
    } else {
      var tail := s[1..];
      assert InsertByX(p, s) == [s[0]] + InsertByX(p, tail);
      assert forall k :: 0 <= k < j - 1 ==> tail[k].x <= p.x by {
        forall k | 0 <= k < j - 1 ensures tail[k].x <= p.x {
          assert tail[k] == s[k + 1];
        }
      }
      assert forall k :: j - 1 <= k < |tail| ==> tail[k].x > p.x by {
        forall k | j - 1 <= k < |tail| ensures tail[k].x > p.x {
          assert tail[k] == s[k + 1];
        }
      }
      InsertSplit(p, tail, j - 1);
      assert tail[..j - 1] == s[1..j] && tail[j - 1..] == s[j..];
      assert [s[0]] + (s[1..j] + [p] + s[j..]) == ([s[0]] + s[1..j]) + [p] + s[j..];
      assert [s[0]] + s[1..j] == s[..j];
    }
  }

  /** A slice of sorted rows is sorted. */
  lemma SortedSlice(s: seq<LmsPoint>, lo: nat, hi: nat)
    requires SortedByX(s) && lo <= hi <= |s|
    ensures SortedByX(s[lo..hi])
  {
    forall a, b | 0 <= a < b < hi - lo ensures s[lo..hi][a].x <= s[lo..hi][b].x {
      assert s[lo..hi][a] == s[lo + a] && s[lo..hi][b] == s[lo + b];
    }
  }

  /**
   * Array.prototype.sort with the age comparator, which is stable: each row
   * in turn is inserted into the sorted rows before it.
   */
  function SortTable(t: seq<LmsPoint>): (s: seq<LmsPoint>)
    ensures |s| == |t|
    ensures SortedByX(s)
  {
    if |t| == 0 then []
    else
      InsertSorted(t[|t| - 1], SortTable(t[..|t| - 1]));
      InsertByX(t[|t| - 1], SortTable(t[..|t| - 1]))
  }

  /** The sort is a permutation. */
  lemma {:induction false} SortTablePermutes(t: seq<LmsPoint>)
    ensures multiset(SortTable(t)) == multiset(t)
  {
    if |t| > 0 {
      SortTablePermutes(t[..|t| - 1]);
      InsertPermutes(t[|t| - 1], SortTable(t[..|t| - 1]));
      assert t == t[..|t| - 1] + [t[|t| - 1]];
    }
  }

  /** Sorting a sorted table changes nothing. */
  lemma {:induction false} SortTableOfSorted(t: seq<LmsPoint>)
    ensures SortedByX(t) ==> SortTable(t) == t
  {
    if |t| > 0 && SortedByX(t) {
      var init := t[..|t| - 1];
      var last := t[|t| - 1];
      SortedSlice(t, 0, |t| - 1);
      assert t[0..|t| - 1] == init;
      SortTableOfSorted(init);
      assert SortTable(t) == InsertByX(last, init);
      assert forall k :: 0 <= k < |init| ==> init[k].x <= last.x by {
        forall k | 0 <= k < |init| ensures init[k].x <= last.x {
          assert init[k] == t[k];
        }
      }
      InsertSplit(last, init, |init|);
      assert init[..|init|] + [last] + init[|init|..] == t;
    }
  }

  /** The rows with key q, in table order. */
  function KeyRows(t: seq<LmsPoint>, q: real): (r: seq<LmsPoint>)
    ensures forall i :: 0 <= i < |r| ==> r[i].x == q
  {
    if |t| == 0 then []
    else (if t[0].x == q then [t[0]] else []) + KeyRows(t[1..], q)
  }

  lemma {:induction false} KeyRowsAppend(a: seq<LmsPoint>, b: seq<LmsPoint>, q: real)
    ensures KeyRows(a + b, q) == KeyRows(a, q) + KeyRows(b, q)
  {
    if |a| == 0 {
      assert a + b == b;
    } else {
      KeyRowsAppend(a[1..], b, q);
      assert (a + b)[1..] == a[1..] + b;
    }
  }

  /** No row of a table whose keys all exceed q has key q. */
  lemma {:induction false} KeyRowsAbove(t: seq<LmsPoint>, q: real)
    requires forall i :: 0 <= i < |t| ==> t[i].x > q
    ensures KeyRows(t, q) == []
  {
    if |t| > 0 {
      KeyRowsAbove(t[1..], q);
    }
  }

  /** Inserting into sorted rows puts the new row after the rows with its key: as if appended, for each key. */
  lemma {:induction false} KeyRowsInsert(p: LmsPoint, s: seq<LmsPoint>, q: real)
    requires SortedByX(s)
    ensures KeyRows(InsertByX(p, s), q) == KeyRows(s + [p], q)
  {
    if |s| > 0 && p.x < s[0].x {
      KeyRowsInsertFront(p, s, q);
    } else if |s| > 0 {
      var tail := s[1..];
      SortedSlice(s, 1, |s|);
      assert s[1..|s|] == tail;
      KeyRowsInsert(p, tail, q);
      var x := InsertByX(p, tail);
      assert InsertByX(p, s) == [s[0]] + x;
      KeyRowsAppend([s[0]], x, q);
      KeyRowsAppend([s[0]], tail + [p], q);
      assert s + [p] == [s[0]] + (tail + [p]);
    }
  }

  /** The case where the new row goes first: every key of s is larger. */
  lemma KeyRowsInsertFront(p: LmsPoint, s: seq<LmsPoint>, q: real)
    requires SortedByX(s) && |s| > 0 && p.x < s[0].x
    ensures KeyRows(InsertByX(p, s), q) == KeyRows(s + [p], q)
  {
    assert InsertByX(p, s) == [p] + s;
    KeyRowsAppend([p], s, q);
    KeyRowsAppend(s, [p], q);
    if p.x == q {
      KeyRowsAbove(s, q);
    }
  }

  /** The stable sort keeps the order of the rows of every key. */
  lemma {:induction false} KeyRowsSorted(t: seq<LmsPoint>, q: real)
    ensures KeyRows(SortTable(t), q) == KeyRows(t, q)
  {
    if |t| > 0 {
      var init := t[..|t| - 1];
      var last := t[|t| - 1];
      KeyRowsSorted(init, q);
      KeyRowsInsert(last, SortTable(init), q);
      KeyRowsAppend(SortTable(init), [last], q);
      KeyRowsAppend(init, [last], q);
      assert init + [last] == t;
    }
  }

  /** The row `find` returns is the first row with key q. */
  lemma {:induction false} IndexOfKeyIsFirstKeyRow(t: seq<LmsPoint>, q: real)
    ensures IndexOfKey(t, q) < |t| <==> |KeyRows(t, q)| > 0
    ensures IndexOfKey(t, q) < |t| ==> t[IndexOfKey(t, q)] == KeyRows(t, q)[0]
  {
    if |t| > 0 && t[0].x != q {
      IndexOfKeyIsFirstKeyRow(t[1..], q);
    }
  }

  /**
   * Sorting the table first changes no result of interpolateLMS: the exact
   * match of the unsorted table is the first row of its key in the sorted
   * one. So the sort the source leaves in the shared table is harmless.
   */
  lemma InterpolateTableOfSorted(t: seq<LmsPoint>, q: real)
    ensures InterpolateTable(t, q) == Interpolate(SortTable(t), q)
    ensures InterpolateTable(SortTable(t), q) == InterpolateTable(t, q)
  {
    KeyRowsSorted(t, q);
    IndexOfKeyIsFirstKeyRow(t, q);
    IndexOfKeyIsFirstKeyRow(SortTable(t), q);
    SortTableOfSorted(SortTable(t));
  }

  /** Two rows given in descending order: the query between them is still interpolated, not clamped. */
  lemma DescendingPairInterpolated(lo: LmsPoint, hi: LmsPoint, q: real)
    requires 0.0 <= lo.x < q < hi.x
    ensures InterpolateTable([hi, lo], q) == Success(Lerp(lo, hi, q))
  {
    assert SortTable([hi]) == [hi] by {
      assert [hi][..0] == [];
    }
    assert [hi, lo][..1] == [hi];
    assert SortTable([hi, lo]) == [lo, hi];
    assert FirstBracketFrom([lo, hi], q, 0) == 0;
  }

  /** The in-place sort of calculations.ts:98: the array ends as SortTable of its old contents. */
  method SortByX(a: array<LmsPoint>)
    modifies a
    ensures a[..] == SortTable(old(a[..]))
    ensures SortedByX(a[..])
    ensures multiset(a[..]) == multiset(old(a[..]))
    ensures SortedByX(old(a[..])) ==> a[..] == old(a[..])
  {
    ghost var o := a[..];
    var i := 0;
    while i < a.Length
      invariant 0 <= i <= a.Length
      invariant a[..] == SortTable(o[..i]) + o[i..]
    {
      SortStep(o, i);
      InsertLast(a, i);
      i := i + 1;
    }
    assert o[..a.Length] == o;
    SortTableOfSorted(o);
    SortTablePermutes(o);
  }

  /** Sorting one more row inserts it into the sorted rows before it. */
  lemma SortStep(o: seq<LmsPoint>, i: nat)
    requires i < |o|
    ensures SortTable(o[..i + 1]) == InsertByX(o[i], SortTable(o[..i]))
    ensures (SortTable(o[..i]) + o[i..])[..i] == SortTable(o[..i])
    ensures (SortTable(o[..i]) + o[i..])[i] == o[i]
    ensures (SortTable(o[..i]) + o[i..])[i + 1..] == o[i + 1..]
  {
    assert o[..i + 1][..i] == o[..i];
  }

  /** One insertion step: moves a[i] left past every larger key before it. */
  method InsertLast(a: array<LmsPoint>, i: nat)
    requires i < a.Length && SortedByX(a[..i])
    modifies a
    ensures a[..] == InsertByX(old(a[i]), old(a[..i])) + old(a[i + 1..])
  {
    ghost var s := a[..i];
    ghost var p := a[i];
    var j := i;
    while j > 0 && a[j - 1].x > a[j].x
      invariant 0 <= j <= i
      invariant forall k :: 0 <= k < j ==> a[k] == s[k]
      invariant a[j] == p
      invariant forall k :: j < k <= i ==> a[k] == s[k - 1]
      invariant forall k :: j <= k < i ==> s[k].x > p.x
      invariant forall k :: i < k < a.Length ==> a[k] == old(a[k])
    {
      Swap(a, j);
      j := j - 1;
    }
    InsertionDone(a[..], old(a[..]), i, j);
  }

  /** When the swapping stops, the first i + 1 cells hold the insertion of old a[i] into the sorted old a[..i]. */
  lemma InsertionDone(x: seq<LmsPoint>, o: seq<LmsPoint>, i: nat, j: nat)
    requires |x| == |o| && j <= i < |o| && SortedByX(o[..i])
    requires forall k :: 0 <= k < j ==> x[k] == o[..i][k]
    requires x[j] == o[i]
    requires forall k :: j < k <= i ==> x[k] == o[..i][k - 1]
    requires forall k :: j <= k < i ==> o[..i][k].x > o[i].x
    requires forall k :: i < k < |x| ==> x[k] == o[k]
    requires j == 0 || x[j - 1].x <= x[j].x
    ensures x == InsertByX(o[i], o[..i]) + o[i + 1..]
  {
    var s := o[..i];
    var p := o[i];
    assert forall k :: 0 <= k < j ==> s[k].x <= p.x by {
      forall k | 0 <= k < j ensures s[k].x <= p.x {
        assert s[k].x <= s[j - 1].x;
      }
    }
    InsertSplit(p, s, j);
    SplicedAt(x[..i + 1], s, p, j);
    assert x[i + 1..] == o[i + 1..];
    assert x == x[..i + 1] + x[i + 1..];
  }

  /** Rows laid out as s with p placed at index j are s[..j] + [p] + s[j..]. */
  lemma SplicedAt(x: seq<LmsPoint>, s: seq<LmsPoint>, p: LmsPoint, j: nat)
    requires |x| == |s| + 1 && j <= |s|
    requires forall k :: 0 <= k < j ==> x[k] == s[k]
    requires x[j] == p
    requires forall k :: j < k < |x| ==> x[k] == s[k - 1]
    ensures x == s[..j] + [p] + s[j..]
  {
    var y := s[..j] + [p] + s[j..];
    forall k | 0 <= k < |x| ensures x[k] == y[k] {
      if k < j {
        assert y[k] == s[k];
      } else if k > j {
        assert y[k] == s[k - 1];
      }
    }
  }

  /** The scan loop of calculations.ts:103-109 over the sorted table. */
  method FindBracket(a: array<LmsPoint>, q: real) returns (b: nat)
    ensures b == FirstBracketFrom(a[..], q, 0)
  {
    b := 0;
    while b + 1 < a.Length
      invariant b <= a.Length
      invariant FirstBracketFrom(a[..], q, b) == FirstBracketFrom(a[..], q, 0)
      decreases a.Length - b
    {
      if a[b].x <= q && a[b + 1].x >= q {
        return;
      }
      b := b + 1;
    }
    b := a.Length;
  }

  /** Exchanges a[j - 1] and a[j]. */
  method Swap(a: array<LmsPoint>, j: nat)
    requires 0 < j < a.Length
    modifies a
    ensures a[j - 1] == old(a[j]) && a[j] == old(a[j - 1])
    ensures forall k :: 0 <= k < a.Length && k != j - 1 && k != j ==> a[k] == old(a[k])
  {
    a[j - 1], a[j] := a[j], a[j - 1];
  }

  /** A permutation has the same keys. */
  lemma PermutationKeepsNoKey(s: seq<LmsPoint>, t: seq<LmsPoint>, q: real)
    requires multiset(s) == multiset(t)
    requires IndexOfKey(s, q) == |s|
    ensures IndexOfKey(t, q) == |t|
  {
    forall j | 0 <= j < |t| ensures t[j].x != q {
      assert t[j] in multiset(s);
      var k :| 0 <= k < |s| && s[k] == t[j];
    }
  }

  /**
   * interpolateLMS: rejects a negative age, then an empty table; returns the
   * first row whose key equals the query unchanged; otherwise sorts the
   * caller's table in place and interpolates over it.
   */
  method InterpolateLms(q: real, a: array<LmsPoint>) returns (r: Result<LmsPoint>)
    modifies a
    ensures r == InterpolateTable(old(a[..]), q)
    ensures r == Interpolate(a[..], q)
    ensures q < 0.0 ==> r == Failure(NegativeAge)
    ensures multiset(a[..]) == multiset(old(a[..]))
    ensures a[..] == old(a[..]) || a[..] == SortTable(old(a[..]))
    ensures SortedByX(old(a[..])) ==> a[..] == old(a[..])
    ensures q < 0.0 || a.Length == 0 || IndexOfKey(old(a[..]), q) < a.Length ==> a[..] == old(a[..])
  {
    if q < 0.0 {
      return Failure(NegativeAge);
    }
    if a.Length == 0 {
      return Failure(EmptyTable);
    }
    var e := IndexOfKey(a[..], q);
    if e < a.Length {
      return Success(a[e]);
    }
    ghost var before := a[..];
    SortByX(a);
    assert InterpolateTable(before, q) == Interpolate(a[..], q);
    PermutationKeepsNoKey(before, a[..], q);
    var b := FindBracket(a, q);
    if b == a.Length {
      assert Interpolate(a[..], q) == Success(ScanResult(a[..], q));
      if q < a[0].x {
        r := Success(a[0]);
      } else {
        r := Success(a[a.Length - 1]);
      }
    } else {
      r := Success(Lerp(a[b], a[b + 1], q));
    }
  }

  // Properties of interpolateLMS on a sorted table.

  lemma InterpolateExact(t: seq<LmsPoint>, q: real, i: nat)
    requires q >= 0.0 && i < |t| && t[i].x == q
    requires forall j :: 0 <= j < i ==> t[j].x != q
    ensures Interpolate(t, q) == Success(t[i])
  {
    assert IndexOfKey(t, q) == i;
  }

  lemma InterpolateClampLow(t: seq<LmsPoint>, q: real)
    requires SortedByX(t) && |t| > 0
    requires 0.0 <= q < t[0].x
    ensures Interpolate(t, q) == Success(t[0])
  {
    assert IndexOfKey(t, q) == |t|;
  }

  lemma InterpolateClampHigh(t: seq<LmsPoint>, q: real)
    requires SortedByX(t) && |t| > 0
    requires q > t[|t| - 1].x && q >= 0.0
    ensures Interpolate(t, q) == Success(t[|t| - 1])
  {
    assert IndexOfKey(t, q) == |t|;
  }

  /**
   * Strictly inside the table and away from every key, the result carries
   * the query as its key and lies between two neighbouring rows that bracket it.
   */
  lemma InterpolateInRange(t: seq<LmsPoint>, q: real)
    requires SortedByX(t) && |t| > 0
    requires 0.0 <= q && t[0].x < q < t[|t| - 1].x
    requires forall j :: 0 <= j < |t| ==> t[j].x != q
    ensures Interpolate(t, q).Success?
    ensures Interpolate(t, q).value.x == q
    ensures exists i :: 0 <= i < |t| - 1 && t[i].x < q < t[i + 1].x
                        && RowBetween(Interpolate(t, q).value, t[i], t[i + 1])
  {
    assert IndexOfKey(t, q) == |t|;
    var b := FirstBracketFrom(t, q, 0);
    if b == |t| {
      // the last neighbour pair below q would bracket it
      var k := LastBelow(t, q);
      assert Brackets(t, k, q);
      assert false;
    }
    LerpBetween(t[b], t[b + 1], q);
  }

  /** Index of the last row with key below q, when the first row is below q and the last is above it. */
  lemma LastBelow(t: seq<LmsPoint>, q: real) returns (k: nat)
    requires |t| > 0 && t[0].x < q < t[|t| - 1].x
    ensures k + 1 < |t| && t[k].x < q && t[k + 1].x >= q
  {
    k := 0;
    while t[k + 1].x < q
      invariant k + 1 < |t| && t[k].x < q
      decreases |t| - k
    {
      k := k + 1;
    }
  }

  /** On a strictly ascending table a query strictly between rows k and k + 1 interpolates exactly those two rows. */
  lemma InterpolateBetweenNeighbours(t: seq<LmsPoint>, k: nat, q: real)
    requires StrictlyIncreasing(t) && k + 1 < |t|
    requires q >= 0.0 && t[k].x < q < t[k + 1].x
    ensures Interpolate(t, q) == Success(Lerp(t[k], t[k + 1], q))
  {
    StrictlyIncreasingIsSorted(t);
    assert forall j :: 0 <= j < |t| ==> t[j].x != q by {
      forall j | 0 <= j < |t| ensures t[j].x != q {
        if j <= k {
          assert t[j].x <= t[k].x;
        } else {
          assert t[k + 1].x <= t[j].x;
        }
      }
    }
    assert IndexOfKey(t, q) == |t|;
    var b := FirstBracketFrom(t, q, 0);
    assert Brackets(t, k, q);
    assert b <= k;
  }

  /** The line from a > 0 down to b < 0 crosses zero a fraction w of the way along, with 0 < w < 1. */
  lemma RootWeight(a: real, b: real) returns (w: real)
    requires a > 0.0 > b
    ensures 0.0 < w < 1.0
    ensures a + (b - a) * w == 0.0
  {
    w := a / (a - b);
    assert w * (a - b) == a;
    if w <= 0.0 {
      MulNonPositive(w, a - b);
    } else if w >= 1.0 {
      MulNonNegative(w - 1.0, a - b);
    }
  }

  /** The key a fraction w of the way from lo to hi: strictly between them, and Lerp uses w as its ratio there. */
  lemma LerpAtWeight(lo: LmsPoint, hi: LmsPoint, w: real) returns (q: real)
    requires lo.x < hi.x && 0.0 < w < 1.0
    ensures lo.x < q < hi.x
    ensures Lerp(lo, hi, q).L == lo.L + (hi.L - lo.L) * w
  {
    var d := hi.x - lo.x;
    MulPositive(w, d);
    MulPositive(1.0 - w, d);
    q := lo.x + w * d;
    assert q - lo.x == w * d;
    assert (w * d) / d == w;
    var ratio := (q - lo.x) / (hi.x - lo.x);
    assert ratio == w;
    assert Lerp(lo, hi, q).L == lo.L + (hi.L - lo.L) * ratio;
  }

  /**
   * Between two neighbouring rows whose L values have opposite signs there
   * is an age at which the interpolated L is exactly 0.
   */
  lemma LogBranchBetween(t: seq<LmsPoint>, k: nat)
    requires StrictlyIncreasing(t) && k + 1 < |t| && t[k].x >= 0.0
    requires t[k].L > 0.0 > t[k + 1].L
    ensures exists q :: t[k].x < q < t[k + 1].x && Interpolate(t, q).Success? && Interpolate(t, q).value.L == 0.0
  {
    var w := RootWeight(t[k].L, t[k + 1].L);
    var q := LerpAtWeight(t[k], t[k + 1], w);
    InterpolateBetweenNeighbours(t, k, q);
  }

  /** On a valid table every non-negative query yields a row with positive M and S. */
  lemma InterpolatePositive(t: seq<LmsPoint>, q: real)
    requires ValidTable(t) && q >= 0.0
    ensures Interpolate(t, q).Success?
    ensures Interpolate(t, q).value.M > 0.0 && Interpolate(t, q).value.S > 0.0
  {
    if IndexOfKey(t, q) == |t| {
      if q < t[0].x {
        InterpolateClampLow(t, q);
      } else if q > t[|t| - 1].x {
        InterpolateClampHigh(t, q);
      } else {
        assert t[0].x < q < t[|t| - 1].x;
        var b := FirstBracketFrom(t, q, 0);
        InterpolateInRange(t, q);
        assert b < |t|;
        LerpBetween(t[b], t[b + 1], q);
      }
    }
  }

  // ---------------------------------------------------------------------------
  // interpolateWFL (calculations.ts:517-555; the chart's copy is identical)
  // ---------------------------------------------------------------------------

  /** The first index from i on whose key is not below q, or |t|. */
  function FirstAtLeast(t: seq<LmsPoint>, q: real, i: nat): (k: nat)
    requires i <= |t|
    ensures i <= k <= |t|
    ensures k < |t| ==> t[k].x >= q
    ensures forall j :: i <= j < k ==> t[j].x < q
    decreases |t| - i
  {
    if i == |t| then |t|
    else if t[i].x >= q then i
    else FirstAtLeast(t, q, i + 1)
  }

  /**
   * What interpolateWFL returns for any table: the scan stops at the first row
   * whose length is not below q; an exact hit returns that row, a stop at the
   * first row clamps to it, running off the end clamps to the last row, and
   * otherwise the stopping row and its predecessor are interpolated.
   */
  function WflLookup(t: seq<LmsPoint>, q: real): Option<LmsPoint>
  {
    if |t| == 0 then None
    else
      var k := FirstAtLeast(t, q, 0);
      if k == |t| then Some(t[|t| - 1])
      else if t[k].x == q then Some(t[k])
      else if k == 0 then Some(t[0])
      else Some(Lerp(t[k - 1], t[k], q))
  }

  /** interpolateWFL: the index scan with its early return and break. */
  method InterpolateWfl(q: real, t: seq<LmsPoint>) returns (r: Option<LmsPoint>)
    ensures r == WflLookup(t, q)
  {
    if |t| == 0 {
      return None;
    }
    var lowerIndex, upperIndex := -1, -1;
    var i := 0;
    while i < |t|
      invariant 0 <= i <= |t|
      invariant forall j :: 0 <= j < i ==> t[j].x < q
      invariant lowerIndex == i - 1
      invariant upperIndex == -1
    {
      if t[i].x == q {
        return Some(t[i]);
      }
      if t[i].x < q {
        lowerIndex := i;
      } else {
        upperIndex := i;
        break;
      }
      i := i + 1;
    }
    assert upperIndex != -1 ==> upperIndex == FirstAtLeast(t, q, 0) && lowerIndex == upperIndex - 1;
    assert upperIndex == -1 ==> FirstAtLeast(t, q, 0) == |t|;
    if lowerIndex == -1 {
      return Some(t[0]);
    }
    if upperIndex == -1 {
      return Some(t[|t| - 1]);
    }
    r := Some(Lerp(t[lowerIndex], t[upperIndex], q));
  }

  lemma WflEmpty(q: real)
    ensures WflLookup([], q) == None
  {
  }

  /** On a sorted table a row with exactly the queried length is returned unchanged. */
  lemma WflExact(t: seq<LmsPoint>, q: real, i: nat)
    requires SortedByX(t) && i < |t| && t[i].x == q
    requires forall j :: 0 <= j < i ==> t[j].x != q
    ensures WflLookup(t, q) == Some(t[i])
  {
    var k := FirstAtLeast(t, q, 0);
    assert k <= i;
  }

  lemma WflClampLow(t: seq<LmsPoint>, q: real)
    requires |t| > 0 && q < t[0].x
    ensures WflLookup(t, q) == Some(t[0])
  {
    assert FirstAtLeast(t, q, 0) == 0;
  }

  lemma WflClampHigh(t: seq<LmsPoint>, q: real)
    requires SortedByX(t) && |t| > 0 && q > t[|t| - 1].x
    ensures WflLookup(t, q) == Some(t[|t| - 1])
  {
    var k := FirstAtLeast(t, q, 0);
    if k < |t| {
      assert t[k].x <= t[|t| - 1].x;
    }
  }

  /**
   * In range and away from every length, the result has length q and lies
   * between the last row shorter than q and the first row longer than q.
   */
  lemma WflInRange(t: seq<LmsPoint>, q: real)
    requires SortedByX(t) && |t| > 0
    requires t[0].x < q < t[|t| - 1].x
    requires forall j :: 0 <= j < |t| ==> t[j].x != q
    ensures WflLookup(t, q).Some? && WflLookup(t, q).value.x == q
    ensures exists k :: 0 < k < |t| && t[k - 1].x < q < t[k].x
                        && (forall j :: 0 <= j < k ==> t[j].x < q)
                        && (forall j :: k <= j < |t| ==> t[j].x > q)
                        && RowBetween(WflLookup(t, q).value, t[k - 1], t[k])
  {
    var k := FirstAtLeast(t, q, 0);
    assert k != 0;
    assert k < |t|;
    assert forall j :: k <= j < |t| ==> t[j].x > q by {
      forall j | k <= j < |t| ensures t[j].x > q {
        assert t[k].x <= t[j].x;
      }
    }
    LerpBetween(t[k - 1], t[k], q);
  }

  /** Whatever the order of the table, interpolateWFL returns a row with positive M and S when all rows have them. */
  lemma WflPositive(t: seq<LmsPoint>, q: real)
    requires |t| > 0 && PositiveMS(t)
    ensures WflLookup(t, q).Some?
    ensures WflLookup(t, q).value.M > 0.0 && WflLookup(t, q).value.S > 0.0
  {
    var k := FirstAtLeast(t, q, 0);
    if 0 < k < |t| && t[k].x != q {
      LerpBetween(t[k - 1], t[k], q);
    }
  }
}
