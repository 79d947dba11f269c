/**
 * The WHO length-for-age reference tables of src/data/whoData_height.ts and
 * their selector, with the facts the interpolator and the Z-score rely on.
 */
module WhoHeight {
  import opened Types
  import opened Numerics
  import opened Interpolation
  import opened LmsMath

  /** WHO_HEIGHT_BOYS: length-for-age, birth to 24 months. */
  const WhoHeightBoys: seq<LmsPoint> := [
    LmsPoint(0.0, 1.0, 49.8842, 0.03795),
    LmsPoint(1.0, 1.0, 54.7244, 0.03557),
    LmsPoint(2.0, 1.0, 58.4249, 0.03424),
    LmsPoint(3.0, 1.0, 61.4292, 0.03328),
    LmsPoint(4.0, 1.0, 63.886, 0.03257),
    LmsPoint(5.0, 1.0, 65.9026, 0.03204),
    LmsPoint(6.0, 1.0, 67.6236, 0.03165),
    LmsPoint(7.0, 1.0, 69.1645, 0.03139),
    LmsPoint(8.0, 1.0, 70.5994, 0.03124),
    LmsPoint(9.0, 1.0, 71.9687, 0.03117),
    LmsPoint(10.0, 1.0, 73.2812, 0.03118),
    LmsPoint(11.0, 1.0, 74.5388, 0.03125),
    LmsPoint(12.0, 1.0, 75.7488, 0.03137),
    LmsPoint(13.0, 1.0, 76.9186, 0.03154),
    LmsPoint(14.0, 1.0, 78.0497, 0.03174),
    LmsPoint(15.0, 1.0, 79.1458, 0.03197),
    LmsPoint(16.0, 1.0, 80.2113, 0.03222),
    LmsPoint(17.0, 1.0, 81.2487, 0.0325),
    LmsPoint(18.0, 1.0, 82.2587, 0.03279),
    LmsPoint(19.0, 1.0, 83.2418, 0.0331),
    LmsPoint(20.0, 1.0, 84.1996, 0.03342),
    LmsPoint(21.0, 1.0, 85.1348, 0.03376),
    LmsPoint(22.0, 1.0, 86.0477, 0.0341),
    LmsPoint(23.0, 1.0, 86.941, 0.03445),
    LmsPoint(24.0, 1.0, 87.8161, 0.03479)
  ]

  /** WHO_HEIGHT_GIRLS: length-for-age, birth to 24 months. */
  const WhoHeightGirls: seq<LmsPoint> := [
    LmsPoint(0.0, 1.0, 49.1477, 0.0379),
    LmsPoint(1.0, 1.0, 53.6872, 0.0364),
    LmsPoint(2.0, 1.0, 57.0673, 0.03568),
    LmsPoint(3.0, 1.0, 59.8029, 0.0352),
    LmsPoint(4.0, 1.0, 62.0899, 0.03486),
    LmsPoint(5.0, 1.0, 64.0301, 0.03463),
    LmsPoint(6.0, 1.0, 65.7311, 0.03448),
    LmsPoint(7.0, 1.0, 67.2873, 0.03441),
    LmsPoint(8.0, 1.0, 68.7498, 0.0344),
    LmsPoint(9.0, 1.0, 70.1435, 0.03444),
    LmsPoint(10.0, 1.0, 71.4818, 0.03452),
    LmsPoint(11.0, 1.0, 72.771, 0.03464),
    LmsPoint(12.0, 1.0, 74.015, 0.03479),
    LmsPoint(13.0, 1.0, 75.2176, 0.03496),
    LmsPoint(14.0, 1.0, 76.3817, 0.03514),
    LmsPoint(15.0, 1.0, 77.5099, 0.03534),
    LmsPoint(16.0, 1.0, 78.6055, 0.03555),
    LmsPoint(17.0, 1.0, 79.671, 0.03576),
    LmsPoint(18.0, 1.0, 80.7079, 0.03598),
    LmsPoint(19.0, 1.0, 81.7182, 0.0362),
    LmsPoint(20.0, 1.0, 82.7036, 0.03643),
    LmsPoint(21.0, 1.0, 83.6654, 0.03666),
    LmsPoint(22.0, 1.0, 84.604, 0.03688),
    LmsPoint(23.0, 1.0, 85.5202, 0.03711),
    LmsPoint(24.0, 1.0, 86.4153, 0.03734)
  ]

  /** getWHOData: the boys' table for a boy, the girls' table otherwise. */
  function GetWhoData(gender: Gender): (t: seq<LmsPoint>)
    ensures gender == Male ==> t == WhoHeightBoys
    ensures gender != Male ==> t == WhoHeightGirls
    ensures WellFormedTable(t) && ValidTable(t) && MonthlyAges(t)
    ensures forall i :: 0 <= i < |t| ==> t[i].L == 1.0
  {
    BoysAges(); BoysMedians(); BoysPositive(); BoysPowers();
    GirlsAges(); GirlsMedians(); GirlsPositive(); GirlsPowers();
    WellFormedIsValid(if gender == Male then WhoHeightBoys else WhoHeightGirls);
    if gender == Male then WhoHeightBoys else WhoHeightGirls
  }

  /** Rows at ages 0, 1, ..., 24 months, in order. */
  lemma BoysAges()
    ensures MonthlyAges(WhoHeightBoys) && StrictlyIncreasing(WhoHeightBoys)
  {
  }

  /** M strictly increasing with age. */
  lemma BoysMedians()
    ensures MIncreasing(WhoHeightBoys)
  {
  }

  /** M and S positive in every row. */
  lemma BoysPositive()
    ensures PositiveMS(WhoHeightBoys)
  {
  }

  /** L = 1 in every row. */
  lemma BoysPowers()
    ensures forall i :: 0 <= i < |WhoHeightBoys| ==> WhoHeightBoys[i].L == 1.0
  {
  }

  /** Rows at ages 0, 1, ..., 24 months, in order. */
  lemma GirlsAges()
    ensures MonthlyAges(WhoHeightGirls) && StrictlyIncreasing(WhoHeightGirls)
  {
  }

  /** M strictly increasing with age. */
  lemma GirlsMedians()
    ensures MIncreasing(WhoHeightGirls)
  {
  }

  /** M and S positive in every row. */
  lemma GirlsPositive()
    ensures PositiveMS(WhoHeightGirls)
  {
  }

  /** L = 1 in every row. */
  lemma GirlsPowers()
    ensures forall i :: 0 <= i < |WhoHeightGirls| ==> WhoHeightGirls[i].L == 1.0
  {
  }

  /** The boys' 6-month row is L = 1, M = 67.6236, S = 0.03165, and a 6-month boy of exactly 67.6236 cm has Z = 0. */
  lemma SixMonthBoyAtMedian(m: MathLib)
    requires Lawful(m)
    ensures Interpolate(WhoHeightBoys, 6.0) == Success(LmsPoint(6.0, 1.0, 67.6236, 0.03165))
    ensures CalculateZScore(m, 67.6236, 1.0, 67.6236, 0.03165) == Success(0.0)
  {
    InterpolateExact(WhoHeightBoys, 6.0, 6);
    ZScoreAtMedian(m, 1.0, 67.6236, 0.03165);
  }
}
