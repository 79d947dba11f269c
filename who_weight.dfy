/**
 * The WHO weight-for-age reference tables of src/data/whoData_weight.ts and
 * their selector. Unlike the length tables, L varies and changes sign.
 */
module WhoWeight {
  import opened Types
  import opened Interpolation

  /** WHO_WEIGHT_BOYS: weight-for-age, birth to 24 months. */
  const WhoWeightBoys: seq<LmsPoint> := [
    LmsPoint(0.0, 0.3487, 3.3464, 0.14602),
    LmsPoint(1.0, 0.2297, 4.4709, 0.13395),
    LmsPoint(2.0, 0.197, 5.5675, 0.12385),
    LmsPoint(3.0, 0.1738, 6.3762, 0.11727),
    LmsPoint(4.0, 0.1553, 7.0023, 0.11316),
    LmsPoint(5.0, 0.1395, 7.5105, 0.1108),
    LmsPoint(6.0, 0.1257, 7.934, 0.10958),
    LmsPoint(7.0, 0.1134, 8.297, 0.10902),
    LmsPoint(8.0, 0.1021, 8.6151, 0.10882),
    LmsPoint(9.0, 0.0917, 8.9014, 0.10881),
    LmsPoint(10.0, 0.082, 9.1649, 0.10891),
    LmsPoint(11.0, 0.073, 9.4122, 0.10906),
    LmsPoint(12.0, 0.0644, 9.6479, 0.10925),
    LmsPoint(13.0, 0.0563, 9.8749, 0.10949),
    LmsPoint(14.0, 0.0487, 10.0953, 0.10976),
    LmsPoint(15.0, 0.0413, 10.3108, 0.11007),
    LmsPoint(16.0, 0.0343, 10.5228, 0.11041),
    LmsPoint(17.0, 0.0275, 10.7319, 0.11079),
    LmsPoint(18.0, 0.0211, 10.9385, 0.11119),
    LmsPoint(19.0, 0.0148, 11.143, 0.11164),
    LmsPoint(20.0, 0.0087, 11.3462, 0.11211),
    LmsPoint(21.0, 0.0029, 11.5486, 0.11261),
    LmsPoint(22.0, -0.0028, 11.7504, 0.11314),
    LmsPoint(23.0, -0.0083, 11.9514, 0.11369),
    LmsPoint(24.0, -0.0137, 12.1515, 0.11426)
  ]

  /** WHO_WEIGHT_GIRLS: weight-for-age, birth to 24 months. */
  const WhoWeightGirls: seq<LmsPoint> := [
    LmsPoint(0.0, 0.3809, 3.2322, 0.14171),
    LmsPoint(1.0, 0.1714, 4.1873, 0.13724),
    LmsPoint(2.0, 0.0962, 5.1282, 0.13),
    LmsPoint(3.0, 0.0402, 5.8458, 0.12619),
    LmsPoint(4.0, -0.005, 6.4237, 0.12402),
    LmsPoint(5.0, -0.043, 6.8985, 0.12274),
    LmsPoint(6.0, -0.0756, 7.297, 0.12204),
    LmsPoint(7.0, -0.1039, 7.6422, 0.12178),
    LmsPoint(8.0, -0.1288, 7.9487, 0.12181),
    LmsPoint(9.0, -0.1507, 8.2254, 0.12199),
    LmsPoint(10.0, -0.17, 8.48, 0.12223),
    LmsPoint(11.0, -0.1872, 8.7192, 0.12247),
    LmsPoint(12.0, -0.2024, 8.9481, 0.12268),
    LmsPoint(13.0, -0.2158, 9.1699, 0.12283),
    LmsPoint(14.0, -0.2278, 9.387, 0.12294),
    LmsPoint(15.0, -0.2384, 9.6008, 0.12299),
    LmsPoint(16.0, -0.2478, 9.8124, 0.12303),
    LmsPoint(17.0, -0.2562, 10.0226, 0.12306),
    LmsPoint(18.0, -0.2637, 10.2315, 0.12309),
    LmsPoint(19.0, -0.2703, 10.4393, 0.12315),
    LmsPoint(20.0, -0.2762, 10.6464, 0.12323),
    LmsPoint(21.0, -0.2815, 10.8534, 0.12335),
    LmsPoint(22.0, -0.2862, 11.0608, 0.1235),
    LmsPoint(23.0, -0.2903, 11.2688, 0.12369),
    LmsPoint(24.0, -0.2941, 11.4775, 0.1239)
  ]

  /** getWHOWeightData: the boys' table for a boy, the girls' table otherwise. */
  function GetWhoWeightData(gender: Gender): (t: seq<LmsPoint>)
    ensures gender == Male ==> t == WhoWeightBoys
    ensures gender != Male ==> t == WhoWeightGirls
    ensures WellFormedTable(t) && ValidTable(t) && MonthlyAges(t)
    ensures MIncreasing(t) && LDecreasing(t)
  {
    BoysAges(); BoysMedians(); BoysPositive(); BoysPowers();
    GirlsAges(); GirlsMedians(); GirlsPositive(); GirlsPowers();
    WellFormedIsValid(if gender == Male then WhoWeightBoys else WhoWeightGirls);
    if gender == Male then WhoWeightBoys else WhoWeightGirls
  }

  /** Rows at ages 0, 1, ..., 24 months, in order. */
  lemma BoysAges()
    ensures MonthlyAges(WhoWeightBoys) && StrictlyIncreasing(WhoWeightBoys)
  {
  }

  /** M strictly increasing with age. */
  lemma BoysMedians()
    ensures MIncreasing(WhoWeightBoys)
  {
  }

  /** M and S positive in every row. */
  lemma BoysPositive()
    ensures PositiveMS(WhoWeightBoys)
  {
  }

  /** L strictly decreasing with age. */
  lemma BoysPowers()
    ensures LDecreasing(WhoWeightBoys)
  {
  }

  /** Rows at ages 0, 1, ..., 24 months, in order. */
  lemma GirlsAges()
    ensures MonthlyAges(WhoWeightGirls) && StrictlyIncreasing(WhoWeightGirls)
  {
  }

  /** M strictly increasing with age. */
  lemma GirlsMedians()
    ensures MIncreasing(WhoWeightGirls)
  {
  }

  /** M and S positive in every row. */
  lemma GirlsPositive()
    ensures PositiveMS(WhoWeightGirls)
  {
  }

  /** L strictly decreasing with age. */
  lemma GirlsPowers()
    ensures LDecreasing(WhoWeightGirls)
  {
  }

  /**
   * L changes sign between 21 and 22 months for boys and between 3 and 4
   * months for girls, so interpolation reaches L = 0 and the Z-score takes
   * its log branch there.
   */
  lemma LogBranchReachable()
    ensures WhoWeightBoys[21].L > 0.0 > WhoWeightBoys[22].L
    ensures WhoWeightGirls[3].L > 0.0 > WhoWeightGirls[4].L
    ensures exists q :: 21.0 < q < 22.0 && Interpolate(WhoWeightBoys, q).Success? && Interpolate(WhoWeightBoys, q).value.L == 0.0
    ensures exists q :: 3.0 < q < 4.0 && Interpolate(WhoWeightGirls, q).Success? && Interpolate(WhoWeightGirls, q).value.L == 0.0
  {
    BoysAges();
    GirlsAges();
    LogBranchBetween(WhoWeightBoys, 21);
    LogBranchBetween(WhoWeightGirls, 3);
  }
}
