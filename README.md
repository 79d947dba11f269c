# MapMyKidz growth engine in Dafny

This project is a Dafny model of the core of MapMyKidz. MapMyKidz is a web application
that places a child's height, weight and BMI (or weight-for-length for infants) on the
WHO (0–24 months) and CDC (over 24 months) growth references. The model covers:

- the calculation engine: age, unit conversions, LMS interpolation, z-scores, percentiles,
  interpretation bands, mid-parental height, and weight/BMI/weight-for-length percentiles
  (`Conversions`, `Interpolation`, `LmsMath`, `Interpretation`, `MidParental`, `Percentiles`);
- the embedded WHO height and weight tables (`WhoHeight`, `WhoWeight`);
- the data preparation of the three charts (`ChartCurves`, `GrowthChart`, `WeightChart`,
  `WflChart`);
- the measurement selection and form validation of the input page (`InputPage`);
- the derived results, colours, age text and tabs of the results page (`ResultsPage`);
- the structured-data (schema.org) helpers (`Seo`);
- the application store (`AppStore`).

`Types` holds the shared data model and `Numerics` the arithmetic helpers.

Conventions used throughout:

- **Errors.** A thrown error is a `Failure` of a `Result` carrying the error kind. A
  `null` result is `None` of an `Option`.
- **Floating point.** Numbers are exact reals. `Math.pow`, `Math.log` and `Math.exp` are
  fields of a `MathLib` value passed as a parameter. `Lawful(m)` assumes only
  `pow(1, a) = 1`, `pow(x, 1) = x`, `log(1) = 0` and `exp(0) = 1` of it.
- **Rounding.** `Math.round(x * k) / k` is written out as rounding half up
  (`RoundHalfUp`, `Round1`, `Round2`).
- **Dates and time.** Dates are day numbers. An empty or missing date is `None`. The
  current day is a parameter.
- **Tables.** The CDC, BMI and weight-for-length tables are not part of this model. They
  are fields of `ReferenceTables`. The weight, BMI and weight-for-length paths assume them
  non-empty, sorted by age, with positive M and S (`ValidTables`). The height,
  mid-parental, recommendation and chart paths take a table in any order.
- **Texts.** Interpretation and advice texts are identified by metric, kind and band,
  not by their wording.

The main results:

- **Interpolation.** `interpolateLMS` is an exact-match test, an in-place stable
  insertion sort, and a bracket scan. The array sort is proved to compute the pure stable
  sort `SortTable`. The method is proved to equal `InterpolateTable` on the caller's
  table, whatever its order. On the sorted table, the pure `Interpolate` returns the exact
  row, clamps at both ends, and otherwise returns a row lying between its two neighbours.
  Sorting first changes no result (`InterpolateTableOfSorted`), so the sort the source
  leaves in a shared table is harmless.
- **Unit independence.** A growth result does not depend on the unit the height was
  entered in.
- **Mid-parental height.** The target range is centred on the mid-parental height, and
  its width is exactly twice the gender's margin.
- **Percentiles and bands.** Percentile bands partition the reals and are monotone. On
  the results page, a result flagged normal never gets a warning colour: red or blue for
  weight-style results, red or orange for height. Conversely, an abnormal percentile gets
  its warning colour once it is more than 0.05 past the cut-off. Nearer the cut-off the
  display rounding can move it into the next band (see `RoundedUpToOrange`).
- **Charts.** The chart grids have the proven lengths (25, 217 and 131 points). Each
  grid point carries the curves of the interpolated row at its age or length.
- **Input page.** The measurement toggle keeps the selection closed under "BMI needs
  height and weight". The form validation returns exactly the specified error map.
- **SEO helpers.** Path splitting round-trips with joining. The breadcrumb loop builds
  exactly the specified breadcrumb list.
- **Store.** Every store action changes only its own field. Patches merge as the object
  spread does.

## Model

| member | source | states |
|---|---|---|
| Numerics.Abs | src/utils/calculations.ts:165 | the result is non-negative and equals x or -x |
| Numerics.Min | src/utils/calculations.ts:179 | the result is a lower bound of both arguments and is one of them |
| Numerics.Max | src/utils/calculations.ts:179 | the result is an upper bound of both arguments and is one of them |
| Numerics.Floor | src/utils/calculations.ts:31-32 | the result is the greatest integer not above x |
| Numerics.RoundHalfUp | src/utils/calculations.ts:230-231 | the result is the integer nearest to v, with ties rounded up, as Math.round does |
| Numerics.RoundTo | src/utils/calculations.ts:230-231 | rounding to 1/k moves a value by at most half a step |
| Numerics.RoundToExact | src/utils/calculations.ts:230-231 | a value already on the 1/k grid is left unchanged by rounding |
| Numerics.Round1Percent | src/utils/calculations.ts:231 | a percentile in [0, 100] stays in [0, 100] after rounding to one decimal |
| Numerics.Round1Shift | src/utils/calculations.ts:343-345 | rounding commutes with adding a multiple of 0.1, so the rounded margins equal the rounded MPH plus or minus the margin |
| Numerics.Round1Monotone | src/utils/calculations.ts:231 | rounding to one decimal is monotone |
| Interpolation.WellFormedIsValid | src/utils/calculations.ts:83-139 | a strictly increasing table with positive M and S meets the interpolation preconditions |
| Interpolation.StrictlyIncreasingIsSorted | src/utils/calculations.ts:98 | adjacent increase implies every pair is ordered, so the sort leaves the table unchanged |
| Interpolation.LerpBetween | src/utils/calculations.ts:124-138 | the interpolated row has x equal to the query, and each of L, M and S lies between the neighbours' values |
| Interpolation.BetweenKeepsPositive | src/utils/calculations.ts:124-138 | interpolating between rows with positive M and S keeps M and S positive |
| Interpolation.IndexOfKey | src/utils/calculations.ts:94-95 | the result is the first index whose age equals the query, or the table length if there is none |
| Interpolation.FirstBracketFrom | src/utils/calculations.ts:103-109 | the result is the first index i with t[i].x <= q <= t[i+1].x, or the length if no pair brackets q |
| Interpolation.InsertByX | src/utils/calculations.ts:98 | one insertion step of the stable sort adds exactly the new row to the multiset of rows |
| Interpolation.InsertSorted | src/utils/calculations.ts:98 | inserting into sorted rows keeps them sorted |
| Interpolation.InsertSplit | src/utils/calculations.ts:98 | in sorted rows the new row lands after every row with a key up to its own and before every larger key |
| Interpolation.SortTable | src/utils/calculations.ts:98 | the stable sort returns a sorted permutation of the table |
| Interpolation.SortTableOfSorted | src/utils/calculations.ts:98 | sorting an already sorted table changes nothing |
| Interpolation.KeyRowsInsert | src/utils/calculations.ts:98 | an insertion puts the new row after every row sharing its key |
| Interpolation.KeyRowsSorted | src/utils/calculations.ts:98 | the sort keeps the rows of each age in their original order (stability) |
| Interpolation.IndexOfKeyIsFirstKeyRow | src/utils/calculations.ts:94-95 | `find` succeeds exactly when some row has the age, and returns the first row with that age |
| Interpolation.InterpolateTable | src/utils/calculations.ts:83-139 | a negative age fails, an empty table fails, anything else gives a row; on a sorted table the result is `Interpolate` |
| Interpolation.InterpolateTableOfSorted | src/utils/calculations.ts:94-98 | the result equals `Interpolate` on the sorted table, and sorting the table first changes no result |
| Interpolation.DescendingPairInterpolated | src/utils/calculations.ts:98-138 | two rows given in descending order still interpolate a query between them rather than clamping |
| Interpolation.SortByX | src/utils/calculations.ts:98 | the in-place sort leaves the array equal to the stable sort `SortTable` of its old contents, hence sorted by age and a permutation; a sorted array is unchanged |
| Interpolation.InsertLast | src/utils/calculations.ts:98 | one insertion step turns the sorted prefix plus the next element into their stable insertion and leaves the rest of the array alone |
| Interpolation.FindBracket | src/utils/calculations.ts:103-109 | the scan loop returns the first bracketing index of the specification |
| Interpolation.Swap | src/utils/calculations.ts:98 | exchanges two neighbouring elements and changes nothing else |
| Interpolation.PermutationKeepsNoKey | src/utils/calculations.ts:94-98 | sorting cannot create an exact age match that was absent before |
| Interpolation.InterpolateLms | src/utils/calculations.ts:83-139 | the result equals `InterpolateTable` of the caller's array as it was, and `Interpolate` of the array as left; a negative age fails; the array ends unchanged or as `SortTable` of its old contents, and unchanged when already sorted or when the method returns before sorting |
| Interpolation.InterpolateExact | src/utils/calculations.ts:94-95 | a query equal to a table age returns the first such row |
| Interpolation.InterpolateClampLow | src/utils/calculations.ts:112-114 | a query below the first age returns the first row |
| Interpolation.InterpolateClampHigh | src/utils/calculations.ts:115-118 | a query above the last age returns the last row |
| Interpolation.InterpolateInRange | src/utils/calculations.ts:103-138 | a query strictly inside the table returns a row at the query age lying between two neighbours that bracket it |
| Interpolation.InterpolateBetweenNeighbours | src/utils/calculations.ts:124-138 | on a strictly increasing table, the result between rows k and k+1 is their linear interpolation |
| Interpolation.LogBranchBetween | src/utils/calculations.ts:150-153 | when L changes sign between two rows, some age between them interpolates to L = 0, which selects the logarithm branch |
| Interpolation.InterpolatePositive | src/utils/calculations.ts:83-139 | on a valid table every non-negative age interpolates, with positive M and S |
| Interpolation.FirstAtLeast | src/utils/calculations.ts:517-555 | the result is the first index at or after i whose length is at least q |
| Interpolation.InterpolateWfl | src/components/WeightForLengthChart.tsx:309-347 | the scan loop returns the weight-for-length lookup of the specification |
| Interpolation.WflEmpty | src/utils/calculations.ts:518 | an empty table yields no row |
| Interpolation.WflExact | src/components/WeightForLengthChart.tsx:316-319 | an exact length returns the first row with that length |
| Interpolation.WflClampLow | src/components/WeightForLengthChart.tsx:329-331 | a length below the table returns the first row |
| Interpolation.WflClampHigh | src/components/WeightForLengthChart.tsx:332-334 | a length above the table returns the last row |
| Interpolation.WflInRange | src/components/WeightForLengthChart.tsx:336-346 | an inner length returns a row at that length between the last shorter row and the first longer row |
| Interpolation.WflPositive | src/utils/calculations.ts:517-555 | on a non-empty table with positive M and S, every length yields a row with positive M and S |
| LmsMath.CalculateZScore | src/utils/calculations.ts:144-155 | fails exactly when the measurement, M or S is not positive; otherwise it is the LMS z-score (power branch for L ≠ 0, logarithm branch for L = 0) |
| LmsMath.ZScoreAtMedian | src/utils/calculations.ts:144-155 | a measurement equal to the median M has z-score 0 for every L |
| LmsMath.ZScoreLinear | src/utils/calculations.ts:150-151 | with L = 1 the z-score is (x − M)/(M·S) |
| LmsMath.ZScoreLinearSign | src/utils/calculations.ts:150-151 | with L = 1 the z-score's sign is the sign of x − M |
| LmsMath.ZScoreToPercentile | src/utils/calculations.ts:160-180 | the percentile lies in [0, 100] and is 100 times the approximated CDF whenever that is inside (0, 1) |
| LmsMath.PercentileSymmetric | src/utils/calculations.ts:164-179 | the approximation is symmetric: the percentiles of z and −z sum to 100 |
| LmsMath.PercentileAtZero | src/utils/calculations.ts:164-179 | z = 0 gives 50.00000005, the approximation's constant error at the median |
| Interpretation.DetermineGrowthStandard | src/utils/calculations.ts:185-191 | WHO exactly up to 24 months inclusive, CDC above |
| Interpretation.HeightBand | src/utils/calculations.ts:242-281 | the band is the first of the percentile floors 97, 90, 75, 25, 10, 3 that the percentile reaches (6 if none) |
| Interpretation.HeightBandIntervals | src/utils/calculations.ts:242-281 | each height band is exactly one half-open percentile interval |
| Interpretation.HeightBandMonotone | src/utils/calculations.ts:242-281 | a higher percentile never gets a lower-ranked height band |
| Interpretation.GenerateInterpretation | src/utils/calculations.ts:242-281 | normal exactly when the percentile is at least 10; texts use "length" under WHO and "height" under CDC, and interpretation and advice share the band |
| Interpretation.WeightBand | src/utils/calculations.ts:405-449 | the band is the first of the ceilings (<3, <10, <25, ≤75, ≤90, ≤97) the percentile stays under, or 6 |
| Interpretation.WeightBandIntervals | src/utils/calculations.ts:405-449 | each weight band is exactly one percentile interval |
| Interpretation.WeightBandMonotone | src/utils/calculations.ts:405-449 | the weight band grows with the percentile |
| Interpretation.WeightStyleVerdict | src/utils/calculations.ts:388-390 | normal exactly when 3 ≤ percentile ≤ 97; interpretation and advice carry the metric and the weight band |
| Conversions.CalculateAge | src/utils/calculations.ts:15-40 | a missing date fails; a measurement before birth fails; otherwise the day difference, fractional months (days / 30.4375), and whole years and months (0..11) that recompose to the floor of the months |
| Conversions.CalculateAgeExample | src/utils/calculations.ts:15-40 | 731 days is 2 years 0 months, and a measurement the day before birth fails |
| Conversions.ConvertHeight | src/utils/calculations.ts:45-59 | fails exactly on a negative height; the result denotes the same length in centimetres; same units return the input |
| Conversions.ConvertWeight | src/utils/calculations.ts:64-78 | fails exactly on a negative weight; the result denotes the same mass in kilograms; same units return the input |
| Conversions.ConvertHeightRoundTrip | src/utils/calculations.ts:45-59 | converting there and back returns the original height |
| Conversions.ConvertWeightRoundTrip | src/utils/calculations.ts:64-78 | converting there and back returns the original weight |
| Conversions.ConvertHeightCompose | src/utils/calculations.ts:45-59 | converting through an intermediate unit equals converting directly |
| Conversions.CalculateBmi | src/utils/calculations.ts:455-464 | fails exactly when weight or height is not positive; otherwise within 0.005 of kg/m² |
| Conversions.BmiMonotone | src/utils/calculations.ts:460-461 | at a fixed height, BMI grows with weight |
| Conversions.CalculateBmiExample | src/utils/calculations.ts:455-464 | 20 kg at 100 cm gives BMI 20; a zero weight fails |
| WhoHeight.GetWhoData | src/data/whoData_height.ts:63-65 | boys get the boys' table, everyone else the girls'; both have monthly ages 0..24, positive M and S, and L = 1 |
| WhoHeight.BoysAges | src/data/whoData_height.ts:4-31 | the boys' ages are 0, 1, …, 24 months |
| WhoHeight.BoysMedians | src/data/whoData_height.ts:4-31 | the boys' median lengths increase month by month |
| WhoHeight.BoysPositive | src/data/whoData_height.ts:4-31 | every boys' row has positive M and S |
| WhoHeight.BoysPowers | src/data/whoData_height.ts:4-31 | every boys' row has L = 1 |
| WhoHeight.GirlsAges | src/data/whoData_height.ts:34-61 | the girls' ages are 0, 1, …, 24 months |
| WhoHeight.GirlsMedians | src/data/whoData_height.ts:34-61 | the girls' median lengths increase month by month |
| WhoHeight.GirlsPositive | src/data/whoData_height.ts:34-61 | every girls' row has positive M and S |
| WhoHeight.GirlsPowers | src/data/whoData_height.ts:34-61 | every girls' row has L = 1 |
| WhoHeight.SixMonthBoyAtMedian | src/data/whoData_height.ts:10 | a six-month boy at the table median has z-score 0 |
| WhoWeight.GetWhoWeightData | src/data/whoData_weight.ts:62-64 | boys get the boys' table, everyone else the girls'; both are monthly, with positive M and S, increasing medians and decreasing L |
| WhoWeight.BoysAges | src/data/whoData_weight.ts:4-30 | the boys' ages are 0, 1, …, 24 months |
| WhoWeight.BoysMedians | src/data/whoData_weight.ts:4-30 | the boys' median weights increase month by month |
| WhoWeight.BoysPositive | src/data/whoData_weight.ts:4-30 | every boys' row has positive M and S |
| WhoWeight.BoysPowers | src/data/whoData_weight.ts:4-30 | the boys' L values decrease month by month |
| WhoWeight.GirlsAges | src/data/whoData_weight.ts:33-59 | the girls' ages are 0, 1, …, 24 months |
| WhoWeight.GirlsMedians | src/data/whoData_weight.ts:33-59 | the girls' median weights increase month by month |
| WhoWeight.GirlsPositive | src/data/whoData_weight.ts:33-59 | every girls' row has positive M and S |
| WhoWeight.GirlsPowers | src/data/whoData_weight.ts:33-59 | the girls' L values decrease month by month |
| WhoWeight.LogBranchReachable | src/data/whoData_weight.ts:4-59 | L crosses zero in both weight tables, so some age takes the logarithm branch of the z-score |
| Percentiles.HeightResultFromZ | src/utils/calculations.ts:223-236 | the result keeps the standard, rounds z to within 0.005 and the percentile to within 0.05, stays in [0, 100], and is normal exactly when the unrounded percentile is at least 10 |
| Percentiles.HeightZ | src/utils/calculations.ts:213-223 | on a table in any order: an empty table fails, a negative age fails, and a non-positive height fails |
| Percentiles.CalculateGrowthResult | src/utils/calculations.ts:196-237 | missing gender, height or unit fails; a negative height fails; a success uses the standard for the age and is the rounded result of the z-score of the height in centimetres on that standard's table |
| Percentiles.GrowthResultUnitInvariant | src/utils/calculations.ts:202 | entering h inches gives the same result as entering h × 2.54 centimetres |
| Percentiles.GrowthResultDefinedForInfants | src/utils/calculations.ts:196-237 | for every age up to 24 months and every positive height, the result exists and uses WHO |
| Percentiles.SixMonthBoyAtMedianResult | src/utils/calculations.ts:196-237 | a six-month boy of 67.6236 cm has z-score 0, percentile 50, is normal and gets the average-length text |
| Percentiles.WeightStyleResult | src/utils/calculations.ts:374-399 | the rounded z-score and percentile are within 0.005 and 0.05 of the LMS values; normal exactly when 3 ≤ percentile ≤ 97; texts follow the weight band |
| Percentiles.AgeStandard | src/utils/calculations.ts:361 | the weight and BMI standard agrees with the height standard for the age |
| Percentiles.CalculateWeightPercentile | src/utils/calculations.ts:355-400 | fails exactly for a negative age; otherwise it is the weight-style result on the WHO weight table (up to 24 months) or the CDC table, at the interpolated row |
| Percentiles.CalculateBmiPercentile | src/utils/calculations.ts:560-605 | fails exactly for a negative age; otherwise it is the weight-style result on the WHO or CDC BMI table at the interpolated row |
| Percentiles.CalculateWeightForLengthPercentile | src/utils/calculations.ts:469-512 | fails exactly when the table is empty; otherwise it is the weight-style result at the weight-for-length row of the length, under WHO |
| Percentiles.WeightForLengthFromTables | src/utils/calculations.ts:469-512 | with the reference tables, weight-for-length never fails |
| MidParental.Mph | src/utils/calculations.ts:305-319 | twice the MPH is the parents' sum plus 13 cm for boys, minus 13 cm for girls |
| MidParental.Margin | src/utils/calculations.ts:309-318 | the target margin is 10 cm for boys and 8.5 cm for girls |
| MidParental.ParentalZScores | src/utils/calculations.ts:338-340 | fails exactly when the lower target, M or S is not positive; otherwise the three z-scores of MPH and its bounds |
| MidParental.CalculateMidParentalHeight | src/utils/calculations.ts:286-350 | adopted without both parent heights gives no result; missing data otherwise fails; a result has MPH within 0.05, bounds equal to MPH ± margin, z-scores within 0.005 at the CDC row for 240 months (of the table in any order), and no level-2 values |
| MidParental.TargetRangeWidth | src/utils/calculations.ts:309-318 | MPH lies strictly inside the target range, and the range is exactly twice the margin wide |
| MidParental.MidParentalDefined | src/utils/calculations.ts:286-350 | with both parents given and the MPH above the margin, the calculation succeeds for a non-adopted child |
| MidParental.BoyExample | src/utils/calculations.ts:305-311 | mother 165 and father 180 give a boy MPH 179 and range 169–189 |
| MidParental.GirlExample | src/utils/calculations.ts:312-318 | the same parents give a girl MPH 166 and range 157.5–174.5 |
| ChartCurves.FixedZ | src/components/GrowthChart.tsx:83-112 | a z-value exists exactly for the supported percentiles; it is negative below 50 and zero at 50 |
| ChartCurves.FixedZAntisymmetric | src/components/GrowthChart.tsx:83-112 | the z-value of 100 − p is the negation of that of p |
| ChartCurves.FixedZIncreasing | src/components/GrowthChart.tsx:83-112 | the z-values increase with the supported percentile |
| ChartCurves.NearestFrom | src/components/GrowthChart.tsx:110 | the fold returns the accumulator or a candidate, and is at least as close as every candidate |
| ChartCurves.Nearest | src/components/GrowthChart.tsx:108-111 | the result is a supported percentile at minimal distance from p |
| ChartCurves.NearestPrefersMedian | src/components/GrowthChart.tsx:110 | ties with the initial value 50 keep 50 |
| ChartCurves.NearestTieExample | src/components/GrowthChart.tsx:110 | 37.5 is as far from 25 as from 50 and maps to 50 |
| ChartCurves.NearestOfSupported | src/components/GrowthChart.tsx:108-111 | a supported percentile is its own nearest |
| ChartCurves.ZFor | src/components/GrowthChart.tsx:83-112 | a supported percentile gets its fixed z-value |
| ChartCurves.ZForFallback | src/components/GrowthChart.tsx:107-111 | any other percentile gets the z-value of its nearest supported one |
| ChartCurves.CurvesAtUseZFor | src/components/GrowthChart.tsx:120-129 | each of the seven curves is evaluated at its percentile's z-value |
| ChartCurves.MedianCurveIsM | src/components/GrowthChart.tsx:114-117 | the 50th-percentile curve is the median M |
| ChartCurves.CurvesOrderedWhenLinear | src/components/GrowthChart.tsx:114-129 | with L = 1 the seven curves are strictly ordered |
| ChartCurves.SupportedZ | src/components/GrowthChart.tsx:86-105 | the seven fixed z-values pair up symmetrically around 0 |
| ChartCurves.CurveIncreasing | src/components/GrowthChart.tsx:114-117 | with L = 1 the curve value grows with z |
| ChartCurves.AgeWindow | src/components/GrowthChart.tsx:45-52 | months 24..240 above 24 months, otherwise 0..24 |
| ChartCurves.PointAtFacts | src/components/GrowthChart.tsx:120-138 | a point sits at month/12 years, carries the curves of its row, and has the overlay exactly from month 216 on |
| ChartCurves.Prepend | src/components/GrowthChart.tsx:140 | pushing points before a failing rest fails; otherwise it concatenates |
| ChartCurves.BuildAgeGrid | src/components/GrowthChart.tsx:70-141 | the table ends unchanged or stably sorted, and unchanged if it was sorted; the result is the specified grid of points over the sorted table |
| ChartCurves.TableSeenByCall | src/components/GrowthChart.tsx:70-141 | whether or not an earlier call sorted the table, a call finds the sorted table's row and leaves the table sorted as before |
| ChartCurves.RowOfMonth | src/components/GrowthChart.tsx:70-141 | one call of the chart loop returns the sorted table's row for the month and leaves the table as it was or sorted |
| ChartCurves.GridSize | src/components/GrowthChart.tsx:70 | when every row exists, the grid has one point per month |
| ChartCurves.GridAt | src/components/GrowthChart.tsx:70-141 | point i of the grid is built from the row of month start + i |
| ChartCurves.RowsFound | src/components/GrowthChart.tsx:76-77 | on a valid table every month has a row, so no month is skipped |
| ChartCurves.AgeGridPoints | src/components/GrowthChart.tsx:70-141 | the grid has end − start + 1 points, and point i is built from the interpolated row at month start + i |
| ChartCurves.AgeChartLength | src/components/GrowthChart.tsx:45-70 | the chart has 217 points above 24 months and 25 otherwise |
| ChartCurves.AgeGridPointFacts | src/components/GrowthChart.tsx:70-141 | ages strictly increase along the grid, the overlay starts at month 216, and the median curve is the interpolated M |
| ChartCurves.FirstWithin | src/components/GrowthChart.tsx:266 | the first index within the tolerance of the target, or −1 when there is none |
| ChartCurves.ChildSeries | src/components/GrowthChart.tsx:262-268 | the child series is as long as the grid and holds the child's value exactly at the first matching index |
| ChartCurves.ChildSeriesSingle | src/components/GrowthChart.tsx:262-268 | at most one point is shown, and one is shown exactly when some grid key is within tolerance |
| ChartCurves.Compact | src/components/GrowthChart.tsx:229 | filter(Boolean) keeps only present non-zero values and never lengthens the series |
| GrowthChart.GrowthChartData | src/components/GrowthChart.tsx:36-144 | each table ends unchanged or stably sorted, and the table not read is unchanged; above 24 months the CDC grid 24..240 with the MPH overlay, otherwise the WHO grid 0..24, both over the sorted table |
| GrowthChart.LabelOfMonth | src/components/GrowthChart.tsx:150-160 | CDC charts label only whole years; WHO charts label every month |
| GrowthChart.Ages | src/components/GrowthChart.tsx:266 | the ages of the points, in order |
| GrowthChart.ChildHeightSeries | src/components/GrowthChart.tsx:146-147 | fails on a negative height; otherwise the child's height in centimetres appears only at the first point within 0.05 years |
| GrowthChart.OverlayDataset | src/components/GrowthChart.tsx:227-256 | the aligned overlay series holds each point's MPH value at that point's index |
| GrowthChart.OverlayDatasetAsWritten | src/components/GrowthChart.tsx:229 | the filtered overlay series is no longer than the grid |
| GrowthChart.CompactTail | src/components/GrowthChart.tsx:229 | filtering a series that is absent then constant keeps only the constant tail |
| GrowthChart.OverlayMisplaced | src/components/GrowthChart.tsx:229 | on the CDC grid, the filtered MPH series has 25 values, and its first value is plotted at age 2, where the point has no overlay |
| GrowthChart.OverlayAligned | src/components/GrowthChart.tsx:131-138 | the aligned overlay holds the MPH exactly at months 216..240 |
| WeightChart.WeightChartData | src/components/WeightChart.tsx:36-131 | each table ends unchanged or stably sorted, and the table not read is unchanged; the CDC grid 24..240 above 24 months, else the WHO grid 0..24, without overlay |
| WeightChart.WeightPointsPlain | src/components/WeightChart.tsx:36-131 | weight chart points carry no MPH or target values |
| WeightChart.ChildWeightKg | src/components/WeightChart.tsx:133-134 | 0 without a weight or unit; otherwise the weight in kilograms, failing on a negative weight |
| WeightChart.ChildWeightSeries | src/components/WeightChart.tsx:216-225 | the child's weight appears only at the first point within 0.05 years |
| WflChart.GridLength | src/components/WeightForLengthChart.tsx:50-58 | grid step k sits at 45 + k/2 cm |
| WflChart.WflPointsStep | src/components/WeightForLengthChart.tsx:58-115 | one loop step appends a point exactly when the lookup yields a row |
| WflChart.WflChartData | src/components/WeightForLengthChart.tsx:45-118 | the loop returns the specified points for lengths 45..110 cm |
| WflChart.WflPointsEmpty | src/components/WeightForLengthChart.tsx:60-61 | an empty table gives an empty chart |
| WflChart.WflPointsLength | src/components/WeightForLengthChart.tsx:58 | when every length has a row, there is one point per step |
| WflChart.WflPointAt | src/components/WeightForLengthChart.tsx:58-115 | point i sits at its grid length and carries the curves of its row |
| WflChart.WflRowsFound | src/components/WeightForLengthChart.tsx:309-347 | a non-empty table yields a row for every length |
| WflChart.WflChartLengths | src/components/WeightForLengthChart.tsx:50-58 | a non-empty table gives 131 points from 45 cm to 110 cm |
| WflChart.WflChartIncreasing | src/components/WeightForLengthChart.tsx:58 | lengths strictly increase along the chart |
| WflChart.WflChartCurves | src/components/WeightForLengthChart.tsx:58-115 | point i carries the curves of the lookup at its length |
| WflChart.ChildWeight | src/components/WeightForLengthChart.tsx:121-122 | 0 without a weight; kilograms as entered; any other unit converted from pounds |
| WflChart.ChildLength | src/components/WeightForLengthChart.tsx:123-124 | 0 without a height; centimetres as entered; any other unit converted from inches |
| WflChart.InlineConversionsAgree | src/components/WeightForLengthChart.tsx:121-124 | the chart's inline conversions agree with the shared conversion functions |
| WflChart.Lengths | src/components/WeightForLengthChart.tsx:200 | the lengths of the points, in order |
| WflChart.ChildWflSeries | src/components/WeightForLengthChart.tsx:195-204 | the child's weight appears only at the first point within 0.5 cm of the child's length |
| InputPage.Dedup | src/pages/InputPage.tsx:21 | Set construction keeps the elements, drops duplicates, and never lengthens the list |
| InputPage.Delete | src/pages/InputPage.tsx:23 | Set delete removes exactly the key and keeps distinctness |
| InputPage.DeleteAbsent | src/pages/InputPage.tsx:23 | deleting an absent key changes nothing |
| InputPage.DeleteAt | src/pages/InputPage.tsx:23 | deleting the member at index i leaves the other members in their order |
| InputPage.Add | src/pages/InputPage.tsx:29 | Set add keeps the old order and makes the key present |
| InputPage.ToggleMeasurement | src/pages/InputPage.tsx:20-37 | the new selection is distinct, equals the toggled set, contains the key exactly when it was absent, and keeps the old order when adding |
| InputPage.RemoveKey | src/pages/InputPage.tsx:22-27 | removing height or weight also removes BMI; nothing else changes |
| InputPage.AddKey | src/pages/InputPage.tsx:28-34 | adding BMI also adds height and weight; the old order is kept |
| InputPage.ToggleKeepsBmiClosed | src/pages/InputPage.tsx:20-37 | a toggle keeps "BMI implies height and weight" and flips the key |
| InputPage.ToggleNeedsBmiClosed | src/pages/InputPage.tsx:20-37 | from a selection of BMI alone, toggling height does not restore the invariant |
| InputPage.SelectAllAndClearBmiClosed | src/pages/InputPage.tsx:330-339 | "select all" and "clear" give selections that keep the invariant |
| InputPage.RequiresHeight | src/pages/InputPage.tsx:17 | height is required exactly when height or BMI is selected |
| InputPage.RequiresWeight | src/pages/InputPage.tsx:18 | weight is required exactly when weight or BMI is selected |
| InputPage.RequiresUnderBmiClosed | src/pages/InputPage.tsx:16-18 | under the invariant, height (weight) is required exactly when it is itself selected |
| InputPage.NumberError | src/pages/InputPage.tsx:204-254 | no error exactly when the value is present, positive and within the unit's range |
| InputPage.BirthDateError | src/pages/InputPage.tsx:181-194 | missing, future, or over 240 months of age; "invalid" is never reported |
| InputPage.EmptySelectionRecord | src/pages/InputPage.tsx:152-155 | an empty selection reports only the measurement-selection error |
| InputPage.ValidateForm | src/pages/InputPage.tsx:150-259 | the loop returns exactly the specified error map and is valid exactly when that map is empty |
| InputPage.CheckGender | src/pages/InputPage.tsx:175-178 | records the gender error after the selection check |
| InputPage.CheckRest | src/pages/InputPage.tsx:196-254 | records the remaining fields' errors, giving the whole error map |
| InputPage.CheckNumber | src/pages/InputPage.tsx:204-254 | records one numeric field's error only when its measurement is selected |
| InputPage.ValidateFormAsWritten | src/pages/InputPage.tsx:150-259 | as the source is written, a future birth date makes the age calculation throw; otherwise the same error map |
| InputPage.MeasurementRules | src/pages/InputPage.tsx:204-228 | the height (weight) field is error-free exactly when it is not selected or is positive and in range |
| InputPage.ParentRules | src/pages/InputPage.tsx:230-254 | parent heights are checked only when height is selected, each against the parent range of its unit |
| InputPage.BirthDateRules | src/pages/InputPage.tsx:181-194 | a future birth date is reported as future, and "invalid" is never reported |
| InputPage.BornTomorrow | src/pages/InputPage.tsx:187-189 | a birth date one day after today makes the age calculation fail, while the intended rule reports it as future |
| ResultsPage.AcceptedByGrowthResult | src/utils/calculations.ts:198-200 | results exist only for children with gender, a positive height and a unit |
| ResultsPage.WeightResultOf | src/pages/ResultsPage.tsx:38-44 | no result without a weight or unit; fails on a negative weight or age; otherwise the weight percentile of the weight in kilograms |
| ResultsPage.BmiResultOf | src/pages/ResultsPage.tsx:46-64 | no result without a weight or unit; fails on a negative weight; weight-for-length under WHO up to 24 months, otherwise the CDC BMI percentile of the computed BMI |
| ResultsPage.MphRecommendation | src/pages/ResultsPage.tsx:67-117 | nothing up to 24 months or without MPH; otherwise fails only on an empty table, else a verdict |
| ResultsPage.RecommendationUsesCurrentRow | src/pages/ResultsPage.tsx:72-101 | the verdict compares the child's height in centimetres with the target bounds at the row the CDC table, in any order, gives for the child's own age |
| ResultsPage.WithinTargetByZScore | src/pages/ResultsPage.tsx:88-101 | under a rising curve, being within the target range equals having a z-score between the bounds' z-scores |
| ResultsPage.LinearRowRises | src/pages/ResultsPage.tsx:92-94 | an L = 1 row gives a strictly rising curve |
| ResultsPage.PercentileColor | src/pages/ResultsPage.tsx:309-315 | red below 3, orange below 10, blue above 97, green above 90, grey otherwise, as a partition |
| ResultsPage.Rank | src/pages/ResultsPage.tsx:309-315 | colours are ranked 0..4 from red to blue |
| ResultsPage.ColorMonotone | src/pages/ResultsPage.tsx:309-315 | a higher percentile never gets a lower-ranked colour |
| ResultsPage.PercentileText | src/pages/ResultsPage.tsx:397-401 | "<3rd" is shown exactly when the colour is red; otherwise the percentile itself |
| ResultsPage.Round1Below | src/utils/calculations.ts:393 | a rounded percentile below an integer bound means the exact one was below it |
| ResultsPage.Round1Above | src/utils/calculations.ts:393 | a rounded percentile above an integer bound means the exact one was above it |
| ResultsPage.ColorAgreesWithWeightFlag | src/pages/ResultsPage.tsx:309-315 | a red or blue weight result is flagged abnormal |
| ResultsPage.ColorAgreesWithHeightFlag | src/pages/ResultsPage.tsx:309-315 | a red or orange height result is flagged abnormal |
| ResultsPage.WeightFlagShowsWarningColor | src/pages/ResultsPage.tsx:309-315 | a weight-style percentile below 2.95 is flagged abnormal and shown red; one above 97.05 is flagged abnormal and shown blue |
| ResultsPage.HeightFlagShowsWarningColor | src/pages/ResultsPage.tsx:309-315 | a height percentile below 9.95 is flagged abnormal and shown red or orange |
| ResultsPage.RoundedUpToOrange | src/pages/ResultsPage.tsx:309-315 | 2.96 is abnormal for weight but rounds to 3.0, which is shown orange, not red |
| ResultsPage.FormatAge | src/pages/ResultsPage.tsx:299-307 | months only under one year, years only on a whole year, else both |
| ResultsPage.FormatAgeDenotesAge | src/pages/ResultsPage.tsx:299-307 | the text denotes exactly the whole months of age, with the month part under 12 |
| ResultsPage.AvailableTabs | src/pages/ResultsPage.tsx:119-122 | defaults to the height tab without a selection; otherwise the selection itself |
| ResultsPage.NextActiveTab | src/pages/ResultsPage.tsx:124-129 | the active tab moves to the first available one only when it is not available |
| ResultsPage.NextActiveTabSettles | src/pages/ResultsPage.tsx:124-129 | the effect reaches a fixed point after one step |
| ResultsPage.DefaultTabIsHeight | src/pages/ResultsPage.tsx:17 | without a selection the active tab is height |
| Seo.Split | src/utils/seo.ts:213 | splitting at '/' gives at least one part, and no part contains '/' |
| Seo.SplitConcat | src/utils/seo.ts:213 | splitting a + "/" + b is the split of a followed by the split of b |
| Seo.SplitNoSlash | src/utils/seo.ts:213 | a string without '/' splits into itself |
| Seo.JoinSplit | src/utils/seo.ts:213 | joining the parts with '/' gives back the string |
| Seo.SplitJoin | src/utils/seo.ts:213 | splitting the join of slash-free parts gives back the parts |
| Seo.NonEmpty | src/utils/seo.ts:213 | filter(Boolean) keeps only non-empty parts of the input |
| Seo.NonEmptyConcat | src/utils/seo.ts:213 | filtering distributes over concatenation |
| Seo.Segments | src/utils/seo.ts:213 | path segments are non-empty and slash-free |
| Seo.SegmentsConcat | src/utils/seo.ts:213 | the segments of a + "/" + b are those of a followed by those of b |
| Seo.EmptySegmentsDropped | src/utils/seo.ts:213 | doubled, leading and trailing slashes do not change the segments |
| Seo.SegmentsOfPath | src/utils/seo.ts:213 | the segments of "/" joined with non-empty slash-free parts are those parts |
| Seo.Upper | src/utils/seo.ts:230 | ASCII lower-case letters become upper case, other characters stay |
| Seo.Capitalize | src/utils/seo.ts:230 | the first character is upper-cased and the rest kept |
| Seo.BreadcrumbSchema | src/utils/seo.ts:211-245 | the loop builds exactly the specified breadcrumb list |
| Seo.PathOfJoin | src/utils/seo.ts:228-229 | the accumulated path is "/" joined with the segments so far |
| Seo.BreadcrumbsShape | src/utils/seo.ts:219-238 | one item per segment plus Home first, with positions 1, 2, … |
| Seo.BreadcrumbItem | src/utils/seo.ts:228-237 | item k is named after segment k capitalised and links to the base URL plus the first k segments |
| Seo.ConfigOf | src/utils/seo.ts:249-279 | exactly the six known paths have a page configuration |
| Seo.PageSchema | src/utils/seo.ts:248-292 | unknown paths use the home configuration; the URL is the base URL plus the path, and the breadcrumb is the path's |
| Seo.UnknownPathFallback | src/utils/seo.ts:281 | an unknown path gets the home page's configuration but its own URL and breadcrumb |
| Seo.ExtraSchema | src/utils/seo.ts:318-327 | an extra schema exists exactly for /, /about, /faq and /input |
| Seo.PageSchemas | src/utils/seo.ts:311-330 | organisation first, then the page schema, then the page's extra schema when there is one |
| AppStore.SameOnEveryKey | src/store/useAppStore.ts:43-46 | two drafts that agree on every key are equal |
| AppStore.MergeOverwritesPresentKeys | src/store/useAppStore.ts:43-46 | the spread takes each key present in the patch and keeps every other key |
| AppStore.MergeNoChange | src/store/useAppStore.ts:43-46 | an empty patch changes nothing |
| AppStore.ThenPrefersLater | src/store/useAppStore.ts:43-46 | composing patches takes each key from the later patch when present |
| AppStore.MergeTwice | src/store/useAppStore.ts:43-46 | two merges equal one merge of the composed patch |
| AppStore.MergeIdempotent | src/store/useAppStore.ts:43-46 | applying the same patch twice equals applying it once |
| AppStore.BlankChild | src/store/useAppStore.ts:25-38 | the blank draft has the given measurement date, an empty selection, no values, and centimetre and kilogram units |
| AppStore.Store.constructor | src/store/useAppStore.ts:40-81 | starts with the blank draft of the load day, no results, centimetres, and not calculating |
| AppStore.Store.SetChildData | src/store/useAppStore.ts:43-46 | merges the patch into the draft and changes nothing else |
| AppStore.Store.ClearChildData | src/store/useAppStore.ts:47 | restores the blank draft dated on the load day and changes nothing else |
| AppStore.Store.ResetForNewCalculation | src/store/useAppStore.ts:48-67 | clears the results and sets a blank draft dated today; the unit and flag are unchanged |
| AppStore.Store.SetResults | src/store/useAppStore.ts:71 | sets the results only |
| AppStore.Store.ClearResults | src/store/useAppStore.ts:72 | clears the results only |
| AppStore.Store.SetHeightUnit | src/store/useAppStore.ts:76 | sets the display unit only |
| AppStore.Store.SetIsCalculating | src/store/useAppStore.ts:80 | sets the loading flag only |
| AppStore.ClearMatchesResetOnlyOnLoadDay | src/store/useAppStore.ts:25-55 | clearing and resetting give the same draft exactly when today is the load day |

## Left out

- **Floating point.** IEEE-754 rounding, NaN and Infinity are not modelled. `Math.pow`,
  `Math.log` and `Math.exp` are abstract (`MathLib`), so numeric claims about them hold
  for any lawful library. The error-function constants and the square root of 2 are
  exact literals.
- **Zero M or S.** Percentiles.WeightStyleResult requires M > 0 and S > 0. The weight,
  BMI and weight-for-length paths compute the z-score inline without the `calculateZScore`
  guard, so a zero M or S would give Infinity or NaN. Every table here has positive M and S.
- **Unseen tables.** The CDC height, CDC weight, WHO/CDC BMI and WHO weight-for-length
  tables come from files that are not part of this model. They are the fields of
  `ReferenceTables`.
- Percentiles.CalculateWeightPercentile: requires `ValidTables`, so the empty-table
  error and the in-place sort are not modelled on this path. The sorted order makes the
  sort the identity there.
- Percentiles.CalculateBmiPercentile: requires `ValidTables`, for the same reason as the
  weight path.
- **Texts.** Interpretation and advice texts, colours as CSS classes, and the percentile
  suffix formatting (`toFixed(1)` + "th") are represented by band and kind tags, not by
  strings.
- **Clock.** `new Date()` and date-string parsing are not modelled: dates are day numbers,
  and the current day is a parameter. Conversions.CalculateAge counts whole days, as
  `differenceInDays` does for midnight dates; time zones are not modelled.
- **Adoption.** `isAdopted` is a parameter of MidParental.CalculateMidParentalHeight,
  not a field of the draft.
- **Rendering and I/O.** Not modelled: the PDF export, the DOM, React rendering, chart.js
  options, `injectStructuredData` and the `SEO` component. The other schema builders
  (organisation, web application, FAQ, how-to, medical application) are constant
  literals, represented by their kind.
- **Input page extras.** Not modelled: InputPage's per-field `validateField`
  (src/pages/InputPage.tsx:58-147), the touched state, and the `handleSubmit`
  orchestration with its navigation. `ValidateForm` and the selection helpers are modelled.
- **MPH on the height chart.** GrowthChart.GrowthChartData takes the mid-parental height
  as a value. The source reads it unguarded, even when it is `null`.
- **Weight-for-length lookup.** WeightForLengthChart.tsx keeps its own copy of
  `interpolateWFL`, identical to the one in src/utils/calculations.ts:517-555. Both are
  the single Interpolation.WflLookup / Interpolation.InterpolateWfl.
- **Capitalisation.** Seo.Upper maps only ASCII letters; `toUpperCase` on other scripts
  is not modelled.
- **Page configurations.** Seo.ConfigOf covers the six literal keys. A path such as
  "constructor", which JavaScript would find on the object's prototype, is not modelled.
- **Results page data.** ResultsPage.WeightResultOf, ResultsPage.BmiResultOf and
  ResultsPage.MphRecommendation require a draft with gender, a positive height and a
  unit. Results are stored only after `calculateGrowthResult` succeeded
  (ResultsPage.AcceptedByGrowthResult).
- **Tab filter.** ResultsPage.AvailableTabs leaves out the tab filter. It is the
  identity, because a measurement is one of height, weight and BMI.
- **Rounded output.** Percentiles.HeightResultFromZ and Percentiles.WeightStyleResult
  state the rounded z-score and percentile within half a rounding step, not as exact
  decimals.

## Findings

| source | as written | input that shows it | evidently intended | confidence | as-written member | corrected member |
|---|---|---|---|---|---|---|
| src/pages/InputPage.tsx:181-194 | `calculateAge(dateOfBirth, today)` runs before the future-date test, and it throws when the measurement precedes the birth | a date of birth one day after today | report "Date of birth cannot be in the future" as a field error | not executed | InputPage.ValidateFormAsWritten, InputPage.BornTomorrow | InputPage.ValidateForm, InputPage.BirthDateRules |
| src/components/GrowthChart.tsx:227-256 | the MPH and target-range series are compacted with `filter(Boolean)`, so their 25 values for months 216–240 land at label indices 0–24 | any child over 24 months with a mid-parental height | keep the series aligned with the labels (undefined before 18 years) | not executed | GrowthChart.OverlayMisplaced | GrowthChart.OverlayAligned |
