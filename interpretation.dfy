/**
 * The band classifiers of src/utils/calculations.ts: determineGrowthStandard,
 * generateInterpretation (height) and the six weight-style text generators
 * (weight-for-age, BMI-for-age and weight-for-length, interpretation and
 * advice each). A generated sentence is represented by its `Text` tag.
 */
module Interpretation {
  import opened Types

  /** determineGrowthStandard: WHO up to and including 24 months, CDC after. */
  function DetermineGrowthStandard(ageInMonths: real): (s: GrowthStandard)
    ensures s == WHO <==> ageInMonths <= 24.0
    ensures s == CDC <==> ageInMonths > 24.0
  {
    if ageInMonths <= 24.0 then WHO else CDC
  }

  /** What a generator hands back: the interpretation, the advice and the normal flag. */
  datatype Verdict = Verdict(interpretation: Text, advice: Text, isNormal: bool)

  // ---------------------------------------------------------------------------
  // Height (generateInterpretation, calculations.ts:242-281)
  // ---------------------------------------------------------------------------

  /** The lower bounds of the height bands, tallest first; band 6 is "below the 3rd". */
  const HeightFloors: seq<real> := [97.0, 90.0, 75.0, 25.0, 10.0, 3.0]

  /** The index of the first height band whose lower bound the percentile reaches. */
  function HeightBand(p: real): (b: nat)
    ensures b <= 6
    ensures b < 6 ==> p >= HeightFloors[b]
    ensures forall k :: 0 <= k < b ==> p < HeightFloors[k]
  {
    if p >= 97.0 then 0
    else if p >= 90.0 then 1
    else if p >= 75.0 then 2
    else if p >= 25.0 then 3
    else if p >= 10.0 then 4
    else if p >= 3.0 then 5
    else 6
  }

  /** The height band of a percentile is the one interval that contains it. */
  lemma HeightBandIntervals(p: real)
    ensures HeightBand(p) == 0 <==> p >= 97.0
    ensures HeightBand(p) == 1 <==> 90.0 <= p < 97.0
    ensures HeightBand(p) == 2 <==> 75.0 <= p < 90.0
    ensures HeightBand(p) == 3 <==> 25.0 <= p < 75.0
    ensures HeightBand(p) == 4 <==> 10.0 <= p < 25.0
    ensures HeightBand(p) == 5 <==> 3.0 <= p < 10.0
    ensures HeightBand(p) == 6 <==> p < 3.0
  {
    var b := HeightBand(p);
    assert b < 6 ==> p >= HeightFloors[b];
    assert forall k :: 0 <= k < b ==> p < HeightFloors[k];
  }

  /** A higher percentile never falls into a lower (later) band. */
  lemma HeightBandMonotone(p: real, q: real)
    requires p <= q
    ensures HeightBand(q) <= HeightBand(p)
  {
  }

  /**
   * generateInterpretation: the band text for the percentile, worded with
   * 'length' under WHO and 'height' under CDC; isNormal holds exactly from
   * the 10th percentile up, so the tall bands count as normal.
   */
  function GenerateInterpretation(p: real, standard: GrowthStandard): (v: Verdict)
    ensures v.isNormal <==> p >= 10.0
    ensures v.isNormal <==> HeightBand(p) <= 4
    ensures v.interpretation.metric == v.advice.metric == HeightFor(if standard == WHO then LengthTerm else HeightTerm)
    ensures v.interpretation.kind == Interpretation && v.advice.kind == Advice
    ensures v.interpretation.band == v.advice.band == HeightBand(p)
  {
    var term := if standard == WHO then LengthTerm else HeightTerm;
    var band := HeightBand(p);
    Verdict(Text(HeightFor(term), Interpretation, band), Text(HeightFor(term), Advice, band), band <= 4)
  }

  // ---------------------------------------------------------------------------
  // Weight, BMI and weight-for-length (calculations.ts:405-450, 610-703)
  // ---------------------------------------------------------------------------

  /** The upper bounds of the weight-style bands, lowest first; band 6 is "above the 97th". */
  const WeightCeilings: seq<real> := [3.0, 10.0, 25.0, 75.0, 90.0, 97.0]

  /** Whether the percentile falls under ceiling k: strictly for the first three, inclusively for the rest. */
  predicate UnderCeiling(p: real, k: nat)
    requires k < 6
  {
    if k < 3 then p < WeightCeilings[k] else p <= WeightCeilings[k]
  }

  /** The index of the first weight-style band whose ceiling the percentile stays under. */
  function WeightBand(p: real): (b: nat)
    ensures b <= 6
    ensures b < 6 ==> UnderCeiling(p, b)
    ensures forall k :: 0 <= k < b ==> !UnderCeiling(p, k)
  {
    if p < 3.0 then 0
    else if p < 10.0 then 1
    else if p < 25.0 then 2
    else if p <= 75.0 then 3
    else if p <= 90.0 then 4
    else if p <= 97.0 then 5
    else 6
  }

  /** The seven weight-style bands partition the percentiles into <3, [3,10), [10,25), [25,75], (75,90], (90,97], >97. */
  lemma WeightBandIntervals(p: real)
    ensures WeightBand(p) == 0 <==> p < 3.0
    ensures WeightBand(p) == 1 <==> 3.0 <= p < 10.0
    ensures WeightBand(p) == 2 <==> 10.0 <= p < 25.0
    ensures WeightBand(p) == 3 <==> 25.0 <= p <= 75.0
    ensures WeightBand(p) == 4 <==> 75.0 < p <= 90.0
    ensures WeightBand(p) == 5 <==> 90.0 < p <= 97.0
    ensures WeightBand(p) == 6 <==> p > 97.0
  {
    var b := WeightBand(p);
    assert b < 6 ==> UnderCeiling(p, b);
    assert forall k :: 0 <= k < b ==> !UnderCeiling(p, k);
  }

  lemma WeightBandMonotone(p: real, q: real)
    requires p <= q
    ensures WeightBand(p) <= WeightBand(q)
  {
  }

  /**
   * The weight-style generators for one metric: interpretation and advice
   * come from the same band, and isNormal (calculations.ts:390, 502, 595)
   * holds exactly between the 3rd and the 97th percentile inclusive, which
   * are bands 1 to 5.
   */
  function WeightStyleVerdict(metric: Metric, p: real): (v: Verdict)
    ensures v.isNormal <==> 3.0 <= p <= 97.0
    ensures v.isNormal <==> 1 <= WeightBand(p) <= 5
    ensures v.interpretation == Text(metric, Interpretation, WeightBand(p))
    ensures v.advice == Text(metric, Advice, WeightBand(p))
  {
    var band := WeightBand(p);
    Verdict(Text(metric, Interpretation, band), Text(metric, Advice, band), 3.0 <= p && p <= 97.0)
  }
}
