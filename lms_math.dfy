/**
 * The LMS Z-score and the normal-CDF percentile of src/utils/calculations.ts
 * (calculateZScore, zScoreToPercentile). The percentile follows formula
 * 7.1.26 of Abramowitz and Stegun's Handbook of Mathematical Functions.
 */
module LmsMath {
  import opened Types
  import opened Numerics

  /**
   * The LMS transformation: ((x/M)^L - 1) / (L S) when L is non-zero,
   * ln(x/M) / S when L is zero. Shared by calculateZScore and the inline
   * Z-scores of the weight, BMI and weight-for-length paths.
   */
  function LmsZ(m: MathLib, x: real, L: real, M: real, S: real): real
    requires M != 0.0 && S != 0.0
  {
    if L != 0.0 then (m.pow(x / M, L) - 1.0) / (L * S)
    else m.log(x / M) / S
  }

  /** calculateZScore: the LMS Z-score, refusing a measurement, M or S that is not positive. */
  function CalculateZScore(m: MathLib, x: real, L: real, M: real, S: real): (r: Result<real>)
    ensures r.Failure? <==> x <= 0.0 || M <= 0.0 || S <= 0.0
    ensures r.Failure? ==> r.error == NonPositiveLmsInput
    ensures r.Success? ==> M > 0.0 && S > 0.0 && r.value == LmsZ(m, x, L, M, S)
  {
    if x <= 0.0 || M <= 0.0 || S <= 0.0 then Failure(NonPositiveLmsInput)
    else Success(LmsZ(m, x, L, M, S))
  }

  /** A measurement equal to the median M has Z-score 0, in the Box-Cox and in the log branch. */
  lemma ZScoreAtMedian(m: MathLib, L: real, M: real, S: real)
    requires Lawful(m)
    requires M > 0.0 && S > 0.0
    ensures CalculateZScore(m, M, L, M, S) == Success(0.0)
  {
    assert M / M == 1.0;
    if L != 0.0 {
      assert m.pow(M / M, L) == 1.0;
    } else {
      assert m.log(M / M) == 0.0;
    }
  }

  /** With L = 1 the Z-score is the relative deviation from the median over S. */
  lemma ZScoreLinear(m: MathLib, x: real, M: real, S: real)
    requires Lawful(m)
    requires M > 0.0 && S > 0.0
    ensures LmsZ(m, x, 1.0, M, S) == (x - M) / (M * S)
  {
    assert m.pow(x / M, 1.0) == x / M;
    var z := (x / M - 1.0) / S;
    assert z * S == x / M - 1.0;
    assert (x / M - 1.0) * M == x - M;
    MulPositive(M, S);
    assert z * (M * S) == x - M;
  }

  /** With L = 1 the sign of the Z-score is the sign of x - M. */
  lemma ZScoreLinearSign(m: MathLib, x: real, M: real, S: real)
    requires Lawful(m)
    requires M > 0.0 && S > 0.0
    ensures LmsZ(m, x, 1.0, M, S) > 0.0 <==> x > M
    ensures LmsZ(m, x, 1.0, M, S) == 0.0 <==> x == M
    ensures LmsZ(m, x, 1.0, M, S) < 0.0 <==> x < M
  {
    ZScoreLinear(m, x, M, S);
    MulPositive(M, S);
    QuotientSign(x - M, M * S);
  }

  lemma QuotientSign(a: real, d: real)
    requires d > 0.0
    ensures a / d > 0.0 <==> a > 0.0
    ensures a / d == 0.0 <==> a == 0.0
    ensures a / d < 0.0 <==> a < 0.0
  {
    var q := a / d;
    assert q * d == a;
    if q > 0.0 {
      MulPositive(q, d);
    } else if q < 0.0 {
      MulPositive(-q, d);
    }
  }

  // ---------------------------------------------------------------------------
  // zScoreToPercentile (calculations.ts:160-180)
  // ---------------------------------------------------------------------------

  /** Math.sqrt(2) as a double. */
  const Sqrt2: real := 1.4142135623730951

  const A1: real := 0.254829592
  const A2: real := -0.284496736
  const A3: real := 1.421413741
  const A4: real := -1.453152027
  const A5: real := 1.061405429
  const P: real := 0.3275911

  /** The Abramowitz-Stegun approximation of erf(x) for x >= 0. */
  function ErfApprox(m: MathLib, x: real): real
    requires x >= 0.0
  {
    var t := 1.0 / (1.0 + P * x);
    1.0 - (((((A5 * t + A4) * t) + A3) * t + A2) * t + A1) * t * m.exp(-x * x)
  }

  /** 0.5 (1 + sign * y): the normal CDF at z before clamping. */
  function UnclampedCdf(m: MathLib, z: real): real
  {
    var sign := if z >= 0.0 then 1.0 else -1.0;
    0.5 * (1.0 + sign * ErfApprox(m, Abs(z) / Sqrt2))
  }

  /** zScoreToPercentile: the CDF clamped to [0, 1] and scaled to a percentage. */
  function ZScoreToPercentile(m: MathLib, z: real): (r: real)
    ensures 0.0 <= r <= 100.0
    ensures 0.0 < UnclampedCdf(m, z) < 1.0 ==> r == UnclampedCdf(m, z) * 100.0
  {
    Max(0.0, Min(1.0, UnclampedCdf(m, z))) * 100.0
  }

  /** For z > 0, z and -z use the same y with opposite signs: the unclamped values sum to 1 and the percentiles to 100. */
  lemma PercentileSymmetric(m: MathLib, z: real)
    requires z > 0.0
    ensures UnclampedCdf(m, z) + UnclampedCdf(m, -z) == 1.0
    ensures ZScoreToPercentile(m, z) + ZScoreToPercentile(m, -z) == 100.0
  {
    assert Abs(-z) == Abs(z);
    var h := UnclampedCdf(m, z);
    assert UnclampedCdf(m, -z) == 1.0 - h;
  }

  /** Z = 0 lands on 50.00000005: the five coefficients sum to 0.999999999, not 1. */
  lemma PercentileAtZero(m: MathLib)
    requires Lawful(m)
    ensures ZScoreToPercentile(m, 0.0) == 50.00000005
  {
    assert Abs(0.0) / Sqrt2 == 0.0;
    assert -0.0 * 0.0 == 0.0;
    assert ErfApprox(m, 0.0) == 1.0 - (A5 + A4 + A3 + A2 + A1);
  }
}
