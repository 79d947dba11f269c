/**
 * The numeric primitives the engine borrows from JavaScript's Math object.
 *
 * Math.pow, Math.log and Math.exp are not computed here: a `MathLib` value
 * carries them, and `Lawful` states the only identities the proofs rely on.
 * Math.round(x * k) / k is rounding half up to a multiple of 1/k.
 */
module Numerics {

  datatype MathLib = MathLib(pow: (real, real) -> real, log: real -> real, exp: real -> real)

  /** The identities of pow, log and exp that the model uses, and no more. */
  ghost predicate Lawful(m: MathLib)
  {
    && (forall a :: m.pow(1.0, a) == 1.0)
    && (forall x :: m.pow(x, 1.0) == x)
    && m.log(1.0) == 0.0
    && m.exp(0.0) == 1.0
  }

  function Abs(x: real): (r: real)
    ensures r >= 0.0 && (r == x || r == -x)
  {
    if x < 0.0 then -x else x
  }

  function Min(a: real, b: real): (r: real)
    ensures r <= a && r <= b && (r == a || r == b)
  {
    if a < b then a else b
  }

  function Max(a: real, b: real): (r: real)
    ensures r >= a && r >= b && (r == a || r == b)
  {
    if a > b then a else b
  }

  lemma MulPositive(x: real, y: real)
    requires x > 0.0 && y > 0.0
    ensures x * y > 0.0
  {
  }

  lemma DivMonotone(a: real, b: real, d: real)
    requires d > 0.0 && 0.0 < a <= b
    ensures 0.0 < a / d <= b / d
  {
    var x, y := a / d, b / d;
    assert x * d == a && y * d == b;
    if x <= 0.0 {
      MulNonPositive(x, d);
    }
    if x > y {
      MulPositive(x - y, d);
    }
  }

  /** DivMonotone for a divisor given as a product of two positive factors. */
  lemma DivProductMonotone(a: real, b: real, x: real, y: real)
    requires x > 0.0 && y > 0.0 && 0.0 < a <= b
    ensures 0.0 < a / (x * y) <= b / (x * y)
  {
    MulPositive(x, y);
    DivMonotone(a, b, x * y);
  }

  lemma MulNonPositive(x: real, y: real)
    requires x <= 0.0 && y > 0.0
    ensures x * y <= 0.0
  {
  }

  /** Math.floor on a real. */
  function Floor(x: real): (r: int)
    ensures r as real <= x < r as real + 1.0
  {
    x.Floor
  }

  /** Math.round on a real: halves go towards +infinity. */
  function RoundHalfUp(v: real): (n: int)
    ensures n as real - 0.5 <= v < n as real + 0.5
  {
    Floor(v + 0.5)
  }

  /** Math.round(x * k) / k. */
  function RoundTo(x: real, k: real): (r: real)
    requires k > 0.0
    ensures Abs(r - x) <= 0.5 / k
  {
    RoundToBound(x, k, RoundHalfUp(x * k));
    RoundHalfUp(x * k) as real / k
  }

  lemma RoundToBound(x: real, k: real, n: int)
    requires k > 0.0
    requires n as real - 0.5 <= x * k < n as real + 0.5
    ensures Abs(n as real / k - x) <= 0.5 / k
  {
    var d := n as real / k - x;
    assert d * k == n as real - x * k;
    assert -0.5 <= d * k <= 0.5;
    if d > 0.5 / k {
      assert d * k > (0.5 / k) * k;
    } else if d < -0.5 / k {
      assert d * k < (-0.5 / k) * k;
    }
  }

  /** Rounding to one decimal (Math.round(x * 10) / 10). */
  function Round1(x: real): real
  {
    RoundTo(x, 10.0)
  }

  /** Rounding to two decimals (Math.round(x * 100) / 100). */
  function Round2(x: real): real
  {
    RoundTo(x, 100.0)
  }

  /** A value that is already a multiple of 1/k is left alone by the rounding. */
  lemma RoundToExact(x: real, n: int, k: real)
    requires k > 0.0 && x * k == n as real
    ensures RoundTo(x, k) == x
  {
    assert RoundHalfUp(n as real) == n;
  }

  /** Rounding a percentage to one decimal keeps it a percentage. */
  lemma Round1Percent(p: real)
    requires 0.0 <= p <= 100.0
    ensures 0.0 <= Round1(p) <= 100.0
  {
    var n := RoundHalfUp(p * 10.0);
    assert 0 <= n <= 1000;
  }

  /** Shifting by a whole number of tenths commutes with rounding to one decimal. */
  lemma Round1Shift(x: real, n: int)
    ensures Round1(x + n as real / 10.0) == Round1(x) + n as real / 10.0
  {
    assert (x + n as real / 10.0) * 10.0 + 0.5 == (x * 10.0 + 0.5) + n as real;
    assert RoundHalfUp(x * 10.0 + n as real) == RoundHalfUp(x * 10.0) + n;
  }

  /** Rounding to one decimal keeps the order of its arguments. */
  lemma Round1Monotone(x: real, y: real)
    requires x <= y
    ensures Round1(x) <= Round1(y)
  {
    assert RoundHalfUp(x * 10.0) <= RoundHalfUp(y * 10.0);
  }
}
