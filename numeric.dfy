/** Python and numpy rounding of finite reals to integers, and the few
    facts about real multiplication and division that the power calculator's
    proofs need (Z3 does not find nonlinear facts unaided). */
module Numeric {

  /** Python's `int(x)` on a finite float: truncation toward zero. */
  function Trunc(x: real): (r: int)
    ensures 0.0 <= x ==> r as real <= x < r as real + 1.0
    ensures x < 0.0 ==> r as real - 1.0 < x <= r as real
  {
    if x >= 0.0 then x.Floor else -((-x).Floor)
  }

  /** `int(np.ceil(x))` on a finite float: the least integer not below `x`. */
  function Ceil(x: real): (r: int)
    ensures x <= r as real < x + 1.0
  {
    -((-x).Floor)
  }

  /** Truncation toward zero never reverses the order of two values. */
  lemma TruncMonotone(x: real, y: real)
    requires x <= y
    ensures Trunc(x) <= Trunc(y)
  {
    if x < 0.0 && 0.0 <= y {
      assert Trunc(x) <= 0 <= Trunc(y);
    }
  }

  /** The ceiling never reverses the order of two values. */
  lemma CeilMonotone(x: real, y: real)
    requires x <= y
    ensures Ceil(x) <= Ceil(y)
  {
  }

  /** Multiplying by a non-negative factor keeps the order. */
  lemma MulMonotone(a: real, b: real, c: real)
    ensures a <= b && 0.0 <= c ==> a * c <= b * c
  {
    assert b * c - a * c == (b - a) * c;
  }

  /** Multiplying by a positive factor keeps a strict order. */
  lemma MulStrictMonotone(a: real, b: real, c: real)
    ensures a < b && 0.0 < c ==> a * c < b * c
  {
    assert b * c - a * c == (b - a) * c;
  }

  /** The product of two positive reals is positive. */
  lemma MulPositive(a: real, b: real)
    requires 0.0 < a && 0.0 < b
    ensures 0.0 < a * b
  {
    MulStrictMonotone(0.0, a, b);
  }

  /** The product of two non-negative reals is non-negative. */
  lemma MulNonNegative(a: real, b: real)
    requires 0.0 <= a && 0.0 <= b
    ensures 0.0 <= a * b
  {
    MulMonotone(0.0, a, b);
  }

  /** The product of two non-negative integers is non-negative. */
  lemma IntMulNonNegative(a: int, b: int)
    ensures 0 <= a && 0 <= b ==> 0 <= a * b
  {
  }

  /** Casting a product of integers to a real multiplies the casts. */
  lemma CastMul(a: int, b: int)
    ensures (a * b) as real == a as real * b as real
  {
  }

  /** A non-negative quantity split over a larger positive divisor gives a smaller share. */
  lemma DivAntitone(x: real, d1: real, d2: real)
    requires 0.0 <= x && 0.0 < d1 <= d2
    ensures x / d2 <= x / d1
  {
    assert x / d1 - x / d2 == x * (d2 - d1) / (d1 * d2);
    MulMonotone(0.0, x, d2 - d1);
  }

  /** A positive quantity over a positive divisor is positive. */
  lemma DivPositive(x: real, d: real)
    requires 0.0 < x && 0.0 < d
    ensures 0.0 < x / d
  {
    assert x / d * d == x;
  }

  /** Dividing by a positive divisor keeps the order of the dividends. */
  lemma DivMonotone(x: real, y: real, d: real)
    requires x <= y && 0.0 < d
    ensures x / d <= y / d
  {
    assert y / d - x / d == (y - x) / d;
  }

  /** The ceiling of a quotient by a positive divisor is the least multiplier that covers the dividend. */
  lemma CeilCovers(x: real, d: real, t: int)
    requires 0.0 < d && t == Ceil(x / d)
    ensures x <= t as real * d && (t - 1) as real * d < x
  {
    var q := x / d;
    assert q * d == x;
    assert q <= t as real;
    MulMonotone(q, t as real, d);
    assert (t - 1) as real < q;
    MulStrictMonotone((t - 1) as real, q, d);
  }

}
