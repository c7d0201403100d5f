/**
 * Facts about products and quotients of reals that the proofs of the other
 * modules rely on, each stated once over plain variables.
 */
module RealArith {

  /** A product of two non-negative reals is non-negative. */
  lemma MulNonNegative(a: real, b: real)
    requires a >= 0.0 && b >= 0.0
    ensures a * b >= 0.0
  {
  }

  /** A product with a positive factor has the sign of the other factor. */
  lemma MulPositiveSign(x: real, h: real)
    requires h > 0.0
    ensures x * h > 0.0 <==> x > 0.0
    ensures x * h < 0.0 <==> x < 0.0
    ensures x * h == 0.0 <==> x == 0.0
  {
    if x < 0.0 {
      MulNonNegative(-x, h);
      assert (-x) * h == -(x * h);
    }
  }

  /** Multiplying by a positive factor keeps `<=`. */
  lemma MulLeq(x: real, y: real, h: real)
    requires h > 0.0 && x <= y
    ensures x * h <= y * h
  {
    MulNonNegative(y - x, h);
    assert (y - x) * h == y * h - x * h;
  }

  /** Multiplying by a positive factor keeps `<`. */
  lemma MulLess(x: real, y: real, h: real)
    requires h > 0.0 && x < y
    ensures x * h < y * h
  {
    var e := y - x;
    assert e * h > 0.0;
    assert e * h == y * h - x * h;
  }

  /** For a positive divisor, `c / cap` compares with one as `c` compares with `cap`. */
  lemma QuotientVersusOne(c: real, cap: real)
    requires cap > 0.0
    ensures c / cap == 1.0 <==> c == cap
    ensures c / cap < 1.0 <==> c < cap
  {
    var q := c / cap;
    assert q * cap == c;
    assert (q - 1.0) * cap == c - cap;
    MulPositiveSign(q - 1.0, cap);
  }

  /** `y == a / b` exactly when `b * y == a`, for a non-zero `b`. */
  lemma QuotientIff(a: real, b: real, y: real)
    requires b != 0.0
    ensures y == a / b <==> b * y == a
  {
    assert a / b * b == a;
    if b * y == a {
      assert (y - a / b) * b == 0.0;
    }
  }
}
