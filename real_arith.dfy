/** Facts about products of exact reals that the solver does not find on its
    own, shared by the vector, box and scalar modules. */
module RealArith {

  /** The product of two non-negative numbers is non-negative. */
  lemma MulNonNeg(p: real, q: real)
    requires p >= 0.0 && q >= 0.0
    ensures p * q >= 0.0
  {
  }

  /** Multiplying by a positive number keeps the order. */
  lemma MulLe(a: real, b: real, c: real)
    requires c > 0.0 && a <= b
    ensures a * c <= b * c
  {
  }

  /** Multiplication is monotone in both arguments on non-negative numbers. */
  lemma MulMono(a: real, b: real, c: real, d: real)
    requires 0.0 <= a <= c && 0.0 <= b <= d
    ensures a * b <= c * d
  {
    assert a * b <= c * b by {
      assert (c - a) * b >= 0.0 by { MulNonNeg(c - a, b); }
    }
    assert c * b <= c * d by {
      assert c * (d - b) >= 0.0 by { MulNonNeg(c, d - b); }
    }
  }

  /** A square is never negative. */
  lemma SquareNonNeg(r: real)
    ensures r * r >= 0.0
  {
    if r < 0.0 {
      assert r * r == (-r) * (-r);
    }
  }
}
