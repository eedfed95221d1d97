/** Multiplication and division of natural numbers. */
module Arithmetic {
  lemma MulAtLeast(b: nat, d: nat)
    requires d >= 1
    ensures b * d >= b
  {
  }

  /** Quotients are unique. */
  lemma QuotientIs(j: nat, b: nat, q: nat, r: nat)
    requires r < b && j == b * q + r
    ensures j / b == q
  {
    var p, t := j / b, j % b;
    assert b * p + t == b * q + r;
    if p > q {
      assert b * (p - q) == b * p - b * q;
      MulAtLeast(b, p - q);
    } else if p < q {
      assert b * (q - p) == b * q - b * p;
      MulAtLeast(b, q - p);
    }
  }

  /** One divisor more is one quotient more. */
  lemma QuotientStep(j: nat, b: nat)
    requires 0 < b <= j
    ensures j / b == (j - b) / b + 1
  {
    var q, r := (j - b) / b, (j - b) % b;
    assert b * (q + 1) == b * q + b;
    QuotientIs(j, b, q + 1, r);
  }
}
