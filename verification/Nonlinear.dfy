/** The few facts about products and quotients the integer arithmetic needs. */
module Nonlinear {
  lemma MulSign(s: int, x: int)
    requires s > 0
    ensures x >= 1 ==> s * x >= s
    ensures x <= 0 ==> s * x <= 0
    ensures x <= -1 ==> s * x <= -s
  {
  }

  lemma MulMonotone(s: int, x: int, y: int)
    requires s >= 0 && x <= y
    ensures s * x <= s * y
  {
  }

  lemma MulDistributes(a: int, b: int, c: int)
    ensures a * (b + c) == a * b + a * c
    ensures a * (b - c) == a * b - a * c
  {
  }

  /** Quotient and remainder are determined by the division equation. */
  lemma DivisionUnique(a: int, s: int, q: int, r: int)
    requires s > 0 && 0 <= r < s && a == s * q + r
    ensures a / s == q && a % s == r
  {
    var d, m := a / s, a % s;
    assert a == s * d + m;
    MulDistributes(s, q, d);
    MulSign(s, q - d);
  }

  /** Raising the dividend by the divisor raises the quotient. */
  lemma QuotientIncreases(a: int, b: int, s: int)
    requires s > 0 && b >= a + s
    ensures b / s >= a / s + 1
  {
    var p, q := a / s, b / s;
    assert a == s * p + a % s && b == s * q + b % s;
    MulDistributes(s, q, p);
    MulSign(s, q - p);
  }
}
