/** Facts about products and quotients that the solver is handed one at a time. */
module RealArithmetic {
  function Abs(r: real): real { if r < 0.0 then -r else r }

  lemma Positive(a: real, b: real)
    requires a > 0.0 && b > 0.0
    ensures a * b > 0.0
  {}

  lemma NotNegative(a: real, b: real)
    requires a >= 0.0 && b >= 0.0
    ensures a * b >= 0.0
  {}

  lemma Less(a: real, b: real, n: real)
    requires a < b && n > 0.0
    ensures a * n < b * n
  {}

  lemma AtMost(a: real, b: real, n: real)
    requires a <= b && n >= 0.0
    ensures a * n <= b * n
  {}

  lemma Distribute(s: real, a: real, b: real)
    ensures s * (a + b) == s * a + s * b
  {}

  lemma Whole(a: real)
    requires a > 0.0
    ensures a / a == 1.0
  {}

  lemma ProductPositive(a: real, b: real, q: real)
    requires a > 0.0 && b > 0.0 && q == a * b
    ensures q > 0.0
  {}

  lemma SquareSign(s: real, q: real)
    requires q == s * s
    ensures q >= 0.0 && (s != 0.0 ==> q > 0.0)
  {
    if s > 0.0 {
      ProductPositive(s, s, q);
    } else if s < 0.0 {
      assert q == -s * -s;
      ProductPositive(-s, -s, q);
    }
  }
}
