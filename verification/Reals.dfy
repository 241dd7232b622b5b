/** The few facts about products and quotients of reals that the distance arguments
    need. Products are named, so that equal factors are seen to give equal products. */
module Reals {

  function Product(a: real, b: real): real { a * b }

  function Square(v: real): real { Product(v, v) }

  lemma {:induction false} ProductIsNonNegative(a: real, b: real)
    requires a >= 0.0 && b >= 0.0
    ensures Product(a, b) >= 0.0
  {
  }

  lemma {:induction false} ProductIsPositive(a: real, b: real)
    requires a > 0.0 && b > 0.0
    ensures Product(a, b) > 0.0
  {
  }

  lemma {:induction false} SquareOfNegation(v: real)
    ensures Square(v) == Square(-v)
  {
  }

  lemma {:induction false} SquareIsNonNegative(v: real)
    ensures Square(v) >= 0.0
    ensures Square(v) == 0.0 ==> v == 0.0
  {
    SquareOfNegation(v);
    if v > 0.0 {
      ProductIsPositive(v, v);
    } else if v < 0.0 {
      ProductIsPositive(-v, -v);
    }
  }

  // x added up n times.
  function Times(n: nat, x: real): real {
    if n == 0 then 0.0 else Times(n - 1, x) + x
  }

  function Mean(sum: real, n: nat): real
    requires n > 0
  {
    sum / n as real
  }

  lemma {:induction false} TimesIsProduct(n: nat, x: real)
    ensures Times(n, x) == n as real * x
  {
    if n > 0 {
      TimesIsProduct(n - 1, x);
      assert n as real * x == (n - 1) as real * x + x;
    }
  }

  lemma {:induction false} ShareOfSum(s: real, n: real, t: real)
    requires n > 0.0
    ensures (s + n * t) / n == s / n + t
  {
    assert (s / n + t) * n == s + n * t;
  }

  // Adding x to every term adds x to the mean.
  lemma {:induction false} MeanOfShifted(s: real, n: nat, x: real)
    requires n > 0
    ensures Mean(s + Times(n, x), n) == Mean(s, n) + x
  {
    TimesIsProduct(n, x);
    ShareOfSum(s, n as real, x);
  }
}
