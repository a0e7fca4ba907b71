/** Facts about division of reals, each proved in a context of its own so
    that the solver does not have to find them inside larger proofs. */
module RealArith {

  lemma DivMul(x: real, n: real)
    requires n != 0.0
    ensures x / n * n == x
  {
  }

  lemma DivSelf(n: real)
    requires n != 0.0
    ensures n / n == 1.0
  {
  }

  lemma ZeroDiv(n: real)
    requires n != 0.0
    ensures 0.0 / n == 0.0
  {
  }

  lemma DivAtMostOne(x: real, n: real)
    requires 0.0 < n && x <= n
    ensures x / n <= 1.0
  {
    DivMul(x, n);
  }

  lemma DivNonNegative(x: real, n: real)
    requires 0.0 < n && 0.0 <= x
    ensures 0.0 <= x / n
  {
    DivMul(x, n);
  }
}
