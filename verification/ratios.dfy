/**
 Facts about quotients of reals that the metric bounds rest on, kept apart so
 that each is proved in a small context.
 */
module Ratios {

  /** Where a quotient by a positive number lies. */
  lemma Quotient(a: real, d: real)
    requires 0.0 < d
    ensures a <= d ==> a / d <= 1.0
    ensures 0.0 <= a ==> 0.0 <= a / d
    ensures a == d ==> a / d == 1.0
    ensures a == 0.0 ==> a / d == 0.0
  {
  }

  lemma DivMono(a: real, b: real, d: real)
    requires 0.0 < d && a <= b
    ensures a / d <= b / d
  {
  }

  lemma DivBetween(s: real, n: real, lo: real, hi: real)
    requires 0.0 < n && lo * n <= s <= hi * n
    ensures lo <= s / n <= hi
  {
  }

  lemma MulSucc(x: real, k: real)
    ensures x * (k + 1.0) == x + x * k
  {
  }

  lemma MulDiv(x: real, n: real)
    requires n != 0.0
    ensures n * (x / n) == x
  {
  }

  lemma DivAdd(a: real, b: real, d: real)
    requires d != 0.0
    ensures a / d + b / d == (a + b) / d
  {
  }

  /** A count of at most tc - 1 over the tc * tc - tc ordered pairs of
      distinct elements is at most 1 / tc. */
  lemma PairShare(n: nat, tc: nat)
    requires tc >= 2
    ensures 0.0 <= n as real / (tc * tc - tc) as real
    ensures n < tc ==> n as real / (tc * tc - tc) as real <= 1.0 / tc as real
  {
    var t := tc as real;
    var p := (tc * tc - tc) as real;
    assert p == t * (t - 1.0);
    assert p > 0.0;
    if n < tc {
      DivMono(n as real, t - 1.0, p);
      assert (t - 1.0) / p == 1.0 / t;
    }
  }

  lemma MulMono(a: nat, b: nat, k: nat)
    requires a <= b
    ensures k * a <= k * b
  {
  }
}
