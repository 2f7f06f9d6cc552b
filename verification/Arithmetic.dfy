/** Facts about products and whole-number quotients that the solver does not find by itself. */
module Arithmetic {

  function Min(a: int, b: int): int {
    if a < b then a else b
  }

  lemma ProductIsMonotone(a: int, b: int, n: nat)
    requires a <= b
    ensures a * n <= b * n
  {
  }

  lemma OneMore(k: int, n: nat)
    ensures k * (n + 1) == k * n + k
  {
  }

  lemma Division(t: int, n: nat)
    requires n > 0
    ensures t / n * n <= t < t / n * n + n
  {
    assert t == t / n * n + t % n;
  }

  /** The quotient is the only number whose multiple is that close below. */
  lemma QuotientIsUnique(t: int, n: nat, q: int)
    requires n > 0 && q * n <= t < q * n + n
    ensures t / n == q
  {
    Division(t, n);
    var p := t / n;
    if p < q {
      ProductIsMonotone(p + 1, q, n);
    } else if q < p {
      ProductIsMonotone(q + 1, p, n);
    }
  }

  lemma QuotientWithin(t: int, n: nat, low: int, high: int)
    requires n > 0 && low * n <= t <= high * n
    ensures low <= t / n <= high
  {
    Division(t, n);
    var p := t / n;
    if p < low {
      ProductIsMonotone(p + 1, low, n);
    } else if high < p {
      ProductIsMonotone(high + 1, p, n);
    }
  }

  /** A number is a multiple if it leaves no rest. */
  lemma Multiple(k: int, n: nat)
    requires n > 0
    ensures k * n % n == 0
  {
    QuotientIsUnique(k * n, n, k);
  }

  lemma MultipleOf(b: int, n: nat)
    requires n > 0 && b % n == 0
    ensures b / n * n == b
  {
    assert b == b / n * n + b % n;
  }
}
