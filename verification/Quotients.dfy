/** Quotients and remainders by a variable divisor. */
module Quotients {
  lemma AtLeastOnce(m: nat, k: int)
    requires k >= 1
    ensures m * k >= m
  {
    assert m * k == m * (k - 1) + m;
    assert m * (k - 1) >= 0;
  }

  lemma Distribute(m: int, a: int, b: int)
    ensures m * (a + b) == m * a + m * b
    ensures m * (a - b) == m * a - m * b
  {
  }

  /** A quotient and a remainder are determined by their sum. */
  lemma QuotientIs(n: int, m: nat, q: int, r: nat)
    requires m > 0 && n == m * q + r && r < m
    ensures n / m == q && n % m == r
  {
    var p, s := n / m, n % m;
    assert n == m * p + s;
    Distribute(m, q, p);
    Distribute(m, p, q);
    if p < q {
      AtLeastOnce(m, q - p);
    } else if p > q {
      AtLeastOnce(m, p - q);
    }
  }

  /** Whole multiples of the divisor do not change the remainder. */
  lemma AddMultiple(n: int, m: nat, k: int)
    requires m > 0
    ensures (n + m * k) % m == n % m
  {
    Distribute(m, n / m, k);
    QuotientIs(n + m * k, m, n / m + k, n % m);
  }

  /** Reducing a summand first changes nothing. */
  lemma AddReduced(a: int, b: int, m: nat)
    requires m > 0
    ensures (a + b % m) % m == (a + b) % m
  {
    AddMultiple(a + b % m, m, b / m);
    assert b == m * (b / m) + b % m;
    assert a + b % m + m * (b / m) == a + b;
  }
}
