/** Division with remainder, where the solver needs the products spelled out. */
module Arithmetic {
  lemma {:induction false} ProductGap(d: nat, a: int, b: int)
    requires a < b
    ensures d * b - d * a >= d
  {
    assert d * b == d * a + d * (b - a) && d * (b - a) == d * (b - a - 1) + d;
  }

  lemma SameQuotient(d: nat, q: nat, r: nat, q': nat, r': nat)
    requires r < d && r' < d && d * q + r == d * q' + r'
    ensures q == q' && r == r'
  {
    if q < q' {
      ProductGap(d, q, q');
    } else if q' < q {
      ProductGap(d, q', q);
    }
  }

  /** Division with remainder is unique. */
  lemma Quotient(n: nat, d: nat, q: nat, r: nat)
    requires d > 0 && r < d && n == d * q + r
    ensures n / d == q && n % d == r
  {
    SameQuotient(d, q, r, n / d, n % d);
  }
}
