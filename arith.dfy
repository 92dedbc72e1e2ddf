/** Facts about integer multiplication and Euclidean division used by the grid numbering. */
module Arith {

  lemma MulMonotone(a: int, b: int, c: int)
    requires a <= b && c >= 0
    ensures a * c <= b * c
  {
    assert b * c - a * c == (b - a) * c;
  }

  lemma MulCancelLess(a: int, b: int, c: int)
    requires c > 0 && a * c < b * c
    ensures a < b
  {
    if a >= b {
      MulMonotone(b, a, c);
    }
  }

  /** Quotient and remainder are determined by k == q * d + m with 0 <= m < d. */
  lemma DivModUnique(k: int, d: int, q: int, m: int)
    requires d > 0 && k == q * d + m && 0 <= m < d
    ensures k / d == q && k % d == m
  {
    var q', m' := k / d, k % d;
    assert q' * d + m' == k;
    MulSub(q, q', d);
    if q > q' {
      MulMonotone(1, q - q', d);
    }
    if q < q' {
      MulMonotone(1, q' - q, d);
      MulSub(q', q, d);
    }
  }

  lemma MulSub(a: int, b: int, c: int)
    ensures (a - b) * c == a * c - b * c
  {
  }

  lemma DivBelow(k: nat, d: nat, n: nat)
    requires d > 0 && k < d * n
    ensures k / d < n
  {
    var q := k / d;
    assert q * d <= k;
    assert d * n == n * d;
    MulCancelLess(q, n, d);
  }

  /** Real division is multiplication by the inverse. */
  lemma DivIsMulInverse(x: real, c: real)
    requires c != 0.0
    ensures x / c == x * (1.0 / c)
    ensures c * (1.0 / c) == 1.0
  {
  }

  lemma NonNegProduct(a: real, b: real)
    requires a >= 0.0 && b >= 0.0
    ensures a * b >= 0.0
  {
  }

  lemma DivTimesDivisor(x: real, c: real)
    requires c != 0.0
    ensures (x / c) * c == x
  {
  }
}
