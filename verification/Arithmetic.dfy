/** Division facts the index computations need. */
module Arithmetic {

  /** Division as C does it, towards zero. */
  function Quotient(a: int, b: int): (q: int)
    requires b > 0
    ensures a >= 0 ==> b * q <= a < b * q + b
    ensures a <= 0 ==> b * q - b < a <= b * q
  {
    if a >= 0 then a / b else -(-a / b)
  }

  lemma Times(b: nat, p: int, q: int)
    requires p < q
    ensures b * p + b <= b * q
  {
    var k := q - p - 1;
    assert b * q == b * p + b + b * k;
    assert b * k >= 0;
  }

  /** A quotient is determined by its remainder being smaller than the divisor. */
  lemma SameQuotient(a: int, b: nat, p: int, q: int)
    requires b * p <= a < b * p + b && b * q <= a < b * q + b
    ensures p == q
  {
    if p < q {
      Times(b, p, q);
    } else if q < p {
      Times(b, q, p);
    }
  }

  /** A larger dividend has no smaller quotient. */
  lemma QuotientOrder(a: int, c: int, b: nat, p: int, q: int)
    requires b * p <= a <= c < b * q + b
    ensures p <= q
  {
    if q < p { Times(b, q, p); }
  }

  lemma MulStep(a: nat, b: nat, n: nat)
    requires a < b
    ensures a * n + n <= b * n
  {
    assert b * n == (a + 1) * n + (b - a - 1) * n;
    assert (b - a - 1) * n >= 0;
  }

  /** Products are monotone, and strictly so between positive factors. */
  lemma Grow(a: nat, b: nat, c: nat, d: nat)
    requires a <= c && b <= d
    ensures a * b <= c * d
    ensures a * b == c * d && a > 0 && b > 0 ==> a == c && b == d
  {
    assert a * b <= a * d by {
      if b < d { MulStep(b, d, a); }
    }
    if a < c { MulStep(a, c, d); }
    if b < d { MulStep(b, d, a); }
  }

  lemma DivUnique(k: nat, n: nat, q: nat, r: nat)
    requires r < n && k == q * n + r
    ensures k / n == q && k % n == r
  {
    var q' := k / n;
    if q' < q {
      MulStep(q', q, n);
    } else if q < q' {
      MulStep(q, q', n);
    }
  }
}
