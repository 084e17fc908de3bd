/** Facts about products and quotients, each stated over plain variables so that
    no proof has to rediscover them around larger terms. */
module Arithmetic {

  lemma MulMonotone(a: int, b: int, c: nat)
    requires a <= b
    ensures a * c <= b * c
  {
  }

  lemma MulAtLeast(k: int, d: int)
    requires k >= 1 && d > 0
    ensures k * d >= d
  {
  }

  lemma MulDistributes(a: int, b: int, c: int)
    ensures (a + b) * c == a * c + b * c
  {
  }

  /** (a*b - c*d) * g, multiplied out. */
  lemma DifferenceTimes(a: int, b: int, c: int, d: int, g: int)
    ensures (a * b - c * d) * g == a * g * b - c * g * d
  {
  }

  /** Quotient and remainder are determined by n == q * d + r with 0 <= r < d. */
  lemma DivisionUnique(n: int, d: int, q: int, r: int)
    requires d > 0 && n == q * d + r && 0 <= r < d
    ensures n / d == q && n % d == r
  {
    var q', r' := n / d, n % d;
    assert n == q' * d + r';
    assert (q - q') * d == r' - r;
    if q > q' {
      MulAtLeast(q - q', d);
    } else if q < q' {
      MulAtLeast(q' - q, d);
    }
  }

  lemma DivMod(n: nat, d: nat)
    requires d > 0
    ensures n == (n / d) * d + n % d && n % d < d
  {
  }

  lemma QuotientIs(n: int, d: int, q: int)
    requires d > 0
    ensures n / d == q <==> q * d <= n < (q + 1) * d
  {
    if q * d <= n < (q + 1) * d {
      MulDistributes(q, 1, d);
      DivisionUnique(n, d, q, n - q * d);
    }
  }

}
