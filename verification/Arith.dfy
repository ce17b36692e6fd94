/** Multiplication and division facts the solver does not find by itself. */
module Arith {

  lemma AtLeastOnce(k: int, d: int)
    requires k >= 1 && d > 0
    ensures k * d >= d
  {
    assert k * d == (k - 1) * d + d;
  }

  /** Quotient and remainder are unique. */
  lemma DivModUnique(x: int, q: int, r: int, d: int)
    requires d > 0 && 0 <= r < d
    requires x == q * d + r
    ensures x / d == q && x % d == r
  {
    var p := x / d;
    assert x == p * d + x % d;
    assert (q - p) * d == q * d - p * d;
    assert (p - q) * d == p * d - q * d;
    if p < q { AtLeastOnce(q - p, d); }
    if q < p { AtLeastOnce(p - q, d); }
  }
}
