/** Facts about multiplication and division that the solver does not find on its own. */
module Arith {
  /** w / m and w % m are the q and r of any decomposition w == q * m + r with 0 <= r < m. */
  lemma DivModUnique(w: int, m: int, q: int, r: int)
    requires m > 0 && 0 <= r < m && w == q * m + r
    ensures w / m == q && w % m == r
  {
    var q', r' := w / m, w % m;
    assert (q - q') * m == r' - r;
    if q > q' {
      MulAtLeast(q - q', m);
    } else if q < q' {
      MulAtLeast(q' - q, m);
    }
  }

  lemma MulAtLeast(d: int, m: int)
    requires d >= 1 && m > 0
    ensures d * m >= m
  {
  }

  /** Multiplying by a natural number keeps the order of the other factor. */
  lemma MulMono(a: nat, b: nat, m: nat)
    requires a <= b
    ensures a * m <= b * m && m * a <= m * b
  {
  }
}
