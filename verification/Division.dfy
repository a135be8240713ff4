/** Whole-number division, in the small steps the solver needs. */
module Division {
  lemma MulLe(a: int, b: int, c: int)
    requires a <= b && c >= 0
    ensures a * c <= b * c
  {
  }

  lemma DivZero(n: nat, d: nat)
    requires d > 0
    ensures n / d == 0 <==> n < d
  {
  }

  lemma DivBounds(n: int, d: int)
    requires d > 0
    ensures n / d * d <= n < (n / d + 1) * d
  {
    assert (n / d + 1) * d == n / d * d + d;
  }

  lemma DivIs(n: int, d: int, q: int)
    requires d > 0 && q * d <= n < (q + 1) * d
    ensures n / d == q
  {
    DivBounds(n, d);
    if n / d < q { MulLe(n / d + 1, q, d); }
    if n / d > q { MulLe(q + 1, n / d, d); }
  }

  lemma DivMinus(n: int, d: int, k: int)
    requires d > 0
    ensures (n - k * d) / d == n / d - k
  {
    var q := n / d;
    DivBounds(n, d);
    assert (q - k) * d == q * d - k * d;
    assert (q - k + 1) * d == (q + 1) * d - k * d;
    DivIs(n - k * d, d, q - k);
  }
}
