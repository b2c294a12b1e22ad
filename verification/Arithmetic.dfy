/** Minimum and maximum, and the few facts about products and quotients that the solver does not find by itself. */
module Arithmetic {

  function Min(a: nat, b: nat): nat { if a < b then a else b }

  function Max(a: nat, b: nat): nat { if a < b then b else a }

  lemma MulMono(a: int, b: int, d: nat)
    ensures a <= b ==> a * d <= b * d
  {
    if a <= b {
      assert b * d == a * d + (b - a) * d;
    }
  }

  lemma DivIsUnique(a: int, d: nat, q: int, r: nat)
    requires d > 0 && a == q * d + r && r < d
    ensures a / d == q && a % d == r
  {
    var q', r' := a / d, a % d;
    assert (q - q') * d == q * d - q' * d == r' - r;
    MulMono(1, q - q', d);
    MulMono(q - q', -1, d);
  }

  lemma DivStep(a: nat, d: nat)
    requires d > 0
    ensures (a + d) / d == a / d + 1
    ensures (a + d) % d == a % d
  {
    assert (a / d + 1) * d == a / d * d + d;
    DivIsUnique(a + d, d, a / d + 1, a % d);
  }

  lemma QuotientBound(k: nat, d: nat, total: nat)
    requires d > 0 && k * d <= total
    ensures k <= total / d
  {
    var q := total / d;
    assert total == q * d + total % d;
    assert (q + 1) * d == q * d + d;
    MulMono(q + 1, k, d);
  }
}
