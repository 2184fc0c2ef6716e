/** The few facts about products and quotients that the layouts need. */
module Arith {
  function Min(a: int, b: int): int { if a < b then a else b }
  function Max(a: int, b: int): int { if a < b then b else a }

  lemma MulMono(a: nat, b: nat, c: nat)
    requires a <= b
    ensures a * c <= b * c
  {
  }

  lemma MulStep(a: nat, c: nat)
    ensures (a + 1) * c == a * c + c
  {
  }

  /** Quotient and remainder are unique. */
  lemma DivUnique(x: nat, d: nat, q: nat, r: nat)
    requires x == q * d + r && r < d
    ensures x / d == q && x % d == r
  {
    var q', r' := x / d, x % d;
    assert x == q' * d + r';
    if q < q' {
      MulMono(q + 1, q', d);
      MulStep(q, d);
      assert false;
    } else if q' < q {
      MulMono(q' + 1, q, d);
      MulStep(q', d);
      assert false;
    }
  }

  lemma DivBelow(s: nat, n: nat, d: nat)
    requires d > 0 && s < n * d
    ensures s / d < n
  {
    if s / d >= n {
      MulMono(n, s / d, d);
      assert false;
    }
  }

  lemma MulLess(a: nat, b: nat, d: nat, k: nat)
    requires a < b && k < d
    ensures a * d + k < b * d
  {
    MulStep(a, d);
    MulMono(a + 1, b, d);
  }

  lemma ModSmall(t: nat, n: nat)
    requires t < n
    ensures t % n == t
  {
    DivUnique(t, n, 0, t);
  }

  lemma QuotRem(s: nat, n: nat, d: nat) returns (q: nat, r: nat)
    requires s < n * d && d > 0
    ensures q < n && r < d && q * d + r == s
  {
    DivBelow(s, n, d);
    q, r := s / d, s % d;
  }
}
