/** Repeated addition, and what it says about quotients. */
module Arithmetic {

  /** `n` times `d`. */
  function Times(n: nat, d: nat): nat { if n == 0 then 0 else Times(n - 1, d) + d }

  lemma {:induction false} TimesIsProduct(n: nat, d: nat)
    ensures Times(n, d) == n * d
  {
    if n > 0 {
      TimesIsProduct(n - 1, d);
      assert (n - 1) * d + d == n * d;
    }
  }

  lemma {:induction false} TimesGrows(a: nat, b: nat, d: nat)
    requires a <= b
    ensures Times(a, d) <= Times(b, d)
    decreases b
  {
    if a < b {
      TimesGrows(a, b - 1, d);
    }
  }

  lemma FitsQuotient(n: nat, span: nat, d: nat)
    requires d > 0 && Times(n, d) <= span
    ensures n <= span / d
  {
    var q := span / d;
    assert q * d + span % d == span;
    if q < n {
      TimesGrows(q + 1, n, d);
      TimesIsProduct(q, d);
    }
  }
}
