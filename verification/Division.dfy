/** Quotients and remainders of natural numbers. */
module Division {
  lemma SmallMultiple(e: int, d: int)
    requires -d < e * d < d
    ensures e == 0
  {
  }

  lemma ModIs(a: nat, q: nat, d: nat, m: nat)
    requires d > 0 && a == q * d + m && m < d
    ensures a % d == m && a / d == q
  {
    SmallMultiple(a / d - q, d);
  }

  lemma MultipleMod(q: nat, d: nat)
    requires d > 0
    ensures q * d % d == 0 && q * d / d == q
  {
    ModIs(q * d, q, d, 0);
  }

  /** A step that does not reach the next multiple only moves the remainder. */
  lemma SmallStep(n: nat, j: nat, d: nat)
    requires d > 0 && n % d + j < d
    ensures (n + j) % d == n % d + j && (n + j) / d == n / d
  {
    ModIs(n + j, n / d, d, n % d + j);
  }

  lemma NextQuotient(i: nat, d: nat)
    requires i > 0 && d > 0
    ensures i / d == (i - 1) / d + if i % d == 0 then 1 else 0
  {
    var q, r := i / d, i % d;
    assert i == q * d + r;
    if r == 0 {
      assert q > 0;
      assert i - 1 == (q - 1) * d + (d - 1);
      ModIs(i - 1, q - 1, d, d - 1);
    } else {
      ModIs(i - 1, q, d, r - 1);
    }
  }

  lemma {:induction false} QuotientOrder(a: nat, b: nat, d: nat)
    requires d > 0 && a <= b
    ensures a / d <= b / d
  {
    if a < b {
      QuotientOrder(a, b - 1, d);
      NextQuotient(b, d);
    }
  }
}
