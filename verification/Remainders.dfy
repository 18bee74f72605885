/**
 Quotients and remainders by a divisor that is not known in advance.
 */
module Remainders {

  lemma {:induction false} MultipleGrows(n: nat, d: nat)
    requires d > 0
    ensures n * d >= n
  {
    if d > 1 {
      MultipleGrows(n, d - 1);
      assert n * d == n * (d - 1) + n;
    }
  }

  lemma SmallMultiple(n: int, d: int)
    requires -n < n * d < n
    ensures d == 0
  {
    if d > 0 {
      MultipleGrows(n, d);
    }
  }

  lemma RemainderUnique(x: int, n: int, k: int, rem: int)
    requires 0 <= rem < n && x == n * k + rem
    ensures x % n == rem && x / n == k
  {
    var q, t := x / n, x % n;
    assert x == n * q + t && 0 <= t < n;
    assert n * (q - k) == n * q - n * k;
    SmallMultiple(n, q - k);
  }

  /** Each multiple is at least one divisor past every smaller one. */
  lemma MultiplesApart(d: nat, a: nat, b: nat)
    requires a < b
    ensures a * d + d <= b * d
  {
    Distribute(a, b - a, d);
    Distribute(1, b - a - 1, d);
  }

  lemma Distribute(a: nat, b: nat, d: nat)
    ensures (a + b) * d == a * d + b * d && b * d >= 0
  {
  }
}
