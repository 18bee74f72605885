/**
 The numbers from 0 up, and sums over all ranks.
 */
module Counting {

  function Upto(n: nat): (s: seq<int>)
    ensures |s| == n && forall k | 0 <= k < n :: s[k] == k
  {
    seq(n, k => k)
  }

  function Total(w: seq<int>): int {
    if w == [] then 0 else Total(w[..|w| - 1]) + w[|w| - 1]
  }

  /** A change of one summand changes the sum by as much. */
  lemma {:induction false} TotalShare(w: seq<int>, w': seq<int>, r: nat)
    requires |w'| == |w| && r < |w| && forall x | 0 <= x < |w| && x != r :: w'[x] == w[x]
    ensures Total(w') - Total(w) == w'[r] - w[r]
    decreases |w|
  {
    var m := |w| - 1;
    if r < m {
      TotalShare(w[..m], w'[..m], r);
    } else {
      assert w'[..m] == w[..m];
    }
  }

  lemma {:induction false} TotalIsNatural(w: seq<int>)
    requires forall x | 0 <= x < |w| :: w[x] >= 0
    ensures Total(w) >= 0
    ensures (forall x | 0 <= x < |w| :: w[x] == 0) ==> Total(w) == 0
  {
    if w != [] {
      TotalIsNatural(w[..|w| - 1]);
    }
  }

  /** `c` taken `n` times, which is not at all when `n` is negative. */
  function Times(c: nat, n: int): nat {
    if n <= 0 then 0 else c + Times(c, n - 1)
  }

  lemma {:induction false} TimesIsProduct(c: nat, n: nat)
    ensures Times(c, n) == c * n
  {
    if n > 0 {
      TimesIsProduct(c, n - 1);
      assert c * n == c + c * (n - 1);
    }
  }

  /** The sum of equal summands. */
  lemma {:induction false} TotalOfEqual(w: seq<int>, v: int)
    requires forall x | 0 <= x < |w| :: w[x] == v
    ensures Total(w) == |w| * v
  {
    if w != [] {
      TotalOfEqual(w[..|w| - 1], v);
      assert |w| * v == (|w| - 1) * v + v;
    }
  }
}
