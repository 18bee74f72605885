/**
 What an all-reduce computes: a synchronous, round-by-round reference in which every
 rank exchanges with its neighbours at the same instant, and what it adds up to.

 Elements have an arbitrary type and `add` is an arbitrary function, so an equality
 between two results is an equality of bits whatever the rounding does.
 */
module RingSpec {
  import opened RingIndex

  /** One all-reduce: `x[r][c][j]` is element `j` of chunk `c` in rank `r`'s buffer. */
  datatype Input<!T> = Input(n: nat, chunk: nat, x: seq<seq<seq<T>>>, add: (T, T) -> T) {
    ghost predicate Valid() {
      && n >= 2
      && chunk > 0
      && |x| == n
      && forall r | 0 <= r < n :: IsBuffer(x[r])
    }

    ghost predicate IsBuffer(b: seq<seq<T>>) {
      && |b| == n
      && forall c | 0 <= c < n :: |b[c]| == chunk
    }
  }

  /** Element `j` of chunk `c` at rank `r` after `s` synchronous rounds: the rank
      either adds what arrives to its own value (reduce-scatter) or takes it over
      (all-gather). */
  ghost function Val<T>(a: Input<T>, r: nat, s: nat, c: nat, j: nat): T
    requires a.Valid() && r < a.n && s <= RingSteps(a.n) && c < a.n && j < a.chunk
    decreases s
  {
    if s == 0 then
      a.x[r][c][j]
    else if c != RecvChunk(r, a.n, s - 1) then
      Val(a, r, s - 1, c, j)
    else if s - 1 < a.n - 1 then
      (a.add)(Val(a, r, s - 1, c, j), Val(a, Left(r, a.n), s - 1, c, j))
    else
      Val(a, Left(r, a.n), s - 1, c, j)
  }

  /** The rank `k` hops to the right of rank `c`. */
  function Ahead(c: nat, k: nat, n: nat): (r: nat)
    requires c < n && k < n
    ensures r < n && Hops(r, c, n) == k
  {
    if c + k < n then c + k else c + k - n
  }

  /** x[c+k] + (... + (x[c+1] + x[c])), in ring order and with that nesting. */
  ghost function Fold<T>(a: Input<T>, c: nat, k: nat, j: nat): T
    requires a.Valid() && c < a.n && k < a.n && j < a.chunk
  {
    if k == 0 then
      a.x[c][c][j]
    else
      (a.add)(a.x[Ahead(c, k, a.n)][c][j], Fold(a, c, k - 1, j))
  }

  /** The result every rank ends with. */
  ghost function Reduced<T>(a: Input<T>, c: nat, j: nat): T
    requires a.Valid() && c < a.n && j < a.chunk
  {
    Fold(a, c, a.n - 1, j)
  }

  /** Rank `r`'s buffer is what all rounds leave in it. */
  ghost predicate Holds<T>(a: Input<T>, r: nat, b: seq<seq<T>>)
    requires a.Valid() && r < a.n
  {
    && a.IsBuffer(b)
    && forall c, j | 0 <= c < a.n && 0 <= j < a.chunk :: b[c][j] == Val(a, r, RingSteps(a.n), c, j)
  }

  lemma HopsOfLeft(r: nat, c: nat, n: nat)
    requires r < n && c < n && Hops(r, c, n) > 0
    ensures Ahead(c, Hops(r, c, n), n) == r && Hops(Left(r, n), c, n) == Hops(r, c, n) - 1
  {
  }

  /** Reduce-scatter: after `s` rounds a chunk has been folded along the ring by
      exactly the ranks it has passed. */
  lemma {:induction false} ScatterFolds<T>(a: Input<T>, r: nat, s: nat, c: nat, j: nat)
    requires a.Valid() && r < a.n && s <= a.n - 1 && c < a.n && j < a.chunk
    ensures var h := Hops(r, c, a.n);
            Val(a, r, s, c, j) == if 1 <= h <= s then Fold(a, c, h, j) else a.x[r][c][j]
    decreases s
  {
    if s > 0 {
      RecvAtHops(r, a.n, s - 1, c);
      if RecvChunk(r, a.n, s - 1) == c {
        ScatterFolds(a, r, s - 1, c, j);
        ScatterFolds(a, Left(r, a.n), s - 1, c, j);
        HopsOfLeft(r, c, a.n);
      } else {
        ScatterFolds(a, r, s - 1, c, j);
      }
    }
  }

  /** All-gather: the finished chunk has spread one rank further each round. */
  lemma {:induction false} GatherSpreads<T>(a: Input<T>, r: nat, t: nat, c: nat, j: nat)
    requires a.Valid() && r < a.n && t <= a.n - 1 && c < a.n && j < a.chunk
    requires Hops(r, c, a.n) == a.n - 1 || Hops(r, c, a.n) < t
    ensures Val(a, r, a.n - 1 + t, c, j) == Reduced(a, c, j)
    decreases t
  {
    if t == 0 {
      ScatterFolds(a, r, a.n - 1, c, j);
    } else {
      var s := a.n - 1 + t - 1;
      RecvAtHops(r, a.n, s, c);
      if RecvChunk(r, a.n, s) == c {
        GatherSpreads(a, Left(r, a.n), t - 1, c, j);
      } else {
        GatherSpreads(a, r, t - 1, c, j);
      }
    }
  }

  /** After all rounds every rank holds the same fold of every chunk. */
  lemma RoundsReduce<T>(a: Input<T>, r: nat, c: nat, j: nat)
    requires a.Valid() && r < a.n && c < a.n && j < a.chunk
    ensures Val(a, r, RingSteps(a.n), c, j) == Reduced(a, c, j)
  {
    GatherSpreads(a, r, a.n - 1, c, j);
  }

  /** A round leaves every chunk but the received one alone, and an all-gather chunk
      is final once it has arrived. */
  lemma RoundFrame<T>(a: Input<T>, r: nat, s: nat, c: nat, j: nat)
    requires a.Valid() && r < a.n && s < RingSteps(a.n) && c < a.n && j < a.chunk
    ensures c != RecvChunk(r, a.n, s) ==> Val(a, r, s + 1, c, j) == Val(a, r, s, c, j)
    ensures c == RecvChunk(r, a.n, s) && s >= a.n - 1 ==>
              Val(a, r, s + 1, c, j) == Val(a, Left(r, a.n), s, c, j)
    ensures c == RecvChunk(r, a.n, s) && s < a.n - 1 ==>
              Val(a, r, s + 1, c, j) == (a.add)(Val(a, r, s, c, j), Val(a, Left(r, a.n), s, c, j))
  {
  }

  // ----- With an associative and commutative sum the fold is the plain sum over ranks.

  ghost predicate Commutes<T>(add: (T, T) -> T, u: T, v: T) {
    add(u, v) == add(v, u)
  }

  ghost predicate Associates<T>(add: (T, T) -> T, u: T, v: T, w: T) {
    add(add(u, v), w) == add(u, add(v, w))
  }

  ghost predicate Sums<T(!new)>(add: (T, T) -> T) {
    (forall u, v :: Commutes(add, u, v)) && (forall u, v, w :: Associates(add, u, v, w))
  }

  /** x[lo] + x[lo+1] + ... + x[hi], rank by rank. */
  ghost function RankSum<T>(a: Input<T>, lo: nat, hi: nat, c: nat, j: nat): T
    requires a.Valid() && lo <= hi < a.n && c < a.n && j < a.chunk
    decreases hi
  {
    if lo == hi then
      a.x[lo][c][j]
    else
      (a.add)(RankSum(a, lo, hi - 1, c, j), a.x[hi][c][j])
  }

  lemma {:induction false} RankSumSplits<T(!new)>(a: Input<T>, lo: nat, mid: nat, hi: nat, c: nat, j: nat)
    requires a.Valid() && lo <= mid < hi < a.n && c < a.n && j < a.chunk && Sums(a.add)
    ensures (a.add)(RankSum(a, lo, mid, c, j), RankSum(a, mid + 1, hi, c, j)) == RankSum(a, lo, hi, c, j)
    decreases hi
  {
    if mid + 1 < hi {
      RankSumSplits(a, lo, mid, hi - 1, c, j);
      assert Associates(a.add, RankSum(a, lo, mid, c, j), RankSum(a, mid + 1, hi - 1, c, j), a.x[hi][c][j]);
    }
  }

  /** The ring-order fold starts at rank `c` and wraps round to rank 0. */
  lemma {:induction false} FoldIsRankSum<T(!new)>(a: Input<T>, c: nat, k: nat, j: nat)
    requires a.Valid() && c < a.n && k < a.n && j < a.chunk && Sums(a.add)
    ensures Fold(a, c, k, j) ==
            if c + k < a.n then RankSum(a, c, c + k, c, j)
            else (a.add)(RankSum(a, 0, c + k - a.n, c, j), RankSum(a, c, a.n - 1, c, j))
  {
    if k > 0 {
      FoldIsRankSum(a, c, k - 1, j);
      var head := a.x[Ahead(c, k, a.n)][c][j];
      if c + k < a.n {
        assert Commutes(a.add, head, RankSum(a, c, c + k - 1, c, j));
      } else if c + k > a.n {
        var soFar := RankSum(a, 0, c + k - 1 - a.n, c, j);
        assert Associates(a.add, head, soFar, RankSum(a, c, a.n - 1, c, j)) && Commutes(a.add, head, soFar);
      }
    }
  }

  /** Every chunk of the result is the element-wise sum over ranks 0, 1, ..., n-1. */
  lemma ReducedIsSum<T(!new)>(a: Input<T>, c: nat, j: nat)
    requires a.Valid() && c < a.n && j < a.chunk && Sums(a.add)
    ensures Reduced(a, c, j) == RankSum(a, 0, a.n - 1, c, j)
  {
    FoldIsRankSum(a, c, a.n - 1, j);
    if c > 0 {
      RankSumSplits(a, 0, c - 1, a.n - 1, c, j);
    }
  }
}
