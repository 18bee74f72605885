/**
 The all-reduce as its caller sees it: flat buffers of `n * chunk` elements, and the
 loop that adds a received chunk in place.
 */
module RingFlat {
  import opened RingIndex
  import opened RingSpec
  import opened RingProgram
  import opened Remainders
  import Blocking = BlockingRing
  import BlockingTheorems = BlockingRingTheorems
  import Posted = PostedRing
  import PostedTheorems = PostedRingTheorems

  /** A flat buffer as its chunks. */
  ghost function Split<T>(f: seq<T>, n: nat, chunk: nat): (b: seq<seq<T>>)
    requires |f| == n * chunk
    ensures |b| == n && forall c | 0 <= c < n :: |b[c]| == chunk
  {
    if n == 0 then [] else
      assert (n - 1) * chunk + chunk == n * chunk;
      Split(f[..(n - 1) * chunk], n - 1, chunk) + [f[(n - 1) * chunk..]]
  }

  lemma {:induction false} SplitAt<T>(f: seq<T>, n: nat, chunk: nat, c: nat, j: nat)
    requires |f| == n * chunk && c < n && j < chunk
    ensures FlatIndex(c, j, chunk) < |f| && Split(f, n, chunk)[c][j] == f[FlatIndex(c, j, chunk)]
    decreases n
  {
    FlatIndexUnique(c, j, n, chunk);
    var m := (n - 1) * chunk;
    assert m + chunk == n * chunk;
    if c < n - 1 {
      SplitAt(f[..m], n - 1, chunk, c, j);
      assert f[..m][FlatIndex(c, j, chunk)] == f[FlatIndex(c, j, chunk)];
    } else {
      assert FlatIndex(c, j, chunk) == m + j;
    }
  }

  /** Every element of the flat buffer is in some chunk. */
  lemma EveryElementInAChunk(i: nat, n: nat, chunk: nat)
    requires i < n * chunk
    ensures chunk > 0 && i / chunk < n && i % chunk < chunk && i == FlatIndex(i / chunk, i % chunk, chunk)
  {
  }

  /** Call `q` reduces the given flat buffers, one a rank. */
  ghost predicate ReducesFlat<T>(job: Job<T>, q: nat, flat: seq<seq<T>>)
    requires job.Valid()
  {
    && job.Reduces(q)
    && |flat| == job.n
    && forall r | 0 <= r < job.n ::
         |flat[r]| == job.n * job.Length(q) && job.calls[q].input.x[r] == Split(flat[r], job.n, job.Length(q))
  }

  /** flat[lo][i] + flat[lo + 1][i] + ... + flat[hi][i] */
  ghost function ColumnSum<T>(flat: seq<seq<T>>, add: (T, T) -> T, lo: nat, hi: nat, i: nat): T
    requires lo <= hi < |flat| && forall r | 0 <= r < |flat| :: i < |flat[r]|
    decreases hi
  {
    if lo == hi then flat[lo][i] else add(ColumnSum(flat, add, lo, hi - 1, i), flat[hi][i])
  }

  lemma {:induction false} RankSumIsColumnSum<T>(a: Input<T>, flat: seq<seq<T>>, hi: nat, c: nat, j: nat)
    requires a.Valid() && hi < a.n && c < a.n && j < a.chunk && |flat| == a.n
    requires forall r | 0 <= r < a.n :: |flat[r]| == a.n * a.chunk && a.x[r] == Split(flat[r], a.n, a.chunk)
    ensures FlatIndex(c, j, a.chunk) < a.n * a.chunk
    ensures RankSum(a, 0, hi, c, j) == ColumnSum(flat, a.add, 0, hi, FlatIndex(c, j, a.chunk))
  {
    SplitAt(flat[hi], a.n, a.chunk, c, j);
    if hi > 0 {
      RankSumIsColumnSum(a, flat, hi - 1, c, j);
    }
  }

  /** The chunks of a buffer in order, as it lies in memory. */
  ghost function Join<T>(b: seq<seq<T>>): seq<T> {
    if b == [] then [] else Join(b[..|b| - 1]) + b[|b| - 1]
  }

  lemma {:induction false} JoinLength<T>(b: seq<seq<T>>, n: nat, chunk: nat)
    requires |b| == n && forall c | 0 <= c < n :: |b[c]| == chunk
    ensures |Join(b)| == n * chunk
  {
    if n > 0 {
      JoinLength(b[..n - 1], n - 1, chunk);
      Distribute(n - 1, 1, chunk);
    }
  }

  lemma {:induction false} JoinAt<T>(b: seq<seq<T>>, n: nat, chunk: nat, c: nat, j: nat)
    requires |b| == n && (forall d | 0 <= d < n :: |b[d]| == chunk) && c < n && j < chunk
    ensures |Join(b)| == n * chunk && FlatIndex(c, j, chunk) < n * chunk
    ensures Join(b)[FlatIndex(c, j, chunk)] == b[c][j]
  {
    JoinLength(b, n, chunk);
    JoinLength(b[..n - 1], n - 1, chunk);
    FlatIndexUnique(c, j, n, chunk);
    if c < n - 1 {
      JoinAt(b[..n - 1], n - 1, chunk, c, j);
      assert b[..n - 1][c] == b[c];
    }
  }

  /** Cutting a flat buffer into chunks loses nothing. */
  lemma JoinSplit<T>(f: seq<T>, n: nat, chunk: nat)
    requires |f| == n * chunk
    ensures Join(Split(f, n, chunk)) == f
  {
    var b := Split(f, n, chunk);
    JoinLength(b, n, chunk);
    forall i | 0 <= i < n * chunk ensures Join(b)[i] == f[i] {
      EveryElementInAChunk(i, n, chunk);
      JoinAt(b, n, chunk, i / chunk, i % chunk);
      SplitAt(f, n, chunk, i / chunk, i % chunk);
    }
  }

  /** The flat buffer `g` holds, at every place, the sum of the ranks' elements there. */
  ghost predicate SumsColumns<T>(flat: seq<seq<T>>, add: (T, T) -> T, g: seq<T>)
    requires |flat| >= 1 && forall r | 0 <= r < |flat| :: |flat[r]| == |g|
  {
    forall i | 0 <= i < |g| :: g[i] == ColumnSum(flat, add, 0, |flat| - 1, i)
  }

  /** Chunks that hold the ring-order folds join to the column sums, if the sum is
      associative and commutative. */
  lemma FoldsSumColumns<T(!new)>(job: Job<T>, q: nat, flat: seq<seq<T>>, b: seq<seq<T>>)
    requires job.Valid() && ReducesFlat(job, q, flat) && Sums(job.calls[q].input.add) && job.calls[q].input.IsBuffer(b)
    requires forall c, j | 0 <= c < job.n && 0 <= j < job.Length(q) :: b[c][j] == Reduced(job.calls[q].input, c, j)
    ensures |Join(b)| == job.n * job.Length(q)
    ensures SumsColumns(flat, job.calls[q].input.add, Join(b))
  {
    var a, chunk := job.calls[q].input, job.Length(q);
    JoinLength(b, job.n, chunk);
    forall i | 0 <= i < job.n * chunk
      ensures Join(b)[i] == ColumnSum(flat, a.add, 0, job.n - 1, i)
    {
      EveryElementInAChunk(i, job.n, chunk);
      var c, j := i / chunk, i % chunk;
      JoinAt(b, job.n, chunk, c, j);
      ReducedIsSum(a, c, j);
      RankSumIsColumnSum(a, flat, job.n - 1, c, j);
    }
  }

  /** With an associative and commutative sum, every element of a returned rank's flat
      buffer is the sum of the ranks' elements at that place. */
  lemma FlatResult<T(!new)>(job: Job<T>, sys: Posted.System<T>, r: nat, q: nat, flat: seq<seq<T>>)
    requires job.Valid() && r < job.n && ReducesFlat(job, q, flat) && Sums(job.calls[q].input.add)
    requires PostedTheorems.Reachable(job, sys) && Posted.Shape(job, sys) && PostedTheorems.Returned(sys[r], q)
    ensures |Join(sys[r].buf)| == job.n * job.Length(q)
    ensures SumsColumns(flat, job.calls[q].input.add, Join(sys[r].buf))
  {
    PostedTheorems.ResultShape(job, sys, r, q);
    forall c, j | 0 <= c < job.n && 0 <= j < job.Length(q)
      ensures sys[r].buf[c][j] == Reduced(job.calls[q].input, c, j)
    {
      PostedTheorems.AllReduceResult(job, sys, r, q, c, j);
    }
    FoldsSumColumns(job, q, flat, sys[r].buf);
  }

  /** The same of the blocking path. */
  lemma FlatResultBlocking<T(!new)>(job: Job<T>, capacity: nat, sys: Blocking.System<T>, r: nat, q: nat,
                                     flat: seq<seq<T>>)
    requires job.Valid() && r < job.n && ReducesFlat(job, q, flat) && Sums(job.calls[q].input.add)
    requires BlockingTheorems.Reachable(job, capacity, sys) && Blocking.Shape(job, sys)
    requires BlockingTheorems.Returned(sys[r], q)
    ensures |Join(sys[r].buf)| == job.n * job.Length(q)
    ensures SumsColumns(flat, job.calls[q].input.add, Join(sys[r].buf))
  {
    BlockingTheorems.ResultShape(job, capacity, sys, r, q);
    forall c, j | 0 <= c < job.n && 0 <= j < job.Length(q)
      ensures sys[r].buf[c][j] == Reduced(job.calls[q].input, c, j)
    {
      BlockingTheorems.AllReduceResult(job, capacity, sys, r, q, c, j);
    }
    FoldsSumColumns(job, q, flat, sys[r].buf);
  }

  /** The loop that folds the staged chunk into the buffer. */
  method AddChunk<T>(add: (T, T) -> T, buf: array<T>, stage: array<T>, dst: nat, src: nat, chunk: nat)
    requires buf != stage && dst + chunk <= buf.Length && src + chunk <= stage.Length
    modifies buf
    ensures forall i | 0 <= i < buf.Length ::
              buf[i] == if dst <= i < dst + chunk then add(old(buf[i]), stage[src + (i - dst)]) else old(buf[i])
  {
    for i := 0 to chunk
      invariant forall k | 0 <= k < buf.Length ::
                  buf[k] == if dst <= k < dst + i then add(old(buf[k]), stage[src + (k - dst)]) else old(buf[k])
    {
      buf[dst + i] := add(buf[dst + i], stage[src + i]);
    }
  }
}
