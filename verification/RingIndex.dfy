/**
 The ring topology and the chunk that each step of the all-reduce touches.

 A step `s` runs from 0 to 2(n-1): the first n-1 steps are the reduce-scatter, the
 others the all-gather. The functions below are written without the remainder
 operator, which the solver handles badly; `ChunkFormulas` and `NeighbourFormulas`
 tie them to the program's own expressions.
 */
module RingIndex {
  import opened Remainders

  function Left(r: nat, n: nat): (l: nat)
    requires r < n
    ensures l < n && (n >= 2 ==> l != r)
  {
    if r == 0 then n - 1 else r - 1
  }

  function Right(r: nat, n: nat): (l: nat)
    requires r < n
    ensures l < n && (n >= 2 ==> l != r) && Left(l, n) == r
  {
    if r == n - 1 then 0 else r + 1
  }

  /** The number of steps of one all-reduce. */
  function RingSteps(n: nat): nat
    requires n >= 2
  {
    2 * (n - 1)
  }

  /** The rank `k` hops to the left of rank `r`. */
  function Back(r: nat, k: nat, n: nat): (b: nat)
    requires r < n && k <= n
    ensures b < n
  {
    if k <= r then r - k else r - k + n
  }

  function SendChunk(r: nat, n: nat, s: nat): (c: nat)
    requires n >= 2 && r < n && s < RingSteps(n)
    ensures c < n
  {
    if s < n - 1 then Back(r, s, n)
    else if s == n - 1 then Right(r, n)
    else Back(r, s - n, n)
  }

  function RecvChunk(r: nat, n: nat, s: nat): (c: nat)
    requires n >= 2 && r < n && s < RingSteps(n)
    ensures c < n
  {
    if s < n - 1 then Back(r, s + 1, n) else Back(r, s - (n - 1), n)
  }

  /** How many hops to the right of rank `c` rank `r` sits. */
  function Hops(r: nat, c: nat, n: nat): (h: nat)
    requires r < n && c < n
    ensures h < n
  {
    if r >= c then r - c else r - c + n
  }

  /** The hop distance at which a chunk is received at step `s`. */
  function HopsAt(n: nat, s: nat): nat
    requires n >= 2
  {
    if s < n - 1 then s + 1 else s - (n - 1)
  }

  /** A rank receives a chunk exactly when it is the right number of hops from the
      rank of that number. */
  lemma RecvAtHops(r: nat, n: nat, s: nat, c: nat)
    requires n >= 2 && r < n && s < RingSteps(n) && c < n
    ensures RecvChunk(r, n, s) == c <==> Hops(r, c, n) == HopsAt(n, s)
  {
  }

  /** What a rank received it passes on at its next step. */
  lemma ForwardsWhatItReceived(r: nat, n: nat, s: nat)
    requires n >= 2 && r < n && s + 1 < RingSteps(n)
    ensures SendChunk(r, n, s + 1) == RecvChunk(r, n, s)
  {
  }

  /** The two ends of a link agree on the chunk: what the left neighbour sends at a
      step is what this rank expects at that step. */
  lemma EndsAgree(r: nat, n: nat, s: nat)
    requires n >= 2 && r < n && s < RingSteps(n)
    ensures SendChunk(Left(r, n), n, s) == RecvChunk(r, n, s)
  {
  }

  /** Within a step a rank sends one chunk and receives another. */
  lemma SendIsNotRecv(r: nat, n: nat, s: nat)
    requires n >= 2 && r < n && s < RingSteps(n)
    ensures SendChunk(r, n, s) != RecvChunk(r, n, s)
  {
  }

  /** Consecutive steps receive different chunks. */
  lemma RecvAdvances(r: nat, n: nat, s: nat)
    requires n >= 2 && r < n && s + 1 < RingSteps(n)
    ensures RecvChunk(r, n, s) != RecvChunk(r, n, s + 1)
  {
  }

  /** The receive that is posted one step ahead names the chunk still being sent in
      exactly one case: two ranks, step 0. */
  lemma SendMeetsNextRecv(r: nat, n: nat, s: nat)
    requires n >= 2 && r < n && s + 1 < RingSteps(n) && s + 1 >= n - 1
    ensures SendChunk(r, n, s) == RecvChunk(r, n, s + 1) <==> n == 2
  {
  }

  // ----- The program's own expressions

  /** `x % n` for the range the chunk numbers use. */
  lemma ModLinear(x: nat, n: nat)
    requires n > 0 && x < 3 * n
    ensures x % n == if x < n then x else if x < 2 * n then x - n else x - 2 * n
  {
    var k := if x < n then 0 else if x < 2 * n then 1 else 2;
    RemainderUnique(x, n, k, x - k * n);
  }

  /** The chunk numbers are the remainders the program computes. Every dividend is
      non-negative, so truncating and Euclidean remainder agree. */
  lemma ChunkFormulas(r: nat, n: nat, s: nat)
    requires n >= 2 && r < n && s < RingSteps(n)
    ensures s < n - 1 ==> r - s + n >= 0 && SendChunk(r, n, s) == (r - s + n) % n
    ensures s >= n - 1 ==> r - (s - (n - 1)) + 1 + n >= 0 && SendChunk(r, n, s) == (r - (s - (n - 1)) + 1 + n) % n
    ensures s < n - 1 ==> r - s - 1 + n >= 0 && RecvChunk(r, n, s) == (r - s - 1 + n) % n
    ensures s >= n - 1 ==> r - (s - (n - 1)) + n >= 0 && RecvChunk(r, n, s) == (r - (s - (n - 1)) + n) % n
  {
    if s < n - 1 {
      ModLinear(r - s + n, n);
      ModLinear(r - s - 1 + n, n);
    } else {
      ModLinear(r - (s - (n - 1)) + 1 + n, n);
      ModLinear(r - (s - (n - 1)) + n, n);
    }
  }

  lemma NeighbourFormulas(r: nat, n: nat)
    requires r < n
    ensures Left(r, n) == (r - 1 + n) % n && Right(r, n) == (r + 1) % n
  {
    ModLinear(r - 1 + n, n);
    ModLinear(r + 1, n);
  }

  /** Where element `j` of chunk `c` sits in the flat buffer. */
  function FlatIndex(c: nat, j: nat, chunk: nat): nat {
    c * chunk + j
  }

  /** The flat buffer is covered exactly once by the chunks. */
  lemma FlatIndexUnique(c: nat, j: nat, n: nat, chunk: nat)
    requires c < n && j < chunk
    ensures FlatIndex(c, j, chunk) < n * chunk
    ensures FlatIndex(c, j, chunk) / chunk == c && FlatIndex(c, j, chunk) % chunk == j
  {
    RemainderUnique(FlatIndex(c, j, chunk), chunk, c, j);
    MultiplesApart(chunk, c, n);
  }
}
