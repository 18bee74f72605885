/**
 The program every rank runs: the same list of collective calls, each made of steps
 in which a rank sends one message to its right neighbour and receives one from its
 left neighbour.
 */
module RingProgram {
  import opened RingIndex
  import opened RingSpec

  datatype Call<!T> = AllReduce(input: Input<T>) | Barrier

  /** One element on its way; the barrier's byte has no content worth keeping. */
  datatype Item<T> = Elem(v: T) | Byte

  datatype Job<!T> = Job(n: nat, calls: seq<Call<T>>) {
    ghost predicate Valid() {
      && n >= 2
      && forall q | 0 <= q < |calls| && calls[q].AllReduce? :: calls[q].input.n == n && calls[q].input.Valid()
    }

    /** Steps of call `q`: one exchange for a barrier. */
    function Steps(q: nat): (k: nat)
      requires n >= 2 && q < |calls|
      ensures k >= 1
    {
      if calls[q].AllReduce? then RingSteps(n) else 1
    }

    predicate Reduces(q: nat) {
      q < |calls| && calls[q].AllReduce?
    }

    /** Is step `s` of call `q` a reduce-scatter step? */
    predicate Scatters(q: nat, s: nat) {
      Reduces(q) && s < n - 1
    }

    /** Elements in every message of call `q`. */
    function Length(q: nat): nat
      requires q < |calls|
    {
      if calls[q].AllReduce? then calls[q].input.chunk else 1
    }

    /** How many steps precede call `q`. */
    function Base(q: nat): nat
      requires n >= 2 && q <= |calls|
    {
      if q == 0 then 0 else Base(q - 1) + Steps(q - 1)
    }

    /** The latest all-reduce before call `q`, if any. */
    function LastReduce(q: nat): (p: int)
      requires q <= |calls|
      ensures -1 <= p < q && (p >= 0 ==> calls[p].AllReduce?)
    {
      if q == 0 then -1 else if calls[q - 1].AllReduce? then q - 1 else LastReduce(q - 1)
    }

    lemma {:induction false} BaseMonotone(p: nat, q: nat)
      requires n >= 2 && p < q <= |calls|
      ensures Base(p) + Steps(p) <= Base(q)
      decreases q
    {
      if p < q - 1 {
        BaseMonotone(p, q - 1);
      }
    }

    /** A position in the whole run belongs to one step of one call. */
    lemma PositionUnique(p: nat, s: nat, q: nat, t: nat)
      requires n >= 2 && p < |calls| && q < |calls| && s < Steps(p) && t < Steps(q)
      requires Base(p) + s == Base(q) + t
      ensures p == q && s == t
    {
      if p < q {
        BaseMonotone(p, q);
      } else if q < p {
        BaseMonotone(q, p);
      }
    }

    /** Steps in the whole run. */
    function Total(): nat
      requires n >= 2
    {
      Base(|calls|)
    }

    /** The call that step `p` of the whole run belongs to. */
    function CallAt(p: nat, bound: nat): (q: nat)
      requires n >= 2 && bound <= |calls| && p < Base(bound)
      ensures q < bound && Base(q) <= p < Base(q) + Steps(q)
      decreases bound
    {
      if Base(bound - 1) <= p then bound - 1 else CallAt(p, bound - 1)
    }

    lemma CallAtPosition(q: nat, s: nat)
      requires n >= 2 && q < |calls| && s < Steps(q)
      ensures Base(q) + s < Total() && CallAt(Base(q) + s, |calls|) == q
    {
      BaseMonotone(q, |calls|);
      var p := CallAt(Base(q) + s, |calls|);
      PositionUnique(p, Base(q) + s - Base(p), q, s);
    }

    function LengthAt(p: nat): nat
      requires n >= 2 && p < Total()
    {
      Length(CallAt(p, |calls|))
    }

    /** Elements a rank sends before step `p` of the whole run. */
    function ElementsBefore(p: nat): nat
      requires n >= 2 && p <= Total()
    {
      if p == 0 then 0 else ElementsBefore(p - 1) + LengthAt(p - 1)
    }

    /** Own actions in steps `s`, `s + 1`, ... of call `q`: `exchange` in each, and the
        additions. */
    function CallWork(q: nat, s: nat, exchange: nat): nat
      requires n >= 2 && q < |calls| && s <= Steps(q)
      decreases Steps(q) - s
    {
      if s == Steps(q) then 0
      else exchange + (if Scatters(q, s) then Length(q) + 1 else 0) + CallWork(q, s + 1, exchange)
    }

    /** Own actions in calls `q`, `q + 1`, ...: `enter` to enter each. */
    function CallsWork(q: nat, exchange: nat, enter: nat): nat
      requires n >= 2 && q <= |calls|
      decreases |calls| - q
    {
      if q == |calls| then 0 else enter + CallWork(q, 0, exchange) + CallsWork(q + 1, exchange, enter)
    }

    /** The longest message of the first `q` calls. */
    function MaxLength(q: nat): (m: nat)
      requires q <= |calls|
      ensures forall p | 0 <= p < q :: Length(p) <= m
    {
      if q == 0 then 0
      else if Length(q - 1) > MaxLength(q - 1) then Length(q - 1) else MaxLength(q - 1)
    }

    lemma {:induction false} ElementsMonotone(p: nat, p': nat)
      requires n >= 2 && p < p' <= Total()
      ensures ElementsBefore(p) + LengthAt(p) <= ElementsBefore(p')
      decreases p'
    {
      if p < p' - 1 {
        ElementsMonotone(p, p' - 1);
      }
    }
  }

  /** What rank `r` sends at step `s` of call `q`. */
  ghost function Message<T>(job: Job<T>, r: nat, q: nat, s: nat): (m: seq<Item<T>>)
    requires job.Valid() && r < job.n && q < |job.calls| && s < job.Steps(q)
    ensures |m| == job.Length(q)
  {
    if job.Reduces(q) then
      var a := job.calls[q].input;
      seq(a.chunk, j requires 0 <= j < a.chunk => Elem(Val(a, r, s, SendChunk(r, job.n, s), j)))
    else [Byte]
  }

  /** What rank `r` sends at step `p` of the whole run. */
  ghost function MessageAt<T>(job: Job<T>, r: nat, p: nat): seq<Item<T>>
    requires job.Valid() && r < job.n && p < job.Total()
  {
    var q := job.CallAt(p, |job.calls|);
    Message(job, r, q, p - job.Base(q))
  }

  lemma MessageAtIs<T>(job: Job<T>, r: nat, p: nat, q: nat, s: nat)
    requires job.Valid() && r < job.n && p < job.Total() && q == job.CallAt(p, |job.calls|) && job.Base(q) + s == p
    ensures MessageAt(job, r, p) == Message(job, r, q, s) && job.LengthAt(p) == job.Length(q)
  {
  }

  lemma {:induction false} MessageAtPosition<T>(job: Job<T>, r: nat, q: nat, s: nat)
    requires job.Valid() && r < job.n && q < |job.calls| && s < job.Steps(q)
    ensures job.Base(q) + s < job.Total() && job.LengthAt(job.Base(q) + s) == job.Length(q)
    ensures MessageAt(job, r, job.Base(q) + s) == Message(job, r, q, s)
  {
    job.CallAtPosition(q, s);
    MessageAtIs(job, r, job.Base(q) + s, q, s);
  }

  /** An index of a smallest entry. */
  lemma {:induction false} Smallest(w: seq<nat>) returns (i: nat)
    requires w != []
    ensures i < |w| && forall x | 0 <= x < |w| :: w[i] <= w[x]
  {
    i := 0;
    if |w| > 1 {
      i := Smallest(w[..|w| - 1]);
      assert forall x | 0 <= x < |w| - 1 :: w[..|w| - 1][x] == w[x];
      if w[|w| - 1] < w[i] {
        i := |w| - 1;
      }
    }
  }
}
