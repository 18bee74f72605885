/**
 The posted-receive path: what callers get, in every reachable state of every run.
 */
module PostedRingTheorems {
  import opened RingIndex
  import opened RingSpec
  import opened RingProgram
  import opened PostedRing
  import opened PostedRingProof

  /** States some run from the start leads to. */
  ghost predicate Reachable<T(!new)>(job: Job<T>, sys: System<T>)
    requires job.Valid()
  {
    exists start: System<T>, run :: Start(job, start) && Reaches(job, start, run, sys)
  }

  lemma ReachableInv<T(!new)>(job: Job<T>, sys: System<T>)
    requires job.Valid() && Reachable(job, sys)
    ensures Inv(job, sys)
  {
    var start: System<T>, run :| Start(job, start) && Reaches(job, start, run, sys);
    StartHasInv(job, start);
    RunKeepsInv(job, start, run, sys);
  }

  lemma {:induction false} RunExtends<T>(job: Job<T>, start: System<T>, run: seq<Event>, sys: System<T>, e: Event)
    requires job.Valid() && Inv(job, start) && Reaches(job, start, run, sys)
    requires Shape(job, sys) && Enabled(job, sys, e)
    ensures Reaches(job, start, run + [e], Step(job, sys, e))
    decreases |run|
  {
    if run == [] {
      StepKeepsInv(job, sys, e);
      assert [e][1..] == [];
    } else {
      StepKeepsInv(job, start, run[0]);
      RunExtends(job, Step(job, start, run[0]), run[1..], sys, e);
      assert (run + [e])[1..] == run[1..] + [e];
    }
  }

  lemma ReachableStep<T(!new)>(job: Job<T>, sys: System<T>, e: Event)
    requires job.Valid() && Reachable(job, sys) && Shape(job, sys) && Enabled(job, sys, e)
    ensures Reachable(job, Step(job, sys, e))
  {
    var start: System<T>, run :| Start(job, start) && Reaches(job, start, run, sys);
    StartHasInv(job, start);
    RunExtends(job, start, run, sys, e);
  }

  /** A rank that has returned from call `q` and not yet entered the next. */
  predicate Returned<T>(k: Rank<T>, q: nat) {
    k.phase.Idle? && k.call == q + 1
  }

  // ----- Results

  /** A rank that returns from an all-reduce, at whatever moment and whatever the other
      ranks are doing, holds the ring-order fold of every chunk. */
  lemma AllReduceResult<T(!new)>(job: Job<T>, sys: System<T>, r: nat, q: nat, c: nat, j: nat)
    requires job.Valid() && Reachable(job, sys) && r < job.n && job.Reduces(q)
    requires Shape(job, sys) && Returned(sys[r], q)
    requires c < job.n && j < job.Length(q)
    ensures c < |sys[r].buf| && j < |sys[r].buf[c]|
    ensures sys[r].buf[c][j] == Reduced(job.calls[q].input, c, j)
  {
    ReachableInv(job, sys);
    assert Pair(job, sys, r);
    RoundsReduce(job.calls[q].input, r, c, j);
  }

  lemma ResultShape<T(!new)>(job: Job<T>, sys: System<T>, r: nat, q: nat)
    requires job.Valid() && Reachable(job, sys) && r < job.n && job.Reduces(q)
    requires Shape(job, sys) && Returned(sys[r], q)
    ensures job.calls[q].input.IsBuffer(sys[r].buf)
  {
    ReachableInv(job, sys);
    assert Pair(job, sys, r);
  }

  /** Any two ranks that have returned hold the same bits, even when they are looked at
      in different states of different runs. */
  lemma BitIdentical<T(!new)>(job: Job<T>, sys: System<T>, r: nat, sys': System<T>, r': nat, q: nat)
    requires job.Valid() && Reachable(job, sys) && Reachable(job, sys') && r < job.n && r' < job.n && job.Reduces(q)
    requires Shape(job, sys) && Shape(job, sys') && Returned(sys[r], q) && Returned(sys'[r'], q)
    ensures sys[r].buf == sys'[r'].buf
  {
    ReachableInv(job, sys);
    ReachableInv(job, sys');
    assert Pair(job, sys, r) && Pair(job, sys', r');
    var b, b' := sys[r].buf, sys'[r'].buf;
    forall c | 0 <= c < job.n
      ensures b[c] == b'[c]
    {
      forall j | 0 <= j < job.Length(q)
        ensures b[c][j] == b'[c][j]
      {
        AllReduceResult(job, sys, r, q, c, j);
        AllReduceResult(job, sys', r', q, c, j);
      }
    }
  }

  /** With an associative and commutative sum the result is the plain sum over ranks. */
  lemma AllReduceSums<T(!new)>(job: Job<T>, sys: System<T>, r: nat, q: nat, c: nat, j: nat)
    requires job.Valid() && Reachable(job, sys) && r < job.n && job.Reduces(q) && Sums(job.calls[q].input.add)
    requires Shape(job, sys) && Returned(sys[r], q)
    requires c < job.n && j < job.Length(q)
    ensures c < |sys[r].buf| && j < |sys[r].buf[c]|
    ensures sys[r].buf[c][j] == RankSum(job.calls[q].input, 0, job.n - 1, c, j)
  {
    AllReduceResult(job, sys, r, q, c, j);
    ReducedIsSum(job.calls[q].input, c, j);
  }

  /** A barrier leaves the payload alone: while it runs, and until the next all-reduce
      begins, the buffer still holds the latest result. */
  lemma BarrierKeepsResult<T(!new)>(job: Job<T>, sys: System<T>, r: nat, c: nat, j: nat)
    requires job.Valid() && Reachable(job, sys) && r < job.n && Shape(job, sys)
    requires sys[r].phase.Idle? || !job.Reduces(sys[r].call)
    requires job.LastReduce(sys[r].call) >= 0 && c < job.n && j < job.Length(job.LastReduce(sys[r].call))
    ensures c < |sys[r].buf| && j < |sys[r].buf[c]|
    ensures sys[r].buf[c][j] == Reduced(job.calls[job.LastReduce(sys[r].call)].input, c, j)
  {
    ReachableInv(job, sys);
    assert Pair(job, sys, r);
    RoundsReduce(job.calls[job.LastReduce(sys[r].call)].input, r, c, j);
  }

  // ----- Composition of calls

  /** Nothing is outstanding on either queue pair of a rank between calls, so the
      caller may overwrite its buffers at once. */
  lemma ReturnsClean<T(!new)>(job: Job<T>, sys: System<T>, r: nat)
    requires job.Valid() && Reachable(job, sys) && r < job.n && Shape(job, sys) && sys[r].phase.Idle?
    ensures var k := sys[r];
            k.rq == [] && k.sq == [] && k.received == 0 && k.sent == 0 && k.unacked == 0 && k.landed == {}
  {
    ReachableInv(job, sys);
    assert Pair(job, sys, r) && Pair(job, sys, Right(r, job.n));
  }

  /** A message is only ever met by the receive its peer posted for it: same call, same
      step, same length, and the chunk that was sent is the chunk expected. */
  lemma MessageMeetsItsReceive<T(!new)>(job: Job<T>, sys: System<T>, r: nat)
    requires job.Valid() && Reachable(job, sys) && r < job.n && Shape(job, sys)
    requires var l := Left(r, job.n); sys[l].sq != [] && sys[r].rq != []
    ensures var m, v := sys[Left(r, job.n)].sq[0], sys[r].rq[0];
            && m.call == v.call && m.step == v.step && m.len == v.len
            && m.call < |job.calls| && m.step < job.Steps(m.call)
            && (job.Reduces(m.call) ==> m.loc == Chunk(RecvChunk(r, job.n, m.step)))
            && (job.Scatters(m.call, m.step) ==> v.loc == Half(m.step % 2))
            && (job.Reduces(m.call) && !job.Scatters(m.call, m.step) ==> v.loc == m.loc)
            && (!job.Reduces(m.call) ==> m.loc == Scratch && v.loc == Scratch)
  {
    ReachableInv(job, sys);
    var l := Left(r, job.n);
    assert Pair(job, sys, r);
    HeadsMatch(job, l, sys[l], r, sys[r]);
    if job.Reduces(sys[l].call) {
      EndsAgree(r, job.n, sys[l].step);
    }
  }

  /** Has the rank entered call `q`? */
  predicate Entered<T>(k: Rank<T>, q: nat) {
    k.call > q || (k.call == q && !k.phase.Idle?)
  }

  /** When a rank has returned from a call, a barrier among them, both its neighbours
      have entered it. */
  lemma NeighboursHaveEntered<T(!new)>(job: Job<T>, sys: System<T>, r: nat, q: nat)
    requires job.Valid() && Reachable(job, sys) && r < job.n && Shape(job, sys)
    requires q < |job.calls| && sys[r].call > q
    ensures Entered(sys[Left(r, job.n)], q) && Entered(sys[Right(r, job.n)], q)
    ensures job.n == 2 ==> forall x | 0 <= x < job.n :: Entered(sys[x], q)
  {
    ReachableInv(job, sys);
    LeftHasEntered(job, sys, r, q);
    RightHasEntered(job, sys, r, q);
    if job.n == 2 {
      forall x | 0 <= x < job.n ensures Entered(sys[x], q) {
        assert x == r || x == Left(r, job.n);
      }
    }
  }

  lemma LeftHasEntered<T>(job: Job<T>, sys: System<T>, r: nat, q: nat)
    requires job.Valid() && Inv(job, sys) && r < job.n && q < |job.calls| && sys[r].call > q
    ensures Entered(sys[Left(r, job.n)], q)
  {
    assert Pair(job, sys, r);
    SenderHasEntered(job, Left(r, job.n), sys[Left(r, job.n)], r, sys[r], q);
  }

  lemma RightHasEntered<T>(job: Job<T>, sys: System<T>, r: nat, q: nat)
    requires job.Valid() && Inv(job, sys) && r < job.n && q < |job.calls| && sys[r].call > q
    ensures Entered(sys[Right(r, job.n)], q)
  {
    assert Pair(job, sys, Right(r, job.n));
    ReceiverHasEntered(job, r, sys[r], Right(r, job.n), sys[Right(r, job.n)], q);
  }

  lemma SenderHasEntered<T>(job: Job<T>, l: nat, kl: Rank<T>, r: nat, kr: Rank<T>, q: nat)
    requires job.Valid() && l < job.n && r < job.n && Pc(job, kl) && Pc(job, kr) && Link(job, l, kl, r, kr)
    requires q < kr.call
    ensures Entered(kl, q)
  {
    job.BaseMonotone(q, kr.call);
    if kl.call < q {
      job.BaseMonotone(kl.call, q);
    }
  }

  lemma ReceiverHasEntered<T>(job: Job<T>, l: nat, kl: Rank<T>, r: nat, kr: Rank<T>, q: nat)
    requires job.Valid() && l < job.n && r < job.n && Pc(job, kl) && Pc(job, kr) && Link(job, l, kl, r, kr)
    requires q < kl.call
    ensures Entered(kr, q)
  {
    job.BaseMonotone(q, kl.call);
    if kr.call < q {
      job.BaseMonotone(kr.call, q);
    }
  }

  /** At most one message is under way on a link and at most one receive is posted for
      it, and neighbours stay close: the left one is at most one step behind and two
      ahead, counting through all calls. */
  lemma NeighboursStayClose<T(!new)>(job: Job<T>, sys: System<T>, r: nat)
    requires job.Valid() && Reachable(job, sys) && r < job.n && Shape(job, sys)
    ensures var l := Left(r, job.n);
            && |sys[l].sq| <= 1 && |sys[r].rq| <= 1
            && sys[l].sent + sys[l].unacked <= 1 && sys[r].received <= 1
            && Position(job, sys[r]) - 1 <= Position(job, sys[l]) <= Position(job, sys[r]) + 2
  {
    ReachableInv(job, sys);
    assert Pair(job, sys, r);
    LinkIsShort(job, Left(r, job.n), sys[Left(r, job.n)], r, sys[r]);
  }

  lemma LinkIsShort<T>(job: Job<T>, l: nat, kl: Rank<T>, r: nat, kr: Rank<T>)
    requires job.Valid() && l < job.n && r < job.n && Pc(job, kl) && Pc(job, kr) && Link(job, l, kl, r, kr)
    ensures |kl.sq| <= 1 && |kr.rq| <= 1 && kl.sent + kl.unacked <= 1 && kr.received <= 1
    ensures Position(job, kr) - 1 <= Position(job, kl) <= Position(job, kr) + 2
  {
  }

  lemma LeftIsClose<T>(job: Job<T>, sys: System<T>, r: nat)
    requires job.Valid() && Inv(job, sys) && r < job.n
    ensures Position(job, sys[Left(r, job.n)]) >= Position(job, sys[r]) - 1
  {
    assert Pair(job, sys, r);
    LinkIsShort(job, Left(r, job.n), sys[Left(r, job.n)], r, sys[r]);
  }

  lemma {:induction false} RanksStayClose<T>(job: Job<T>, sys: System<T>, r: nat, k: nat)
    requires job.Valid() && Inv(job, sys) && r < job.n && k < job.n
    ensures Position(job, sys[Back(r, k, job.n)]) >= Position(job, sys[r]) - k
  {
    if k > 0 {
      RanksStayClose(job, sys, r, k - 1);
      LeftIsClose(job, sys, Back(r, k - 1, job.n));
      assert Left(Back(r, k - 1, job.n), job.n) == Back(r, k, job.n);
    }
  }

  /** When a rank has returned from an all-reduce, every rank has entered it. */
  lemma EveryoneHasEntered<T(!new)>(job: Job<T>, sys: System<T>, r: nat, q: nat, x: nat)
    requires job.Valid() && Reachable(job, sys) && r < job.n && x < job.n && Shape(job, sys)
    requires job.Reduces(q) && sys[r].call > q
    ensures Entered(sys[x], q)
  {
    ReachableInv(job, sys);
    var k := if x <= r then r - x else r - x + job.n;
    RanksStayClose(job, sys, r, k);
    assert Back(r, k, job.n) == x;
    job.BaseMonotone(q, sys[r].call);
    if sys[x].call < q {
      job.BaseMonotone(sys[x].call, q);
    }
  }

  // ----- Races

  /** Does the event write cell (`c`, `j`) of rank `r`'s buffer? Entering an all-reduce
      counts: the caller may have refilled the whole buffer. */
  ghost predicate Writes<T>(job: Job<T>, sys: System<T>, e: Event, r: nat, c: nat, j: nat)
    requires job.Valid() && Shape(job, sys) && Enabled(job, sys, e) && r < job.n
  {
    && e.r == r
    && var k := sys[r];
       match e
       case Act(_) =>
         || k.phase.Idle?
         || (k.phase.Sum? && c == RecvChunk(r, job.n, k.step) && j == k.phase.i)
       case Land(_, i) => k.rq[0].loc == Chunk(c) && i == j
       case _ => false
  }

  /** `Writes` leaves nothing out. */
  lemma OnlyWritesChange<T>(job: Job<T>, sys: System<T>, e: Event, r: nat, c: nat, j: nat)
    requires job.Valid() && Shape(job, sys) && Enabled(job, sys, e) && r < job.n
    requires c < |sys[r].buf| && j < |sys[r].buf[c]| && !Writes(job, sys, e, r, c, j)
    ensures var b := Step(job, sys, e)[r].buf; c < |b| && j < |b[c]| && b[c][j] == sys[r].buf[c][j]
  {
  }

  /** A posted receive never names the chunk being sent, unless it is the two-rank
      receive posted a step ahead. */
  lemma TargetIsNotSource<T>(job: Job<T>, r: nat, k: Rank<T>)
    requires job.Valid() && r < job.n && Pc(job, k)
    requires k.phase.PollRecv? || k.phase.Rearm? || k.phase.PollSend?
    requires k.step <= Got(k) <= k.step + 1 && Got(k) < job.Steps(k.call)
    requires Got(k) == k.step + 1 ==> job.n > 2 || k.step > 0 || !job.Reduces(k.call)
    ensures job.Reduces(k.call) ==>
              RecvWr(job, r, k.call, Got(k)).loc != SendWr(job, r, k.call, k.step).loc
  {
    if job.Reduces(k.call) {
      SendIsNotRecv(r, job.n, k.step);
      if k.step + 1 < RingSteps(job.n) && k.step + 1 >= job.n - 1 {
        SendMeetsNextRecv(r, job.n, k.step);
      }
    }
  }

  /** What may land now does not land on what may be fetched now. */
  lemma LandingIsApart<T>(job: Job<T>, sys: System<T>, r: nat)
    requires job.Valid() && Inv(job, sys) && r < job.n
    requires sys[r].sq != [] && sys[r].rq != [] && sys[Left(r, job.n)].sq != [] && job.Reduces(sys[r].call)
    ensures sys[r].rq[0].loc != sys[r].sq[0].loc
  {
    var k, x := sys[r], Right(r, job.n);
    assert Pair(job, sys, r) && Pair(job, sys, x);
    if job.n == 2 {
      NothingAhead(job, x, sys[x], r, k);
    }
    TargetIsNotSource(job, r, k);
  }

  /** The source chunk of a message that may still be fetched is never written. */
  lemma SourceIsNotWritten<T(!new)>(job: Job<T>, sys: System<T>, e: Event, r: nat, c: nat, j: nat)
    requires job.Valid() && Reachable(job, sys) && Shape(job, sys) && Enabled(job, sys, e) && r < job.n
    requires sys[r].sq != [] && sys[r].sq[0].loc == Chunk(c)
    ensures !Writes(job, sys, e, r, c, j)
  {
    ReachableInv(job, sys);
    assert Pair(job, sys, Right(r, job.n));
    if e.Land? && e.r == r {
      LandingIsApart(job, sys, r);
    }
  }

  /** While a rank adds, the receive it has posted names neither the half of `stage`
      it reads nor the chunk it writes. */
  lemma SumIsApart<T(!new)>(job: Job<T>, sys: System<T>, r: nat)
    requires job.Valid() && Reachable(job, sys) && Shape(job, sys) && r < job.n
    requires sys[r].phase.Sum? && sys[r].rq != []
    ensures var k := sys[r];
            k.rq[0].loc != Half(k.step % 2) && k.rq[0].loc != Chunk(RecvChunk(r, job.n, k.step))
  {
    ReachableInv(job, sys);
    assert Pair(job, sys, r);
    PostedIsApart(job, Left(r, job.n), sys[Left(r, job.n)], r, sys[r]);
  }

  lemma PostedIsApart<T>(job: Job<T>, l: nat, kl: Rank<T>, r: nat, k: Rank<T>)
    requires job.Valid() && l < job.n && r < job.n && Pc(job, kl) && Pc(job, k) && Link(job, l, kl, r, k)
    requires k.phase.Sum? && k.rq != []
    ensures k.rq[0].loc != Half(k.step % 2) && k.rq[0].loc != Chunk(RecvChunk(r, job.n, k.step))
  {
    if k.step + 1 < RingSteps(job.n) {
      RecvAdvances(r, job.n, k.step);
    }
  }
}
