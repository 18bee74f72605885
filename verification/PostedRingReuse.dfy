/**
 When may a send's buffer be written again? The rule for zero-copy sends is to leave it
 alone until the completion has been reaped; a send posted inline has been copied and
 frees its buffer at once. The posted-receive path keeps that rule exactly when there are
 more than two ranks or all its messages are posted inline: with two ranks, the receive
 posted one step ahead lands on the chunk of a send that has been delivered but not yet
 reaped.
 */
module PostedRingReuse {
  import opened RingIndex
  import opened RingMeeting
  import opened RingSpec
  import opened RingProgram
  import opened PostedRing
  import opened PostedRingProof
  import opened PostedRingTheorems
  import opened PostedRingProgress

  /** The program's elements are 32-bit floats. */
  const ELEMENT_BYTES: nat := 4

  /** Are the messages of call `q` posted inline, by adapters that have granted `inline`
      bytes? */
  predicate Inlined<T>(job: Job<T>, q: nat, inline: nat)
    requires q < |job.calls|
  {
    ELEMENT_BYTES * job.Length(q) <= inline
  }

  /** Has the rank posted this step's send and not reaped its completion? */
  predicate Unreaped<T>(k: Rank<T>) {
    k.phase.PollRecv? || k.phase.Rearm? || k.phase.PollSend?
  }

  /** No event writes a chunk whose zero-copy send has not been reaped. */
  ghost predicate LeavesUnreapedAlone<T>(job: Job<T>, inline: nat, sys: System<T>)
    requires job.Valid() && Shape(job, sys)
  {
    forall e, j | Enabled(job, sys, e) && Unreaped(sys[e.r]) && job.Reduces(sys[e.r].call)
                  && !Inlined(job, sys[e.r].call, inline) ::
      !Writes(job, sys, e, e.r, SendChunk(e.r, job.n, sys[e.r].step), j)
  }

  lemma MoreThanTwoRanks<T(!new)>(job: Job<T>, inline: nat, sys: System<T>)
    requires job.Valid() && job.n > 2 && Reachable(job, sys) && Shape(job, sys)
    ensures LeavesUnreapedAlone(job, inline, sys)
  {
    ReachableInv(job, sys);
    forall e, j | Enabled(job, sys, e) && Unreaped(sys[e.r]) && job.Reduces(sys[e.r].call)
                  && !Inlined(job, sys[e.r].call, inline)
      ensures !Writes(job, sys, e, e.r, SendChunk(e.r, job.n, sys[e.r].step), j)
    {
      assert Pair(job, sys, e.r);
      if e.Land? {
        TargetIsNotSource(job, e.r, sys[e.r]);
      }
    }
  }

  // ----- Two ranks: in every program with an all-reduce there is a run in which it happens.

  /** A rank with nothing outstanding, about to enter call `q`. */
  function Clean<T>(q: nat, buf: seq<seq<T>>, stage: map<(nat, nat), T>): Rank<T> {
    Rank(q, 0, Idle, buf, stage, [], 0, [], 0, 0, map[], {})
  }

  lemma GatheredIsClean<T(!new)>(job: Job<T>, sys: System<T>, q: nat, r: nat)
    requires job.Valid() && Reachable(job, sys) && Shape(job, sys) && GatheredAt(Places(job, sys), q) && r < job.n
    ensures sys[r] == Clean(q, sys[r].buf, sys[r].stage)
  {
    assert Places(job, sys)[r] == PlaceOf(job, sys[r]);
    assert Places(job, sys)[Left(r, job.n)] == PlaceOf(job, sys[Left(r, job.n)]);
    ReturnsClean(job, sys, r);
    ReturnsClean(job, sys, Left(r, job.n));
    ReachableInv(job, sys);
    assert Pair(job, sys, r);
  }

  /** A rank that has posted the receive and the send of step 0. */
  ghost function Sent<T>(job: Job<T>, q: nat, r: nat, stage: map<(nat, nat), T>): Rank<T>
    requires job.Valid() && job.Reduces(q) && r < job.n
  {
    Rank(q, 0, PollRecv, job.calls[q].input.x[r], stage, [Wr(q, 0, Half(0), job.Length(q))], 0,
         [Wr(q, 0, Chunk(r), job.Length(q))], 0, 0, map[], {})
  }

  lemma EntersAndSends<T(!new)>(job: Job<T>, sys: System<T>, q: nat, r: nat)
    requires job.Valid() && job.Reduces(q) && Reachable(job, sys) && Shape(job, sys) && r < job.n
    requires sys[r] == Clean(q, sys[r].buf, sys[r].stage)
    ensures var sys' := sys[r := Sent(job, q, r, sys[r].stage)]; Reachable(job, sys') && Shape(job, sys')
  {
    var at: System<T> := sys;
    for i := 0 to 3
      invariant Reachable(job, at) && Shape(job, at) && at == sys[r := at[r]]
      invariant var k := sys[r].(buf := job.calls[q].input.x[r]);
                at[r] == if i == 0 then sys[r]
                         else if i == 1 then k.(phase := Arm)
                         else if i == 2 then k.(phase := Send, rq := [Wr(q, 0, Half(0), job.Length(q))])
                         else Sent(job, q, r, sys[r].stage)
    {
      ReachableStep(job, at, Act(r));
      at := Step(job, at, Act(r));
      assert [] + [RecvWr(job, r, q, 0)] == [Wr(q, 0, Half(0), job.Length(q))];
      assert [] + [SendWr(job, r, q, 0)] == [Wr(q, 0, Chunk(r), job.Length(q))];
    }
  }

  /** Is a message of step 0 under way to rank `r`, which has posted its receive? */
  ghost predicate Coming<T>(job: Job<T>, sys: System<T>, q: nat, r: nat)
    requires job.Valid() && job.Reduces(q) && Shape(job, sys) && r < job.n
  {
    var l, k, kl := Left(r, job.n), sys[r], sys[Left(r, job.n)];
    && k.rq == [Wr(q, 0, Half(0), job.Length(q))]
    && kl.sq == [Wr(q, 0, Chunk(l), job.Length(q))] && l < |kl.buf| && |kl.buf[l]| == job.Length(q)
  }

  /** Element `i` is fetched and lands. */
  lemma ElementArrives<T(!new)>(job: Job<T>, sys: System<T>, q: nat, r: nat, i: nat) returns (k: Rank<T>)
    requires job.Valid() && job.Reduces(q) && Reachable(job, sys) && Shape(job, sys) && r < job.n && i < job.Length(q)
    requires Coming(job, sys, q, r)
    ensures k == sys[r].(stage := k.stage, wire := k.wire, landed := sys[r].landed + {i})
    ensures (0, i) in k.stage && forall c | c in sys[r].stage :: c in k.stage
    ensures Reachable(job, sys[r := k]) && Shape(job, sys[r := k]) && Coming(job, sys[r := k], q, r)
  {
    ReachableStep(job, sys, Fetch(r, i));
    var next: System<T> := Step(job, sys, Fetch(r, i));
    ReachableStep(job, next, Land(r, i));
    k := Step(job, next, Land(r, i))[r];
    assert Step(job, next, Land(r, i)) == sys[r := k];
  }

  ghost predicate Stands<T(!new)>(job: Job<T>, sys: System<T>, q: nat, r: nat, k: Rank<T>)
    requires job.Valid() && job.Reduces(q) && r < job.n && |sys| == job.n
  {
    && Reachable(job, sys[r := k]) && Shape(job, sys[r := k]) && Coming(job, sys[r := k], q, r)
    && k == sys[r].(stage := k.stage, wire := k.wire, landed := k.landed)
  }

  predicate Filled<T>(k: Rank<T>, i: nat) {
    forall j | 0 <= j < i :: (0, j) in k.stage && j in k.landed
  }

  lemma OneMoreArrives<T(!new)>(job: Job<T>, sys: System<T>, q: nat, r: nat, k: Rank<T>, i: nat) returns (k': Rank<T>)
    requires job.Valid() && job.Reduces(q) && r < job.n && |sys| == job.n && Stands(job, sys, q, r, k)
    requires i < job.Length(q) && Filled(k, i)
    ensures Stands(job, sys, q, r, k') && Filled(k', i + 1)
  {
    k' := ElementArrives(job, sys[r := k], q, r, i);
    assert sys[r := k][r := k'] == sys[r := k'];
  }

  /** All its elements can. */
  lemma AllArrive<T(!new)>(job: Job<T>, sys: System<T>, q: nat, r: nat) returns (k: Rank<T>)
    requires job.Valid() && job.Reduces(q) && r < job.n && |sys| == job.n && Stands(job, sys, q, r, sys[r])
    ensures Stands(job, sys, q, r, k) && Filled(k, job.Length(q))
  {
    k := sys[r];
    var i := 0;
    while i < job.Length(q)
      invariant i <= job.Length(q) && Stands(job, sys, q, r, k) && Filled(k, i)
    {
      k := OneMoreArrives(job, sys, q, r, k, i);
      i := i + 1;
    }
  }

  lemma DeliveredWhole<T(!new)>(job: Job<T>, at: System<T>, q: nat, r: nat)
    requires job.Valid() && job.Reduces(q) && r < job.n && Reachable(job, at) && Shape(job, at)
    requires Coming(job, at, q, r) && Filled(at[r], job.Length(q))
    ensures var sys' := at[r := Delivered(at[r])][Left(r, job.n) := Consumed(at[Left(r, job.n)])];
            Reachable(job, sys') && Shape(job, sys')
  {
    assert Enabled(job, at, Deliver(r));
    ReachableStep(job, at, Deliver(r));
    assert Step(job, at, Deliver(r)) == at[r := Delivered(at[r])][Left(r, job.n) := Consumed(at[Left(r, job.n)])];
  }

  /** So the message can be delivered as a whole. */
  lemma Arrives<T(!new)>(job: Job<T>, sys: System<T>, q: nat, r: nat) returns (stage: map<(nat, nat), T>)
    requires job.Valid() && job.Reduces(q) && Reachable(job, sys) && Shape(job, sys)
    requires r < job.n && Coming(job, sys, q, r)
    ensures forall j | 0 <= j < job.Length(q) :: (0, j) in stage
    ensures var sys' := sys[r := Delivered(sys[r].(stage := stage))][Left(r, job.n) := Consumed(sys[Left(r, job.n)])];
            Reachable(job, sys') && Shape(job, sys')
  {
    assert sys[r := sys[r]] == sys;
    var k: Rank<T> := AllArrive(job, sys, q, r);
    stage := k.stage;
    var at: System<T> := sys[r := k];
    DeliveredWhole(job, at, q, r);
    assert Delivered(k) == Delivered(sys[r].(stage := stage));
    assert at[r := Delivered(k)] == sys[r := Delivered(k)];
  }

  /** A rank that has exchanged step 0, the completion of its send on its way. */
  ghost function Heard<T>(job: Job<T>, q: nat, r: nat, stage: map<(nat, nat), T>): Rank<T>
    requires job.Valid() && job.Reduces(q) && r < job.n
  {
    Sent(job, q, r, stage).(rq := [], sq := [], received := 1, unacked := 1)
  }

  /** Both ranks have posted the receive and the send of step 0. */
  lemma BothSend<T(!new)>(job: Job<T>, q: nat) returns (s0: map<(nat, nat), T>, s1: map<(nat, nat), T>)
    requires job.Valid() && job.n == 2 && job.Reduces(q)
    ensures Reachable(job, [Sent(job, q, 0, s0), Sent(job, q, 1, s1)])
    ensures Shape(job, [Sent(job, q, 0, s0), Sent(job, q, 1, s1)])
  {
    var sys: System<T> := SomeRunGathers(job, q);
    GatheredIsClean(job, sys, q, 0);
    GatheredIsClean(job, sys, q, 1);
    s0, s1 := sys[0].stage, sys[1].stage;
    EntersAndSends(job, sys, q, 0);
    EntersAndSends(job, sys[0 := Sent(job, q, 0, s0)], q, 1);
    assert sys[0 := Sent(job, q, 0, s0)][1 := Sent(job, q, 1, s1)] == [Sent(job, q, 0, s0), Sent(job, q, 1, s1)];
  }

  /** Both messages of step 0 have arrived. */
  lemma BothHear<T(!new)>(job: Job<T>, q: nat) returns (s0: map<(nat, nat), T>, s1: map<(nat, nat), T>)
    requires job.Valid() && job.n == 2 && job.Reduces(q)
    ensures Reachable(job, [Heard(job, q, 0, s0), Heard(job, q, 1, s1)])
    ensures Shape(job, [Heard(job, q, 0, s0), Heard(job, q, 1, s1)])
    ensures forall j | 0 <= j < job.Length(q) :: (0, j) in s1
  {
    var t0, t1 := BothSend(job, q);
    var k0: Rank<T>, k1: Rank<T> := Sent(job, q, 0, t0), Sent(job, q, 1, t1);
    s1 := Arrives(job, [k0, k1], q, 1);
    var l1: Rank<T>, l0: Rank<T> := Delivered(k1.(stage := s1)), Consumed(k0);
    assert [k0, k1][1 := l1][0 := l0] == [l0, l1];
    s0 := Arrives(job, [l0, l1], q, 0);
    var m0: Rank<T>, m1: Rank<T> := Delivered(l0.(stage := s0)), Consumed(l1);
    assert [l0, l1][0 := m0][1 := m1] == [m0, m1];
    assert m0 == Heard(job, q, 0, s0) && m1 == Heard(job, q, 1, s1);
  }

  lemma SecondActs<T(!new)>(job: Job<T>, k0: Rank<T>, k: Rank<T>)
    requires job.Valid() && job.n == 2 && Reachable(job, [k0, k]) && Shape(job, [k0, k])
    requires Pc(job, k) && CanAct(job, 1, k)
    ensures Reachable(job, [k0, DoAct(job, 1, k)]) && Shape(job, [k0, DoAct(job, 1, k)])
  {
    var at: System<T> := [k0, k];
    assert at[1] == k;
    ReachableStep(job, at, Act(1));
    assert Step(job, at, Act(1)) == [k0, DoAct(job, 1, k)];
  }

  /** The completion of rank 1's send comes in. */
  lemma SecondIsAcked<T(!new)>(job: Job<T>, q: nat, k0: Rank<T>, s1: map<(nat, nat), T>)
    requires job.Valid() && job.n == 2 && job.Reduces(q)
    requires Reachable(job, [k0, Heard(job, q, 1, s1)]) && Shape(job, [k0, Heard(job, q, 1, s1)])
    ensures var k := Acked(Heard(job, q, 1, s1)); Reachable(job, [k0, k]) && Shape(job, [k0, k])
  {
    var at: System<T> := [k0, Heard(job, q, 1, s1)];
    ReachableStep(job, at, Ack(1));
    assert Step(job, at, Ack(1)) == [k0, Acked(Heard(job, q, 1, s1))];
  }

  /** Rank 1 reaps its receive and its send. */
  lemma SecondRankReaps<T(!new)>(job: Job<T>, q: nat, k0: Rank<T>, s1: map<(nat, nat), T>) returns (k: Rank<T>)
    requires job.Valid() && job.n == 2 && job.Reduces(q)
    requires Reachable(job, [k0, Heard(job, q, 1, s1)]) && Shape(job, [k0, Heard(job, q, 1, s1)])
    ensures Reachable(job, [k0, k]) && Shape(job, [k0, k])
    ensures k.call == q && k.step == 0 && k.phase == Sum(0)
    ensures k.stage == s1 && k.sq == [] && k.buf == job.calls[q].input.x[1]
  {
    SecondIsAcked(job, q, k0, s1);
    k := Acked(Heard(job, q, 1, s1));
    SecondActs(job, k0, k);
    k := DoAct(job, 1, k);
    SecondActs(job, k0, k);
    k := DoAct(job, 1, k);
    SecondActs(job, k0, k);
    k := DoAct(job, 1, k);
  }

  /** Rank 1 adds, and posts the send of step 1. */
  lemma SecondRankGoesAhead<T(!new)>(job: Job<T>, q: nat, k0: Rank<T>, s1: map<(nat, nat), T>) returns (k: Rank<T>)
    requires job.Valid() && job.n == 2 && job.Reduces(q) && forall j | 0 <= j < job.Length(q) :: (0, j) in s1
    requires Reachable(job, [k0, Heard(job, q, 1, s1)]) && Shape(job, [k0, Heard(job, q, 1, s1)])
    ensures Reachable(job, [k0, k]) && Shape(job, [k0, k])
    ensures k.sq == [Wr(q, 1, Chunk(0), job.Length(q))] && job.calls[q].input.IsBuffer(k.buf)
  {
    k := SecondRankReaps(job, q, k0, s1);
    for i := 0 to job.Length(q)
      invariant Reachable(job, [k0, k]) && Shape(job, [k0, k])
      invariant k.call == q && k.step == 0 && k.phase == Sum(i) && k.stage == s1 && k.sq == []
      invariant job.calls[q].input.IsBuffer(k.buf)
    {
      assert [k0, k][1] == k;
      SecondActs(job, k0, k);
      k := DoAct(job, 1, k);
    }
    assert [k0, k][1] == k;
    SecondActs(job, k0, k);
    k := DoAct(job, 1, k);
    SecondActs(job, k0, k);
    k := DoAct(job, 1, k);
    assert [] + [SendWr(job, 1, q, 1)] == [Wr(q, 1, Chunk(0), job.Length(q))];
  }

  /** Rank 0 has posted the receive of step 1 and waits for the completion of the send of
      step 0; both name chunk 0. */
  ghost function Waiting<T>(job: Job<T>, q: nat, stage: map<(nat, nat), T>): Rank<T>
    requires job.Valid() && job.Reduces(q)
  {
    Heard(job, q, 0, stage).(phase := PollSend, received := 0, rq := [Wr(q, 1, Chunk(0), job.Length(q))])
  }

  lemma FirstRankWaits<T(!new)>(job: Job<T>, q: nat, s0: map<(nat, nat), T>, k1: Rank<T>)
    requires job.Valid() && job.n == 2 && job.Reduces(q)
    requires Reachable(job, [Heard(job, q, 0, s0), k1]) && Shape(job, [Heard(job, q, 0, s0), k1])
    ensures Reachable(job, [Waiting(job, q, s0), k1]) && Shape(job, [Waiting(job, q, s0), k1])
  {
    var at: System<T> := [Heard(job, q, 0, s0), k1];
    ReachableStep(job, at, Act(0));
    at := Step(job, at, Act(0));
    assert at == [Heard(job, q, 0, s0).(phase := Rearm, received := 0), k1];
    ReachableStep(job, at, Act(0));
    assert [] + [RecvWr(job, 0, q, 1)] == [Wr(q, 1, Chunk(0), job.Length(q))];
    assert Step(job, at, Act(0)) == [Waiting(job, q, s0), k1];
  }

  /** Rank 0's chunk 0 is about to be written while its send of chunk 0 is unreaped, in a
      run of any two-rank program with an all-reduce whose messages are not inline. */
  lemma WrittenBeforeReaped<T(!new)>(job: Job<T>, inline: nat, q: nat) returns (sys: System<T>)
    requires job.Valid() && job.n == 2 && job.Reduces(q) && !Inlined(job, q, inline)
    ensures Reachable(job, sys) && Shape(job, sys) && !LeavesUnreapedAlone(job, inline, sys)
  {
    var s0, s1 := BothHear(job, q);
    var k1 := SecondRankGoesAhead(job, q, Heard(job, q, 0, s0), s1);
    FirstRankWaits(job, q, s0, k1);
    var at: System<T> := [Waiting(job, q, s0), k1];
    ReachableStep(job, at, Fetch(0, 0));
    sys := Step(job, at, Fetch(0, 0));
    var e := Land(0, 0);
    assert Enabled(job, sys, e) && SendChunk(0, 2, 0) == 0;
    assert Writes(job, sys, e, e.r, SendChunk(e.r, job.n, sys[e.r].step), 0);
  }

  /** Of each program: its runs leave unreaped sends alone exactly when there are more than
      two ranks or the messages of every all-reduce are posted inline. */
  lemma ReuseRule<T(!new)>(job: Job<T>, inline: nat)
    requires job.Valid()
    ensures (forall sys: System<T> | Reachable(job, sys) && Shape(job, sys) ::
               LeavesUnreapedAlone(job, inline, sys)) <==>
            job.n > 2 || forall q | 0 <= q < |job.calls| && job.Reduces(q) :: Inlined(job, q, inline)
  {
    if job.n > 2 {
      forall sys: System<T> | Reachable(job, sys) && Shape(job, sys)
        ensures LeavesUnreapedAlone(job, inline, sys)
      {
        MoreThanTwoRanks(job, inline, sys);
      }
    } else if q :| 0 <= q < |job.calls| && job.Reduces(q) && !Inlined(job, q, inline) {
      var sys := WrittenBeforeReaped(job, inline, q);
    }
  }
}
