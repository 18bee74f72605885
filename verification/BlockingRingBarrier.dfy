/**
 What a barrier on sockets tells about the right neighbour: nothing, as soon as a socket
 can hold its byte and there are more than two ranks.
 */
module BlockingRingBarrier {
  import opened RingIndex
  import opened RingSpec
  import opened RingMeeting
  import opened RingProgram
  import opened BlockingRing
  import opened BlockingRingProof
  import opened BlockingRingTheorems
  import opened BlockingRingProgress

  // ----- Runs

  lemma {:induction false} RunExtends<T>(job: Job<T>, capacity: nat, start: System<T>, run: seq<Event>,
                                         sys: System<T>, e: Event)
    requires job.Valid() && Reaches(job, capacity, start, run, sys) && Shape(job, sys)
    requires Enabled(job, capacity, sys, e) && Shape(job, Step(job, capacity, sys, e))
    ensures Reaches(job, capacity, start, run + [e], Step(job, capacity, sys, e))
    decreases |run|
  {
    if run == [] {
      assert (run + [e])[1..] == [];
    } else {
      RunExtends(job, capacity, Step(job, capacity, start, run[0]), run[1..], sys, e);
      assert (run + [e])[1..] == run[1..] + [e];
    }
  }

  lemma ReachableStep<T(!new)>(job: Job<T>, capacity: nat, sys: System<T>, e: Event)
    requires job.Valid() && Reachable(job, capacity, sys) && Shape(job, sys) && Enabled(job, capacity, sys, e)
    ensures Reachable(job, capacity, Step(job, capacity, sys, e)) && Shape(job, Step(job, capacity, sys, e))
  {
    ReachableInv(job, capacity, sys);
    StepKeepsInv(job, capacity, sys, e);
    var start, run :| Start(job, start) && Reaches(job, capacity, start, run, sys);
    RunExtends(job, capacity, start, run, sys, e);
  }

  // ----- A meeting point

  lemma ActKeepsBefore<T>(job: Job<T>, r: nat, k: Rank<T>, q: nat)
    requires job.Valid() && r < job.n && Pc(job, r, k) && CanAct(job, r, k) && k.call < q
    ensures Pc(job, r, DoAct(job, r, k)) && NotYet(PlaceOf(job, DoAct(job, r, k)), q)
  {
    ActKeepsStreams(job, r, k);
  }

  lemma GatheringStep<T(!new)>(job: Job<T>, capacity: nat, sys: System<T>, q: nat) returns (e: Event)
    requires job.Valid() && Reachable(job, capacity, sys) && Shape(job, sys) && q < |job.calls|
    requires NotPast(Places(job, sys), q) && !GatheredAt(Places(job, sys), q)
    ensures Enabled(job, capacity, sys, e) && Shape(job, Step(job, capacity, sys, e))
    ensures NotPast(Places(job, Step(job, capacity, sys, e)), q)
  {
    e := NoDeadlock(job, capacity, sys);
    if e.Act? {
      var p := Places(job, sys);
      assert forall x | 0 <= x < job.n :: p[x].position == Position(job, sys[x]);
      HindmostIsBefore(job, p, q, e.r);
      GatheringAct(job, sys, q, e.r);
    } else {
      SocketsKeepPlaces(job, capacity, sys, e);
    }
  }

  lemma GatheringAct<T>(job: Job<T>, sys: System<T>, q: nat, r: nat)
    requires job.Valid() && Shape(job, sys) && r < job.n && CanAct(job, r, sys[r]) && sys[r].call < q
    requires NotPast(Places(job, sys), q)
    ensures Shape(job, sys[r := DoAct(job, r, sys[r])]) && NotPast(Places(job, sys[r := DoAct(job, r, sys[r])]), q)
  {
    ActKeepsBefore(job, r, sys[r], q);
    OneMoves(Places(job, sys), Places(job, sys[r := DoAct(job, r, sys[r])]), q, r);
  }

  lemma SocketsKeepPlaces<T>(job: Job<T>, capacity: nat, sys: System<T>, e: Event)
    requires job.Valid() && Shape(job, sys) && Enabled(job, capacity, sys, e) && !e.Act?
    ensures Shape(job, Step(job, capacity, sys, e)) && Places(job, Step(job, capacity, sys, e)) == Places(job, sys)
  {
    var sys' := Step(job, capacity, sys, e);
    if e.Pull? {
      PullKeepsPlace(job, e.r, sys[e.r]);
    } else {
      PushKeepsPlaces(job, sys, e.r, Outgoing(job, e.r, sys[e.r]));
    }
    assert forall x | 0 <= x < job.n :: PlaceOf(job, sys'[x]) == PlaceOf(job, sys[x]);
  }

  lemma PullKeepsPlace<T>(job: Job<T>, r: nat, k: Rank<T>)
    requires job.Valid() && r < job.n && Pc(job, r, k) && CanPull(job, r, k)
    ensures Pc(job, r, DoPull(job, r, k)) && PlaceOf(job, DoPull(job, r, k)) == PlaceOf(job, k)
  {
  }

  lemma PushKeepsPlaces<T>(job: Job<T>, sys: System<T>, r: nat, v: Item<T>)
    requires job.Valid() && Shape(job, sys) && r < job.n && sys[r].mode.Send? && sys[r].sent < job.Length(sys[r].call)
    ensures var sys' := sys[Right(r, job.n) := Pushed(sys[Right(r, job.n)], v)][r := OneMore(sys[r])];
            Shape(job, sys') && forall x | 0 <= x < job.n :: PlaceOf(job, sys'[x]) == PlaceOf(job, sys[x])
  {
  }

  lemma {:induction false} CanGather<T(!new)>(job: Job<T>, capacity: nat, sys: System<T>, q: nat, left: nat)
      returns (end: System<T>)
    requires job.Valid() && Reachable(job, capacity, sys) && Shape(job, sys)
    requires q < |job.calls| && NotPast(Places(job, sys), q)
    requires Remaining(job, sys) <= left
    ensures Reachable(job, capacity, end) && Shape(job, end) && GatheredAt(Places(job, end), q)
    decreases left
  {
    if GatheredAt(Places(job, sys), q) {
      return sys;
    }
    var e := GatheringStep(job, capacity, sys, q);
    ReachableInv(job, capacity, sys);
    EventCountsDown(job, capacity, sys, e);
    ReachableStep(job, capacity, sys, e);
    ReachableInv(job, capacity, Step(job, capacity, sys, e));
    RemainingIsNatural(job, Step(job, capacity, sys, e));
    end := CanGather(job, capacity, Step(job, capacity, sys, e), q, left - 1);
  }

  /** Every program has a run in which all ranks meet at the beginning of call `q`. */
  lemma SomeRunGathers<T(!new)>(job: Job<T>, capacity: nat, q: nat) returns (end: System<T>)
    requires job.Valid() && q < |job.calls|
    ensures Reachable(job, capacity, end) && Shape(job, end) && GatheredAt(Places(job, end), q)
  {
    var start: System<T> := seq(job.n, r => Rank(0, 0, Idle, 0, 0, [], map[], []));
    assert Start(job, start) && Reaches(job, capacity, start, [], start);
    ReachableInv(job, capacity, start);
    RemainingIsNatural(job, start);
    end := CanGather(job, capacity, start, q, Remaining(job, start));
  }

  /** All sockets are empty there. */
  lemma GatheredIsClean<T(!new)>(job: Job<T>, capacity: nat, sys: System<T>, q: nat, r: nat)
    requires job.Valid() && Reachable(job, capacity, sys) && Shape(job, sys)
    requires GatheredAt(Places(job, sys), q) && r < job.n
    ensures sys[r] == Rank(q, 0, Idle, 0, 0, sys[r].buf, sys[r].stage, [])
  {
    ReachableInv(job, capacity, sys);
    assert Pair(job, sys, r);
    IdleLink(job, Left(r, job.n), sys[Left(r, job.n)], r, sys[r]);
  }

  lemma IdleLink<T>(job: Job<T>, l: nat, kl: Rank<T>, r: nat, kr: Rank<T>)
    requires job.Valid() && l < job.n && r < job.n && Pc(job, l, kl) && Pc(job, r, kr) && Link(job, l, kl, r, kr)
    requires kl.mode.Idle? && kr.mode.Idle? && kl.call == kr.call
    ensures kr.pipe == []
  {
    LinkCounts(job, l, kl, r, kr);
  }

  // ----- With a socket that holds a byte and more than two ranks

  function At<T>(q: nat, mode: Mode, sent: nat, recved: nat, k: Rank<T>, pipe: seq<Item<T>>): Rank<T> {
    k.(call := q, step := 0, mode := mode, sent := sent, recved := recved, pipe := pipe)
  }

  lemma Acts<T(!new)>(job: Job<T>, capacity: nat, sys: System<T>, r: nat, k': Rank<T>)
    requires job.Valid() && Reachable(job, capacity, sys) && Shape(job, sys) && r < job.n
    requires CanAct(job, r, sys[r]) && k' == DoAct(job, r, sys[r])
    ensures Reachable(job, capacity, sys[r := k']) && Shape(job, sys[r := k'])
  {
    ReachableStep(job, capacity, sys, Act(r));
  }

  /** Rank 0 enters the barrier and puts its byte into rank 1's socket. */
  lemma FirstRankSends<T(!new)>(job: Job<T>, capacity: nat, q: nat) returns (sys: System<T>)
    requires job.Valid() && job.n > 2 && capacity > 0 && q < |job.calls| && job.calls[q].Barrier?
    ensures Reachable(job, capacity, sys) && Shape(job, sys)
    ensures sys[1] == At(q, Idle, 0, 0, sys[1], [Byte]) && sys[2] == At(q, Idle, 0, 0, sys[2], [])
  {
    sys := SomeRunGathers(job, capacity, q);
    GatheredIsClean(job, capacity, sys, q, 0);
    GatheredIsClean(job, capacity, sys, q, 1);
    GatheredIsClean(job, capacity, sys, q, 2);
    ReachableStep(job, capacity, sys, Act(0));
    sys := Step(job, capacity, sys, Act(0));
    ReachableStep(job, capacity, sys, Push(0));
    sys := Step(job, capacity, sys, Push(0));
  }

  /** Rank 1 enters and takes it. */
  lemma SecondRankTakes<T(!new)>(job: Job<T>, capacity: nat, q: nat, sys: System<T>) returns (end: System<T>)
    requires job.Valid() && job.n > 2 && q < |job.calls| && job.calls[q].Barrier?
    requires Reachable(job, capacity, sys) && Shape(job, sys)
    requires sys[1] == At(q, Idle, 0, 0, sys[1], [Byte]) && sys[2] == At(q, Idle, 0, 0, sys[2], [])
    ensures Reachable(job, capacity, end) && Shape(job, end)
    ensures end[1] == At(q, Recv, 0, 1, end[1], []) && end[2] == sys[2]
  {
    var k: Rank<T> := At(q, Recv, 0, 0, sys[1], [Byte]);
    Acts(job, capacity, sys, 1, k);
    var at: System<T> := sys[1 := k];
    ReachableStep(job, capacity, at, Pull(1));
    end := Step(job, capacity, at, Pull(1));
  }

  /** It turns to sending and puts its own byte into rank 2's socket. */
  lemma SecondRankSends<T(!new)>(job: Job<T>, capacity: nat, q: nat, sys: System<T>) returns (end: System<T>)
    requires job.Valid() && job.n > 2 && capacity > 0 && q < |job.calls| && job.calls[q].Barrier?
    requires Reachable(job, capacity, sys) && Shape(job, sys)
    requires sys[1] == At(q, Recv, 0, 1, sys[1], []) && sys[2] == At(q, Idle, 0, 0, sys[2], [])
    ensures Reachable(job, capacity, end) && Shape(job, end)
    ensures end[1] == At(q, Send, 1, 1, end[1], []) && end[2].call == q && end[2].mode.Idle?
  {
    var k: Rank<T> := At(q, Send, 0, 1, sys[1], []);
    Acts(job, capacity, sys, 1, k);
    end := SecondRankPushes(job, capacity, q, sys[1 := k]);
  }

  lemma SecondRankPushes<T(!new)>(job: Job<T>, capacity: nat, q: nat, sys: System<T>) returns (end: System<T>)
    requires job.Valid() && job.n > 2 && capacity > 0 && q < |job.calls| && job.calls[q].Barrier?
    requires Reachable(job, capacity, sys) && Shape(job, sys)
    requires sys[1] == At(q, Send, 0, 1, sys[1], []) && sys[2] == At(q, Idle, 0, 0, sys[2], [])
    ensures Reachable(job, capacity, end) && Shape(job, end)
    ensures end[1] == At(q, Send, 1, 1, end[1], []) && end[2].call == q && end[2].mode.Idle?
  {
    assert Right(1, job.n) == 2 && CanPush(job, capacity, 1, sys[1], sys[2]);
    ReachableStep(job, capacity, sys, Push(1));
    end := Step(job, capacity, sys, Push(1));
  }

  /** And it returns. */
  lemma SecondRankReturns<T(!new)>(job: Job<T>, capacity: nat, q: nat, sys: System<T>) returns (end: System<T>)
    requires job.Valid() && job.n > 2 && capacity > 0 && q < |job.calls| && job.calls[q].Barrier?
    requires Reachable(job, capacity, sys) && Shape(job, sys)
    requires sys[1] == At(q, Idle, 0, 0, sys[1], [Byte]) && sys[2] == At(q, Idle, 0, 0, sys[2], [])
    ensures Reachable(job, capacity, end) && Shape(job, end)
    ensures end[1].call == q + 1 && !Entered(end[2], q)
  {
    var taken: System<T> := SecondRankTakes(job, capacity, q, sys);
    var at: System<T> := SecondRankSends(job, capacity, q, taken);
    end := at[1 := DoAct(job, 1, at[1])];
    Acts(job, capacity, at, 1, DoAct(job, 1, at[1]));
  }

  // ----- With rendezvous

  /** With capacity 0 an element is in a socket only while its receiver waits for it. */
  predicate OnlyWhileWaiting<T>(job: Job<T>, k: Rank<T>) {
    |k.pipe| <= 1 && (k.pipe != [] ==> k.mode.Recv? && k.call < |job.calls| && k.recved < job.Length(k.call))
  }

  ghost predicate AllWaiting<T>(job: Job<T>, sys: System<T>) {
    forall r | 0 <= r < |sys| :: OnlyWhileWaiting(job, sys[r])
  }

  lemma StepKeepsWaiting<T>(job: Job<T>, sys: System<T>, e: Event)
    requires job.Valid() && Shape(job, sys) && Enabled(job, 0, sys, e) && AllWaiting(job, sys)
    ensures AllWaiting(job, Step(job, 0, sys, e))
  {
  }

  lemma {:induction false} RunKeepsWaiting<T>(job: Job<T>, sys: System<T>, run: seq<Event>, end: System<T>)
    requires job.Valid() && Reaches(job, 0, sys, run, end) && AllWaiting(job, sys)
    ensures AllWaiting(job, end)
    decreases |run|
  {
    if run != [] {
      StepKeepsWaiting(job, sys, run[0]);
      RunKeepsWaiting(job, Step(job, 0, sys, run[0]), run[1..], end);
    }
  }

  /** The element a rank waits for while it is in a socket is still one of the step the
      rank is in. */
  lemma WaitingIsInside<T>(job: Job<T>, r: nat, k: Rank<T>, p: nat)
    requires job.Valid() && r < job.n && Pc(job, r, k) && p < job.Total() && OnlyWhileWaiting(job, k)
    requires job.ElementsBefore(p) < ElementsAt(job, r, k, k.recved) + |k.pipe|
    ensures Position(job, k) > p || (Position(job, k) == p && !k.mode.Idle?)
  {
    PositionInside(job, r, k);
    LengthHere(job, r, k);
    if Position(job, k) < p {
      job.ElementsMonotone(Position(job, k), p);
    }
  }

  lemma SentIsMore<T>(job: Job<T>, l: nat, k: Rank<T>, q: nat)
    requires job.Valid() && l < job.n && Pc(job, l, k) && q < |job.calls| && k.call > q
    ensures job.Base(q) < job.Total() && ElementsAt(job, l, k, k.sent) > job.ElementsBefore(job.Base(q))
  {
    PositionInside(job, l, k);
    job.BaseMonotone(q, k.call);
    job.CallAtPosition(q, 0);
    job.ElementsMonotone(job.Base(q), Position(job, k));
  }

  lemma ReceiverHasEntered<T>(job: Job<T>, l: nat, kl: Rank<T>, r: nat, kr: Rank<T>, q: nat)
    requires job.Valid() && l < job.n && r < job.n && Pc(job, l, kl) && Pc(job, r, kr) && Link(job, l, kl, r, kr)
    requires q < |job.calls| && kl.call > q && OnlyWhileWaiting(job, kr)
    ensures Entered(kr, q)
  {
    LinkCounts(job, l, kl, r, kr);
    SentIsMore(job, l, kl, q);
    WaitingIsInside(job, r, kr, job.Base(q));
    if kr.call < q {
      job.BaseMonotone(kr.call, q);
    }
  }

  /** With rendezvous, a rank that has returned from a call knows that its right neighbour
      has entered it. */
  lemma RightHasEntered<T(!new)>(job: Job<T>, sys: System<T>, r: nat, q: nat)
    requires job.Valid() && Reachable(job, 0, sys) && r < job.n && Shape(job, sys)
    requires q < |job.calls| && sys[r].call > q
    ensures Entered(sys[Right(r, job.n)], q)
  {
    ReachableInv(job, 0, sys);
    var start, run :| Start(job, start) && Reaches(job, 0, start, run, sys);
    RunKeepsWaiting(job, start, run, sys);
    var x := Right(r, job.n);
    assert Pair(job, sys, x);
    ReceiverHasEntered(job, r, sys[r], x, sys[x], q);
  }

  // ----- The rule

  /** In every run, who has returned from call `q` knows that the right neighbour has
      entered it. */
  ghost predicate TellsAboutRight<T(!new)>(job: Job<T>, capacity: nat, q: nat)
    requires job.Valid()
  {
    forall sys: System<T>, r | Reachable(job, capacity, sys) && Shape(job, sys) && 0 <= r < job.n && sys[r].call > q ::
      Entered(sys[Right(r, job.n)], q)
  }

  /** A barrier establishes that both neighbours have arrived exactly when there are two
      ranks or the sockets hold nothing. */
  lemma BarrierRule<T(!new)>(job: Job<T>, capacity: nat, q: nat)
    requires job.Valid() && q < |job.calls| && job.calls[q].Barrier?
    ensures TellsAboutRight(job, capacity, q) <==> job.n == 2 || capacity == 0
  {
    if job.n == 2 || capacity == 0 {
      forall sys: System<T>, r | Reachable(job, capacity, sys) && Shape(job, sys) && 0 <= r < job.n && sys[r].call > q
        ensures Entered(sys[Right(r, job.n)], q)
      {
        if capacity == 0 {
          RightHasEntered(job, sys, r, q);
        } else {
          LeftHasEntered(job, capacity, sys, r, q);
        }
      }
    } else {
      var sys: System<T> := FirstRankSends(job, capacity, q);
      var end: System<T> := SecondRankReturns(job, capacity, q, sys);
      assert Right(1, job.n) == 2 && !Entered(end[Right(1, job.n)], q);
    }
  }
}
