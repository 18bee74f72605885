/**
 Every event of the blocking path brings one global count down by one, so all complete
 runs have the same length and none goes on for ever.
 */
module BlockingRingProgress {
  import opened Counting
  import opened RingIndex
  import opened RingSpec
  import opened RingProgram
  import opened BlockingRing
  import opened BlockingRingProof
  import opened BlockingRingTheorems

  /** Own actions of an exchange, and of entering a call. */
  const EXCHANGE: nat := 2
  const ENTER: nat := 1

  /** Own actions a rank still has before it. */
  ghost function Work<T>(job: Job<T>, r: nat, k: Rank<T>): nat
    requires job.n >= 2 && Pc(job, r, k)
  {
    if k.mode.Idle? then job.CallsWork(k.call, EXCHANGE, ENTER)
    else
      job.CallsWork(k.call + 1, EXCHANGE, ENTER) +
      match k.mode
      case Send => job.CallWork(k.call, k.step, EXCHANGE) - (if SendsFirst(r) then 0 else 1)
      case Recv => job.CallWork(k.call, k.step, EXCHANGE) - (if SendsFirst(r) then 1 else 0)
      case Sum(i) => job.CallWork(k.call, k.step + 1, EXCHANGE) + 1 + job.Length(k.call) - i
  }

  /** Elements a rank still has to send and to receive. */
  ghost function Traffic<T>(job: Job<T>, r: nat, k: Rank<T>): int
    requires job.Valid() && Pc(job, r, k)
  {
    2 * job.ElementsBefore(job.Total()) - ElementsAt(job, r, k, k.sent) - ElementsAt(job, r, k, k.recved)
  }

  /** What every rank still has to do and to move. */
  ghost function Shares<T>(job: Job<T>, sys: System<T>): (w: seq<int>)
    requires job.Valid() && Shape(job, sys)
    ensures |w| == job.n && forall x | 0 <= x < job.n :: w[x] == Work(job, x, sys[x]) + Traffic(job, x, sys[x])
  {
    seq(job.n, x requires 0 <= x < job.n && Shape(job, sys) => Work(job, x, sys[x]) + Traffic(job, x, sys[x]))
  }

  ghost function Remaining<T>(job: Job<T>, sys: System<T>): int
    requires job.Valid() && Shape(job, sys)
  {
    Total(Shares(job, sys))
  }

  lemma TrafficIsNatural<T>(job: Job<T>, r: nat, k: Rank<T>)
    requires job.Valid() && r < job.n && Pc(job, r, k)
    ensures Traffic(job, r, k) >= 0
    ensures k.call == |job.calls| ==> Traffic(job, r, k) == 0 && Work(job, r, k) == 0
  {
    PositionInside(job, r, k);
    LengthHere(job, r, k);
    if Position(job, k) < job.Total() {
      job.ElementsMonotone(Position(job, k), job.Total());
    }
  }

  lemma RemainingIsNatural<T>(job: Job<T>, sys: System<T>)
    requires job.Valid() && Shape(job, sys)
    ensures Remaining(job, sys) >= 0
    ensures Finished(job, sys) ==> Remaining(job, sys) == 0
  {
    var w := Shares(job, sys);
    forall x | 0 <= x < job.n
      ensures w[x] >= 0 && (sys[x].call == |job.calls| ==> w[x] == 0)
    {
      TrafficIsNatural(job, x, sys[x]);
    }
    TotalIsNatural(w);
  }

  /** A step that counts rank `r` down by one and leaves the others as they are. */
  lemma ShareFalls<T>(job: Job<T>, sys: System<T>, sys': System<T>, r: nat)
    requires job.Valid() && Shape(job, sys) && Shape(job, sys') && r < job.n
    requires forall x | 0 <= x < job.n ::
               Work(job, x, sys'[x]) + Traffic(job, x, sys'[x]) ==
               Work(job, x, sys[x]) + Traffic(job, x, sys[x]) - (if x == r then 1 else 0)
    ensures Remaining(job, sys') == Remaining(job, sys) - 1
  {
    TotalShare(Shares(job, sys), Shares(job, sys'), r);
  }

  lemma ActKeepsTraffic<T>(job: Job<T>, r: nat, k: Rank<T>)
    requires job.Valid() && r < job.n && Pc(job, r, k) && CanAct(job, r, k)
    ensures Pc(job, r, DoAct(job, r, k)) && Traffic(job, r, DoAct(job, r, k)) == Traffic(job, r, k)
  {
    ActKeepsStreams(job, r, k);
    StreamsKeepTraffic(job, r, k, DoAct(job, r, k));
  }

  lemma StreamsKeepTraffic<T>(job: Job<T>, r: nat, k: Rank<T>, k': Rank<T>)
    requires job.Valid() && r < job.n && Pc(job, r, k) && SameStreams(job, r, k, k')
    ensures Traffic(job, r, k') == Traffic(job, r, k)
  {
    PrefixLength(job, r, r, k, k.sent);
    PrefixLength(job, r, r, k', k'.sent);
    PrefixLength(job, Left(r, job.n), r, k, k.recved);
    PrefixLength(job, Left(r, job.n), r, k', k'.recved);
  }

  lemma AdvanceDoesWork<T>(job: Job<T>, r: nat, k: Rank<T>)
    requires job.Valid() && r < job.n && Pc(job, r, k) && !k.mode.Idle?
    ensures Pc(job, r, Advance(job, r, k))
    ensures Work(job, r, Advance(job, r, k)) ==
            job.CallWork(k.call, k.step + 1, EXCHANGE) + job.CallsWork(k.call + 1, EXCHANGE, ENTER)
  {
    if k.step + 1 == job.Steps(k.call) {
      assert job.CallWork(k.call, k.step + 1, EXCHANGE) == 0;
    }
  }

  lemma ActDoesWork<T>(job: Job<T>, r: nat, k: Rank<T>)
    requires job.Valid() && r < job.n && Pc(job, r, k) && CanAct(job, r, k)
    ensures Pc(job, r, DoAct(job, r, k)) && Work(job, r, DoAct(job, r, k)) == Work(job, r, k) - 1
  {
    if Ends(job, r, k) {
      AdvanceDoesWork(job, r, k);
    }
  }

  lemma PullsTraffic<T>(job: Job<T>, r: nat, k: Rank<T>)
    requires job.Valid() && r < job.n && Pc(job, r, k) && CanPull(job, r, k)
    ensures var k' := DoPull(job, r, k);
            Pc(job, r, k') && Work(job, r, k') == Work(job, r, k) && Traffic(job, r, k') == Traffic(job, r, k) - 1
  {
  }

  lemma SendsTraffic<T>(job: Job<T>, r: nat, k: Rank<T>)
    requires job.Valid() && r < job.n && Pc(job, r, k) && k.mode.Send? && k.sent < job.Length(k.call)
    ensures Pc(job, r, OneMore(k)) && Work(job, r, OneMore(k)) == Work(job, r, k)
    ensures Traffic(job, r, OneMore(k)) == Traffic(job, r, k) - 1
  {
  }

  lemma PipeIsNoTraffic<T>(job: Job<T>, x: nat, k: Rank<T>, v: Item<T>)
    requires job.Valid() && x < job.n && Pc(job, x, k)
    ensures Pc(job, x, Pushed(k, v)) && Work(job, x, Pushed(k, v)) == Work(job, x, k)
    ensures Traffic(job, x, Pushed(k, v)) == Traffic(job, x, k)
  {
  }

  lemma ActCountsDown<T>(job: Job<T>, sys: System<T>, r: nat)
    requires job.Valid() && Shape(job, sys) && r < job.n && CanAct(job, r, sys[r])
    ensures var sys' := sys[r := DoAct(job, r, sys[r])];
            Shape(job, sys') && Remaining(job, sys') == Remaining(job, sys) - 1
  {
    ActDoesWork(job, r, sys[r]);
    ActKeepsTraffic(job, r, sys[r]);
    ShareFalls(job, sys, sys[r := DoAct(job, r, sys[r])], r);
  }

  lemma PullCountsDown<T>(job: Job<T>, sys: System<T>, r: nat)
    requires job.Valid() && Shape(job, sys) && r < job.n && CanPull(job, r, sys[r])
    ensures var sys' := sys[r := DoPull(job, r, sys[r])];
            Shape(job, sys') && Remaining(job, sys') == Remaining(job, sys) - 1
  {
    PullsTraffic(job, r, sys[r]);
    ShareFalls(job, sys, sys[r := DoPull(job, r, sys[r])], r);
  }

  lemma PushCountsDown<T>(job: Job<T>, sys: System<T>, r: nat, v: Item<T>)
    requires job.Valid() && Shape(job, sys) && r < job.n
    requires sys[r].mode.Send? && sys[r].sent < job.Length(sys[r].call)
    ensures var x := Right(r, job.n); var sys' := sys[x := Pushed(sys[x], v)][r := OneMore(sys[r])];
            Shape(job, sys') && Remaining(job, sys') == Remaining(job, sys) - 1
  {
    var x := Right(r, job.n);
    SendsTraffic(job, r, sys[r]);
    PipeIsNoTraffic(job, x, sys[x], v);
    ShareFalls(job, sys, sys[x := Pushed(sys[x], v)][r := OneMore(sys[r])], r);
  }

  lemma EventCountsDown<T>(job: Job<T>, capacity: nat, sys: System<T>, e: Event)
    requires job.Valid() && Shape(job, sys) && Enabled(job, capacity, sys, e)
    ensures var sys' := Step(job, capacity, sys, e);
            Shape(job, sys') && Remaining(job, sys') == Remaining(job, sys) - 1
  {
    match e
    case Act(r) => ActCountsDown(job, sys, r);
    case Pull(r) => PullCountsDown(job, sys, r);
    case Push(r) => PushCountsDown(job, sys, r, Outgoing(job, r, sys[r]));
  }

  /** The length of a run is what it has brought the count down by. */
  lemma {:induction false} RunCountsDown<T>(job: Job<T>, capacity: nat, sys: System<T>, run: seq<Event>, end: System<T>)
    requires job.Valid() && Inv(job, sys) && Reaches(job, capacity, sys, run, end)
    ensures Shape(job, end) && |run| == Remaining(job, sys) - Remaining(job, end)
    decreases |run|
  {
    if run != [] {
      EventCountsDown(job, capacity, sys, run[0]);
      StepKeepsInv(job, capacity, sys, run[0]);
      RunCountsDown(job, capacity, Step(job, capacity, sys, run[0]), run[1..], end);
    }
  }

  /** From any start, no run is longer than a fixed bound, and it has finished every call
      on every rank if and only if it has reached that length. */
  lemma RunsFinish<T(!new)>(job: Job<T>, capacity: nat, start: System<T>, run: seq<Event>, end: System<T>)
    requires job.Valid() && Start(job, start) && Reaches(job, capacity, start, run, end)
    ensures Shape(job, start) && |run| <= Remaining(job, start)
    ensures Finished(job, end) <==> |run| == Remaining(job, start)
  {
    StartHasInv(job, start);
    RunCountsDown(job, capacity, start, run, end);
    RemainingIsNatural(job, end);
    if !Finished(job, end) {
      var e := NoDeadlock(job, capacity, end);
      RunKeepsInv(job, capacity, start, run, end);
      EventCountsDown(job, capacity, end, e);
      RemainingIsNatural(job, Step(job, capacity, end, e));
    }
  }
}
