/**
 The posted-receive path always finishes: an unfinished state has a fresh event, and
 every fresh event brings a global measure down.
 */
module PostedRingProgress {
  import opened Counting
  import opened RingIndex
  import opened RingMeeting
  import opened RingSpec
  import opened RingProgram
  import opened PostedRing
  import opened PostedRingProof
  import opened PostedRingTheorems

  predicate Finished<T>(job: Job<T>, sys: System<T>) {
    |sys| == job.n && forall r | 0 <= r < job.n :: sys[r].call == |job.calls|
  }

  /** Not a retransmission: the element had not been fetched, or had not landed, yet. */
  ghost predicate Fresh<T>(job: Job<T>, sys: System<T>, e: Event)
    requires job.Valid() && Shape(job, sys) && Enabled(job, sys, e)
  {
    match e
    case Fetch(r, j) => j !in sys[r].wire
    case Land(r, j) => j !in sys[r].landed
    case _ => true
  }

  // ----- No deadlock

  function PlaceOf<T>(job: Job<T>, k: Rank<T>): Place
    requires job.n >= 2 && k.call <= |job.calls|
  {
    Place(k.call, k.phase.Idle?, Position(job, k))
  }

  ghost function Places<T>(job: Job<T>, sys: System<T>): (p: seq<Place>)
    requires job.n >= 2 && Shape(job, sys)
    ensures |p| == job.n && forall x | 0 <= x < job.n :: p[x] == PlaceOf(job, sys[x]) && Fits(job, p[x])
  {
    seq(job.n, x requires 0 <= x < job.n && Shape(job, sys) => PlaceOf(job, sys[x]))
  }

  /** A posted message and the receive posted for it: some element, or the whole, can
      move on. */
  lemma MessageMoves<T>(job: Job<T>, sys: System<T>, r: nat) returns (e: Event)
    requires job.Valid() && Inv(job, sys) && r < job.n
    requires sys[Left(r, job.n)].sq != [] && sys[r].rq != []
    ensures Enabled(job, sys, e) && Fresh(job, sys, e) && !e.Act?
  {
    var l, k := Left(r, job.n), sys[r];
    var kl := sys[l];
    assert Pair(job, sys, r);
    HeadsMatch(job, l, kl, r, k);
    if j :| 0 <= j < kl.sq[0].len && j !in k.landed {
      if j in k.wire {
        e := Land(r, j);
        assert Writable(k, k.rq[0].loc, j, k.wire[j]) by {
          if job.Reduces(k.call) {
            EndsAgree(r, job.n, kl.step);
          }
        }
      } else {
        e := Fetch(r, j);
        if job.Reduces(kl.call) {
          SourceIntact(job, sys, l, j);
        }
      }
    } else {
      e := Deliver(r);
    }
  }

  /** A rank that is about to reap a receive: the message is on its way, or the left
      neighbour can act. */
  lemma ReceiverMoves<T>(job: Job<T>, sys: System<T>, r: nat) returns (e: Event)
    requires job.Valid() && Inv(job, sys) && r < job.n && sys[r].phase.PollRecv?
    requires Position(job, sys[r]) <= Position(job, sys[Left(r, job.n)])
    ensures Enabled(job, sys, e) && Fresh(job, sys, e)
    ensures e.Act? ==> Position(job, sys[e.r]) <= Position(job, sys[r])
  {
    var l, k := Left(r, job.n), sys[r];
    assert Pair(job, sys, r);
    if k.received > 0 {
      e := Act(r);
    } else if sys[l].sq != [] {
      e := MessageMoves(job, sys, r);
    } else {
      e := Act(l);
      BehindIsUnfinished(job, PlaceOf(job, sys[l]), PlaceOf(job, k));
    }
  }

  /** A rank that is about to reap a send: the acknowledgement or the message is on its
      way, or the right neighbour can act. */
  lemma SenderMoves<T>(job: Job<T>, sys: System<T>, r: nat) returns (e: Event)
    requires job.Valid() && Inv(job, sys) && r < job.n && sys[r].phase.PollSend?
    requires Position(job, sys[r]) <= Position(job, sys[Right(r, job.n)])
    ensures Enabled(job, sys, e) && Fresh(job, sys, e)
    ensures e.Act? ==> Position(job, sys[e.r]) <= Position(job, sys[r])
  {
    var x, k := Right(r, job.n), sys[r];
    assert Pair(job, sys, x);
    if k.sent > 0 {
      e := Act(r);
    } else if k.unacked > 0 {
      e := Ack(r);
    } else if sys[x].rq != [] {
      e := MessageMoves(job, sys, x);
    } else {
      e := Act(x);
      BehindIsUnfinished(job, PlaceOf(job, sys[x]), PlaceOf(job, k));
    }
  }

  /** Short of the end something can always happen, and if it is a rank's own action, it is
      that of a rank furthest behind. */
  lemma NoDeadlock<T(!new)>(job: Job<T>, sys: System<T>) returns (e: Event)
    requires job.Valid() && Reachable(job, sys) && !Finished(job, sys)
    ensures Shape(job, sys) && Enabled(job, sys, e) && Fresh(job, sys, e)
    ensures e.Act? ==> forall x | 0 <= x < job.n :: Position(job, sys[e.r]) <= Position(job, sys[x])
  {
    ReachableInv(job, sys);
    var r := Hindmost(Places(job, sys));
    assert forall x | 0 <= x < job.n :: Places(job, sys)[x].position == Position(job, sys[x]);
    var k := sys[r];
    assert Pair(job, sys, r);
    if k.call == |job.calls| {
      forall x | 0 <= x < job.n
        ensures sys[x].call == |job.calls|
      {
        BehindIsUnfinished(job, PlaceOf(job, k), PlaceOf(job, sys[x]));
      }
    }
    if k.phase.PollRecv? {
      e := ReceiverMoves(job, sys, r);
    } else if k.phase.PollSend? {
      e := SenderMoves(job, sys, r);
    } else {
      e := Act(r);
      if k.phase.Sum? && k.phase.i < job.Length(k.call) {
        LinkBounds(job, Left(r, job.n), sys[Left(r, job.n)], r, k);
        SumKeepsMemory(job, r, k);
      }
    }
  }

  // ----- The measure

  /** Own actions of an exchange, and of entering a call. */
  const EXCHANGE: nat := 4
  const ENTER: nat := 2

  /** Own actions a rank still has before it. */
  ghost function Work<T>(job: Job<T>, k: Rank<T>): (w: int)
    requires job.n >= 2 && Pc(job, k)
    ensures w >= 0
  {
    if k.phase.Idle? then job.CallsWork(k.call, EXCHANGE, ENTER)
    else
      job.CallsWork(k.call + 1, EXCHANGE, ENTER) +
      match k.phase
      case Arm => 1 + job.CallWork(k.call, 0, EXCHANGE)
      case Send => job.CallWork(k.call, k.step, EXCHANGE)
      case PollRecv => job.CallWork(k.call, k.step, EXCHANGE) - 1
      case Rearm => job.CallWork(k.call, k.step, EXCHANGE) - 2
      case PollSend => job.CallWork(k.call, k.step, EXCHANGE) - 3
      case Sum(i) => job.CallWork(k.call, k.step + 1, EXCHANGE) + 1 + job.Length(k.call) - i
  }

  /** Deliveries and acknowledgements a rank's posted sends still need. */
  function Pending<T>(k: Rank<T>): nat {
    2 * |k.sq| + k.unacked
  }

  /** Elements of the message on the left link still to fetch and to land. */
  function Missing<T>(kl: Rank<T>, k: Rank<T>): int {
    if kl.sq == [] then 0 else 2 * kl.sq[0].len - |k.wire.Keys| - |k.landed|
  }

  /** The message on the link to rank `x`. */
  function MissingAt<T>(sys: System<T>, x: nat): int
    requires x < |sys|
  {
    Missing(sys[Left(x, |sys|)], sys[x])
  }

  ghost function Works<T>(job: Job<T>, sys: System<T>): (w: seq<int>)
    requires job.n >= 2 && Shape(job, sys)
    ensures |w| == job.n && forall x | 0 <= x < job.n :: w[x] == Work(job, sys[x])
  {
    seq(job.n, x requires 0 <= x < job.n && Shape(job, sys) => Work(job, sys[x]))
  }

  function Pendings<T>(sys: System<T>): (w: seq<int>)
    ensures |w| == |sys| && forall x | 0 <= x < |sys| :: w[x] == Pending(sys[x])
  {
    seq(|sys|, x requires 0 <= x < |sys| => Pending(sys[x]))
  }

  function Missings<T>(sys: System<T>): (w: seq<int>)
    ensures |w| == |sys| && forall x | 0 <= x < |sys| :: w[x] == MissingAt(sys, x)
  {
    seq(|sys|, x requires 0 <= x < |sys| => MissingAt(sys, x))
  }

  /** An own action counts for more than all it can put on a link. */
  function Weight<T>(job: Job<T>): nat {
    2 * job.MaxLength(|job.calls|) + 3
  }

  ghost function WorkLeft<T>(job: Job<T>, sys: System<T>): nat
    requires job.n >= 2 && Shape(job, sys)
  {
    TotalIsNatural(Works(job, sys));
    Total(Works(job, sys))
  }

  ghost function Measure<T>(job: Job<T>, sys: System<T>): int
    requires job.n >= 2 && Shape(job, sys)
  {
    Times(Weight(job), WorkLeft(job, sys)) + Total(Pendings(sys)) + Total(Missings(sys))
  }

  lemma {:induction false} BoundedSet(s: set<nat>, n: nat)
    requires forall j | j in s :: j < n
    ensures |s| <= n
  {
    if n > 0 {
      BoundedSet(s - {n - 1}, n - 1);
      if n - 1 in s {
        assert s == (s - {n - 1}) + {n - 1};
      } else {
        assert s == s - {n - 1};
      }
    } else {
      assert s == {};
    }
  }

  lemma MissingIsNatural<T>(job: Job<T>, l: nat, kl: Rank<T>, r: nat, k: Rank<T>)
    requires job.Valid() && l < job.n && r < job.n && Pc(job, kl) && Pc(job, k) && Link(job, l, kl, r, k)
    ensures Missing(kl, k) >= 0
  {
    if kl.sq != [] {
      BoundedSet(k.wire.Keys, kl.sq[0].len);
      BoundedSet(k.landed, kl.sq[0].len);
    }
  }

  lemma MeasureIsNatural<T>(job: Job<T>, sys: System<T>)
    requires job.Valid() && Inv(job, sys)
    ensures Measure(job, sys) >= 0
  {
    forall x | 0 <= x < job.n
      ensures MissingAt(sys, x) >= 0
    {
      assert Pair(job, sys, x);
      MissingIsNatural(job, Left(x, job.n), sys[Left(x, job.n)], x, sys[x]);
    }
    TotalIsNatural(Pendings(sys));
    TotalIsNatural(Missings(sys));
  }

  // A change of one rank's work, of one rank's pending messages and of one link's message
  // changes the measure by as much.

  ghost predicate ChangesAt<T>(job: Job<T>, sys: System<T>, sys': System<T>, w: nat, p: nat, m: nat)
    requires job.n >= 2 && Shape(job, sys) && Shape(job, sys')
  {
    && w < job.n && p < job.n && m < job.n
    && (forall x | 0 <= x < job.n && x != w :: Work(job, sys'[x]) == Work(job, sys[x]))
    && (forall x | 0 <= x < job.n && x != p :: Pending(sys'[x]) == Pending(sys[x]))
    && (forall x | 0 <= x < job.n && x != m :: MissingAt(sys', x) == MissingAt(sys, x))
  }

  lemma WorkChanges<T>(job: Job<T>, sys: System<T>, sys': System<T>, w: nat, p: nat, m: nat)
    requires job.n >= 2 && Shape(job, sys) && Shape(job, sys') && ChangesAt(job, sys, sys', w, p, m)
    ensures WorkLeft(job, sys') - WorkLeft(job, sys) == Work(job, sys'[w]) - Work(job, sys[w])
  {
    TotalShare(Works(job, sys), Works(job, sys'), w);
  }

  lemma LinksChange<T>(job: Job<T>, sys: System<T>, sys': System<T>, w: nat, p: nat, m: nat)
    requires job.n >= 2 && Shape(job, sys) && Shape(job, sys') && ChangesAt(job, sys, sys', w, p, m)
    ensures Total(Pendings(sys')) - Total(Pendings(sys)) == Pending(sys'[p]) - Pending(sys[p])
    ensures Total(Missings(sys')) - Total(Missings(sys)) == MissingAt(sys', m) - MissingAt(sys, m)
  {
    TotalShare(Pendings(sys), Pendings(sys'), p);
    TotalShare(Missings(sys), Missings(sys'), m);
  }

  lemma MeasureChanges<T>(job: Job<T>, sys: System<T>, sys': System<T>, w: nat, p: nat, m: nat, acts: bool)
    requires job.n >= 2 && Shape(job, sys) && Shape(job, sys') && ChangesAt(job, sys, sys', w, p, m)
    requires Work(job, sys'[w]) == Work(job, sys[w]) - (if acts then 1 else 0)
    ensures Measure(job, sys') == Measure(job, sys) - (if acts then Weight(job) else 0)
              + (Pending(sys'[p]) - Pending(sys[p])) + (MissingAt(sys', m) - MissingAt(sys, m))
  {
    WorkChanges(job, sys, sys', w, p, m);
    LinksChange(job, sys, sys', w, p, m);
    OneTimeLess(Weight(job), WorkLeft(job, sys), WorkLeft(job, sys'), acts);
  }

  lemma OneTimeLess(c: nat, u: nat, u': nat, less: bool)
    requires u' == u - (if less then 1 else 0)
    ensures Times(c, u') == Times(c, u) - (if less then c else 0)
  {
  }

  lemma ActDoesWork<T>(job: Job<T>, r: nat, k: Rank<T>)
    requires job.Valid() && r < job.n && Pc(job, k) && CanAct(job, r, k)
    ensures Pc(job, DoAct(job, r, k)) && Work(job, DoAct(job, r, k)) == Work(job, k) - 1
  {
    if k.phase.PollSend? && !job.Scatters(k.call, k.step) {
      EndDoesWork(job, r, k.(sent := k.sent - 1));
    } else if k.phase.PollSend? || k.phase.Sum? {
      SumDoesWork(job, r, k);
    } else {
      PostDoesWork(job, r, k);
    }
  }

  lemma PostDoesWork<T>(job: Job<T>, r: nat, k: Rank<T>)
    requires job.Valid() && r < job.n && Pc(job, k) && CanAct(job, r, k) && !k.phase.PollSend? && !k.phase.Sum?
    ensures Pc(job, DoAct(job, r, k)) && Work(job, DoAct(job, r, k)) == Work(job, k) - 1
  {
  }

  lemma SumDoesWork<T>(job: Job<T>, r: nat, k: Rank<T>)
    requires job.Valid() && r < job.n && Pc(job, k) && CanAct(job, r, k)
    requires k.phase.Sum? || (k.phase.PollSend? && job.Scatters(k.call, k.step))
    ensures Pc(job, DoAct(job, r, k)) && Work(job, DoAct(job, r, k)) == Work(job, k) - 1
  {
    if k.phase.Sum? && k.phase.i == job.Length(k.call) {
      EndDoesWork(job, r, k);
    }
  }

  /** Going on to the next step, or out of the call. */
  lemma EndDoesWork<T>(job: Job<T>, r: nat, k: Rank<T>)
    requires job.Valid() && r < job.n && Pc(job, k) && !k.phase.Idle?
    ensures Pc(job, Advance(job, k))
    ensures Work(job, Advance(job, k)) ==
            job.CallsWork(k.call + 1, EXCHANGE, ENTER) + job.CallWork(k.call, k.step + 1, EXCHANGE)
  {
    if k.step + 1 == job.Steps(k.call) {
      assert job.CallWork(k.call, k.step + 1, EXCHANGE) == 0;
    }
  }

  /** An action posts one send at most. */
  lemma ActPosts<T>(job: Job<T>, r: nat, k: Rank<T>)
    requires job.Valid() && r < job.n && Pc(job, k) && CanAct(job, r, k)
    ensures var k' := DoAct(job, r, k);
            && k'.wire == k.wire && k'.landed == k.landed && k'.unacked == k.unacked
            && (k'.sq == k.sq || (k.phase.Send? && k'.sq == k.sq + [SendWr(job, r, k.call, k.step)]))
  {
  }

  /** What it adds to the link. */
  lemma ActMissing<T>(job: Job<T>, r: nat, k: Rank<T>, x: nat, kx: Rank<T>)
    requires job.Valid() && r < job.n && x < job.n && Pc(job, k) && Pc(job, kx)
    requires CanAct(job, r, k) && Link(job, r, k, x, kx)
    ensures Missing(DoAct(job, r, k), kx) <= Missing(k, kx) + 2 * job.MaxLength(|job.calls|)
  {
    ActPosts(job, r, k);
  }

  lemma ActDescends<T>(job: Job<T>, sys: System<T>, r: nat)
    requires job.Valid() && Inv(job, sys) && r < job.n && CanAct(job, r, sys[r])
    ensures var sys' := sys[r := DoAct(job, r, sys[r])]; Shape(job, sys') && Measure(job, sys') < Measure(job, sys)
  {
    var x, k' := Right(r, job.n), DoAct(job, r, sys[r]);
    var sys' := sys[r := k'];
    ActDoesWork(job, r, sys[r]);
    ActPosts(job, r, sys[r]);
    assert Pair(job, sys, x);
    ActMissing(job, r, sys[r], x, sys[x]);
    ActChanges(job, sys, r, k');
    MeasureChanges(job, sys, sys', r, r, x, true);
  }

  lemma ActChanges<T>(job: Job<T>, sys: System<T>, r: nat, k': Rank<T>)
    requires job.Valid() && Shape(job, sys) && r < job.n && Pc(job, k')
    requires k'.wire == sys[r].wire && k'.landed == sys[r].landed
    ensures Shape(job, sys[r := k']) && ChangesAt(job, sys, sys[r := k'], r, r, Right(r, job.n))
    ensures MissingAt(sys[r := k'], Right(r, job.n)) == Missing(k', sys[Right(r, job.n)])
  {
    var sys' := sys[r := k'];
    forall x | 0 <= x < job.n && x != Right(r, job.n)
      ensures MissingAt(sys', x) == MissingAt(sys, x)
    {
      assert Left(x, job.n) != r;
    }
  }

  lemma DeliverDescends<T>(job: Job<T>, sys: System<T>, r: nat)
    requires job.Valid() && Inv(job, sys) && Enabled(job, sys, Deliver(r))
    ensures Shape(job, Step(job, sys, Deliver(r))) && Measure(job, Step(job, sys, Deliver(r))) < Measure(job, sys)
  {
    var l := Left(r, job.n);
    assert Pair(job, sys, r);
    DeliverLink(job, l, sys[l], r, sys[r]);
    MissingIsNatural(job, l, sys[l], r, sys[r]);
    DeliverChanges(job, sys, r);
    MeasureChanges(job, sys, sys[r := Delivered(sys[r])][l := Consumed(sys[l])], l, l, r, false);
  }

  lemma DeliverChanges<T>(job: Job<T>, sys: System<T>, r: nat)
    requires job.Valid() && Shape(job, sys) && r < job.n && sys[r].rq != [] && |sys[Left(r, job.n)].sq| == 1
    ensures var l := Left(r, job.n); var sys' := sys[r := Delivered(sys[r])][l := Consumed(sys[l])];
            && Shape(job, sys') && ChangesAt(job, sys, sys', l, l, r)
            && Work(job, sys'[l]) == Work(job, sys[l]) && Pending(sys'[l]) == Pending(sys[l]) - 1
            && MissingAt(sys', r) == 0
  {
    var l := Left(r, job.n);
    var sys' := sys[r := Delivered(sys[r])][l := Consumed(sys[l])];
    ConsumedWork(job, sys[l]);
    DeliveredWork(job, sys[r]);
    assert forall x | 0 <= x < job.n && x != l && x != r :: sys'[x] == sys[x];
    forall x | 0 <= x < job.n && x != r
      ensures MissingAt(sys', x) == MissingAt(sys, x)
    {
      OtherMissing(sys, r, x);
    }
  }

  lemma ConsumedWork<T>(job: Job<T>, k: Rank<T>)
    requires job.n >= 2 && Pc(job, k) && |k.sq| == 1
    ensures Pc(job, Consumed(k)) && Work(job, Consumed(k)) == Work(job, k) && Pending(Consumed(k)) == Pending(k) - 1
    ensures Consumed(k).sq == []
  {
  }

  lemma DeliveredWork<T>(job: Job<T>, k: Rank<T>)
    requires job.n >= 2 && Pc(job, k) && k.rq != []
    ensures Pc(job, Delivered(k)) && Work(job, Delivered(k)) == Work(job, k) && Pending(Delivered(k)) == Pending(k)
  {
  }

  lemma OtherMissing<T>(sys: System<T>, r: nat, x: nat)
    requires |sys| >= 2 && r < |sys| && x < |sys| && x != r && sys[r].rq != [] && |sys[Left(r, |sys|)].sq| == 1
    ensures var l := Left(r, |sys|);
            MissingAt(sys[r := Delivered(sys[r])][l := Consumed(sys[l])], x) == MissingAt(sys, x)
  {
    assert Left(x, |sys|) != Left(r, |sys|);
  }

  lemma AckDescends<T>(job: Job<T>, sys: System<T>, r: nat)
    requires job.Valid() && Shape(job, sys) && Enabled(job, sys, Ack(r))
    ensures Shape(job, Step(job, sys, Ack(r))) && Measure(job, Step(job, sys, Ack(r))) < Measure(job, sys)
  {
    var k' := Acked(sys[r]);
    assert Step(job, sys, Ack(r)) == sys[r := k'];
    AckedDescends(job, sys, r, k');
  }

  lemma AckedDescends<T>(job: Job<T>, sys: System<T>, r: nat, k': Rank<T>)
    requires job.Valid() && Shape(job, sys) && r < job.n && sys[r].unacked > 0
    requires k' == Acked(sys[r])
    ensures Shape(job, sys[r := k']) && Measure(job, sys[r := k']) < Measure(job, sys)
  {
    SameSendsChange(job, sys, r, k');
    MeasureChanges(job, sys, sys[r := k'], r, r, r, false);
  }

  /** A change that leaves a rank's posted sends as they are shows on its left link at most. */
  lemma SameSendsChange<T>(job: Job<T>, sys: System<T>, r: nat, k': Rank<T>)
    requires job.Valid() && Shape(job, sys) && r < job.n && Pc(job, k') && k'.sq == sys[r].sq
    requires k'.call == sys[r].call && k'.step == sys[r].step && k'.phase == sys[r].phase
    ensures Shape(job, sys[r := k']) && ChangesAt(job, sys, sys[r := k'], r, r, r)
    ensures Work(job, k') == Work(job, sys[r])
    ensures MissingAt(sys[r := k'], r) == Missing(sys[Left(r, job.n)], k')
  {
    var sys' := sys[r := k'];
    forall x | 0 <= x < job.n && x != r
      ensures MissingAt(sys', x) == MissingAt(sys, x)
    {
    }
  }

  /** Fetching and landing: a fresh element brings the measure down, a repeated one
      leaves it where it is. */
  lemma FetchDescends<T>(job: Job<T>, sys: System<T>, r: nat, j: nat)
    requires job.Valid() && Shape(job, sys) && Enabled(job, sys, Fetch(r, j))
    ensures var sys' := Step(job, sys, Fetch(r, j));
            Shape(job, sys') && Measure(job, sys') == Measure(job, sys) - (if j in sys[r].wire then 0 else 1)
  {
    var k, kl := sys[r], sys[Left(r, job.n)];
    var k' := k.(wire := k.wire[j := ReadItem(kl, kl.sq[0].loc, j)]);
    assert k'.wire.Keys == k.wire.Keys + {j};
    SameSendsChange(job, sys, r, k');
    MeasureChanges(job, sys, sys[r := k'], r, r, r, false);
  }

  lemma LandDescends<T>(job: Job<T>, sys: System<T>, r: nat, j: nat)
    requires job.Valid() && Shape(job, sys) && Enabled(job, sys, Land(r, j))
    ensures var sys' := Step(job, sys, Land(r, j));
            Shape(job, sys') && Measure(job, sys') == Measure(job, sys) - (if j in sys[r].landed then 0 else 1)
  {
    var k := sys[r];
    var k' := WriteItem(k, k.rq[0].loc, j, k.wire[j]).(landed := k.landed + {j});
    assert Step(job, sys, Land(r, j)) == sys[r := k'];
    LandedDescends(job, sys, r, j, k');
  }

  lemma LandedDescends<T>(job: Job<T>, sys: System<T>, r: nat, j: nat, k': Rank<T>)
    requires job.Valid() && Shape(job, sys) && r < job.n && sys[Left(r, job.n)].sq != []
    requires k' == sys[r].(landed := sys[r].landed + {j}, stage := k'.stage, buf := k'.buf)
    ensures Shape(job, sys[r := k'])
    ensures Measure(job, sys[r := k']) == Measure(job, sys) - (if j in sys[r].landed then 0 else 1)
  {
    OneMoreLanded(sys[r].landed, j);
    SameSendsChange(job, sys, r, k');
    MeasureChanges(job, sys, sys[r := k'], r, r, r, false);
  }

  lemma OneMoreLanded(s: set<nat>, j: nat)
    ensures |s + {j}| == |s| + (if j in s then 0 else 1)
  {
    assert j in s ==> s + {j} == s;
  }

  /** Every fresh event lowers the measure, and a repeated one leaves it where it is. */
  lemma MeasureDescends<T>(job: Job<T>, sys: System<T>, e: Event)
    requires job.Valid() && Inv(job, sys) && Enabled(job, sys, e)
    ensures Shape(job, Step(job, sys, e))
    ensures if Fresh(job, sys, e) then Measure(job, Step(job, sys, e)) < Measure(job, sys)
            else Measure(job, Step(job, sys, e)) == Measure(job, sys)
  {
    match e
    case Act(r) => ActDescends(job, sys, r);
    case Deliver(r) => DeliverDescends(job, sys, r);
    case Ack(r) => AckDescends(job, sys, r);
    case Fetch(r, j) => FetchDescends(job, sys, r, j);
    case Land(r, j) => LandDescends(job, sys, r, j);
  }

  // ----- Runs

  /** Events of a run that are not retransmissions. */
  ghost function FreshEvents<T>(job: Job<T>, sys: System<T>, run: seq<Event>, end: System<T>): (n: nat)
    requires job.Valid() && Reaches(job, sys, run, end)
    decreases |run|
  {
    if run == [] then 0
    else (if Fresh(job, sys, run[0]) then 1 else 0) + FreshEvents(job, Step(job, sys, run[0]), run[1..], end)
  }

  lemma {:induction false} RunDescends<T>(job: Job<T>, sys: System<T>, run: seq<Event>, end: System<T>)
    requires job.Valid() && Inv(job, sys) && Reaches(job, sys, run, end)
    ensures Shape(job, end) && FreshEvents(job, sys, run, end) + Measure(job, end) <= Measure(job, sys)
    decreases |run|
  {
    if run != [] {
      MeasureDescends(job, sys, run[0]);
      StepKeepsInv(job, sys, run[0]);
      RunDescends(job, Step(job, sys, run[0]), run[1..], end);
    }
  }

  /** How many events a run of the program can hold, retransmissions apart. */
  function Bound<T>(job: Job<T>): int
    requires job.n >= 2
  {
    Weight(job) * (job.n * job.CallsWork(0, EXCHANGE, ENTER))
  }

  lemma StartShare<T>(job: Job<T>, sys: System<T>, x: nat)
    requires job.Valid() && Start(job, sys) && Shape(job, sys) && x < job.n
    ensures Work(job, sys[x]) == job.CallsWork(0, EXCHANGE, ENTER) && Pending(sys[x]) == 0 && MissingAt(sys, x) == 0
  {
  }

  lemma StartWork<T>(job: Job<T>, sys: System<T>)
    requires job.Valid() && Start(job, sys) && Shape(job, sys)
    ensures WorkLeft(job, sys) == job.n * job.CallsWork(0, EXCHANGE, ENTER)
  {
    var w := Works(job, sys);
    forall x | 0 <= x < job.n
      ensures w[x] == job.CallsWork(0, EXCHANGE, ENTER)
    {
      StartShare(job, sys, x);
    }
    TotalOfEqual(w, job.CallsWork(0, EXCHANGE, ENTER));
  }

  lemma StartLinks<T>(job: Job<T>, sys: System<T>)
    requires job.Valid() && Start(job, sys) && Shape(job, sys)
    ensures Total(Pendings(sys)) == 0 && Total(Missings(sys)) == 0
  {
    var p, m := Pendings(sys), Missings(sys);
    forall x | 0 <= x < job.n
      ensures p[x] == 0 && m[x] == 0
    {
      StartShare(job, sys, x);
    }
    TotalIsNatural(p);
    TotalIsNatural(m);
  }

  lemma StartMeasure<T>(job: Job<T>, sys: System<T>)
    requires job.Valid() && Start(job, sys) && Shape(job, sys)
    ensures Measure(job, sys) == Bound(job)
  {
    StartWork(job, sys);
    StartLinks(job, sys);
    TimesIsProduct(Weight(job), WorkLeft(job, sys));
  }

  /** From any start, a run holds boundedly many events besides retransmissions, and it can
      be brought to a halt only by having finished every call on every rank. */
  lemma RunsFinish<T(!new)>(job: Job<T>, start: System<T>, run: seq<Event>, end: System<T>)
    requires job.Valid() && Start(job, start) && Reaches(job, start, run, end)
    ensures FreshEvents(job, start, run, end) <= Bound(job)
    ensures Shape(job, end)
    ensures (forall e | Enabled(job, end, e) :: !Fresh(job, end, e)) ==> Finished(job, end)
  {
    StartHasInv(job, start);
    StartMeasure(job, start);
    RunKeepsInv(job, start, run, end);
    RunDescends(job, start, run, end);
    MeasureIsNatural(job, end);
    if !Finished(job, end) {
      var e := NoDeadlock(job, end);
    }
  }

  /** From every reachable state some run finishes every call on every rank. */
  lemma {:induction false} CanFinish<T(!new)>(job: Job<T>, sys: System<T>) returns (run: seq<Event>, end: System<T>)
    requires job.Valid() && Reachable(job, sys) && Shape(job, sys)
    ensures Reaches(job, sys, run, end) && Finished(job, end)
    decreases Measure(job, sys)
  {
    if Finished(job, sys) {
      return [], sys;
    }
    ReachableInv(job, sys);
    MeasureIsNatural(job, sys);
    var e := NoDeadlock(job, sys);
    MeasureDescends(job, sys, e);
    ReachableStep(job, sys, e);
    run, end := CanFinish(job, Step(job, sys, e));
    run := [e] + run;
  }

  // ----- A meeting point

  lemma ActKeepsNotYet<T>(job: Job<T>, r: nat, k: Rank<T>, q: nat)
    requires job.Valid() && r < job.n && Pc(job, k) && CanAct(job, r, k) && k.call < q
    ensures Pc(job, DoAct(job, r, k)) && NotYet(PlaceOf(job, DoAct(job, r, k)), q)
  {
    ActCounts(job, r, k);
  }

  lemma GatheringAct<T>(job: Job<T>, sys: System<T>, q: nat, r: nat)
    requires job.Valid() && Shape(job, sys) && r < job.n && CanAct(job, r, sys[r]) && sys[r].call < q
    requires NotPast(Places(job, sys), q)
    ensures Shape(job, sys[r := DoAct(job, r, sys[r])]) && NotPast(Places(job, sys[r := DoAct(job, r, sys[r])]), q)
  {
    ActKeepsNotYet(job, r, sys[r], q);
    OneMoves(Places(job, sys), Places(job, sys[r := DoAct(job, r, sys[r])]), q, r);
  }

  lemma WireKeepsPlaces<T>(job: Job<T>, sys: System<T>, e: Event)
    requires job.Valid() && Shape(job, sys) && Enabled(job, sys, e) && !e.Act?
    ensures Shape(job, Step(job, sys, e)) && Places(job, Step(job, sys, e)) == Places(job, sys)
  {
    var sys' := Step(job, sys, e);
    forall x | 0 <= x < job.n
      ensures Pc(job, sys'[x]) && PlaceOf(job, sys'[x]) == PlaceOf(job, sys[x])
    {
      WireKeepsPc(job, sys, e, x);
    }
  }

  lemma WireKeepsPc<T>(job: Job<T>, sys: System<T>, e: Event, x: nat)
    requires job.Valid() && Shape(job, sys) && Enabled(job, sys, e) && !e.Act? && x < job.n
    ensures var k, k' := sys[x], Step(job, sys, e)[x]; k'.call == k.call && k'.step == k.step && k'.phase == k.phase
  {
  }

  lemma GatheringStep<T(!new)>(job: Job<T>, sys: System<T>, q: nat) returns (e: Event)
    requires job.Valid() && Reachable(job, sys) && Shape(job, sys) && q < |job.calls|
    requires NotPast(Places(job, sys), q) && !GatheredAt(Places(job, sys), q)
    ensures Enabled(job, sys, e) && Fresh(job, sys, e) && Shape(job, Step(job, sys, e))
    ensures NotPast(Places(job, Step(job, sys, e)), q)
  {
    e := NoDeadlock(job, sys);
    if e.Act? {
      var p := Places(job, sys);
      assert forall x | 0 <= x < job.n :: p[x].position == Position(job, sys[x]);
      HindmostIsBefore(job, p, q, e.r);
      GatheringAct(job, sys, q, e.r);
    } else {
      WireKeepsPlaces(job, sys, e);
    }
  }

  /** From every state in which nobody has entered call `q`, a run brings all ranks to its
      beginning. */
  lemma {:induction false} CanGather<T(!new)>(job: Job<T>, sys: System<T>, q: nat) returns (end: System<T>)
    requires job.Valid() && Reachable(job, sys) && Shape(job, sys) && q < |job.calls| && NotPast(Places(job, sys), q)
    ensures Reachable(job, end) && Shape(job, end) && GatheredAt(Places(job, end), q)
    decreases Measure(job, sys)
  {
    if GatheredAt(Places(job, sys), q) {
      return sys;
    }
    ReachableInv(job, sys);
    MeasureIsNatural(job, sys);
    var e := GatheringStep(job, sys, q);
    MeasureDescends(job, sys, e);
    ReachableStep(job, sys, e);
    end := CanGather(job, Step(job, sys, e), q);
  }

  /** So every program has a run in which all ranks meet at the beginning of call `q`. */
  lemma SomeRunGathers<T(!new)>(job: Job<T>, q: nat) returns (end: System<T>)
    requires job.Valid() && q < |job.calls|
    ensures Reachable(job, end) && Shape(job, end) && GatheredAt(Places(job, end), q)
  {
    var start: System<T> := seq(job.n, r => Rank(0, 0, Idle, [], map[], [], 0, [], 0, 0, map[], {}));
    assert Start(job, start) && Reaches(job, start, [], start);
    end := CanGather(job, start, q);
  }
}
