/**
 The blocking path computes what the posted path computes, and it never deadlocks,
 whatever the sockets hold.
 */
module BlockingRingTheorems {
  import opened RingIndex
  import opened RingSpec
  import opened RingMeeting
  import opened RingProgram
  import opened BlockingRing
  import opened BlockingRingProof
  import Posted = PostedRing
  import PostedTheorems = PostedRingTheorems

  ghost predicate Reachable<T(!new)>(job: Job<T>, capacity: nat, sys: System<T>)
    requires job.Valid()
  {
    exists start: System<T>, run :: Start(job, start) && Reaches(job, capacity, start, run, sys)
  }

  lemma ReachableInv<T(!new)>(job: Job<T>, capacity: nat, sys: System<T>)
    requires job.Valid() && Reachable(job, capacity, sys)
    ensures Inv(job, sys)
  {
    var start: System<T>, run :| Start(job, start) && Reaches(job, capacity, start, run, sys);
    StartHasInv(job, start);
    RunKeepsInv(job, capacity, start, run, sys);
  }

  predicate Returned<T>(k: Rank<T>, q: nat) {
    k.mode.Idle? && k.call == q + 1
  }

  // ----- Results

  lemma AllReduceResult<T(!new)>(job: Job<T>, capacity: nat, sys: System<T>, r: nat, q: nat, c: nat, j: nat)
    requires job.Valid() && Reachable(job, capacity, sys) && r < job.n && job.Reduces(q)
    requires Shape(job, sys) && Returned(sys[r], q)
    requires c < job.n && j < job.Length(q)
    ensures c < |sys[r].buf| && j < |sys[r].buf[c]|
    ensures sys[r].buf[c][j] == Reduced(job.calls[q].input, c, j)
  {
    ReachableInv(job, capacity, sys);
    assert Pair(job, sys, r);
    RoundsReduce(job.calls[q].input, r, c, j);
  }

  lemma ResultShape<T(!new)>(job: Job<T>, capacity: nat, sys: System<T>, r: nat, q: nat)
    requires job.Valid() && Reachable(job, capacity, sys) && r < job.n && job.Reduces(q)
    requires Shape(job, sys) && Returned(sys[r], q)
    ensures job.calls[q].input.IsBuffer(sys[r].buf)
  {
    ReachableInv(job, capacity, sys);
    assert Pair(job, sys, r);
    ReturnedHolds(job, r, sys[r], q);
  }

  lemma ReturnedHolds<T>(job: Job<T>, r: nat, k: Rank<T>, q: nat)
    requires job.Valid() && r < job.n && job.Reduces(q) && Pc(job, r, k) && Memory(job, r, k) && Returned(k, q)
    ensures Holds(job.calls[q].input, r, k.buf)
  {
  }

  /** Whichever path a program takes, a rank that has returned from a call holds the
      same bits. */
  lemma SchedulesAgree<T(!new)>(job: Job<T>, capacity: nat, sys: System<T>, r: nat,
                                posted: Posted.System<T>, r': nat, q: nat)
    requires job.Valid() && r < job.n && r' < job.n && job.Reduces(q)
    requires Reachable(job, capacity, sys) && Shape(job, sys) && Returned(sys[r], q)
    requires PostedTheorems.Reachable(job, posted) && Posted.Shape(job, posted)
    requires PostedTheorems.Returned(posted[r'], q)
    ensures sys[r].buf == posted[r'].buf
  {
    ReachableInv(job, capacity, sys);
    assert Pair(job, sys, r);
    PostedTheorems.BitIdentical(job, posted, r', posted, r', q);
    PostedTheorems.ResultShape(job, posted, r', q);
    var b, b' := sys[r].buf, posted[r'].buf;
    forall c | 0 <= c < job.n
      ensures b[c] == b'[c]
    {
      forall j | 0 <= j < job.Length(q)
        ensures b[c][j] == b'[c][j]
      {
        AllReduceResult(job, capacity, sys, r, q, c, j);
        PostedTheorems.AllReduceResult(job, posted, r', q, c, j);
      }
    }
  }

  /** Has the rank entered call `q`? */
  predicate Entered<T>(k: Rank<T>, q: nat) {
    k.call > q || (k.call == q && !k.mode.Idle?)
  }

  /** When a rank has returned from a call, a barrier among them, its left neighbour
      has entered it. */
  lemma LeftHasEntered<T(!new)>(job: Job<T>, capacity: nat, sys: System<T>, r: nat, q: nat)
    requires job.Valid() && Reachable(job, capacity, sys) && r < job.n && Shape(job, sys)
    requires q < |job.calls| && sys[r].call > q
    ensures Entered(sys[Left(r, job.n)], q)
  {
    ReachableInv(job, capacity, sys);
    var l := Left(r, job.n);
    assert Pair(job, sys, r);
    LinkCounts(job, l, sys[l], r, sys[r]);
    SentImpliesEntered(job, l, sys[l], r, sys[r], q);
  }

  lemma SentImpliesEntered<T>(job: Job<T>, l: nat, kl: Rank<T>, r: nat, kr: Rank<T>, q: nat)
    requires job.Valid() && l < job.n && r < job.n && Pc(job, l, kl) && Pc(job, r, kr) && q < kr.call
    requires ElementsAt(job, l, kl, kl.sent) >= ElementsAt(job, r, kr, kr.recved)
    ensures Entered(kl, q)
  {
    PastIsMore(job, r, kr, q);
    if !Entered(kl, q) {
      NotEnteredIsLess(job, l, kl, q);
    }
  }

  /** A rank past call `q` has received more than all that precedes the call. */
  lemma PastIsMore<T>(job: Job<T>, r: nat, k: Rank<T>, q: nat)
    requires job.Valid() && r < job.n && Pc(job, r, k) && q < k.call
    ensures job.Base(q) < job.Total() && ElementsAt(job, r, k, k.recved) > job.ElementsBefore(job.Base(q))
  {
    job.BaseMonotone(q, k.call);
    PositionInside(job, r, k);
    job.CallAtPosition(q, 0);
    job.ElementsMonotone(job.Base(q), Position(job, k));
  }

  /** A rank that has not entered it has sent no more than that. */
  lemma NotEnteredIsLess<T>(job: Job<T>, l: nat, k: Rank<T>, q: nat)
    requires job.Valid() && l < job.n && Pc(job, l, k) && q < |job.calls| && job.Base(q) < job.Total() && !Entered(k, q)
    ensures ElementsAt(job, l, k, k.sent) <= job.ElementsBefore(job.Base(q))
  {
    if k.call < q {
      job.BaseMonotone(k.call, q);
      BehindSent(job, l, k, job.Base(q));
    } else {
      assert Position(job, k) == job.Base(q) && k.sent == 0;
    }
  }

  // ----- Counting elements

  lemma {:induction false} BeforeLength<T>(job: Job<T>, l: nat, p: nat)
    requires job.Valid() && l < job.n && p <= job.Total()
    ensures |Before(job, l, p)| == job.ElementsBefore(p)
  {
    if p > 0 {
      BeforeLength(job, l, p - 1);
    }
  }

  lemma PrefixLength<T>(job: Job<T>, l: nat, r: nat, k: Rank<T>, i: nat)
    requires job.Valid() && l < job.n && Pc(job, r, k)
    requires if k.mode.Idle? then i == 0 else i <= job.Length(k.call)
    ensures |Prefix(job, l, r, k, i)| == ElementsAt(job, r, k, i)
  {
    PositionInside(job, r, k);
    BeforeLength(job, l, Position(job, k));
  }

  /** Elements pushed are elements pulled plus elements in the socket. */
  lemma LinkCounts<T>(job: Job<T>, l: nat, kl: Rank<T>, r: nat, kr: Rank<T>)
    requires job.Valid() && l < job.n && r < job.n && Pc(job, l, kl) && Pc(job, r, kr) && Link(job, l, kl, r, kr)
    ensures ElementsAt(job, l, kl, kl.sent) == ElementsAt(job, r, kr, kr.recved) + |kr.pipe|
  {
    PrefixLength(job, l, l, kl, kl.sent);
    PrefixLength(job, l, r, kr, kr.recved);
  }

  /** A rank that is not past step `p` has not sent beyond that step, nor beyond the
      start of it while it is still before it. */
  lemma BehindSent<T>(job: Job<T>, r: nat, k: Rank<T>, p: nat)
    requires job.Valid() && r < job.n && Pc(job, r, k) && p <= job.Total()
    ensures Position(job, k) < p ==> ElementsAt(job, r, k, k.sent) <= job.ElementsBefore(p)
    ensures Position(job, k) < p && (k.mode.Idle? || k.sent < job.Length(k.call)) ==>
              ElementsAt(job, r, k, k.sent) < job.ElementsBefore(p)
  {
    PositionInside(job, r, k);
    if Position(job, k) < p {
      job.ElementsMonotone(Position(job, k), p);
      LengthHere(job, r, k);
    }
  }

  lemma LengthHere<T>(job: Job<T>, r: nat, k: Rank<T>)
    requires job.Valid() && r < job.n && Pc(job, r, k)
    ensures k.call < |job.calls| ==>
              Position(job, k) < job.Total() && job.LengthAt(Position(job, k)) == job.Length(k.call) >= 1
  {
    if k.call < |job.calls| {
      job.CallAtPosition(k.call, k.step);
    }
  }

  // ----- All ranks have entered

  /** A rank's left neighbour is at most one step behind. */
  lemma LeftIsClose<T>(job: Job<T>, l: nat, kl: Rank<T>, r: nat, kr: Rank<T>)
    requires job.Valid() && l < job.n && r < job.n && Pc(job, l, kl) && Pc(job, r, kr) && Link(job, l, kl, r, kr)
    ensures Position(job, kl) >= Position(job, kr) - 1
  {
    LinkCounts(job, l, kl, r, kr);
    PositionInside(job, r, kr);
    if Position(job, kl) < Position(job, kr) - 1 {
      var p := Position(job, kr) - 1;
      BehindSent(job, l, kl, p);
      assert job.ElementsBefore(p + 1) == job.ElementsBefore(p) + job.LengthAt(p);
    }
  }

  lemma {:induction false} RanksStayClose<T>(job: Job<T>, sys: System<T>, r: nat, k: nat)
    requires job.Valid() && Inv(job, sys) && r < job.n && k < job.n
    ensures Position(job, sys[Back(r, k, job.n)]) >= Position(job, sys[r]) - k
  {
    if k > 0 {
      RanksStayClose(job, sys, r, k - 1);
      NeighbourIsClose(job, sys, Back(r, k - 1, job.n));
      assert Left(Back(r, k - 1, job.n), job.n) == Back(r, k, job.n);
    }
  }

  lemma NeighbourIsClose<T>(job: Job<T>, sys: System<T>, r: nat)
    requires job.Valid() && Inv(job, sys) && r < job.n
    ensures Position(job, sys[Left(r, job.n)]) >= Position(job, sys[r]) - 1
  {
    assert Pair(job, sys, r);
    LeftIsClose(job, Left(r, job.n), sys[Left(r, job.n)], r, sys[r]);
  }

  /** When a rank has returned from an all-reduce, every rank has entered it. */
  lemma EveryoneHasEntered<T(!new)>(job: Job<T>, capacity: nat, sys: System<T>, r: nat, q: nat, x: nat)
    requires job.Valid() && Reachable(job, capacity, sys) && r < job.n && x < job.n && Shape(job, sys)
    requires job.Reduces(q) && sys[r].call > q
    ensures Entered(sys[x], q)
  {
    ReachableInv(job, capacity, sys);
    var k := if x <= r then r - x else r - x + job.n;
    RanksStayClose(job, sys, r, k);
    assert Back(r, k, job.n) == x;
    job.BaseMonotone(q, sys[r].call);
    if sys[x].call < q {
      job.BaseMonotone(sys[x].call, q);
    }
  }

  // ----- No deadlock

  predicate Finished<T>(job: Job<T>, sys: System<T>) {
    |sys| == job.n && forall r | 0 <= r < job.n :: sys[r].call == |job.calls|
  }

  function PlaceOf<T>(job: Job<T>, k: Rank<T>): Place
    requires job.n >= 2 && k.call <= |job.calls|
  {
    Place(k.call, k.mode.Idle?, Position(job, k))
  }

  ghost function Places<T>(job: Job<T>, sys: System<T>): (p: seq<Place>)
    requires job.n >= 2 && Shape(job, sys)
    ensures |p| == job.n && forall x | 0 <= x < job.n :: p[x] == PlaceOf(job, sys[x]) && Fits(job, p[x])
  {
    seq(job.n, x requires 0 <= x < job.n && Shape(job, sys) => PlaceOf(job, sys[x]))
  }

  /** What two ranks know of each other when one is not ahead of the other. */
  lemma SamePosition<T>(job: Job<T>, r: nat, k: Rank<T>, x: nat, kx: Rank<T>)
    requires job.Valid() && r < job.n && x < job.n && Pc(job, r, k) && Pc(job, x, kx)
    requires Position(job, k) <= Position(job, kx)
    ensures k.call == |job.calls| ==> kx.call == |job.calls|
    ensures k.call < |job.calls| && Position(job, k) == Position(job, kx) && !k.mode.Idle? && !kx.mode.Idle? ==>
              kx.call == k.call && kx.step == k.step
  {
    BehindIsUnfinished(job, PlaceOf(job, k), PlaceOf(job, kx));
    if !k.mode.Idle? && !kx.mode.Idle? && Position(job, k) == Position(job, kx) {
      job.PositionUnique(k.call, k.step, kx.call, kx.step);
    }
  }

  /** The left neighbour of a rank that waits on an empty socket, and is not ahead of
      it, is in the same step and has as much left to send as the rank has to receive. */
  lemma EmptySocket<T>(job: Job<T>, l: nat, kl: Rank<T>, r: nat, kr: Rank<T>)
    requires job.Valid() && l < job.n && r < job.n && Pc(job, l, kl) && Pc(job, r, kr) && Link(job, l, kl, r, kr)
    requires kr.mode.Recv? && kr.recved < job.Length(kr.call) && kr.pipe == []
    requires Position(job, kr) <= Position(job, kl)
    ensures kl.call < |job.calls|
    ensures Position(job, kl) == Position(job, kr) && kl.sent == kr.recved
    ensures kl.mode.Idle? || kl.sent < job.Length(kl.call)
  {
    LinkCounts(job, l, kl, r, kr);
    PositionInside(job, l, kl);
    LengthHere(job, r, kr);
    if Position(job, kr) < Position(job, kl) {
      job.ElementsMonotone(Position(job, kr), Position(job, kl));
    }
    SamePosition(job, l, kl, r, kr);
    SamePosition(job, r, kr, l, kl);
  }

  /** Likewise for the right neighbour of a rank that has more to send. */
  lemma FullSocket<T>(job: Job<T>, l: nat, kl: Rank<T>, r: nat, kr: Rank<T>)
    requires job.Valid() && l < job.n && r < job.n && Pc(job, l, kl) && Pc(job, r, kr) && Link(job, l, kl, r, kr)
    requires kl.mode.Send? && kl.sent < job.Length(kl.call)
    requires Position(job, kl) <= Position(job, kr)
    ensures kr.call < |job.calls|
    ensures Position(job, kl) == Position(job, kr) && kl.sent == kr.recved + |kr.pipe|
    ensures kr.mode.Idle? || kr.recved < job.Length(kr.call)
  {
    LinkCounts(job, l, kl, r, kr);
    PositionInside(job, r, kr);
    LengthHere(job, l, kl);
    if Position(job, kl) < Position(job, kr) {
      job.ElementsMonotone(Position(job, kl), Position(job, kr));
    }
    SamePosition(job, l, kl, r, kr);
    SamePosition(job, r, kr, l, kl);
  }

  /** The socket's head fits where the receiver is about to put it. */
  lemma PullEnabled<T>(job: Job<T>, sys: System<T>, r: nat)
    requires job.Valid() && Inv(job, sys) && r < job.n
    requires sys[r].mode.Recv? && sys[r].recved < job.Length(sys[r].call) && sys[r].pipe != []
    ensures CanPull(job, r, sys[r])
  {
    assert Pair(job, sys, r);
    SocketIsAligned(job, Left(r, job.n), sys[Left(r, job.n)], r, sys[r]);
  }

  lemma PushEnabled<T>(job: Job<T>, capacity: nat, sys: System<T>, r: nat)
    requires job.Valid() && Inv(job, sys) && r < job.n
    requires var kx := sys[Right(r, job.n)];
             && sys[r].mode.Send? && sys[r].sent < job.Length(sys[r].call)
             && kx.mode.Recv? && kx.recved < job.Length(kx.call) && kx.pipe == []
    ensures Enabled(job, capacity, sys, Push(r))
  {
    assert Pair(job, sys, r);
    OutgoingIsMessage(job, r, sys[r]);
  }

  /** A rank furthest behind that waits to receive: it, its left neighbour, or the
      neighbour beyond can move. The chain ends because an odd rank's left neighbour is
      even and has sent before it receives. */
  lemma {:induction false} ReceiverMoves<T>(job: Job<T>, capacity: nat, sys: System<T>, r: nat) returns (e: Event)
    requires job.Valid() && Inv(job, sys) && r < job.n && sys[r].mode.Recv?
    requires forall x | 0 <= x < job.n :: Position(job, sys[r]) <= Position(job, sys[x])
    ensures Enabled(job, capacity, sys, e)
    ensures e.Act? ==> Position(job, sys[e.r]) <= Position(job, sys[r])
    decreases !SendsFirst(Left(r, job.n))
  {
    if sys[r].recved == job.Length(sys[r].call) {
      e := Act(r);
    } else if sys[r].pipe != [] {
      PullEnabled(job, sys, r);
      e := Pull(r);
    } else {
      LeftOfEmpty(job, sys, r);
      if sys[Left(r, job.n)].mode.Recv? {
        e := ReceiverMoves(job, capacity, sys, Left(r, job.n));
      } else {
        e := FeederMoves(job, capacity, sys, r);
      }
    }
  }

  lemma LeftOfEmpty<T>(job: Job<T>, sys: System<T>, r: nat)
    requires job.Valid() && Inv(job, sys) && r < job.n
    requires sys[r].mode.Recv? && sys[r].recved < job.Length(sys[r].call) && sys[r].pipe == []
    requires Position(job, sys[r]) <= Position(job, sys[Left(r, job.n)])
    ensures var k, kl := sys[r], sys[Left(r, job.n)];
            && kl.call < |job.calls| && Position(job, kl) == Position(job, k) && kl.sent == k.recved
            && (kl.mode.Idle? || kl.sent < job.Length(kl.call))
  {
    assert Pair(job, sys, r);
    EmptySocket(job, Left(r, job.n), sys[Left(r, job.n)], r, sys[r]);
  }

  /** The left neighbour of a rank that waits on an empty socket moves, if it is idle or
      sending. */
  lemma FeederMoves<T>(job: Job<T>, capacity: nat, sys: System<T>, r: nat) returns (e: Event)
    requires job.Valid() && Inv(job, sys) && r < job.n
    requires var k, kl := sys[r], sys[Left(r, job.n)];
             && k.mode.Recv? && k.recved < job.Length(k.call) && k.pipe == []
             && kl.call < |job.calls|
             && (kl.mode.Idle? || (kl.mode.Send? && kl.sent < job.Length(kl.call)))
    ensures Enabled(job, capacity, sys, e) && (e.Act? ==> e.r == Left(r, job.n))
  {
    var l := Left(r, job.n);
    if sys[l].mode.Idle? {
      e := Act(l);
    } else {
      PushEnabled(job, capacity, sys, l);
      e := Push(l);
    }
  }

  /** How far the chain of senders below can go: three even ranks in a row exist only
      where an odd ring closes. */
  function SendChain(r: nat, n: nat): nat
    requires r < n
  {
    var x := Right(r, n);
    if !SendsFirst(x) then 0 else if x == n - 1 then 2 else 1
  }

  /** A rank furthest behind that waits to send. */
  lemma {:induction false} SenderMoves<T>(job: Job<T>, capacity: nat, sys: System<T>, r: nat) returns (e: Event)
    requires job.Valid() && Inv(job, sys) && r < job.n && sys[r].mode.Send?
    requires forall x | 0 <= x < job.n :: Position(job, sys[r]) <= Position(job, sys[x])
    ensures Enabled(job, capacity, sys, e)
    ensures e.Act? ==> Position(job, sys[e.r]) <= Position(job, sys[r])
    decreases SendChain(r, job.n)
  {
    var x, k := Right(r, job.n), sys[r];
    assert Pair(job, sys, x);
    if k.sent == job.Length(k.call) {
      return Act(r);
    }
    FullSocket(job, r, k, x, sys[x]);
    if sys[x].mode.Send? {
      e := SenderMoves(job, capacity, sys, x);
    } else {
      e := TakerMoves(job, capacity, sys, r);
    }
  }

  /** The right neighbour of a rank that has more to send moves, if it is idle or
      receiving, or the rank itself does. */
  lemma TakerMoves<T>(job: Job<T>, capacity: nat, sys: System<T>, r: nat) returns (e: Event)
    requires job.Valid() && Inv(job, sys) && r < job.n
    requires var k, kx := sys[r], sys[Right(r, job.n)];
             && k.mode.Send? && k.sent < job.Length(k.call)
             && kx.call < |job.calls|
             && (kx.mode.Idle? || (kx.mode.Recv? && kx.recved < job.Length(kx.call)))
    ensures Enabled(job, capacity, sys, e) && (e.Act? ==> e.r == Right(r, job.n))
  {
    var x := Right(r, job.n);
    if sys[x].mode.Idle? {
      e := Act(x);
    } else if sys[x].pipe != [] {
      PullEnabled(job, sys, x);
      e := Pull(x);
    } else {
      PushEnabled(job, capacity, sys, r);
      e := Push(r);
    }
  }

  /** Short of the end something can always happen, and if it is a rank's own action, it is
      that of a rank furthest behind. */
  lemma NoDeadlock<T(!new)>(job: Job<T>, capacity: nat, sys: System<T>) returns (e: Event)
    requires job.Valid() && Reachable(job, capacity, sys) && !Finished(job, sys)
    ensures Shape(job, sys) && Enabled(job, capacity, sys, e)
    ensures e.Act? ==> forall x | 0 <= x < job.n :: Position(job, sys[e.r]) <= Position(job, sys[x])
  {
    ReachableInv(job, capacity, sys);
    var r := Hindmost(Places(job, sys));
    assert forall x | 0 <= x < job.n :: Places(job, sys)[x].position == Position(job, sys[x]);
    var k := sys[r];
    assert Pair(job, sys, r);
    if k.call == |job.calls| {
      forall x | 0 <= x < job.n
        ensures sys[x].call == |job.calls|
      {
        SamePosition(job, r, k, x, sys[x]);
      }
    }
    match k.mode
    case Idle => e := Act(r);
    case Send => e := SenderMoves(job, capacity, sys, r);
    case Recv => e := ReceiverMoves(job, capacity, sys, r);
    case Sum(i) =>
      e := Act(r);
      if i < job.Length(k.call) {
        SumKeepsMemory(job, r, k);
      }
  }
}
