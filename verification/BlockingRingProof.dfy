/**
 What every interleaving of the blocking path keeps.
 */
module BlockingRingProof {
  import opened RingIndex
  import opened RingSpec
  import opened RingProgram
  import opened BlockingRing

  // ----- Streams

  function Position<T>(job: Job<T>, k: Rank<T>): nat
    requires job.n >= 2 && k.call <= |job.calls|
  {
    job.Base(k.call) + k.step
  }

  /** Everything rank `l` sends before step `p` of the whole run. */
  ghost function Before<T>(job: Job<T>, l: nat, p: nat): seq<Item<T>>
    requires job.Valid() && l < job.n && p <= job.Total()
  {
    if p == 0 then [] else Before(job, l, p - 1) + MessageAt(job, l, p - 1)
  }

  lemma BeforeStep<T>(job: Job<T>, l: nat, p: nat)
    requires job.Valid() && l < job.n && p < job.Total()
    ensures Before(job, l, p + 1) == Before(job, l, p) + MessageAt(job, l, p)
  {
  }

  ghost predicate GrowsTo<U>(h: seq<seq<U>>, i: nat)
    requires 0 < i < |h|
  {
    h[i - 1] <= h[i]
  }

  /** Where each stretch is the beginning of the next, it is the beginning of every later one. */
  lemma {:induction false} Growing<U>(h: seq<seq<U>>, p: nat, p': nat) returns (rest: seq<U>)
    requires p <= p' < |h| && forall i | 0 < i < |h| :: GrowsTo(h, i)
    ensures h[p'] == h[p] + rest
    decreases p'
  {
    if p < p' {
      var soFar := Growing(h, p, p' - 1);
      assert GrowsTo(h, p');
    }
    rest := h[p'][|h[p]|..];
  }

  /** The stream up to a later step is the stream up to step `p` and the rest. */
  lemma BeforeGrows<T>(job: Job<T>, l: nat, p: nat, p': nat) returns (rest: seq<Item<T>>)
    requires job.Valid() && l < job.n && p <= p' <= job.Total()
    ensures Before(job, l, p') == Before(job, l, p) + rest
  {
    var h := seq(job.Total() + 1, i requires 0 <= i <= job.Total() => Before(job, l, i));
    forall i | 0 < i < |h| ensures GrowsTo(h, i) {
      BeforeStep(job, l, i - 1);
    }
    rest := Growing(h, p, p');
  }

  lemma PositionInside<T>(job: Job<T>, r: nat, k: Rank<T>)
    requires job.Valid() && Pc(job, r, k)
    ensures Position(job, k) <= job.Total()
  {
    if k.call < |job.calls| {
      job.BaseMonotone(k.call, |job.calls|);
    }
  }

  /** The first `i` elements of the message of the rank's step, after everything before. */
  ghost function Prefix<T>(job: Job<T>, l: nat, r: nat, k: Rank<T>, i: nat): seq<Item<T>>
    requires job.Valid() && l < job.n && Pc(job, r, k)
    requires if k.mode.Idle? then i == 0 else i <= job.Length(k.call)
  {
    PositionInside(job, r, k);
    Before(job, l, Position(job, k)) +
    if k.mode.Idle? then [] else Message(job, l, k.call, k.step)[..i]
  }

  ghost function ElementsAt<T>(job: Job<T>, r: nat, k: Rank<T>, i: nat): nat
    requires job.Valid() && Pc(job, r, k)
  {
    PositionInside(job, r, k);
    job.ElementsBefore(Position(job, k)) + i
  }

  /** All that was pushed on a link is what was pulled and what the socket holds. */
  ghost predicate Link<T>(job: Job<T>, l: nat, kl: Rank<T>, r: nat, kr: Rank<T>)
    requires job.Valid() && l < job.n && r < job.n && Pc(job, l, kl) && Pc(job, r, kr)
  {
    Prefix(job, l, l, kl, kl.sent) == Prefix(job, l, r, kr, kr.recved) + kr.pipe
  }

  // ----- Memory

  /** The synchronous round whose value cell (`c`, `j`) holds. */
  function Age<T>(job: Job<T>, r: nat, k: Rank<T>, c: nat, j: nat): (s: nat)
    requires job.n >= 2 && r < job.n && k.step < RingSteps(job.n)
    ensures s <= RingSteps(job.n)
  {
    if c == RecvChunk(r, job.n, k.step) && (if k.step < job.n - 1 then k.mode.Sum? && j < k.mode.i else j < k.recved)
    then k.step + 1
    else k.step
  }

  ghost predicate Staged<T>(a: Input<T>, r: nat, k: Rank<T>)
    requires a.Valid() && r < a.n && k.step < a.n - 1
  {
    forall j | 0 <= j < a.chunk && j < k.recved ::
      j in k.stage && k.stage[j] == Val(a, Left(r, a.n), k.step, RecvChunk(r, a.n, k.step), j)
  }

  ghost predicate Memory<T>(job: Job<T>, r: nat, k: Rank<T>)
    requires job.Valid() && r < job.n && Pc(job, r, k)
  {
    if !k.mode.Idle? && job.Reduces(k.call) then
      var a := job.calls[k.call].input;
      && a.IsBuffer(k.buf)
      && (forall c, j | 0 <= c < a.n && 0 <= j < a.chunk :: k.buf[c][j] == Val(a, r, Age(job, r, k, c, j), c, j))
      && (k.step < job.n - 1 ==> Staged(a, r, k))
    else
      job.LastReduce(k.call) >= 0 ==> Holds(job.calls[job.LastReduce(k.call)].input, r, k.buf)
  }

  ghost predicate Pair<T>(job: Job<T>, sys: System<T>, r: nat)
    requires job.Valid() && Shape(job, sys) && r < job.n
  {
    Link(job, Left(r, job.n), sys[Left(r, job.n)], r, sys[r]) && Memory(job, r, sys[r])
  }

  ghost predicate Inv<T>(job: Job<T>, sys: System<T>)
    requires job.Valid()
  {
    Shape(job, sys) && forall r | 0 <= r < job.n :: Pair(job, sys, r)
  }

  // ----- A rank's own actions

  /** Neither end of the rank's two streams moves. */
  ghost predicate SameStreams<T>(job: Job<T>, r: nat, k: Rank<T>, k': Rank<T>)
    requires job.Valid() && r < job.n && Pc(job, r, k)
  {
    && Pc(job, r, k')
    && k'.pipe == k.pipe
    && Prefix(job, r, r, k', k'.sent) == Prefix(job, r, r, k, k.sent)
    && Prefix(job, Left(r, job.n), r, k', k'.recved) == Prefix(job, Left(r, job.n), r, k, k.recved)
  }

  /** A finished message is everything before the next step. */
  lemma WholePrefix<T>(job: Job<T>, l: nat, r: nat, k: Rank<T>)
    requires job.Valid() && l < job.n && Pc(job, r, k) && !k.mode.Idle?
    ensures Position(job, k) + 1 <= job.Total()
    ensures Prefix(job, l, r, k, job.Length(k.call)) == Before(job, l, Position(job, k) + 1)
  {
    PositionInside(job, r, k);
    MessageAtPosition(job, l, k.call, k.step);
    BeforeStep(job, l, Position(job, k));
    WholeSlice(Message(job, l, k.call, k.step));
  }

  lemma WholeSlice<U>(m: seq<U>)
    ensures m[..|m|] == m
  {
  }

  /** Before its first element a step's prefix is everything before it. */
  lemma EmptyPrefix<T>(job: Job<T>, l: nat, r: nat, k: Rank<T>)
    requires job.Valid() && l < job.n && Pc(job, r, k)
    ensures Position(job, k) <= job.Total()
    ensures Prefix(job, l, r, k, 0) == Before(job, l, Position(job, k))
  {
    PositionInside(job, r, k);
  }

  lemma AdvanceMoves<T>(job: Job<T>, r: nat, k: Rank<T>)
    requires job.Valid() && r < job.n && Pc(job, r, k) && !k.mode.Idle?
    ensures var k' := Advance(job, r, k);
            && Pc(job, r, k') && k'.sent == 0 && k'.recved == 0 && k'.pipe == k.pipe
            && Position(job, k') == Position(job, k) + 1
  {
  }

  lemma AdvanceStreams<T>(job: Job<T>, r: nat, k: Rank<T>)
    requires job.Valid() && r < job.n && Pc(job, r, k) && !k.mode.Idle?
    requires k.sent == k.recved == job.Length(k.call)
    ensures SameStreams(job, r, k, Advance(job, r, k))
  {
    var k' := Advance(job, r, k);
    AdvanceMoves(job, r, k);
    WholePrefix(job, r, r, k);
    WholePrefix(job, Left(r, job.n), r, k);
    EmptyPrefix(job, r, r, k');
    EmptyPrefix(job, Left(r, job.n), r, k');
  }

  /** A prefix is a matter of the step alone. */
  lemma SamePlacePrefix<T>(job: Job<T>, l: nat, r: nat, k: Rank<T>, k': Rank<T>, i: nat)
    requires job.Valid() && l < job.n && Pc(job, r, k) && Pc(job, r, k') && k'.call == k.call && k'.step == k.step
    requires k'.mode.Idle? == k.mode.Idle? && if k.mode.Idle? then i == 0 else i <= job.Length(k.call)
    ensures Prefix(job, l, r, k', i) == Prefix(job, l, r, k, i)
  {
  }

  lemma SamePlaceStreams<T>(job: Job<T>, r: nat, k: Rank<T>, k': Rank<T>)
    requires job.Valid() && r < job.n && Pc(job, r, k) && Pc(job, r, k')
    requires k'.call == k.call && k'.step == k.step && k'.sent == k.sent && k'.recved == k.recved && k'.pipe == k.pipe
    ensures SameStreams(job, r, k, k')
  {
    if k.mode.Idle? || k'.mode.Idle? {
      EmptyPrefix(job, r, r, k);
      EmptyPrefix(job, r, r, k');
      EmptyPrefix(job, Left(r, job.n), r, k);
      EmptyPrefix(job, Left(r, job.n), r, k');
    }
  }

  /** Does the action end the step? */
  predicate Ends<T>(job: Job<T>, r: nat, k: Rank<T>)
    requires k.call <= |job.calls|
  {
    && !k.mode.Idle? && k.call < |job.calls|
    && k.sent == k.recved == job.Length(k.call)
    && (if job.Scatters(k.call, k.step) then k.mode.Sum? && k.mode.i == job.Length(k.call)
        else k.mode == if SendsFirst(r) then Recv else Send)
  }

  lemma ActKeepsStreams<T>(job: Job<T>, r: nat, k: Rank<T>)
    requires job.Valid() && r < job.n && Pc(job, r, k) && CanAct(job, r, k)
    ensures SameStreams(job, r, k, DoAct(job, r, k))
  {
    if Ends(job, r, k) {
      AdvanceStreams(job, r, k);
    } else {
      SamePlaceStreams(job, r, k, DoAct(job, r, k));
    }
  }

  lemma AdvanceKeepsMemory<T>(job: Job<T>, r: nat, k: Rank<T>)
    requires job.Valid() && r < job.n && Pc(job, r, k) && !k.mode.Idle? && Memory(job, r, k)
    requires k.sent == k.recved == job.Length(k.call)
    requires job.Scatters(k.call, k.step) ==> k.mode.Sum? && k.mode.i == job.Length(k.call)
    ensures Pc(job, r, Advance(job, r, k)) && Memory(job, r, Advance(job, r, k))
  {
    if job.Reduces(k.call) {
      var a := job.calls[k.call].input;
      var k' := Advance(job, r, k);
      forall c, j | 0 <= c < job.n && 0 <= j < a.chunk
        ensures k.buf[c][j] == Val(a, r, k.step + 1, c, j)
        ensures k.step + 1 < job.Steps(k.call) ==> Age(job, r, k', c, j) == k.step + 1
      {
        StepIsDone(job, a, r, k, c, j);
      }
    }
  }

  /** At the end of a step every cell is one round on. */
  lemma StepIsDone<T>(job: Job<T>, a: Input<T>, r: nat, k: Rank<T>, c: nat, j: nat)
    requires job.Valid() && r < job.n && Pc(job, r, k) && !k.mode.Idle? && job.Reduces(k.call)
    requires a == job.calls[k.call].input && c < job.n && j < a.chunk && k.recved == a.chunk
    requires job.Scatters(k.call, k.step) ==> k.mode.Sum? && k.mode.i == a.chunk
    ensures Val(a, r, k.step + 1, c, j) == Val(a, r, Age(job, r, k, c, j), c, j)
    ensures k.step + 1 < RingSteps(job.n) ==> Age(job, r, Begin(r, k.(step := k.step + 1)), c, j) == k.step + 1
  {
    RoundFrame(a, r, k.step, c, j);
  }

  lemma SumKeepsMemory<T>(job: Job<T>, r: nat, k: Rank<T>)
    requires job.Valid() && r < job.n && Pc(job, r, k) && Memory(job, r, k)
    requires k.mode.Sum? && k.mode.i < job.Length(k.call)
    ensures CanAct(job, r, k)
    ensures Pc(job, r, DoAct(job, r, k)) && Memory(job, r, DoAct(job, r, k))
  {
    var a := job.calls[k.call].input;
    var d := RecvChunk(r, job.n, k.step);
    var i := k.mode.i;
    assert Staged(a, r, k);
    var k' := DoAct(job, r, k);
    RoundFrame(a, r, k.step, d, i);
    forall c, j | 0 <= c < job.n && 0 <= j < a.chunk
      ensures Age(job, r, k', c, j) == if c == d && j == i then k.step + 1 else Age(job, r, k, c, j)
    {
    }
  }

  lemma ActKeepsMemory<T>(job: Job<T>, r: nat, k: Rank<T>)
    requires job.Valid() && r < job.n && Pc(job, r, k) && CanAct(job, r, k) && Memory(job, r, k)
    ensures Pc(job, r, DoAct(job, r, k)) && Memory(job, r, DoAct(job, r, k))
  {
    if k.mode.Sum? && k.mode.i < job.Length(k.call) {
      SumKeepsMemory(job, r, k);
    } else if Ends(job, r, k) {
      AdvanceKeepsMemory(job, r, k);
    } else if k.mode.Idle? {
      EnterKeepsMemory(job, r, k);
    } else {
      TurnKeepsMemory(job, r, k, DoAct(job, r, k));
    }
  }

  lemma EnterKeepsMemory<T>(job: Job<T>, r: nat, k: Rank<T>)
    requires job.Valid() && r < job.n && Pc(job, r, k) && CanAct(job, r, k) && Memory(job, r, k) && k.mode.Idle?
    ensures Pc(job, r, DoAct(job, r, k)) && Memory(job, r, DoAct(job, r, k))
  {
  }

  /** From sending to receiving, from receiving to sending, or on to summing. */
  lemma TurnKeepsMemory<T>(job: Job<T>, r: nat, k: Rank<T>, k': Rank<T>)
    requires job.Valid() && r < job.n && Pc(job, r, k) && Memory(job, r, k) && Pc(job, r, k')
    requires !k.mode.Idle? && !k.mode.Sum? && k' == k.(mode := k'.mode)
    requires k'.mode.Send? || k'.mode.Recv? || k'.mode == Sum(0)
    ensures Memory(job, r, k')
  {
    if job.Reduces(k.call) {
      forall c, j | 0 <= c < job.n && 0 <= j < job.Length(k.call)
        ensures Age(job, r, k', c, j) == Age(job, r, k, c, j)
      {
      }
    }
  }

  // ----- Elements on the streams

  /** Every prefix is a prefix of the whole stream. */
  lemma PrefixOfAll<T>(job: Job<T>, l: nat, r: nat, k: Rank<T>, i: nat)
    requires job.Valid() && l < job.n && Pc(job, r, k)
    requires if k.mode.Idle? then i == 0 else i <= job.Length(k.call)
    ensures Prefix(job, l, r, k, i) <= Before(job, l, job.Total())
  {
    PositionInside(job, r, k);
    if k.mode.Idle? {
      EmptyPrefix(job, l, r, k);
      var rest := BeforeGrows(job, l, Position(job, k), job.Total());
    } else {
      WholePrefix(job, l, r, k);
      var p := Position(job, k) + 1;
      var rest := BeforeGrows(job, l, p, job.Total());
      SlicePrefix(Before(job, l, Position(job, k)), Message(job, l, k.call, k.step), i, rest,
                  Before(job, l, job.Total()));
    }
  }

  lemma SlicePrefix<U>(u: seq<U>, m: seq<U>, i: nat, rest: seq<U>, all: seq<U>)
    requires i <= |m| && all == (u + m[..|m|]) + rest
    ensures u + m[..i] <= all
  {
  }

  lemma PrefixNext<T>(job: Job<T>, l: nat, r: nat, k: Rank<T>, i: nat)
    requires job.Valid() && l < job.n && Pc(job, r, k) && !k.mode.Idle? && i < job.Length(k.call)
    ensures Prefix(job, l, r, k, i + 1) == Prefix(job, l, r, k, i) + [Message(job, l, k.call, k.step)[i]]
  {
    var m := Message(job, l, k.call, k.step);
    assert m[..i + 1] == m[..i] + [m[i]];
  }

  lemma NextInPrefix<U>(sent: seq<U>, taken: seq<U>, pipe: seq<U>, next: U, all: seq<U>)
    requires sent == taken + pipe && pipe != [] && sent <= all && taken + [next] <= all
    ensures pipe[0] == next
  {
    assert sent[|taken|] == pipe[0];
    assert (taken + [next])[|taken|] == next;
    assert all[|taken|] == next;
  }

  /** The stream has no boundaries, yet the next element out of the socket is the next
      element of the very message the receiver is reading. */
  lemma SocketIsAligned<T>(job: Job<T>, l: nat, kl: Rank<T>, r: nat, kr: Rank<T>)
    requires job.Valid() && l < job.n && r < job.n && Pc(job, l, kl) && Pc(job, r, kr) && Link(job, l, kl, r, kr)
    requires kr.pipe != [] && !kr.mode.Idle? && kr.recved < job.Length(kr.call)
    ensures kr.pipe[0] == Message(job, l, kr.call, kr.step)[kr.recved]
  {
    PrefixOfAll(job, l, l, kl, kl.sent);
    PrefixOfAll(job, l, r, kr, kr.recved + 1);
    PrefixNext(job, l, r, kr, kr.recved);
    NextInPrefix(Prefix(job, l, l, kl, kl.sent), Prefix(job, l, r, kr, kr.recved), kr.pipe,
                 Message(job, l, kr.call, kr.step)[kr.recved], Before(job, l, job.Total()));
  }

  /** What goes out is the message the step stands for. */
  lemma OutgoingIsMessage<T>(job: Job<T>, r: nat, k: Rank<T>)
    requires job.Valid() && r < job.n && Pc(job, r, k) && Memory(job, r, k)
    requires k.mode.Send? && k.sent < job.Length(k.call)
    ensures job.Reduces(k.call) ==> var c := SendChunk(r, job.n, k.step); c < |k.buf| && k.sent < |k.buf[c]|
    ensures Outgoing(job, r, k) == Message(job, r, k.call, k.step)[k.sent]
  {
    if job.Reduces(k.call) {
      SendIsNotRecv(r, job.n, k.step);
      assert Age(job, r, k, SendChunk(r, job.n, k.step), k.sent) == k.step;
    }
  }

  lemma PushPrefix<T>(job: Job<T>, l: nat, k: Rank<T>)
    requires job.Valid() && l < job.n && Pc(job, l, k) && Memory(job, l, k)
    requires k.mode.Send? && k.sent < job.Length(k.call)
    ensures job.Reduces(k.call) ==> var c := SendChunk(l, job.n, k.step); c < |k.buf| && k.sent < |k.buf[c]|
    ensures Pc(job, l, OneMore(k))
    ensures Prefix(job, l, l, OneMore(k), k.sent + 1) == Prefix(job, l, l, k, k.sent) + [Outgoing(job, l, k)]
  {
    OutgoingIsMessage(job, l, k);
    PrefixNext(job, l, l, k, k.sent);
    SamePlacePrefix(job, l, l, k, OneMore(k), k.sent + 1);
  }

  lemma TailGrows<U>(sent: seq<U>, taken: seq<U>, pipe: seq<U>, next: U)
    requires sent == taken + pipe
    ensures sent + [next] == taken + (pipe + [next])
  {
  }

  lemma PushedLink<T>(job: Job<T>, l: nat, kl: Rank<T>, kl': Rank<T>, r: nat, kr: Rank<T>, v: Item<T>)
    requires job.Valid() && l < job.n && r < job.n
    requires Pc(job, l, kl) && Pc(job, l, kl') && Pc(job, r, kr) && Link(job, l, kl, r, kr)
    requires Prefix(job, l, l, kl', kl'.sent) == Prefix(job, l, l, kl, kl.sent) + [v]
    ensures Pc(job, r, Pushed(kr, v)) && Link(job, l, kl', r, Pushed(kr, v))
  {
    SamePlacePrefix(job, l, r, kr, Pushed(kr, v), kr.recved);
    TailGrows(Prefix(job, l, l, kl, kl.sent), Prefix(job, l, r, kr, kr.recved), kr.pipe, v);
  }

  lemma PushLink<T>(job: Job<T>, l: nat, kl: Rank<T>, r: nat, kr: Rank<T>)
    requires job.Valid() && l < job.n && r < job.n && Pc(job, l, kl) && Pc(job, r, kr) && Link(job, l, kl, r, kr)
    requires Memory(job, l, kl) && kl.mode.Send? && kl.sent < job.Length(kl.call)
    ensures job.Reduces(kl.call) ==> var c := SendChunk(l, job.n, kl.step); c < |kl.buf| && kl.sent < |kl.buf[c]|
    ensures Pc(job, l, OneMore(kl)) && Pc(job, r, Pushed(kr, Outgoing(job, l, kl)))
    ensures Link(job, l, OneMore(kl), r, Pushed(kr, Outgoing(job, l, kl)))
  {
    PushPrefix(job, l, kl);
    PushedLink(job, l, kl, OneMore(kl), r, kr, Outgoing(job, l, kl));
  }

  lemma PullPrefix<T>(job: Job<T>, l: nat, r: nat, k: Rank<T>)
    requires job.Valid() && l < job.n && r < job.n && Pc(job, r, k) && CanPull(job, r, k)
    ensures Pc(job, r, DoPull(job, r, k))
    ensures Prefix(job, l, r, DoPull(job, r, k), k.recved + 1) ==
            Prefix(job, l, r, k, k.recved) + [Message(job, l, k.call, k.step)[k.recved]]
  {
    PrefixNext(job, l, r, k, k.recved);
    SamePlacePrefix(job, l, r, k, DoPull(job, r, k), k.recved + 1);
  }

  lemma HeadMoves<U>(sent: seq<U>, taken: seq<U>, pipe: seq<U>, next: U)
    requires sent == taken + pipe && pipe != [] && pipe[0] == next
    ensures sent == (taken + [next]) + pipe[1..]
  {
    assert pipe == [next] + pipe[1..];
  }

  lemma PulledLink<T>(job: Job<T>, l: nat, kl: Rank<T>, r: nat, kr: Rank<T>, kr': Rank<T>, next: Item<T>)
    requires job.Valid() && l < job.n && r < job.n
    requires Pc(job, l, kl) && Pc(job, r, kr) && Pc(job, r, kr') && Link(job, l, kl, r, kr)
    requires kr.pipe != [] && kr.pipe[0] == next && kr'.pipe == kr.pipe[1..]
    requires Prefix(job, l, r, kr', kr'.recved) == Prefix(job, l, r, kr, kr.recved) + [next]
    ensures Link(job, l, kl, r, kr')
  {
    HeadMoves(Prefix(job, l, l, kl, kl.sent), Prefix(job, l, r, kr, kr.recved), kr.pipe, next);
  }

  lemma PullLink<T>(job: Job<T>, l: nat, kl: Rank<T>, r: nat, kr: Rank<T>)
    requires job.Valid() && l < job.n && r < job.n && Pc(job, l, kl) && Pc(job, r, kr) && Link(job, l, kl, r, kr)
    requires CanPull(job, r, kr)
    ensures Pc(job, r, DoPull(job, r, kr)) && Link(job, l, kl, r, DoPull(job, r, kr))
  {
    SocketIsAligned(job, l, kl, r, kr);
    PullPrefix(job, l, r, kr);
    PulledLink(job, l, kl, r, kr, DoPull(job, r, kr), Message(job, l, kr.call, kr.step)[kr.recved]);
  }

  /** The element a rank reads has the value the synchronous round gives it. */
  lemma IncomingValue<T>(job: Job<T>, kl: Rank<T>, r: nat, kr: Rank<T>)
    requires job.Valid() && r < job.n && Pc(job, Left(r, job.n), kl) && Pc(job, r, kr)
    requires Link(job, Left(r, job.n), kl, r, kr) && CanPull(job, r, kr) && job.Reduces(kr.call)
    ensures var a := job.calls[kr.call].input;
            kr.pipe[0].v == Val(a, Left(r, a.n), kr.step, RecvChunk(r, a.n, kr.step), kr.recved)
  {
    SocketIsAligned(job, Left(r, job.n), kl, r, kr);
    EndsAgree(r, job.n, kr.step);
  }

  lemma PullAge<T>(job: Job<T>, r: nat, k: Rank<T>, k': Rank<T>, c: nat, j: nat)
    requires job.Valid() && r < job.n && k.step < RingSteps(job.n) && !k.mode.Sum?
    requires k'.mode == k.mode && k'.step == k.step && k'.recved == k.recved + 1
    ensures Age(job, r, k', c, j) ==
            if k.step >= job.n - 1 && c == RecvChunk(r, job.n, k.step) && j == k.recved then k.step + 1
            else Age(job, r, k, c, j)
  {
  }

  lemma PullIntoBuffer<T>(job: Job<T>, r: nat, k: Rank<T>)
    requires job.Valid() && r < job.n && Pc(job, r, k) && CanPull(job, r, k) && Memory(job, r, k)
    requires job.Reduces(k.call)
    requires var a := job.calls[k.call].input;
             k.pipe[0].v == Val(a, Left(r, a.n), k.step, RecvChunk(r, a.n, k.step), k.recved)
    ensures var a := job.calls[k.call].input; var k' := DoPull(job, r, k);
            && a.IsBuffer(k'.buf)
            && forall c, j | 0 <= c < a.n && 0 <= j < a.chunk :: k'.buf[c][j] == Val(a, r, Age(job, r, k', c, j), c, j)
  {
    var a := job.calls[k.call].input;
    var k' := DoPull(job, r, k);
    forall c, j | 0 <= c < a.n && 0 <= j < a.chunk
      ensures k'.buf[c][j] == Val(a, r, Age(job, r, k', c, j), c, j)
    {
      var here := k.step >= job.n - 1 && c == RecvChunk(r, job.n, k.step) && j == k.recved;
      assert k'.buf[c][j] == if here then k.pipe[0].v else k.buf[c][j];
      PulledCell(job, a, r, k, k', c, j, k'.buf[c][j]);
    }
  }

  lemma PulledCell<T>(job: Job<T>, a: Input<T>, r: nat, k: Rank<T>, k': Rank<T>, c: nat, j: nat, v: T)
    requires job.Valid() && r < job.n && k.step < RingSteps(job.n) && !k.mode.Sum?
    requires k'.mode == k.mode && k'.step == k.step && k'.recved == k.recved + 1
    requires a.Valid() && a.n == job.n && c < a.n && j < a.chunk
    requires v == if k.step >= job.n - 1 && c == RecvChunk(r, job.n, k.step) && j == k.recved
                  then Val(a, Left(r, a.n), k.step, c, j) else Val(a, r, Age(job, r, k, c, j), c, j)
    ensures v == Val(a, r, Age(job, r, k', c, j), c, j)
  {
    PullAge(job, r, k, k', c, j);
    RoundFrame(a, r, k.step, c, j);
  }

  lemma PullIntoStage<T>(job: Job<T>, r: nat, k: Rank<T>)
    requires job.Valid() && r < job.n && Pc(job, r, k) && CanPull(job, r, k) && Memory(job, r, k)
    requires job.Scatters(k.call, k.step)
    requires var a := job.calls[k.call].input;
             k.pipe[0].v == Val(a, Left(r, a.n), k.step, RecvChunk(r, a.n, k.step), k.recved)
    ensures Staged(job.calls[k.call].input, r, DoPull(job, r, k))
  {
    assert Staged(job.calls[k.call].input, r, k);
  }

  lemma PullKeepsMemory<T>(job: Job<T>, kl: Rank<T>, r: nat, kr: Rank<T>)
    requires job.Valid() && r < job.n && Pc(job, Left(r, job.n), kl) && Pc(job, r, kr)
    requires Link(job, Left(r, job.n), kl, r, kr) && CanPull(job, r, kr) && Memory(job, r, kr)
    ensures Pc(job, r, DoPull(job, r, kr)) && Memory(job, r, DoPull(job, r, kr))
  {
    if job.Reduces(kr.call) {
      IncomingValue(job, kl, r, kr);
      PullIntoBuffer(job, r, kr);
      if kr.step < job.n - 1 {
        PullIntoStage(job, r, kr);
      }
    }
  }

  // ----- Every event keeps the invariant

  lemma LinkFrame<T>(job: Job<T>, l: nat, kl: Rank<T>, kl': Rank<T>, r: nat, kr: Rank<T>, kr': Rank<T>)
    requires job.Valid() && l < job.n && r < job.n
    requires Pc(job, l, kl) && Pc(job, r, kr) && Pc(job, l, kl') && Pc(job, r, kr')
    requires Link(job, l, kl, r, kr)
    requires Prefix(job, l, l, kl', kl'.sent) == Prefix(job, l, l, kl, kl.sent)
    requires Prefix(job, l, r, kr', kr'.recved) == Prefix(job, l, r, kr, kr.recved) && kr'.pipe == kr.pipe
    ensures Link(job, l, kl', r, kr')
  {
    assert Prefix(job, l, l, kl, kl.sent) == Prefix(job, l, r, kr, kr.recved) + kr.pipe;
  }

  /** A change at one rank that its right neighbour cannot see. */
  lemma OneRankChanges<T>(job: Job<T>, sys: System<T>, r: nat, k': Rank<T>)
    requires job.Valid() && Inv(job, sys) && r < job.n && Pc(job, r, k')
    requires Link(job, Left(r, job.n), sys[Left(r, job.n)], r, k') && Memory(job, r, k')
    requires Prefix(job, r, r, k', k'.sent) == Prefix(job, r, r, sys[r], sys[r].sent)
    ensures Inv(job, sys[r := k'])
  {
    var sys' := sys[r := k'];
    forall x | 0 <= x < job.n
      ensures Pair(job, sys', x)
    {
      assert Pair(job, sys, x);
      if x != r {
        var y := Left(x, job.n);
        LinkFrame(job, y, sys[y], sys'[y], x, sys[x], sys'[x]);
      }
    }
  }

  lemma ActKeepsInv<T>(job: Job<T>, capacity: nat, sys: System<T>, r: nat)
    requires job.Valid() && Inv(job, sys) && Enabled(job, capacity, sys, Act(r))
    ensures Inv(job, Step(job, capacity, sys, Act(r)))
  {
    var l := Left(r, job.n);
    assert Pair(job, sys, r);
    ActKeepsStreams(job, r, sys[r]);
    ActKeepsMemory(job, r, sys[r]);
    LinkFrame(job, l, sys[l], sys[l], r, sys[r], DoAct(job, r, sys[r]));
    OneRankChanges(job, sys, r, DoAct(job, r, sys[r]));
  }

  lemma PullSides<T>(job: Job<T>, kl: Rank<T>, r: nat, k: Rank<T>)
    requires job.Valid() && r < job.n && Pc(job, Left(r, job.n), kl) && Pc(job, r, k)
    requires Link(job, Left(r, job.n), kl, r, k) && CanPull(job, r, k) && Memory(job, r, k)
    ensures var k' := DoPull(job, r, k);
            && Pc(job, r, k') && Link(job, Left(r, job.n), kl, r, k') && Memory(job, r, k')
            && Prefix(job, r, r, k', k'.sent) == Prefix(job, r, r, k, k.sent)
  {
    PullLink(job, Left(r, job.n), kl, r, k);
    PullKeepsMemory(job, kl, r, k);
    SamePlacePrefix(job, r, r, k, DoPull(job, r, k), k.sent);
  }

  lemma PullKeepsInv<T>(job: Job<T>, capacity: nat, sys: System<T>, r: nat)
    requires job.Valid() && Inv(job, sys) && Enabled(job, capacity, sys, Pull(r))
    ensures Inv(job, Step(job, capacity, sys, Pull(r)))
  {
    assert Pair(job, sys, r);
    PullSides(job, sys[Left(r, job.n)], r, sys[r]);
    OneRankChanges(job, sys, r, DoPull(job, r, sys[r]));
  }

  /** Two states neither end of whose streams differs, as far as the neighbours see. */
  ghost predicate Indistinct<T>(job: Job<T>, r: nat, k: Rank<T>, k': Rank<T>, asSender: bool, asReceiver: bool)
    requires job.Valid() && r < job.n && Pc(job, r, k) && Pc(job, r, k')
  {
    && (asSender ==> Prefix(job, r, r, k', k'.sent) == Prefix(job, r, r, k, k.sent))
    && (asReceiver ==>
          && k'.pipe == k.pipe
          && Prefix(job, Left(r, job.n), r, k', k'.recved) == Prefix(job, Left(r, job.n), r, k, k.recved))
  }

  lemma PushKeepsOwn<T>(job: Job<T>, r: nat, k: Rank<T>, x: nat, kx: Rank<T>, v: Item<T>)
    requires job.Valid() && r < job.n && x < job.n && Pc(job, r, k) && Pc(job, x, kx)
    requires Memory(job, r, k) && Memory(job, x, kx) && k.mode.Send? && k.sent < job.Length(k.call)
    ensures Pc(job, r, OneMore(k)) && Memory(job, r, OneMore(k))
    ensures Pc(job, x, Pushed(kx, v)) && Memory(job, x, Pushed(kx, v))
    ensures Indistinct(job, r, k, OneMore(k), false, true) && Indistinct(job, x, kx, Pushed(kx, v), true, false)
  {
    SameMemory(job, r, k, OneMore(k));
    SameMemory(job, x, kx, Pushed(kx, v));
    SamePlacePrefix(job, Left(r, job.n), r, k, OneMore(k), k.recved);
    SamePlacePrefix(job, x, x, kx, Pushed(kx, v), kx.sent);
  }

  lemma SameMemory<T>(job: Job<T>, r: nat, k: Rank<T>, k': Rank<T>)
    requires job.Valid() && r < job.n && Pc(job, r, k) && Pc(job, r, k') && Memory(job, r, k)
    requires k' == k.(sent := k'.sent, pipe := k'.pipe)
    ensures Memory(job, r, k')
  {
    if !k.mode.Idle? && job.Reduces(k.call) {
      forall c, j | 0 <= c < job.n && 0 <= j < job.Length(k.call)
        ensures Age(job, r, k', c, j) == Age(job, r, k, c, j)
      {
      }
    }
  }

  lemma TwoRanksShape<T>(job: Job<T>, sys: System<T>, r: nat, k': Rank<T>, x: nat, kx': Rank<T>)
    requires job.Valid() && Shape(job, sys) && r < job.n && x < job.n && Pc(job, r, k') && Pc(job, x, kx')
    ensures Shape(job, sys[x := kx'][r := k'])
  {
  }

  /** A push concerns the sender and the receiver's socket; the other links see
      nothing. */
  lemma TwoRanksChange<T>(job: Job<T>, sys: System<T>, sys': System<T>, r: nat, z: nat)
    requires job.Valid() && Shape(job, sys) && Shape(job, sys') && r < job.n && z < job.n && Pair(job, sys, z)
    requires var x := Right(r, job.n);
             && sys' == sys[x := sys'[x]][r := sys'[r]]
             && Memory(job, r, sys'[r]) && Memory(job, x, sys'[x]) && Link(job, r, sys'[r], x, sys'[x])
             && Indistinct(job, r, sys[r], sys'[r], false, true) && Indistinct(job, x, sys[x], sys'[x], true, false)
    ensures Pair(job, sys', z)
  {
    if z != Right(r, job.n) {
      OtherLinks(job, sys, sys', r, z);
    }
  }

  lemma OtherLinks<T>(job: Job<T>, sys: System<T>, sys': System<T>, r: nat, z: nat)
    requires job.Valid() && Shape(job, sys) && Shape(job, sys') && r < job.n && z < job.n && z != Right(r, job.n)
    requires Pair(job, sys, z) && Memory(job, z, sys'[z])
    requires var x, y := Right(r, job.n), Left(z, job.n);
             && (z == r || sys'[z] == sys[z]) && (y == x || y == r || sys'[y] == sys[y])
             && Indistinct(job, r, sys[r], sys'[r], false, true) && Indistinct(job, x, sys[x], sys'[x], true, false)
    ensures Pair(job, sys', z)
  {
    var y := Left(z, job.n);
    assert y != r;
    OtherLink(job, y, sys[y], sys'[y], z, sys[z], sys'[z]);
  }

  /** A link whose sender's and receiver's streams stand where they stood. */
  lemma OtherLink<T>(job: Job<T>, y: nat, ky: Rank<T>, ky': Rank<T>, z: nat, kz: Rank<T>, kz': Rank<T>)
    requires job.Valid() && z < job.n && y == Left(z, job.n)
    requires Pc(job, y, ky) && Pc(job, y, ky') && Pc(job, z, kz) && Pc(job, z, kz') && Link(job, y, ky, z, kz)
    requires ky' == ky || Indistinct(job, y, ky, ky', true, false)
    requires kz' == kz || Indistinct(job, z, kz, kz', false, true)
    ensures Link(job, y, ky', z, kz')
  {
    LinkFrame(job, y, ky, ky', z, kz, kz');
  }

  lemma TwoRanksKeepInv<T>(job: Job<T>, sys: System<T>, r: nat, k': Rank<T>, kx': Rank<T>)
    requires job.Valid() && Inv(job, sys) && r < job.n
    requires var x := Right(r, job.n);
             && Pc(job, r, k') && Pc(job, x, kx') && Memory(job, r, k') && Memory(job, x, kx')
             && Link(job, r, k', x, kx')
             && Indistinct(job, r, sys[r], k', false, true) && Indistinct(job, x, sys[x], kx', true, false)
    ensures Inv(job, sys[Right(r, job.n) := kx'][r := k'])
  {
    var sys' := sys[Right(r, job.n) := kx'][r := k'];
    TwoRanksShape(job, sys, r, k', Right(r, job.n), kx');
    forall z | 0 <= z < job.n
      ensures Pair(job, sys', z)
    {
      assert Pair(job, sys, z);
      TwoRanksChange(job, sys, sys', r, z);
    }
  }

  lemma PushSides<T>(job: Job<T>, capacity: nat, sys: System<T>, r: nat)
    requires job.Valid() && Inv(job, sys) && Enabled(job, capacity, sys, Push(r))
    ensures var x := Right(r, job.n);
            var k', kx' := OneMore(sys[r]), Pushed(sys[x], Outgoing(job, r, sys[r]));
            && Pc(job, r, k') && Pc(job, x, kx') && Memory(job, r, k') && Memory(job, x, kx')
            && Link(job, r, k', x, kx')
            && Indistinct(job, r, sys[r], k', false, true) && Indistinct(job, x, sys[x], kx', true, false)
  {
    var x := Right(r, job.n);
    assert Pair(job, sys, r) && Pair(job, sys, x);
    PushLink(job, r, sys[r], x, sys[x]);
    PushKeepsOwn(job, r, sys[r], x, sys[x], Outgoing(job, r, sys[r]));
  }

  lemma PushKeepsInv<T>(job: Job<T>, capacity: nat, sys: System<T>, r: nat)
    requires job.Valid() && Inv(job, sys) && Enabled(job, capacity, sys, Push(r))
    ensures Inv(job, Step(job, capacity, sys, Push(r)))
  {
    PushSides(job, capacity, sys, r);
    TwoRanksKeepInv(job, sys, r, OneMore(sys[r]), Pushed(sys[Right(r, job.n)], Outgoing(job, r, sys[r])));
  }

  lemma StepKeepsInv<T>(job: Job<T>, capacity: nat, sys: System<T>, e: Event)
    requires job.Valid() && Inv(job, sys) && Enabled(job, capacity, sys, e)
    ensures Inv(job, Step(job, capacity, sys, e))
  {
    match e
    case Act(r) => ActKeepsInv(job, capacity, sys, r);
    case Push(r) => PushKeepsInv(job, capacity, sys, r);
    case Pull(r) => PullKeepsInv(job, capacity, sys, r);
  }

  lemma StartHasInv<T>(job: Job<T>, sys: System<T>)
    requires job.Valid() && Start(job, sys)
    ensures Inv(job, sys)
  {
    assert job.LastReduce(0) == -1 && job.Base(0) == 0;
    forall r | 0 <= r < job.n
      ensures Pc(job, r, sys[r])
    {
    }
    forall r | 0 <= r < job.n
      ensures Pair(job, sys, r)
    {
      EmptyPrefix(job, Left(r, job.n), Left(r, job.n), sys[Left(r, job.n)]);
      EmptyPrefix(job, Left(r, job.n), r, sys[r]);
    }
  }

  lemma {:induction false} RunKeepsInv<T>(job: Job<T>, capacity: nat, sys: System<T>, run: seq<Event>, end: System<T>)
    requires job.Valid() && Inv(job, sys) && Reaches(job, capacity, sys, run, end)
    ensures Inv(job, end)
    decreases |run|
  {
    if run != [] {
      StepKeepsInv(job, capacity, sys, run[0]);
      RunKeepsInv(job, capacity, Step(job, capacity, sys, run[0]), run[1..], end);
    }
  }
}
