/**
 What every interleaving of the posted-receive path keeps.
 */
module PostedRingProof {
  import opened RingIndex
  import opened RingSpec
  import opened RingProgram
  import opened PostedRing

  // ----- Counting: every counter below runs over the whole list of calls.

  /** Has the rank gone past reaping this step's receive? */
  predicate Reaped<T>(k: Rank<T>) {
    k.phase.Rearm? || k.phase.PollSend? || k.phase.Sum?
  }

  function Position<T>(job: Job<T>, k: Rank<T>): nat
    requires job.n >= 2 && k.call <= |job.calls|
  {
    job.Base(k.call) + k.step
  }

  /** Sends posted so far. */
  function Sends<T>(job: Job<T>, k: Rank<T>): nat
    requires job.n >= 2 && k.call <= |job.calls|
  {
    Position(job, k) + if k.phase.PollRecv? || Reaped(k) then 1 else 0
  }

  /** Send completions reaped so far. */
  function SendsReaped<T>(job: Job<T>, k: Rank<T>): nat
    requires job.n >= 2 && k.call <= |job.calls|
  {
    Position(job, k) + if k.phase.Sum? then 1 else 0
  }

  /** The step of the current call that the latest posted receive is for, plus one. */
  function Armed<T>(job: Job<T>, k: Rank<T>): nat
    requires job.n >= 2 && k.call <= |job.calls|
  {
    k.step +
    if k.phase.Idle? || k.phase.Arm? then 0
    else if (k.phase.PollSend? || k.phase.Sum?) && k.call < |job.calls| && k.step + 1 < job.Steps(k.call) then 2
    else 1
  }

  /** Messages of the current call delivered here so far. */
  function Got<T>(k: Rank<T>): nat {
    k.step + (if Reaped(k) then 1 else 0) + k.received
  }

  /** Messages delivered here so far. */
  function Taken<T>(job: Job<T>, k: Rank<T>): nat
    requires job.n >= 2 && k.call <= |job.calls|
  {
    job.Base(k.call) + Got(k)
  }

  /** Receives posted so far. */
  function Posted<T>(job: Job<T>, k: Rank<T>): nat
    requires job.n >= 2 && k.call <= |job.calls|
  {
    job.Base(k.call) + Armed(job, k)
  }

  /** What the two ends of the link from rank `l` to rank `r` know of each other. */
  ghost predicate Link<T>(job: Job<T>, l: nat, kl: Rank<T>, r: nat, kr: Rank<T>)
    requires job.Valid() && l < job.n && r < job.n && Pc(job, kl) && Pc(job, kr)
  {
    && |kl.sq| + Taken(job, kr) == Sends(job, kl)
    && |kr.rq| + Taken(job, kr) == Posted(job, kr)
    && SendsReaped(job, kl) + kl.sent + kl.unacked == Taken(job, kr)
    && (kl.sq != [] ==>
          && (kl.phase.PollRecv? || kl.phase.Rearm? || kl.phase.PollSend?)
          && kl.sq == [SendWr(job, l, kl.call, kl.step)])
    && (kr.rq != [] ==>
          && !kr.phase.Idle?
          && Got(kr) < job.Steps(kr.call)
          && kr.rq == [RecvWr(job, r, kr.call, Got(kr))])
    && kr.landed <= kr.wire.Keys
    && (kl.sq == [] ==> kr.wire == map[])
    && (kl.sq != [] ==> forall j | j in kr.wire :: j < kl.sq[0].len)
    && (kr.rq == [] ==> kr.landed == {})
  }

  // ----- Memory

  /** Has element `j` of message `m` of the current call reached this rank? */
  predicate Arrived<T>(k: Rank<T>, m: nat, j: nat) {
    m < Got(k) || (m == Got(k) && j in k.landed)
  }

  /** Has message `m` of the current all-reduce taken effect on cell (`c`, `j`)? */
  predicate Applied<T>(job: Job<T>, r: nat, k: Rank<T>, m: nat, c: nat, j: nat)
    requires job.n >= 2 && r < job.n && m < RingSteps(job.n)
  {
    && c == RecvChunk(r, job.n, m)
    && if m < job.n - 1 then k.phase.Sum? && m == k.step && j < k.phase.i else Arrived(k, m, j)
  }

  /** The synchronous round whose value cell (`c`, `j`) holds. */
  function Age<T>(job: Job<T>, r: nat, k: Rank<T>, c: nat, j: nat): (s: nat)
    requires job.n >= 2 && r < job.n && k.step < RingSteps(job.n)
    ensures s <= RingSteps(job.n)
  {
    if Applied(job, r, k, k.step, c, j) then k.step + 1
    else if k.step + 1 < RingSteps(job.n) && Applied(job, r, k, k.step + 1, c, j) then k.step + 2
    else k.step
  }

  ghost predicate Staged<T>(a: Input<T>, r: nat, k: Rank<T>, m: nat)
    requires a.Valid() && r < a.n && m < a.n - 1
  {
    forall j | 0 <= j < a.chunk && Arrived(k, m, j) ::
      (m % 2, j) in k.stage && k.stage[(m % 2, j)] == Val(a, Left(r, a.n), m, RecvChunk(r, a.n, m), j)
  }

  ghost predicate Buffered<T>(job: Job<T>, a: Input<T>, r: nat, k: Rank<T>)
    requires a.Valid() && job.n == a.n && r < a.n && k.step < RingSteps(a.n)
  {
    && a.IsBuffer(k.buf)
    && forall c, j | 0 <= c < a.n && 0 <= j < a.chunk :: k.buf[c][j] == Val(a, r, Age(job, r, k, c, j), c, j)
  }

  ghost predicate Memory<T>(job: Job<T>, r: nat, k: Rank<T>)
    requires job.Valid() && r < job.n && Pc(job, k)
  {
    if !k.phase.Idle? && job.Reduces(k.call) then
      var a := job.calls[k.call].input;
      && Buffered(job, a, r, k)
      && (k.step < job.n - 1 ==> Staged(a, r, k, k.step))
      && (k.step + 1 < job.n - 1 ==> Staged(a, r, k, k.step + 1))
    else
      job.LastReduce(k.call) >= 0 ==> Holds(job.calls[job.LastReduce(k.call)].input, r, k.buf)
  }

  /** Every element on the link is the one its message stands for. */
  ghost predicate Wire<T>(job: Job<T>, l: nat, kl: Rank<T>, kr: Rank<T>)
    requires job.Valid() && l < job.n && Pc(job, kl)
  {
    kl.sq != [] && !kl.phase.Idle? && job.Reduces(kl.call) ==>
      var a := job.calls[kl.call].input;
      forall j | j in kr.wire && j < a.chunk ::
        kr.wire[j] == Elem(Val(a, l, kl.step, SendChunk(l, job.n, kl.step), j))
  }

  ghost predicate Pair<T>(job: Job<T>, sys: System<T>, r: nat)
    requires job.Valid() && Shape(job, sys) && r < job.n
  {
    var l := Left(r, job.n);
    && Link(job, l, sys[l], r, sys[r])
    && Wire(job, l, sys[l], sys[r])
    && Memory(job, r, sys[r])
  }

  ghost predicate Inv<T>(job: Job<T>, sys: System<T>)
    requires job.Valid()
  {
    Shape(job, sys) && forall r | 0 <= r < job.n :: Pair(job, sys, r)
  }

  // ----- A rank's own actions

  /** How an action moves the counters and the queues. */
  ghost predicate Counts<T>(job: Job<T>, r: nat, k: Rank<T>, k': Rank<T>)
    requires job.Valid() && r < job.n && Pc(job, k)
  {
    && Pc(job, k')
    && Taken(job, k') == Taken(job, k)
    && Sends(job, k') == Sends(job, k) + |k'.sq| - |k.sq|
    && Posted(job, k') == Posted(job, k) + |k'.rq| - |k.rq|
    && SendsReaped(job, k') + k'.sent == SendsReaped(job, k) + k.sent
    && k'.unacked == k.unacked && k'.wire == k.wire && k'.landed == k.landed
    && (k'.call != k.call ==> k'.phase.Idle?)
    && (k'.call != k.call || k'.step != k.step ==> k'.phase.Send? || k'.phase.Idle?)
    && (k'.sq != k.sq ==>
          && k.phase.Send? && k'.phase.PollRecv? && k'.step == k.step && k'.call == k.call
          && k'.sq == k.sq + [SendWr(job, r, k.call, k.step)])
    && (k'.rq != k.rq ==>
          && !k'.phase.Idle? && k'.call == k.call
          && Armed(job, k) < job.Steps(k.call)
          && k'.rq == k.rq + [RecvWr(job, r, k.call, Armed(job, k))])
  }

  lemma AdvanceCounts<T>(job: Job<T>, r: nat, k: Rank<T>)
    requires job.Valid() && r < job.n && Pc(job, k)
    requires if job.Scatters(k.call, k.step) then k.phase.Sum? else k.phase.PollSend? && k.sent > 0
    ensures var k' := if k.phase.Sum? then Advance(job, k) else Advance(job, k.(sent := k.sent - 1));
            Counts(job, r, k, k')
  {
  }

  lemma PostCounts<T>(job: Job<T>, r: nat, k: Rank<T>)
    requires job.Valid() && r < job.n && Pc(job, k) && CanAct(job, r, k)
    requires k.phase.Arm? || k.phase.Send? || k.phase.Rearm?
    ensures Counts(job, r, k, DoAct(job, r, k))
  {
  }

  lemma ReapCounts<T>(job: Job<T>, r: nat, k: Rank<T>)
    requires job.Valid() && r < job.n && Pc(job, k) && CanAct(job, r, k)
    requires k.phase.Idle? || k.phase.PollRecv?
    ensures Counts(job, r, k, DoAct(job, r, k))
  {
  }

  lemma ActCounts<T>(job: Job<T>, r: nat, k: Rank<T>)
    requires job.Valid() && r < job.n && Pc(job, k) && CanAct(job, r, k)
    ensures Counts(job, r, k, DoAct(job, r, k))
  {
    match k.phase
    case Arm => PostCounts(job, r, k);
    case Send => PostCounts(job, r, k);
    case Rearm => PostCounts(job, r, k);
    case Idle => ReapCounts(job, r, k);
    case PollRecv => ReapCounts(job, r, k);
    case PollSend =>
      if !job.Scatters(k.call, k.step) {
        AdvanceCounts(job, r, k);
      }
    case Sum(i) =>
      if i == job.Length(k.call) {
        AdvanceCounts(job, r, k);
      }
  }

  lemma ActKeepsRight<T>(job: Job<T>, l: nat, kl: Rank<T>, kl': Rank<T>, r: nat, kr: Rank<T>)
    requires job.Valid() && l < job.n && r < job.n && Pc(job, kl) && Pc(job, kr)
    requires Counts(job, l, kl, kl') && Link(job, l, kl, r, kr)
    ensures Link(job, l, kl', r, kr)
  {
  }

  lemma ActKeepsLeft<T>(job: Job<T>, l: nat, kl: Rank<T>, r: nat, kr: Rank<T>, kr': Rank<T>)
    requires job.Valid() && l < job.n && r < job.n && Pc(job, kl) && Pc(job, kr)
    requires Counts(job, r, kr, kr') && Link(job, l, kl, r, kr)
    ensures Link(job, l, kl, r, kr')
  {
  }

  /** No more arrives than was posted for. */
  ghost predicate Bounded<T>(job: Job<T>, k: Rank<T>)
    requires job.Valid() && Pc(job, k)
  {
    Got(k) <= Armed(job, k) && (k.landed != {} ==> Got(k) < Armed(job, k))
  }

  lemma LinkBounds<T>(job: Job<T>, l: nat, kl: Rank<T>, r: nat, kr: Rank<T>)
    requires job.Valid() && l < job.n && r < job.n && Pc(job, kl) && Pc(job, kr) && Link(job, l, kl, r, kr)
    ensures Bounded(job, kr)
  {
  }

  lemma MemoryFrame<T>(job: Job<T>, r: nat, k: Rank<T>, k': Rank<T>)
    requires job.Valid() && r < job.n && Pc(job, k) && Pc(job, k') && Memory(job, r, k)
    requires k'.call == k.call && k'.step == k.step && k'.buf == k.buf && k'.stage == k.stage
    requires k'.phase.Idle? == k.phase.Idle?
    requires k'.phase == k.phase || (!k.phase.Sum? && (k'.phase.Sum? ==> k'.phase.i == 0))
    requires !k.phase.Idle? && job.Reduces(k.call) ==>
               forall m, j | 0 <= j < job.Length(k.call) :: Arrived(k', m, j) == Arrived(k, m, j)
    ensures Memory(job, r, k')
  {
    if !k.phase.Idle? && job.Reduces(k.call) {
      forall c, j | 0 <= c < job.n && 0 <= j < job.Length(k.call)
        ensures Age(job, r, k', c, j) == Age(job, r, k, c, j)
      {
      }
    }
  }

  lemma EnterKeepsMemory<T>(job: Job<T>, r: nat, k: Rank<T>)
    requires job.Valid() && r < job.n && Pc(job, k) && CanAct(job, r, k) && Bounded(job, k)
    requires Memory(job, r, k) && k.phase.Idle?
    ensures Pc(job, DoAct(job, r, k)) && Memory(job, r, DoAct(job, r, k))
  {
    if job.Reduces(k.call) {
      var k' := DoAct(job, r, k);
      forall c, j | 0 <= c < job.n && 0 <= j < job.Length(k.call)
        ensures Age(job, r, k', c, j) == 0
      {
      }
    }
  }

  lemma SumKeepsMemory<T>(job: Job<T>, r: nat, k: Rank<T>)
    requires job.Valid() && r < job.n && Pc(job, k) && Bounded(job, k) && Memory(job, r, k)
    requires k.phase.Sum? && k.phase.i < job.Length(k.call)
    ensures CanAct(job, r, k)
    ensures Pc(job, DoAct(job, r, k)) && Memory(job, r, DoAct(job, r, k))
  {
    var a := job.calls[k.call].input;
    assert Staged(a, r, k, k.step) && Arrived(k, k.step, k.phase.i);
    SumKeepsBuffer(job, a, r, k, DoAct(job, r, k));
    assert Got(DoAct(job, r, k)) == Got(k);
  }

  /** Adding an element takes its cell one round on, and no other. */
  lemma SumKeepsBuffer<T>(job: Job<T>, a: Input<T>, r: nat, k: Rank<T>, k': Rank<T>)
    requires job.Valid() && r < job.n && Pc(job, k) && Bounded(job, k) && k.phase.Sum? && k.phase.i < job.Length(k.call)
    requires a == job.calls[k.call].input && Buffered(job, a, r, k) && Staged(a, r, k, k.step)
    requires CanAct(job, r, k) && k' == DoAct(job, r, k)
    ensures Buffered(job, a, r, k')
  {
    var d, i := RecvChunk(r, job.n, k.step), k.phase.i;
    RoundFrame(a, r, k.step, d, i);
    assert Arrived(k, k.step, i);
    forall c, j | 0 <= c < job.n && 0 <= j < a.chunk
      ensures k'.buf[c][j] == Val(a, r, Age(job, r, k', c, j), c, j)
    {
      SumAges(job, r, k, k', c, j);
    }
  }

  lemma SumAges<T>(job: Job<T>, r: nat, k: Rank<T>, k': Rank<T>, c: nat, j: nat)
    requires job.Valid() && r < job.n && Pc(job, k) && Bounded(job, k) && k.phase.Sum? && k.phase.i < job.Length(k.call)
    requires k' == k.(phase := Sum(k.phase.i + 1), buf := k'.buf) && c < job.n
    ensures var here := c == RecvChunk(r, job.n, k.step) && j == k.phase.i;
            && Age(job, r, k', c, j) == (if here then k.step + 1 else Age(job, r, k, c, j))
            && (here ==> Age(job, r, k, c, j) == k.step)
  {
  }

  /** A finished step has taken effect on the whole of its chunk and on nothing else. */
  lemma StepApplied<T>(job: Job<T>, r: nat, k: Rank<T>, c: nat, j: nat)
    requires job.Valid() && r < job.n && Pc(job, k) && !k.phase.Idle? && job.Reduces(k.call)
    requires k.phase.PollSend? || (k.phase.Sum? && k.phase.i == job.Length(k.call))
    requires job.Scatters(k.call, k.step) ==> k.phase.Sum?
    requires c < job.n && j < job.Length(k.call)
    ensures Applied(job, r, k, k.step, c, j) <==> c == RecvChunk(r, job.n, k.step)
  {
  }

  /** Nothing of the message after the next one has arrived. */
  lemma AdvanceApplied<T>(job: Job<T>, r: nat, k: Rank<T>, c: nat, j: nat)
    requires job.Valid() && r < job.n && Pc(job, k) && Bounded(job, k) && !k.phase.Idle? && job.Reduces(k.call)
    requires k.phase.PollSend? || k.phase.Sum?
    requires job.Scatters(k.call, k.step) ==> k.phase.Sum?
    requires k.step + 1 < job.Steps(k.call) && c < job.n
    ensures var k' := k.(step := k.step + 1, phase := Send);
            && Applied(job, r, k', k.step + 1, c, j) == Applied(job, r, k, k.step + 1, c, j)
            && (k.step + 2 < RingSteps(job.n) ==> !Applied(job, r, k', k.step + 2, c, j))
  {
    var k' := k.(step := k.step + 1, phase := Send);
    assert Got(k') == Got(k);
    assert !Arrived(k, k.step + 2, j);
  }

  /** A cell the finished step has not touched has the same value one round on. */
  lemma StaleIsCarried<T>(job: Job<T>, a: Input<T>, r: nat, k: Rank<T>, c: nat, j: nat)
    requires job.Valid() && r < job.n && Pc(job, k) && !k.phase.Idle?
    requires k.phase.PollSend? || (k.phase.Sum? && k.phase.i == job.Length(k.call))
    requires job.Scatters(k.call, k.step) ==> k.phase.Sum?
    requires job.Reduces(k.call) && a == job.calls[k.call].input && c < job.n && j < a.chunk
    ensures Age(job, r, k, c, j) == k.step ==> Val(a, r, k.step + 1, c, j) == Val(a, r, k.step, c, j)
  {
    StepApplied(job, r, k, c, j);
    RoundFrame(a, r, k.step, c, j);
  }

  /** Going to the next step makes every cell's round the next one at least. */
  lemma AdvanceAge<T>(job: Job<T>, a: Input<T>, r: nat, k: Rank<T>, c: nat, j: nat)
    requires job.Valid() && r < job.n && Pc(job, k) && Bounded(job, k) && !k.phase.Idle?
    requires k.phase.PollSend? || (k.phase.Sum? && k.phase.i == job.Length(k.call))
    requires job.Scatters(k.call, k.step) ==> k.phase.Sum?
    requires job.Reduces(k.call) && a == job.calls[k.call].input && c < job.n && j < a.chunk
    ensures var k' := Advance(job, k); var age := Age(job, r, k, c, j);
            && (k.step + 1 < job.Steps(k.call) ==> Age(job, r, k', c, j) == if age == k.step then k.step + 1 else age)
            && (k.step + 1 == job.Steps(k.call) ==> age <= k.step + 1)
            && (age == k.step ==> Val(a, r, k.step + 1, c, j) == Val(a, r, k.step, c, j))
  {
    StaleIsCarried(job, a, r, k, c, j);
    if k.step + 1 < job.Steps(k.call) {
      NextAge(job, r, k, c, j);
    }
  }

  lemma NextAge<T>(job: Job<T>, r: nat, k: Rank<T>, c: nat, j: nat)
    requires job.Valid() && r < job.n && Pc(job, k) && Bounded(job, k) && !k.phase.Idle? && job.Reduces(k.call)
    requires k.phase.PollSend? || (k.phase.Sum? && k.phase.i == job.Length(k.call))
    requires job.Scatters(k.call, k.step) ==> k.phase.Sum?
    requires k.step + 1 < job.Steps(k.call) && c < job.n && j < job.Length(k.call)
    ensures var k' := k.(step := k.step + 1, phase := Send); var age := Age(job, r, k, c, j);
            Age(job, r, k', c, j) == if age == k.step then k.step + 1 else age
  {
    StepApplied(job, r, k, c, j);
    AdvanceApplied(job, r, k, c, j);
    RecvAdvances(r, job.n, k.step);
  }

  lemma AdvanceKeepsMemory<T>(job: Job<T>, r: nat, k: Rank<T>)
    requires job.Valid() && r < job.n && Pc(job, k) && Bounded(job, k) && Memory(job, r, k)
    requires k.phase.PollSend? || (k.phase.Sum? && k.phase.i == job.Length(k.call))
    requires job.Scatters(k.call, k.step) ==> k.phase.Sum?
    ensures Pc(job, Advance(job, k)) && Memory(job, r, Advance(job, k))
  {
    if job.Reduces(k.call) {
      var a := job.calls[k.call].input;
      forall c, j | 0 <= c < job.n && 0 <= j < a.chunk
        ensures var k' := Advance(job, k); var age := Age(job, r, k, c, j);
            && (k.step + 1 < job.Steps(k.call) ==> Age(job, r, k', c, j) == if age == k.step then k.step + 1 else age)
            && (k.step + 1 == job.Steps(k.call) ==> age <= k.step + 1)
            && (age == k.step ==> Val(a, r, k.step + 1, c, j) == Val(a, r, k.step, c, j))
      {
        AdvanceAge(job, a, r, k, c, j);
      }
    }
  }

  lemma PostKeepsMemory<T>(job: Job<T>, r: nat, k: Rank<T>)
    requires job.Valid() && r < job.n && Pc(job, k) && CanAct(job, r, k) && Memory(job, r, k)
    requires !k.phase.Idle? && !k.phase.Sum?
    requires k.phase.PollSend? ==> job.Scatters(k.call, k.step)
    ensures Pc(job, DoAct(job, r, k)) && Memory(job, r, DoAct(job, r, k))
  {
    var k' := DoAct(job, r, k);
    assert Got(k') == Got(k);
    MemoryFrame(job, r, k, k');
  }

  lemma ActKeepsMemory<T>(job: Job<T>, r: nat, k: Rank<T>)
    requires job.Valid() && r < job.n && Pc(job, k) && CanAct(job, r, k) && Bounded(job, k) && Memory(job, r, k)
    ensures Pc(job, DoAct(job, r, k)) && Memory(job, r, DoAct(job, r, k))
  {
    if k.phase.Idle? {
      EnterKeepsMemory(job, r, k);
    } else if k.phase.Sum? && k.phase.i < job.Length(k.call) {
      SumKeepsMemory(job, r, k);
    } else if k.phase.Sum? {
      AdvanceKeepsMemory(job, r, k);
    } else if k.phase.PollSend? && !job.Scatters(k.call, k.step) {
      MemoryFrame(job, r, k, k.(sent := k.sent - 1));
      AdvanceKeepsMemory(job, r, k.(sent := k.sent - 1));
    } else {
      PostKeepsMemory(job, r, k);
    }
  }

  /** The sender's reaping, posting and moving on leave the elements on the link true
      to the message they belong to. */
  lemma ActKeepsWire<T>(job: Job<T>, l: nat, kl: Rank<T>, kl': Rank<T>, r: nat, kr: Rank<T>)
    requires job.Valid() && l < job.n && r < job.n && Pc(job, kl) && Pc(job, kr)
    requires Counts(job, l, kl, kl') && Link(job, l, kl, r, kr) && Wire(job, l, kl, kr)
    ensures Wire(job, l, kl', kr)
  {
    ActKeepsRight(job, l, kl, kl', r, kr);
  }

  // ----- The adapters

  /** The head of the link and the posted receive it meets belong to the same step of
      the same call. */
  lemma HeadsMatch<T>(job: Job<T>, l: nat, kl: Rank<T>, r: nat, kr: Rank<T>)
    requires job.Valid() && l < job.n && r < job.n && Pc(job, kl) && Pc(job, kr) && Link(job, l, kl, r, kr)
    requires kl.sq != [] && kr.rq != []
    ensures kl.call == kr.call && kl.step == Got(kr)
  {
    job.PositionUnique(kl.call, kl.step, kr.call, Got(kr));
  }

  /** With two ranks the left neighbour is the right neighbour, and the step-0 message
      must be delivered before the one that overwrites its source is sent. */
  lemma NothingAhead<T>(job: Job<T>, r: nat, kr: Rank<T>, l: nat, kl: Rank<T>)
    requires job.Valid() && r < job.n && l < job.n && Pc(job, kr) && Pc(job, kl)
    requires Link(job, l, kl, r, kr) && Link(job, r, kr, l, kl) && kl.sq != []
    ensures Got(kl) <= kl.step + 1
    ensures Got(kl) == kl.step + 1 ==> kl.landed == {} && kr.sq == []
  {
  }

  /** What the adapter fetches from a live buffer is what the buffer held when the
      send was posted. */
  lemma SourceIntact<T>(job: Job<T>, sys: System<T>, l: nat, j: nat)
    requires job.Valid() && Inv(job, sys) && l < job.n
    requires sys[l].sq != [] && job.Reduces(sys[l].call) && j < job.Length(sys[l].call)
    ensures var kl := sys[l]; var a := job.calls[kl.call].input; var c := SendChunk(l, job.n, kl.step);
            && !kl.phase.Idle? && kl.sq[0].loc == Chunk(c) && Readable(kl, Chunk(c), j)
            && kl.buf[c][j] == Val(a, l, kl.step, c, j)
  {
    var kl := sys[l];
    var c := SendChunk(l, job.n, kl.step);
    var r := Right(l, job.n);
    assert Pair(job, sys, r) && Pair(job, sys, l);
    SendIsNotRecv(l, job.n, kl.step);
    if job.n == 2 {
      NothingAhead(job, r, sys[r], l, kl);
    }
    assert Age(job, l, kl, c, j) == kl.step by {
      if kl.step + 1 < RingSteps(job.n) && kl.step + 1 >= job.n - 1 {
        SendMeetsNextRecv(l, job.n, kl.step);
      }
    }
  }

  /** An all-gather element landing changes the round of its own cell only. */
  lemma LandAge<T>(job: Job<T>, r: nat, k: Rank<T>, k': Rank<T>, m: nat, j: nat, c: nat, i: nat)
    requires job.Valid() && r < job.n && Pc(job, k) && Bounded(job, k) && !k.phase.Idle?
    requires k.step <= m <= k.step + 1 && m == Got(k) && job.n - 1 <= m < RingSteps(job.n)
    requires k'.phase == k.phase && k'.step == k.step && k'.received == k.received && k'.landed == k.landed + {j}
    requires c < job.n
    ensures Age(job, r, k', c, i) == if c == RecvChunk(r, job.n, m) && i == j then m + 1 else Age(job, r, k, c, i)
  {
    if m == k.step + 1 {
      RecvAdvances(r, job.n, k.step);
    }
  }

  lemma LandInBuffer<T>(job: Job<T>, r: nat, k: Rank<T>, m: nat, j: nat, v: T)
    requires job.Valid() && r < job.n && Pc(job, k) && Memory(job, r, k) && Bounded(job, k)
    requires !k.phase.Idle? && job.Reduces(k.call) && k.step <= m <= k.step + 1 && m == Got(k)
    requires job.n - 1 <= m < RingSteps(job.n) && j < job.Length(k.call)
    requires var a := job.calls[k.call].input; var d := RecvChunk(r, job.n, m);
             v == Val(a, Left(r, a.n), m, d, j)
    ensures var d := RecvChunk(r, job.n, m);
            && Writable(k, Chunk(d), j, Elem(v))
            && var k' := WriteItem(k, Chunk(d), j, Elem(v)).(landed := k.landed + {j});
               Pc(job, k') && Memory(job, r, k')
  {
    var a := job.calls[k.call].input;
    var d := RecvChunk(r, job.n, m);
    var k' := WriteItem(k, Chunk(d), j, Elem(v)).(landed := k.landed + {j});
    RoundFrame(a, r, m, d, j);
    assert Buffered(job, a, r, k') by {
      forall c, i | 0 <= c < job.n && 0 <= i < a.chunk
        ensures k'.buf[c][i] == Val(a, r, Age(job, r, k', c, i), c, i)
      {
        LandAge(job, r, k, k', m, j, c, i);
      }
    }
  }

  lemma LandInStage<T>(job: Job<T>, r: nat, k: Rank<T>, m: nat, j: nat, v: T)
    requires job.Valid() && r < job.n && Pc(job, k) && Memory(job, r, k) && Bounded(job, k)
    requires !k.phase.Idle? && job.Reduces(k.call) && k.step <= m <= k.step + 1 && m == Got(k)
    requires m < job.n - 1 && j < job.Length(k.call)
    requires var a := job.calls[k.call].input; var d := RecvChunk(r, job.n, m);
             v == Val(a, Left(r, a.n), m, d, j)
    ensures var k' := WriteItem(k, Half(m % 2), j, Elem(v)).(landed := k.landed + {j});
            Pc(job, k') && Memory(job, r, k')
  {
    var a := job.calls[k.call].input;
    var k' := WriteItem(k, Half(m % 2), j, Elem(v)).(landed := k.landed + {j});
    assert Buffered(job, a, r, k') by {
      forall c, i | 0 <= c < job.n && 0 <= i < a.chunk
        ensures Age(job, r, k', c, i) == Age(job, r, k, c, i)
      {
        StageAge(job, r, k, k', m, c, i);
      }
    }
    StageStands(a, r, k, k', m, j, v, k.step);
    if k.step + 1 < job.n - 1 {
      StageStands(a, r, k, k', m, j, v, k.step + 1);
    }
  }

  /** The element that lands is staged where it belongs, and what was staged stays. */
  lemma StageStands<T>(a: Input<T>, r: nat, k: Rank<T>, k': Rank<T>, m: nat, j: nat, v: T, s: nat)
    requires a.Valid() && r < a.n && m < a.n - 1 && j < a.chunk
    requires s < a.n - 1 && k.step <= s <= k.step + 1 && k.step <= m <= k.step + 1
    requires m == Got(k) && Staged(a, r, k, s) && v == Val(a, Left(r, a.n), m, RecvChunk(r, a.n, m), j)
    requires k' == k.(stage := k.stage[(m % 2, j) := v], landed := k.landed + {j})
    ensures Staged(a, r, k', s)
  {
    forall i | 0 <= i < a.chunk && Arrived(k', s, i)
      ensures (s % 2, i) in k'.stage && k'.stage[(s % 2, i)] == Val(a, Left(r, a.n), s, RecvChunk(r, a.n, s), i)
    {
      assert (s == m && i == j) || Arrived(k, s, i);
    }
  }

  /** An element landing in `stage` changes no cell of the buffer. */
  lemma StageAge<T>(job: Job<T>, r: nat, k: Rank<T>, k': Rank<T>, m: nat, c: nat, i: nat)
    requires job.Valid() && r < job.n && k.step < RingSteps(job.n) && m == Got(k) && m < job.n - 1
    requires k'.phase == k.phase && k'.step == k.step && k'.received == k.received
    ensures Age(job, r, k', c, i) == Age(job, r, k, c, i)
  {
  }

  // ----- Every event keeps the invariant

  /** Two states a left neighbour cannot tell apart. */
  ghost predicate SameRightSide<T>(k: Rank<T>, k': Rank<T>) {
    && k'.call == k.call && k'.step == k.step && k'.phase == k.phase
    && k'.rq == k.rq && k'.received == k.received && k'.wire == k.wire && k'.landed == k.landed
  }

  /** Two states a right neighbour cannot tell apart. */
  ghost predicate SameLeftSide<T>(k: Rank<T>, k': Rank<T>) {
    && k'.call == k.call && k'.step == k.step && k'.phase == k.phase
    && k'.sq == k.sq && k'.sent == k.sent && k'.unacked == k.unacked
  }

  lemma LinkFrame<T>(job: Job<T>, l: nat, kl: Rank<T>, kl': Rank<T>, r: nat, kr: Rank<T>, kr': Rank<T>)
    requires job.Valid() && l < job.n && r < job.n && Pc(job, kl) && Pc(job, kr) && Pc(job, kl') && Pc(job, kr')
    requires Link(job, l, kl, r, kr) && Wire(job, l, kl, kr)
    requires SameLeftSide(kl, kl') && SameRightSide(kr, kr')
    ensures Link(job, l, kl', r, kr') && Wire(job, l, kl', kr')
  {
  }

  /** A change at one rank concerns its two links and its own memory. */
  lemma OneRankChanges<T>(job: Job<T>, sys: System<T>, r: nat, k': Rank<T>)
    requires job.Valid() && Inv(job, sys) && r < job.n && Pc(job, k')
    requires var l := Left(r, job.n); Link(job, l, sys[l], r, k') && Wire(job, l, sys[l], k')
    requires var x := Right(r, job.n); Link(job, r, k', x, sys[x]) && Wire(job, r, k', sys[x])
    requires Memory(job, r, k')
    ensures Inv(job, sys[r := k'])
  {
    var sys' := sys[r := k'];
    forall x | 0 <= x < job.n
      ensures Pair(job, sys', x)
    {
      assert Pair(job, sys, x);
      if Left(x, job.n) == r {
        assert x == Right(r, job.n);
      }
    }
  }

  lemma ActKeepsInv<T>(job: Job<T>, sys: System<T>, r: nat)
    requires job.Valid() && Inv(job, sys) && Enabled(job, sys, Act(r))
    ensures Inv(job, Step(job, sys, Act(r)))
  {
    var l, x, k := Left(r, job.n), Right(r, job.n), sys[r];
    var k' := DoAct(job, r, k);
    assert Pair(job, sys, r) && Pair(job, sys, x);
    ActCounts(job, r, k);
    LinkBounds(job, l, sys[l], r, k);
    ActKeepsLeft(job, l, sys[l], r, k, k');
    ActKeepsRight(job, r, k, k', x, sys[x]);
    ActKeepsWire(job, r, k, k', x, sys[x]);
    ActKeepsMemory(job, r, k);
    OneRankChanges(job, sys, r, k');
  }

  /** A change that the right neighbour cannot see. */
  lemma ReceiverChanges<T>(job: Job<T>, sys: System<T>, r: nat, k': Rank<T>)
    requires job.Valid() && Inv(job, sys) && r < job.n && Pc(job, k') && SameLeftSide(sys[r], k')
    requires var l := Left(r, job.n); Link(job, l, sys[l], r, k') && Wire(job, l, sys[l], k')
    requires Memory(job, r, k')
    ensures Inv(job, sys[r := k'])
  {
    var x := Right(r, job.n);
    assert Pair(job, sys, x);
    LinkFrame(job, r, sys[r], k', x, sys[x], sys[x]);
    OneRankChanges(job, sys, r, k');
  }

  lemma FetchLink<T>(job: Job<T>, l: nat, kl: Rank<T>, r: nat, k: Rank<T>, j: nat, v: Item<T>)
    requires job.Valid() && l < job.n && r < job.n && Pc(job, kl) && Pc(job, k)
    requires Link(job, l, kl, r, k) && Wire(job, l, kl, k) && kl.sq != [] && j < kl.sq[0].len
    requires job.Reduces(kl.call) ==>
               v == Elem(Val(job.calls[kl.call].input, l, kl.step, SendChunk(l, job.n, kl.step), j))
    ensures var k' := k.(wire := k.wire[j := v]); Link(job, l, kl, r, k') && Wire(job, l, kl, k')
  {
  }

  lemma FetchKeepsInv<T>(job: Job<T>, sys: System<T>, r: nat, j: nat)
    requires job.Valid() && Inv(job, sys) && Enabled(job, sys, Fetch(r, j))
    ensures Inv(job, Step(job, sys, Fetch(r, j)))
  {
    var l, k := Left(r, job.n), sys[r];
    var kl := sys[l];
    assert Pair(job, sys, r);
    if job.Reduces(kl.call) {
      SourceIntact(job, sys, l, j);
    }
    var v := ReadItem(kl, kl.sq[0].loc, j);
    var k' := k.(wire := k.wire[j := v]);
    FetchLink(job, l, kl, r, k, j, v);
    MemoryFrame(job, r, k, k');
    ReceiverChanges(job, sys, r, k');
  }

  lemma LandKeepsMemory<T>(job: Job<T>, sys: System<T>, r: nat, j: nat)
    requires job.Valid() && Inv(job, sys) && Enabled(job, sys, Land(r, j))
    ensures var k := sys[r]; var k' := WriteItem(k, k.rq[0].loc, j, k.wire[j]).(landed := k.landed + {j});
            Pc(job, k') && Memory(job, r, k')
  {
    var l, k := Left(r, job.n), sys[r];
    var kl := sys[l];
    assert Pair(job, sys, r);
    LinkBounds(job, l, kl, r, k);
    HeadsMatch(job, l, kl, r, k);
    if job.Reduces(k.call) {
      var m := Got(k);
      EndsAgree(r, job.n, m);
      var v := k.wire[j].v;
      if m < job.n - 1 {
        LandInStage(job, r, k, m, j, v);
      } else {
        LandInBuffer(job, r, k, m, j, v);
      }
    } else {
      MemoryFrame(job, r, k, k.(landed := k.landed + {j}));
    }
  }

  lemma LandLink<T>(job: Job<T>, l: nat, kl: Rank<T>, r: nat, k: Rank<T>, k': Rank<T>, j: nat)
    requires job.Valid() && l < job.n && r < job.n && Pc(job, kl) && Pc(job, k) && Pc(job, k')
    requires Link(job, l, kl, r, k) && Wire(job, l, kl, k) && k.rq != [] && j in k.wire
    requires SameRightSide(k.(landed := k.landed + {j}), k')
    ensures Link(job, l, kl, r, k') && Wire(job, l, kl, k')
  {
  }

  lemma LandKeepsInv<T>(job: Job<T>, sys: System<T>, r: nat, j: nat)
    requires job.Valid() && Inv(job, sys) && Enabled(job, sys, Land(r, j))
    ensures Inv(job, Step(job, sys, Land(r, j)))
  {
    var l, k := Left(r, job.n), sys[r];
    var k' := WriteItem(k, k.rq[0].loc, j, k.wire[j]).(landed := k.landed + {j});
    assert Pair(job, sys, r);
    LandKeepsMemory(job, sys, r, j);
    LandLink(job, l, sys[l], r, k, k', j);
    ReceiverChanges(job, sys, r, k');
  }

  lemma AckLink<T>(job: Job<T>, r: nat, k: Rank<T>, x: nat, kx: Rank<T>)
    requires job.Valid() && r < job.n && x < job.n && Pc(job, k) && Pc(job, kx) && k.unacked > 0
    requires Link(job, r, k, x, kx) && Wire(job, r, k, kx)
    ensures Pc(job, Acked(k)) && Link(job, r, Acked(k), x, kx) && Wire(job, r, Acked(k), kx)
  {
  }

  lemma AckOwnSide<T>(job: Job<T>, l: nat, kl: Rank<T>, r: nat, k: Rank<T>)
    requires job.Valid() && r < job.n && l < job.n && Pc(job, kl) && Pc(job, k) && k.unacked > 0
    requires Link(job, l, kl, r, k) && Wire(job, l, kl, k) && Memory(job, r, k)
    ensures Pc(job, Acked(k)) && Link(job, l, kl, r, Acked(k)) && Wire(job, l, kl, Acked(k))
    ensures Memory(job, r, Acked(k))
  {
    LinkFrame(job, l, kl, kl, r, k, Acked(k));
    MemoryFrame(job, r, k, Acked(k));
  }

  lemma AckKeepsInv<T>(job: Job<T>, sys: System<T>, r: nat)
    requires job.Valid() && Inv(job, sys) && Enabled(job, sys, Ack(r))
    ensures Inv(job, Step(job, sys, Ack(r)))
  {
    var l, x, k := Left(r, job.n), Right(r, job.n), sys[r];
    assert Pair(job, sys, r) && Pair(job, sys, x);
    AckLink(job, r, k, x, sys[x]);
    AckOwnSide(job, l, sys[l], r, k);
    OneRankChanges(job, sys, r, Acked(k));
  }

  lemma DeliverLink<T>(job: Job<T>, l: nat, kl: Rank<T>, r: nat, k: Rank<T>)
    requires job.Valid() && l < job.n && r < job.n && Pc(job, kl) && Pc(job, k) && Link(job, l, kl, r, k)
    requires kl.sq != [] && k.rq != []
    ensures Pc(job, Consumed(kl)) && Pc(job, Delivered(k))
    ensures Link(job, l, Consumed(kl), r, Delivered(k)) && Wire(job, l, Consumed(kl), Delivered(k))
  {
  }

  lemma DeliverKeepsMemory<T>(job: Job<T>, sys: System<T>, r: nat)
    requires job.Valid() && Inv(job, sys) && Enabled(job, sys, Deliver(r))
    ensures var k' := Delivered(sys[r]); Pc(job, k') && Memory(job, r, k')
  {
    var l := Left(r, job.n);
    assert Pair(job, sys, r);
    HeadsMatch(job, l, sys[l], r, sys[r]);
    MemoryFrame(job, r, sys[r], Delivered(sys[r]));
  }

  lemma SenderStays<T>(job: Job<T>, l: nat, kl: Rank<T>)
    requires job.Valid() && l < job.n && Pc(job, kl) && Memory(job, l, kl) && kl.sq != []
    ensures Pc(job, Consumed(kl)) && Memory(job, l, Consumed(kl)) && SameRightSide(kl, Consumed(kl))
  {
    MemoryFrame(job, l, kl, Consumed(kl));
  }

  /** Delivery concerns the sender and the receiver; the other links see nothing. */
  lemma TwoRanksChange<T>(job: Job<T>, sys: System<T>, sys': System<T>, r: nat, x: nat)
    requires job.Valid() && Shape(job, sys) && Shape(job, sys') && r < job.n && x < job.n && Pair(job, sys, x)
    requires var l := Left(r, job.n);
             && sys' == sys[r := sys'[r]][l := sys'[l]]
             && SameLeftSide(sys[r], sys'[r]) && SameRightSide(sys[l], sys'[l])
             && Link(job, l, sys'[l], r, sys'[r]) && Wire(job, l, sys'[l], sys'[r])
             && Memory(job, r, sys'[r]) && Memory(job, l, sys'[l])
    ensures Pair(job, sys', x)
  {
    if x != r {
      var y := Left(x, job.n);
      LinkFrame(job, y, sys[y], sys'[y], x, sys[x], sys'[x]);
    }
  }

  lemma DeliverKeepsInv<T>(job: Job<T>, sys: System<T>, r: nat)
    requires job.Valid() && Inv(job, sys) && Enabled(job, sys, Deliver(r))
    ensures Inv(job, Step(job, sys, Deliver(r)))
  {
    var l := Left(r, job.n);
    var k, kl := Delivered(sys[r]), Consumed(sys[l]);
    assert Pair(job, sys, r) && Pair(job, sys, l);
    DeliverLink(job, l, sys[l], r, sys[r]);
    DeliverKeepsMemory(job, sys, r);
    SenderStays(job, l, sys[l]);
    TwoRanksKeepInv(job, sys, r, k, kl);
  }

  lemma TwoRanksKeepInv<T>(job: Job<T>, sys: System<T>, r: nat, k': Rank<T>, kl': Rank<T>)
    requires job.Valid() && Inv(job, sys) && r < job.n && Pc(job, k') && Pc(job, kl')
    requires var l := Left(r, job.n);
             && SameLeftSide(sys[r], k') && SameRightSide(sys[l], kl')
             && Link(job, l, kl', r, k') && Wire(job, l, kl', k')
             && Memory(job, r, k') && Memory(job, l, kl')
    ensures Inv(job, sys[r := k'][Left(r, job.n) := kl'])
  {
    var sys' := sys[r := k'][Left(r, job.n) := kl'];
    TwoRanksShape(job, sys, r, k', Left(r, job.n), kl');
    forall x | 0 <= x < job.n
      ensures Pair(job, sys', x)
    {
      assert Pair(job, sys, x);
      TwoRanksChange(job, sys, sys', r, x);
    }
  }

  lemma TwoRanksShape<T>(job: Job<T>, sys: System<T>, r: nat, k': Rank<T>, l: nat, kl': Rank<T>)
    requires job.Valid() && Shape(job, sys) && r < job.n && l < job.n && Pc(job, k') && Pc(job, kl')
    ensures Shape(job, sys[r := k'][l := kl'])
  {
  }

  lemma StepKeepsInv<T>(job: Job<T>, sys: System<T>, e: Event)
    requires job.Valid() && Inv(job, sys) && Enabled(job, sys, e)
    ensures Inv(job, Step(job, sys, e))
  {
    match e
    case Act(r) => ActKeepsInv(job, sys, r);
    case Fetch(r, j) => FetchKeepsInv(job, sys, r, j);
    case Land(r, j) => LandKeepsInv(job, sys, r, j);
    case Deliver(r) => DeliverKeepsInv(job, sys, r);
    case Ack(r) => AckKeepsInv(job, sys, r);
  }

  lemma StartHasInv<T>(job: Job<T>, sys: System<T>)
    requires job.Valid() && Start(job, sys)
    ensures Inv(job, sys)
  {
    forall r | 0 <= r < job.n
      ensures Pc(job, sys[r])
    {
    }
    forall r | 0 <= r < job.n
      ensures Pair(job, sys, r)
    {
      assert job.LastReduce(0) == -1 && job.Base(0) == 0;
    }
  }

  lemma {:induction false} RunKeepsInv<T>(job: Job<T>, sys: System<T>, run: seq<Event>, end: System<T>)
    requires job.Valid() && Inv(job, sys) && Reaches(job, sys, run, end)
    ensures Inv(job, end)
    decreases |run|
  {
    if run != [] {
      StepKeepsInv(job, sys, run[0]);
      RunKeepsInv(job, Step(job, sys, run[0]), run[1..], end);
    }
  }
}
