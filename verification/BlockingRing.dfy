/**
 The blocking path of the collectives over byte streams, as one global step system.

 Each rank sends and receives whole chunks element by element. A socket holds up to
 `capacity` elements; with capacity 0 an element only moves while the receiver waits
 for it. The stream knows no message boundaries. Even ranks send first, odd ranks
 receive first.
 */
module BlockingRing {
  import opened RingIndex
  import opened RingSpec
  import opened RingProgram

  datatype Mode = Idle | Send | Recv | Sum(i: nat)

  datatype Rank<T> = Rank(
    call: nat, step: nat, mode: Mode,
    sent: nat, recved: nat,         // elements of this step's messages moved so far
    buf: seq<seq<T>>, stage: map<nat, T>,
    pipe: seq<Item<T>>)             // the socket from the left neighbour

  type System<T> = seq<Rank<T>>

  datatype Event = Act(r: nat) | Push(r: nat) | Pull(r: nat)

  predicate SendsFirst(r: nat) {
    r % 2 == 0
  }

  ghost predicate Pc<T>(job: Job<T>, r: nat, k: Rank<T>)
    requires job.n >= 2
  {
    && k.call <= |job.calls|
    && (k.mode.Idle? ==> k.step == 0 && k.sent == 0 && k.recved == 0)
    && (!k.mode.Idle? ==>
          && k.call < |job.calls| && k.step < job.Steps(k.call)
          && k.sent <= job.Length(k.call) && k.recved <= job.Length(k.call))
    && (k.mode.Send? ==> k.recved == if SendsFirst(r) then 0 else job.Length(k.call))
    && (k.mode.Recv? ==> k.sent == if SendsFirst(r) then job.Length(k.call) else 0)
    && (k.mode.Sum? ==>
          && job.Scatters(k.call, k.step) && k.mode.i <= job.Length(k.call)
          && k.sent == k.recved == job.Length(k.call))
  }

  ghost predicate Shape<T>(job: Job<T>, sys: System<T>)
    requires job.n >= 2
  {
    |sys| == job.n && forall r | 0 <= r < job.n :: Pc(job, r, sys[r])
  }

  function Begin<T>(r: nat, k: Rank<T>): Rank<T> {
    k.(mode := if SendsFirst(r) then Send else Recv, sent := 0, recved := 0)
  }

  function Advance<T>(job: Job<T>, r: nat, k: Rank<T>): Rank<T>
    requires job.n >= 2 && k.call < |job.calls|
  {
    if k.step + 1 < job.Steps(k.call) then Begin(r, k.(step := k.step + 1))
    else k.(call := k.call + 1, step := 0, mode := Idle, sent := 0, recved := 0)
  }

  function Exchanged<T>(job: Job<T>, r: nat, k: Rank<T>): Rank<T>
    requires job.n >= 2 && k.call < |job.calls|
  {
    if job.Scatters(k.call, k.step) then k.(mode := Sum(0)) else Advance(job, r, k)
  }

  ghost predicate CanAct<T>(job: Job<T>, r: nat, k: Rank<T>)
    requires job.Valid() && r < job.n && Pc(job, r, k)
  {
    match k.mode
    case Idle => k.call < |job.calls|
    case Send => k.sent == job.Length(k.call)
    case Recv => k.recved == job.Length(k.call)
    case Sum(i) =>
      var d := RecvChunk(r, job.n, k.step);
      i < job.Length(k.call) ==> i in k.stage && d < |k.buf| && i < |k.buf[d]|
  }

  ghost function DoAct<T>(job: Job<T>, r: nat, k: Rank<T>): Rank<T>
    requires job.Valid() && r < job.n && Pc(job, r, k) && CanAct(job, r, k)
  {
    match k.mode
    case Idle =>
      if job.Reduces(k.call) then Begin(r, k.(buf := job.calls[k.call].input.x[r])) else Begin(r, k)
    case Send => if SendsFirst(r) then k.(mode := Recv) else Exchanged(job, r, k)
    case Recv => if SendsFirst(r) then Exchanged(job, r, k) else k.(mode := Send)
    case Sum(i) =>
      if i < job.Length(k.call) then
        var d := RecvChunk(r, job.n, k.step);
        var v := (job.calls[k.call].input.add)(k.buf[d][i], k.stage[i]);
        k.(mode := Sum(i + 1), buf := k.buf[d := k.buf[d][i := v]])
      else Advance(job, r, k)
  }

  ghost predicate CanPush<T>(job: Job<T>, capacity: nat, r: nat, k: Rank<T>, kx: Rank<T>)
    requires job.Valid() && r < job.n && Pc(job, r, k) && Pc(job, Right(r, job.n), kx)
  {
    && k.mode.Send? && k.sent < job.Length(k.call)
    && (|kx.pipe| < capacity || (kx.pipe == [] && kx.mode.Recv? && kx.recved < job.Length(kx.call)))
    && (job.Reduces(k.call) ==>
          var c := SendChunk(r, job.n, k.step); c < |k.buf| && k.sent < |k.buf[c]|)
  }

  /** The element that goes out next. */
  ghost function Outgoing<T>(job: Job<T>, r: nat, k: Rank<T>): Item<T>
    requires job.Valid() && r < job.n && Pc(job, r, k) && k.mode.Send?
    requires job.Reduces(k.call) ==> var c := SendChunk(r, job.n, k.step); c < |k.buf| && k.sent < |k.buf[c]|
  {
    if job.Reduces(k.call) then Elem(k.buf[SendChunk(r, job.n, k.step)][k.sent]) else Byte
  }

  ghost predicate CanPull<T>(job: Job<T>, r: nat, k: Rank<T>)
    requires job.Valid() && r < job.n && Pc(job, r, k)
  {
    && k.mode.Recv? && k.recved < job.Length(k.call) && k.pipe != []
    && (job.Reduces(k.call) ==>
          && k.pipe[0].Elem?
          && (!job.Scatters(k.call, k.step) ==>
                var c := RecvChunk(r, job.n, k.step); c < |k.buf| && k.recved < |k.buf[c]|))
  }

  ghost function DoPull<T>(job: Job<T>, r: nat, k: Rank<T>): Rank<T>
    requires job.Valid() && r < job.n && Pc(job, r, k) && CanPull(job, r, k)
  {
    var k' := k.(pipe := k.pipe[1..], recved := k.recved + 1);
    if job.Scatters(k.call, k.step) then k'.(stage := k.stage[k.recved := k.pipe[0].v])
    else if job.Reduces(k.call) then
      var c := RecvChunk(r, job.n, k.step);
      k'.(buf := k.buf[c := k.buf[c][k.recved := k.pipe[0].v]])
    else k'
  }

  ghost predicate Enabled<T>(job: Job<T>, capacity: nat, sys: System<T>, e: Event)
    requires job.Valid() && Shape(job, sys)
  {
    && e.r < job.n
    && match e
       case Act(r) => CanAct(job, r, sys[r])
       case Push(r) => CanPush(job, capacity, r, sys[r], sys[Right(r, job.n)])
       case Pull(r) => CanPull(job, r, sys[r])
  }

  function Pushed<T>(k: Rank<T>, v: Item<T>): Rank<T> {
    k.(pipe := k.pipe + [v])
  }

  function OneMore<T>(k: Rank<T>): Rank<T> {
    k.(sent := k.sent + 1)
  }

  ghost function Step<T>(job: Job<T>, capacity: nat, sys: System<T>, e: Event): System<T>
    requires job.Valid() && Shape(job, sys) && Enabled(job, capacity, sys, e)
  {
    match e
    case Act(r) => sys[r := DoAct(job, r, sys[r])]
    case Pull(r) => sys[r := DoPull(job, r, sys[r])]
    case Push(r) =>
      var x := Right(r, job.n);
      sys[x := Pushed(sys[x], Outgoing(job, r, sys[r]))][r := OneMore(sys[r])]
  }

  ghost predicate Start<T>(job: Job<T>, sys: System<T>) {
    && |sys| == job.n
    && forall r | 0 <= r < job.n :: sys[r] == Rank(0, 0, Idle, 0, 0, sys[r].buf, sys[r].stage, [])
  }

  ghost predicate Reaches<T>(job: Job<T>, capacity: nat, sys: System<T>, run: seq<Event>, end: System<T>)
    requires job.Valid()
    decreases |run|
  {
    Shape(job, sys) &&
    if run == [] then sys == end
    else Enabled(job, capacity, sys, run[0]) && Reaches(job, capacity, Step(job, capacity, sys, run[0]), run[1..], end)
  }
}
