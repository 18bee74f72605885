/**
 The posted-receive path of the collectives over queue pairs, as one global step
 system.

 Each rank is a program counter, its memory and the queues of its two queue pairs.
 Messages are zero-copy: an element of a posted send is fetched from the sender's
 live buffer at any moment until the message is delivered, and any number of times;
 it lands in the receiver's live buffer in any order, and any number of times, once
 a receive is posted. Nothing but the order of the two work queues says which receive
 a message meets.
 */
module PostedRing {
  import opened RingIndex
  import opened RingSpec
  import opened RingProgram

  /** The memory a work request names: a chunk of `buf`, half of `stage`, the
      barrier's scratch byte. */
  datatype Loc = Chunk(c: nat) | Half(h: nat) | Scratch

  datatype Wr = Wr(call: nat, step: nat, loc: Loc, len: nat)

  /** Where a rank stands: between calls, about to post the first receive, about to
      send, about to reap the receive, about to post the next receive, about to reap
      the send, or about to add element `i`. */
  datatype Phase = Idle | Arm | Send | PollRecv | Rearm | PollSend | Sum(i: nat)

  datatype Rank<T> = Rank(
    call: nat, step: nat, phase: Phase,
    buf: seq<seq<T>>, stage: map<(nat, nat), T>,
    rq: seq<Wr>,             // receives posted on the left queue pair
    received: nat,           // receive completions not yet reaped
    sq: seq<Wr>,             // sends posted on the right queue pair, not yet delivered
    unacked: nat,            // sends delivered, acknowledgement on its way
    sent: nat,               // send completions not yet reaped
    wire: map<nat, Item<T>>, // elements fetched of the message at the head of the left link
    landed: set<nat>)        // elements of that message already written here

  type System<T> = seq<Rank<T>>

  /** `Act` is the rank's own next action; the others are the two adapters': an
      element fetched or written, the message at rank `r` delivered whole, an
      acknowledgement reaching rank `r`. */
  datatype Event = Act(r: nat) | Fetch(r: nat, j: nat) | Land(r: nat, j: nat) | Deliver(r: nat) | Ack(r: nat)

  function SendWr<T>(job: Job<T>, r: nat, q: nat, s: nat): Wr
    requires job.n >= 2 && r < job.n && q < |job.calls| && s < job.Steps(q)
  {
    Wr(q, s, if job.Reduces(q) then Chunk(SendChunk(r, job.n, s)) else Scratch, job.Length(q))
  }

  function RecvWr<T>(job: Job<T>, r: nat, q: nat, s: nat): Wr
    requires job.n >= 2 && r < job.n && q < |job.calls| && s < job.Steps(q)
  {
    Wr(q, s,
       if job.Scatters(q, s) then Half(s % 2)
       else if job.Reduces(q) then Chunk(RecvChunk(r, job.n, s))
       else Scratch,
       job.Length(q))
  }

  /** The program counter names a place in the program. */
  ghost predicate Pc<T>(job: Job<T>, k: Rank<T>)
    requires job.n >= 2
  {
    && k.call <= |job.calls|
    && (k.phase.Idle? ==> k.step == 0)
    && (!k.phase.Idle? ==> k.call < |job.calls| && k.step < job.Steps(k.call))
    && (k.phase.Arm? ==> k.step == 0)
    && (k.phase.Sum? ==> job.Scatters(k.call, k.step) && k.phase.i <= job.Length(k.call))
  }

  ghost predicate Shape<T>(job: Job<T>, sys: System<T>)
    requires job.n >= 2
  {
    |sys| == job.n && forall r | 0 <= r < job.n :: Pc(job, sys[r])
  }

  // ----- Steps

  /** The rank moves to its next step, or returns from the call. */
  function Advance<T>(job: Job<T>, k: Rank<T>): Rank<T>
    requires job.n >= 2 && k.call < |job.calls|
  {
    if k.step + 1 < job.Steps(k.call) then k.(step := k.step + 1, phase := Send)
    else k.(call := k.call + 1, step := 0, phase := Idle)
  }

  ghost predicate CanAct<T>(job: Job<T>, r: nat, k: Rank<T>)
    requires job.Valid() && r < job.n && Pc(job, k)
  {
    match k.phase
    case Idle => k.call < |job.calls|
    case PollRecv => k.received > 0
    case PollSend => k.sent > 0
    case Sum(i) =>
      var d := RecvChunk(r, job.n, k.step);
      i < job.Length(k.call) ==> (k.step % 2, i) in k.stage && d < |k.buf| && i < |k.buf[d]|
    case _ => true
  }

  ghost function DoAct<T>(job: Job<T>, r: nat, k: Rank<T>): Rank<T>
    requires job.Valid() && r < job.n && Pc(job, k) && CanAct(job, r, k)
  {
    match k.phase
    case Idle =>
      if job.Reduces(k.call) then k.(phase := Arm, buf := job.calls[k.call].input.x[r])
      else k.(phase := Arm)
    case Arm => k.(phase := Send, rq := k.rq + [RecvWr(job, r, k.call, 0)])
    case Send => k.(phase := PollRecv, sq := k.sq + [SendWr(job, r, k.call, k.step)])
    case PollRecv => k.(phase := Rearm, received := k.received - 1)
    case Rearm =>
      if k.step + 1 < job.Steps(k.call) then
        k.(phase := PollSend, rq := k.rq + [RecvWr(job, r, k.call, k.step + 1)])
      else k.(phase := PollSend)
    case PollSend =>
      var k' := k.(sent := k.sent - 1);
      if job.Scatters(k.call, k.step) then k'.(phase := Sum(0)) else Advance(job, k')
    case Sum(i) =>
      if i < job.Length(k.call) then
        var d := RecvChunk(r, job.n, k.step);
        var v := (job.calls[k.call].input.add)(k.buf[d][i], k.stage[(k.step % 2, i)]);
        k.(phase := Sum(i + 1), buf := k.buf[d := k.buf[d][i := v]])
      else Advance(job, k)
  }

  predicate Readable<T>(k: Rank<T>, loc: Loc, j: nat) {
    loc.Scratch? || (loc.Chunk? && loc.c < |k.buf| && j < |k.buf[loc.c]|)
  }

  function ReadItem<T>(k: Rank<T>, loc: Loc, j: nat): Item<T>
    requires Readable(k, loc, j)
  {
    if loc.Chunk? then Elem(k.buf[loc.c][j]) else Byte
  }

  predicate Writable<T>(k: Rank<T>, loc: Loc, j: nat, v: Item<T>) {
    match loc
    case Scratch => true
    case Half(_) => v.Elem?
    case Chunk(c) => v.Elem? && c < |k.buf| && j < |k.buf[c]|
  }

  function WriteItem<T>(k: Rank<T>, loc: Loc, j: nat, v: Item<T>): Rank<T>
    requires Writable(k, loc, j, v)
  {
    match loc
    case Scratch => k
    case Half(h) => k.(stage := k.stage[(h, j) := v.v])
    case Chunk(c) => k.(buf := k.buf[c := k.buf[c][j := v.v]])
  }

  ghost predicate Enabled<T>(job: Job<T>, sys: System<T>, e: Event)
    requires job.Valid() && Shape(job, sys)
  {
    && e.r < job.n
    && var k := sys[e.r];
       var kl := sys[Left(e.r, job.n)];
       match e
       case Act(r) => CanAct(job, r, k)
       case Fetch(_, j) => kl.sq != [] && j < kl.sq[0].len && Readable(kl, kl.sq[0].loc, j)
       case Land(_, j) =>
         && kl.sq != [] && k.rq != [] && j < k.rq[0].len
         && j in k.wire && Writable(k, k.rq[0].loc, j, k.wire[j])
       case Deliver(_) => kl.sq != [] && k.rq != [] && forall j | 0 <= j < kl.sq[0].len :: j in k.landed
       case Ack(_) => k.unacked > 0
  }

  function Delivered<T>(k: Rank<T>): Rank<T>
    requires k.rq != []
  {
    k.(rq := k.rq[1..], received := k.received + 1, wire := map[], landed := {})
  }

  function Consumed<T>(k: Rank<T>): Rank<T>
    requires k.sq != []
  {
    k.(sq := k.sq[1..], unacked := k.unacked + 1)
  }

  function Acked<T>(k: Rank<T>): Rank<T>
    requires k.unacked > 0
  {
    k.(unacked := k.unacked - 1, sent := k.sent + 1)
  }

  ghost function Step<T>(job: Job<T>, sys: System<T>, e: Event): System<T>
    requires job.Valid() && Shape(job, sys) && Enabled(job, sys, e)
  {
    var k := sys[e.r];
    var l := Left(e.r, job.n);
    match e
    case Act(r) => sys[r := DoAct(job, r, k)]
    case Fetch(r, j) => sys[r := k.(wire := k.wire[j := ReadItem(sys[l], sys[l].sq[0].loc, j)])]
    case Land(r, j) => sys[r := WriteItem(k, k.rq[0].loc, j, k.wire[j]).(landed := k.landed + {j})]
    case Deliver(r) =>
      sys[r := Delivered(k)][l := Consumed(sys[l])]
    case Ack(r) => sys[r := Acked(k)]
  }

  /** Nobody has entered the first call; memory holds anything. */
  ghost predicate Start<T>(job: Job<T>, sys: System<T>) {
    && |sys| == job.n
    && forall r | 0 <= r < job.n ::
         var k := sys[r];
         k == Rank(0, 0, Idle, k.buf, k.stage, [], 0, [], 0, 0, map[], {})
  }

  /** Some sequence of enabled events leads from `sys` to `end`. */
  ghost predicate Reaches<T>(job: Job<T>, sys: System<T>, run: seq<Event>, end: System<T>)
    requires job.Valid()
    decreases |run|
  {
    Shape(job, sys) &&
    if run == [] then sys == end
    else Enabled(job, sys, run[0]) && Reaches(job, Step(job, sys, run[0]), run[1..], end)
  }
}
