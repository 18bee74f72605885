/**
 The one-sided ping-pong: each side writes the peer's half of memory and watches the
 last byte of the half the peer writes. That byte carries the iteration number in eight
 bits.

 A write is zero-copy and lands byte by byte in increasing address order, which is what
 the watched byte being the last one relies on.
 */
module WritePingPong {
  import opened Counting
  import opened Rendezvous

  /** `total` iterations on halves of `size` bytes. */
  datatype Config = Config(total: nat, size: nat) {
    predicate Valid() {
      total >= 1 && size >= 1
    }
  }

  /** The client rings, posts, polls and then watches; the server watches first. */
  datatype Pc = Watch | Ring | Post | Poll

  /** `mem` is the side's registered buffer, two halves long. `posted` writes have been
      posted, `landed` bytes of the latest are in place at the peer, `acked` writes have
      completed and `reaped` completions have been polled. */
  datatype Side = Side(i: nat, pc: Pc, mem: seq<nat>,
                       posted: nat, landed: nat, acked: nat, reaped: nat)

  datatype State = State(client: Side, server: Side, meeting: Meeting)

  datatype Event = Act(client: bool) | LandByte(fromClient: bool) | Complete(toClient: bool)

  function Zeros(n: nat): (z: seq<nat>)
    ensures |z| == n && forall k | 0 <= k < n :: z[k] == 0
  {
    seq(n, k => 0)
  }

  function Start(cfg: Config): State {
    State(Side(0, Ring, Zeros(2 * cfg.size), 0, cfg.size, 0, 0),
          Side(0, Watch, Zeros(2 * cfg.size), 0, cfg.size, 0, 0),
          Meeting(Looping, Looping))
  }

  /** Where the half begins that a side writes from; it lands at the same offset of the
      peer's buffer. The client has the low half, the server the high one. */
  function OutAt(cfg: Config, client: bool): nat {
    if client then 0 else cfg.size
  }

  /** Where the half begins that a side watches. */
  function HeardAt(cfg: Config, client: bool): nat {
    if client then cfg.size else 0
  }

  function Out(cfg: Config, s: Side, client: bool): seq<nat>
    requires Shaped(cfg, s)
  {
    s.mem[OutAt(cfg, client)..OutAt(cfg, client) + cfg.size]
  }

  function Heard(cfg: Config, s: Side, client: bool): seq<nat>
    requires Shaped(cfg, s)
  {
    s.mem[HeardAt(cfg, client)..HeardAt(cfg, client) + cfg.size]
  }

  /** The byte a side stores its doorbell in, and the byte it watches. */
  function PostByte(cfg: Config, client: bool): int {
    OutAt(cfg, client) + cfg.size - 1
  }

  function PollByte(cfg: Config, client: bool): int {
    HeardAt(cfg, client) + cfg.size - 1
  }

  /** The iteration number as the doorbell byte carries it. */
  function Seq8(i: nat): nat {
    (i + 1) % 256
  }

  predicate Shaped(cfg: Config, s: Side) {
    |s.mem| == 2 * cfg.size && s.landed <= cfg.size
  }

  /** One step of a side's loop; `waits` is the pc an iteration begins with. */
  predicate CanLoop(cfg: Config, s: Side, client: bool)
    requires cfg.Valid() && Shaped(cfg, s)
  {
    match s.pc
    case Watch => s.mem[PollByte(cfg, client)] == Seq8(s.i)
    case Ring => true
    case Post => true
    case Poll => s.reaped < s.acked
  }

  function Loop(cfg: Config, s: Side, client: bool): Side
    requires cfg.Valid() && Shaped(cfg, s)
  {
    match s.pc
    case Watch => if client then s.(i := s.i + 1, pc := Ring) else s.(pc := Ring)
    case Ring => s.(pc := Post, mem := s.mem[PostByte(cfg, client) := Seq8(s.i)])
    case Post => s.(pc := Poll, posted := s.posted + 1, landed := 0)
    case Poll =>
      if client then s.(pc := Watch, reaped := s.reaped + 1)
      else s.(pc := Watch, reaped := s.reaped + 1, i := s.i + 1)
  }

  predicate Enabled(cfg: Config, st: State, e: Event)
    requires cfg.Valid() && Shaped(cfg, st.client) && Shaped(cfg, st.server)
  {
    match e
    case Act(true) =>
      if st.meeting.client.Looping? then st.client.i == cfg.total || CanLoop(cfg, st.client, true)
      else ClientMay(st.meeting)
    case Act(false) =>
      if st.meeting.server.Looping? then st.server.i == cfg.total || CanLoop(cfg, st.server, false)
      else ServerMay(st.meeting)
    case LandByte(true) => st.client.acked < st.client.posted && st.client.landed < cfg.size
    case LandByte(false) => st.server.acked < st.server.posted && st.server.landed < cfg.size
    case Complete(true) => st.client.acked < st.client.posted && st.client.landed == cfg.size
    case Complete(false) => st.server.acked < st.server.posted && st.server.landed == cfg.size
  }

  /** The next byte of `from`'s write lands at `to`. */
  function Receive(cfg: Config, to: Side, from: Side, fromClient: bool): Side
    requires Shaped(cfg, to) && Shaped(cfg, from) && from.landed < cfg.size
  {
    var at := OutAt(cfg, fromClient) + from.landed;
    to.(mem := to.mem[at := from.mem[at]])
  }

  function Step(cfg: Config, st: State, e: Event): State
    requires cfg.Valid() && Shaped(cfg, st.client) && Shaped(cfg, st.server) && Enabled(cfg, st, e)
  {
    match e
    case Act(true) =>
      if st.meeting.client.Looping? && st.client.i < cfg.total then st.(client := Loop(cfg, st.client, true))
      else st.(meeting := st.meeting.(client := Next(st.meeting.client)))
    case Act(false) =>
      if st.meeting.server.Looping? && st.server.i < cfg.total then st.(server := Loop(cfg, st.server, false))
      else st.(meeting := st.meeting.(server := Next(st.meeting.server)))
    case LandByte(true) =>
      st.(server := Receive(cfg, st.server, st.client, true), client := st.client.(landed := st.client.landed + 1))
    case LandByte(false) =>
      st.(client := Receive(cfg, st.client, st.server, false), server := st.server.(landed := st.server.landed + 1))
    case Complete(true) => st.(client := st.client.(acked := st.client.acked + 1))
    case Complete(false) => st.(server := st.server.(acked := st.server.acked + 1))
  }

  ghost predicate Reaches(cfg: Config, st: State, run: seq<Event>, end: State)
    requires cfg.Valid()
    decreases |run|
  {
    && Shaped(cfg, st.client) && Shaped(cfg, st.server)
    && if run == [] then st == end
       else Enabled(cfg, st, run[0]) && Reaches(cfg, Step(cfg, st, run[0]), run[1..], end)
  }

  ghost predicate Reachable(cfg: Config, st: State)
    requires cfg.Valid()
  {
    exists run :: Reaches(cfg, Start(cfg), run, st)
  }

  // ----- What every run keeps

  /** Writes of a side that are wholly in place at the peer. */
  function InPlace(cfg: Config, s: Side): int {
    if s.landed == cfg.size then s.posted else s.posted - 1
  }

  /** The path of one direction: what `from` writes and `to` watches. */
  predicate Direction(cfg: Config, from: Side, to: Side, fromClient: bool)
    requires cfg.Valid() && Shaped(cfg, from) && Shaped(cfg, to)
  {
    var source, target := Out(cfg, from, fromClient), Heard(cfg, to, !fromClient);
    && InPlace(cfg, from) >= 0
    && from.reaped <= from.acked <= InPlace(cfg, from)
    && from.posted <= from.acked + 1
    && target[cfg.size - 1] == InPlace(cfg, from) % 256
    && (from.acked < from.posted ==> source[cfg.size - 1] == from.posted % 256)
    && (from.acked < from.posted ==> forall k | 0 <= k < from.landed :: target[k] == source[k])
    && (from.pc.Post? ==> source[cfg.size - 1] == Seq8(from.i))
    // Until the side rings again, the half at the peer is the half it wrote.
    && (!from.pc.Post? && from.landed == cfg.size ==> target == source)
  }

  predicate ClientInv(cfg: Config, s: Side, m: Meeting) {
    && s.i <= cfg.total
    && s.posted == s.i + (if s.pc.Poll? || s.pc.Watch? then 1 else 0)
    && s.reaped == s.i + (if s.pc.Watch? then 1 else 0)
    && (s.i == cfg.total ==> s.pc.Ring?)
    && (LeftLoop(m.client) ==> s.i == cfg.total)
  }

  predicate ServerInv(cfg: Config, s: Side, m: Meeting) {
    && s.i <= cfg.total
    && s.posted == s.i + (if s.pc.Poll? then 1 else 0)
    && s.reaped == s.i
    && (s.i == cfg.total ==> s.pc.Watch?)
    && (LeftLoop(m.server) ==> s.i == cfg.total)
  }

  /** Watches the side has got past. */
  function Seen(s: Side, client: bool): nat {
    if client || s.pc.Watch? then s.i else s.i + 1
  }

  predicate Inv(cfg: Config, st: State) {
    && cfg.Valid() && Shaped(cfg, st.client) && Shaped(cfg, st.server)
    && ClientInv(cfg, st.client, st.meeting) && ServerInv(cfg, st.server, st.meeting)
    && Direction(cfg, st.client, st.server, true) && Direction(cfg, st.server, st.client, false)
    && Seen(st.client, true) <= InPlace(cfg, st.server)
    && Seen(st.server, false) <= InPlace(cfg, st.client)
    && MeetingInv(st.meeting)
  }

  /** A byte tells a number from its successor. */
  lemma ByteTellsApart(x: nat, y: nat)
    requires x <= y <= x + 1
    ensures x % 256 == y % 256 <==> x == y
  {
  }

  /** A watch for iteration `i` ends exactly when the peer's write of it is in place. */
  lemma WatchSees(cfg: Config, from: Side, s: Side, client: bool)
    requires cfg.Valid() && Shaped(cfg, from) && Shaped(cfg, s) && Direction(cfg, from, s, !client)
    requires s.i <= InPlace(cfg, from) <= s.i + 1
    ensures s.mem[PollByte(cfg, client)] == InPlace(cfg, from) % 256
    ensures s.mem[PollByte(cfg, client)] == Seq8(s.i) <==> InPlace(cfg, from) == s.i + 1
  {
    ByteTellsApart(InPlace(cfg, from), s.i + 1);
  }

  /** Ringing changes the last byte of the half a side writes from, and no byte of the half
      it watches. */
  lemma RingIsApart(cfg: Config, s: Side, client: bool)
    requires cfg.Valid() && Shaped(cfg, s) && s.pc.Ring?
    ensures var s' := Loop(cfg, s, client);
            && Shaped(cfg, s') && Heard(cfg, s', client) == Heard(cfg, s, client)
            && Out(cfg, s', client) == Out(cfg, s, client)[cfg.size - 1 := Seq8(s.i)]
  {
  }

  /** A landing byte changes the half the peer watches, and no byte it writes from. */
  lemma LandingIsApart(cfg: Config, to: Side, from: Side, fromClient: bool)
    requires cfg.Valid() && Shaped(cfg, to) && Shaped(cfg, from) && from.landed < cfg.size
    ensures var to' := Receive(cfg, to, from, fromClient);
            && Shaped(cfg, to') && Out(cfg, to', !fromClient) == Out(cfg, to, !fromClient)
            && Heard(cfg, to', !fromClient) ==
               Heard(cfg, to, !fromClient)[from.landed := Out(cfg, from, fromClient)[from.landed]]
  {
  }

  /** What a side's counters are while it rings, posts and polls. */
  predicate InStep(s: Side) {
    && (s.pc.Ring? || s.pc.Post? ==> s.posted == s.reaped == s.i)
    && (s.pc.Poll? ==> s.posted == s.reaped + 1)
  }

  /** A step of the writing side's loop. */
  lemma LoopKeepsOut(cfg: Config, s: Side, to: Side, client: bool)
    requires cfg.Valid() && Shaped(cfg, s) && Shaped(cfg, to) && Direction(cfg, s, to, client)
    requires InStep(s) && CanLoop(cfg, s, client)
    ensures var s' := Loop(cfg, s, client);
            && Shaped(cfg, s') && Direction(cfg, s', to, client) && InPlace(cfg, s') == InPlace(cfg, s)
  {
    if s.pc.Ring? {
      RingIsApart(cfg, s, client);
    }
  }

  /** A step of the watching side's loop. */
  lemma LoopKeepsHeard(cfg: Config, from: Side, s: Side, client: bool)
    requires cfg.Valid() && Shaped(cfg, from) && Shaped(cfg, s) && Direction(cfg, from, s, !client)
    requires CanLoop(cfg, s, client)
    ensures var s' := Loop(cfg, s, client); Shaped(cfg, s') && Direction(cfg, from, s', !client)
  {
    if s.pc.Ring? {
      RingIsApart(cfg, s, client);
    }
  }

  lemma ClientLoops(cfg: Config, st: State)
    requires Inv(cfg, st) && st.meeting.client.Looping? && st.client.i < cfg.total && CanLoop(cfg, st.client, true)
    ensures Inv(cfg, st.(client := Loop(cfg, st.client, true)))
  {
    LoopKeepsOut(cfg, st.client, st.server, true);
    LoopKeepsHeard(cfg, st.server, st.client, true);
    if st.client.pc.Watch? {
      WatchSees(cfg, st.server, st.client, true);
    }
  }

  lemma ServerLoops(cfg: Config, st: State)
    requires Inv(cfg, st) && st.meeting.server.Looping? && st.server.i < cfg.total && CanLoop(cfg, st.server, false)
    ensures Inv(cfg, st.(server := Loop(cfg, st.server, false)))
  {
    LoopKeepsOut(cfg, st.server, st.client, false);
    LoopKeepsHeard(cfg, st.client, st.server, false);
    if st.server.pc.Watch? {
      WatchSees(cfg, st.client, st.server, false);
    }
  }

  lemma LandKeepsDirection(cfg: Config, from: Side, to: Side, fromClient: bool)
    requires cfg.Valid() && Shaped(cfg, from) && Shaped(cfg, to) && Direction(cfg, from, to, fromClient)
    requires from.acked < from.posted && from.landed < cfg.size && !from.pc.Post?
    ensures var from', to' := from.(landed := from.landed + 1), Receive(cfg, to, from, fromClient);
            && Shaped(cfg, from') && Shaped(cfg, to') && Direction(cfg, from', to', fromClient)
            && InPlace(cfg, from) <= InPlace(cfg, from')
  {
    var from', to' := from.(landed := from.landed + 1), Receive(cfg, to, from, fromClient);
    LandingIsApart(cfg, to, from, fromClient);
    if from'.landed == cfg.size {
      assert forall k | 0 <= k < cfg.size :: Heard(cfg, to', !fromClient)[k] == Out(cfg, from, fromClient)[k];
    }
  }

  /** The other direction: the peer's source and this side's watched half stay. */
  lemma LandKeepsOther(cfg: Config, from: Side, to: Side, fromClient: bool)
    requires cfg.Valid() && Shaped(cfg, from) && Shaped(cfg, to) && Direction(cfg, to, from, !fromClient)
    requires from.landed < cfg.size
    ensures var from', to' := from.(landed := from.landed + 1), Receive(cfg, to, from, fromClient);
            && Shaped(cfg, from') && Shaped(cfg, to') && Direction(cfg, to', from', !fromClient)
            && InPlace(cfg, to') == InPlace(cfg, to)
  {
    LandingIsApart(cfg, to, from, fromClient);
  }

  lemma ClientLands(cfg: Config, st: State)
    requires Inv(cfg, st) && Enabled(cfg, st, LandByte(true))
    ensures Inv(cfg, Step(cfg, st, LandByte(true)))
  {
    LandKeepsDirection(cfg, st.client, st.server, true);
    LandKeepsOther(cfg, st.client, st.server, true);
  }

  lemma ServerLands(cfg: Config, st: State)
    requires Inv(cfg, st) && Enabled(cfg, st, LandByte(false))
    ensures Inv(cfg, Step(cfg, st, LandByte(false)))
  {
    LandKeepsDirection(cfg, st.server, st.client, false);
    LandKeepsOther(cfg, st.server, st.client, false);
  }

  lemma Completes(cfg: Config, st: State, toClient: bool)
    requires Inv(cfg, st) && Enabled(cfg, st, Complete(toClient))
    ensures Inv(cfg, Step(cfg, st, Complete(toClient)))
  {
  }

  lemma MeetingMoves(cfg: Config, st: State, client: bool)
    requires Inv(cfg, st) && Enabled(cfg, st, Act(client))
    requires if client then !st.meeting.client.Looping? || st.client.i == cfg.total
             else !st.meeting.server.Looping? || st.server.i == cfg.total
    ensures Inv(cfg, Step(cfg, st, Act(client)))
  {
  }

  lemma StepKeepsInv(cfg: Config, st: State, e: Event)
    requires Inv(cfg, st) && Enabled(cfg, st, e)
    ensures Inv(cfg, Step(cfg, st, e))
  {
    match e
    case Act(true) =>
      if st.meeting.client.Looping? && st.client.i < cfg.total {
        ClientLoops(cfg, st);
      } else {
        MeetingMoves(cfg, st, true);
      }
    case Act(false) =>
      if st.meeting.server.Looping? && st.server.i < cfg.total {
        ServerLoops(cfg, st);
      } else {
        MeetingMoves(cfg, st, false);
      }
    case LandByte(true) => ClientLands(cfg, st);
    case LandByte(false) => ServerLands(cfg, st);
    case Complete(toClient) => Completes(cfg, st, toClient);
  }

  lemma StartHasInv(cfg: Config)
    requires cfg.Valid()
    ensures Inv(cfg, Start(cfg))
  {
    var st := Start(cfg);
    assert Out(cfg, st.client, true) == Heard(cfg, st.server, false) == Zeros(cfg.size);
    assert Out(cfg, st.server, false) == Heard(cfg, st.client, true) == Zeros(cfg.size);
  }

  lemma {:induction false} RunKeepsInv(cfg: Config, st: State, run: seq<Event>, end: State)
    requires Inv(cfg, st) && Reaches(cfg, st, run, end)
    ensures Inv(cfg, end)
    decreases |run|
  {
    if run != [] {
      StepKeepsInv(cfg, st, run[0]);
      RunKeepsInv(cfg, Step(cfg, st, run[0]), run[1..], end);
    }
  }

  lemma ReachableInv(cfg: Config, st: State)
    requires cfg.Valid() && Reachable(cfg, st)
    ensures Inv(cfg, st)
  {
    var run :| Reaches(cfg, Start(cfg), run, st);
    StartHasInv(cfg);
    RunKeepsInv(cfg, Start(cfg), run, st);
  }

  // ----- Results

  predicate Watching(st: State, client: bool) {
    if client then st.meeting.client.Looping? && st.client.pc.Watch?
    else st.meeting.server.Looping? && st.server.pc.Watch?
  }

  /** However many iterations there are, eight bits suffice: while a side waits for
      iteration `i`, the byte it watches carries `i` or `i + 1`, it carries `i + 1`
      exactly when the peer's write of that iteration is wholly in place, and then the
      watched half is the half the peer wrote. */
  lemma DoorbellNeverAliases(cfg: Config, st: State, client: bool)
    requires cfg.Valid() && Reachable(cfg, st)
    requires var s := if client then st.client else st.server; Watching(st, client) && s.i < cfg.total
    ensures var s, peer := if client then st.client else st.server, if client then st.server else st.client;
            && Shaped(cfg, s) && Shaped(cfg, peer)
            && var bell := s.mem[PollByte(cfg, client)];
               && (bell == s.i % 256 || bell == Seq8(s.i))
               && (bell == Seq8(s.i) <==> peer.posted == s.i + 1 && peer.landed == cfg.size)
               && (bell == Seq8(s.i) ==> Heard(cfg, s, client) == Out(cfg, peer, !client))
  {
    ReachableInv(cfg, st);
    var s, peer := if client then st.client else st.server, if client then st.server else st.client;
    assert s.i <= InPlace(cfg, peer) <= s.i + 1;
    WatchSees(cfg, peer, s, client);
  }

  /** In its one buffer a side never writes the half it watches: only the peer's bytes
      landing change it, and they change nothing of the half the side writes from. */
  lemma WatchedHalfIsThePeers(cfg: Config, st: State, e: Event, client: bool)
    requires cfg.Valid() && Shaped(cfg, st.client) && Shaped(cfg, st.server) && Enabled(cfg, st, e)
    ensures var st' := Step(cfg, st, e);
            var s, s' := if client then st.client else st.server, if client then st'.client else st'.server;
            && Shaped(cfg, s')
            && (e != LandByte(!client) ==> Heard(cfg, s', client) == Heard(cfg, s, client))
            && (e == LandByte(!client) ==> Out(cfg, s', client) == Out(cfg, s, client))
  {
    match e
    case Act(ofClient) =>
      var s := if ofClient then st.client else st.server;
      if s.pc.Ring? {
        RingIsApart(cfg, s, ofClient);
      }
    case LandByte(true) => LandingIsApart(cfg, st.server, st.client, true);
    case LandByte(false) => LandingIsApart(cfg, st.client, st.server, false);
    case _ =>
  }

  /** Is a work request of this side still unreaped? */
  predicate Unreaped(s: Side) {
    s.reaped < s.posted
  }

  /** Neither queue pair is destroyed while the other side has an unreaped write. */
  lemma TeardownIsSafe(cfg: Config, st: State)
    requires cfg.Valid() && Reachable(cfg, st)
    ensures st.meeting.client.Destroyed? ==> !Unreaped(st.server) && st.server.i == cfg.total
    ensures st.meeting.server.Destroyed? ==> !Unreaped(st.client) && st.client.i == cfg.total
  {
    ReachableInv(cfg, st);
    DestroyedAfterBothLeft(st.meeting);
  }

  // ----- Every run finishes

  predicate Finished(st: State) {
    st.meeting.client.Destroyed? && st.meeting.server.Destroyed?
  }

  function LoopWork(cfg: Config, s: Side, client: bool): int {
    4 * (cfg.total - s.i) -
    match s.pc
    case Watch => if client then 3 else 0
    case Ring => if client then 0 else 1
    case Post => if client then 1 else 2
    case Poll => if client then 2 else 3
  }

  /** Bytes to land and completions to arrive, over all iterations. */
  function WireWork(cfg: Config, s: Side): int {
    Times(cfg.size + 1, cfg.total - s.posted) + (cfg.size - s.landed) + (s.posted - s.acked)
  }

  function MeetingWork(m: Meeting): int {
    8 - Rank(m.server) - Rank(m.client)
  }

  function Remaining(cfg: Config, st: State): int {
    LoopWork(cfg, st.client, true) + LoopWork(cfg, st.server, false) +
    WireWork(cfg, st.client) + WireWork(cfg, st.server) + MeetingWork(st.meeting)
  }

  lemma PostWireWork(cfg: Config, s: Side, s': Side)
    requires s.landed == cfg.size && s.acked == s.posted < cfg.total
    requires s'.posted == s.posted + 1 && s'.landed == 0 && s'.acked == s.acked
    ensures WireWork(cfg, s') == WireWork(cfg, s)
  {
  }

  lemma LoopCountsDown(cfg: Config, s: Side, client: bool)
    requires cfg.Valid() && Shaped(cfg, s) && CanLoop(cfg, s, client)
    requires s.pc.Post? ==> s.landed == cfg.size && s.acked == s.posted < cfg.total
    ensures LoopWork(cfg, Loop(cfg, s, client), client) == LoopWork(cfg, s, client) - 1
    ensures WireWork(cfg, Loop(cfg, s, client)) == WireWork(cfg, s)
  {
    if s.pc.Post? {
      PostWireWork(cfg, s, Loop(cfg, s, client));
    }
  }

  lemma ActCountsDown(cfg: Config, st: State, client: bool)
    requires Inv(cfg, st) && Enabled(cfg, st, Act(client))
    ensures Remaining(cfg, Step(cfg, st, Act(client))) == Remaining(cfg, st) - 1
  {
    if client && st.meeting.client.Looping? && st.client.i < cfg.total {
      LoopCountsDown(cfg, st.client, true);
    } else if !client && st.meeting.server.Looping? && st.server.i < cfg.total {
      LoopCountsDown(cfg, st.server, false);
    }
  }

  lemma LandCountsDown(cfg: Config, st: State, fromClient: bool)
    requires Inv(cfg, st) && Enabled(cfg, st, LandByte(fromClient))
    ensures Remaining(cfg, Step(cfg, st, LandByte(fromClient))) == Remaining(cfg, st) - 1
  {
  }

  lemma CompletionCountsDown(cfg: Config, st: State, toClient: bool)
    requires Inv(cfg, st) && Enabled(cfg, st, Complete(toClient))
    ensures Remaining(cfg, Step(cfg, st, Complete(toClient))) == Remaining(cfg, st) - 1
  {
  }

  /** Every event brings the count down by one. */
  lemma EventCountsDown(cfg: Config, st: State, e: Event)
    requires Inv(cfg, st) && Enabled(cfg, st, e)
    ensures Remaining(cfg, Step(cfg, st, e)) == Remaining(cfg, st) - 1
  {
    match e
    case Act(client) => ActCountsDown(cfg, st, client);
    case LandByte(fromClient) => LandCountsDown(cfg, st, fromClient);
    case Complete(toClient) => CompletionCountsDown(cfg, st, toClient);
  }

  lemma NoDeadlock(cfg: Config, st: State) returns (e: Event)
    requires Inv(cfg, st) && !Finished(st)
    ensures Enabled(cfg, st, e)
  {
    var c, s := st.client, st.server;
    if c.acked < c.posted {
      e := if c.landed < cfg.size then LandByte(true) else Complete(true);
    } else if s.acked < s.posted {
      e := if s.landed < cfg.size then LandByte(false) else Complete(false);
    } else if Enabled(cfg, st, Act(true)) {
      e := Act(true);
    } else {
      e := Act(false);
    }
  }

  lemma RemainingIsNatural(cfg: Config, st: State)
    requires Inv(cfg, st)
    ensures Remaining(cfg, st) >= 0
    ensures Finished(st) ==> Remaining(cfg, st) == 0
  {
  }

  lemma {:induction false} RunCountsDown(cfg: Config, st: State, run: seq<Event>, end: State)
    requires Inv(cfg, st) && Reaches(cfg, st, run, end)
    ensures |run| == Remaining(cfg, st) - Remaining(cfg, end)
    decreases |run|
  {
    if run != [] {
      EventCountsDown(cfg, st, run[0]);
      StepKeepsInv(cfg, st, run[0]);
      RunCountsDown(cfg, Step(cfg, st, run[0]), run[1..], end);
    }
  }

  /** No run is longer than a fixed bound, and both sides have gone through the whole
      program exactly when that length is reached. */
  lemma RunsFinish(cfg: Config, run: seq<Event>, end: State)
    requires cfg.Valid() && Reaches(cfg, Start(cfg), run, end)
    ensures |run| <= Remaining(cfg, Start(cfg))
    ensures Finished(end) <==> |run| == Remaining(cfg, Start(cfg))
  {
    StartHasInv(cfg);
    RunKeepsInv(cfg, Start(cfg), run, end);
    RunCountsDown(cfg, Start(cfg), run, end);
    RemainingIsNatural(cfg, end);
    if !Finished(end) {
      var e := NoDeadlock(cfg, end);
      EventCountsDown(cfg, end, e);
      StepKeepsInv(cfg, end, e);
      RemainingIsNatural(cfg, Step(cfg, end, e));
    }
  }
}
