/**
 The streaming write benchmark: the client keeps up to `depth` writes of one buffer in
 flight, sets the buffer's last byte before it posts the last write, and reaps
 completions in batches. The server watches its own last byte only.

 A payload small enough is copied into the work request when it is posted. Any other write
 is zero-copy: a byte is read from the client's buffer when it lands. Writes land in the
 order they were posted, each byte by byte in increasing address order, and are
 acknowledged in that order.
 */
module WriteWindow {
  import opened Counting
  import opened Limits
  import opened Rendezvous

  /** Completions reaped by one poll at most. */
  const BATCH: nat := 16

  /** `inline` is the payload size up to which the adapter has granted inline posting. */
  datatype Config = Config(iters: nat, depth: nat, size: nat, inline: nat) {
    predicate Valid() {
      iters >= 1 && 1 <= depth <= USABLE_WR && size >= 1
    }

    /** Is the payload copied into the work request when it is posted? */
    predicate Inlined() {
      size <= inline
    }

    function Total(): nat {
      WARMUP + iters
    }
  }

  /** `Head` is the inner loop's test, `Post` the moment between storing the doorbell and
      posting. */
  datatype Pc = Head | Post

  /** `carried` holds the doorbell byte at each post. `reaped` completions have been
      reaped, `bell` is the last byte of the client's buffer now, and `started` tells after
      how many posts the clock was started. `landed` writes are wholly in place and `bytes`
      bytes of the next one; `acked` have completed. `heard` is the byte the server
      watches. */
  datatype State = State(pc: Pc, carried: seq<nat>, reaped: nat, bell: nat, started: seq<nat>,
                         landed: nat, bytes: nat, acked: nat, heard: nat, meeting: Meeting) {
    function Posted(): nat {
      |carried|
    }
  }

  datatype Event = Advance | Poll(batch: nat) | LandByte | Complete | MeetClient | MeetServer

  function Start(): State {
    State(Head, [], 0, 0, [], 0, 0, 0, 0, Meeting(Looping, Looping))
  }

  /** The inner loop's guard. */
  predicate RoomToPost(cfg: Config, st: State) {
    st.Posted() < cfg.Total() && st.Posted() - st.reaped < cfg.depth
  }

  predicate Enabled(cfg: Config, st: State, e: Event) {
    match e
    case Advance => st.reaped < cfg.Total() && (st.pc.Post? || RoomToPost(cfg, st))
    case Poll(batch) =>
      && st.reaped < cfg.Total() && st.pc.Head? && !RoomToPost(cfg, st)
      && batch <= BATCH && st.reaped + batch <= st.acked
    case LandByte => st.landed < st.Posted()
    case Complete => st.acked < st.landed
    case MeetClient => if st.meeting.client.Looping? then st.reaped >= cfg.Total() else ClientMay(st.meeting)
    case MeetServer => if st.meeting.server.Looping? then st.heard != 0 else ServerMay(st.meeting)
  }

  function Advanced(cfg: Config, st: State): State {
    match st.pc
    case Head =>
      st.(pc := Post,
          bell := if st.Posted() == cfg.Total() - 1 then 1 else st.bell,
          started := if st.Posted() == WARMUP then st.started + [st.Posted()] else st.started)
    case Post => st.(pc := Head, carried := st.carried + [st.bell])
  }

  /** The last byte of the write that is landing. */
  function LandingBell(cfg: Config, st: State): nat
    requires st.landed < st.Posted()
  {
    if cfg.Inlined() then st.carried[st.landed] else st.bell
  }

  function Landed(cfg: Config, st: State): State
    requires st.landed < st.Posted()
  {
    if st.bytes + 1 < cfg.size then st.(bytes := st.bytes + 1)
    else st.(bytes := 0, landed := st.landed + 1, heard := LandingBell(cfg, st))
  }

  function Step(cfg: Config, st: State, e: Event): State
    requires Enabled(cfg, st, e)
  {
    match e
    case Advance => Advanced(cfg, st)
    case Poll(batch) => st.(reaped := st.reaped + batch)
    case LandByte => Landed(cfg, st)
    case Complete => st.(acked := st.acked + 1)
    case MeetClient => st.(meeting := st.meeting.(client := Next(st.meeting.client)))
    case MeetServer => st.(meeting := st.meeting.(server := Next(st.meeting.server)))
  }

  ghost predicate Reaches(cfg: Config, st: State, run: seq<Event>, end: State)
    decreases |run|
  {
    if run == [] then st == end
    else Enabled(cfg, st, run[0]) && Reaches(cfg, Step(cfg, st, run[0]), run[1..], end)
  }

  ghost predicate Reachable(cfg: Config, st: State) {
    exists run :: Reaches(cfg, Start(), run, st)
  }

  lemma {:induction false} RunExtends(cfg: Config, st: State, run: seq<Event>, end: State, e: Event)
    requires Reaches(cfg, st, run, end) && Enabled(cfg, end, e)
    ensures Reaches(cfg, st, run + [e], Step(cfg, end, e))
    decreases |run|
  {
    if run == [] {
      assert (run + [e])[1..] == [];
    } else {
      RunExtends(cfg, Step(cfg, st, run[0]), run[1..], end, e);
      assert (run + [e])[1..] == run[1..] + [e];
    }
  }

  lemma ReachableStep(cfg: Config, st: State, e: Event)
    requires Reachable(cfg, st) && Enabled(cfg, st, e)
    ensures Reachable(cfg, Step(cfg, st, e))
  {
    var run :| Reaches(cfg, Start(), run, st);
    RunExtends(cfg, Start(), run, st, e);
  }

  // ----- What every run keeps

  /** Has the last write been armed? */
  predicate Armed(cfg: Config, st: State) {
    st.Posted() == cfg.Total() || (st.Posted() == cfg.Total() - 1 && st.pc.Post?)
  }

  predicate ClockStarted(st: State) {
    st.Posted() > WARMUP || (st.Posted() == WARMUP && st.pc.Post?)
  }

  predicate Inv(cfg: Config, st: State) {
    && cfg.Valid()
    && st.reaped <= st.acked <= st.landed <= st.Posted() <= cfg.Total()
    && st.Posted() - st.reaped <= cfg.depth
    && (st.pc.Post? ==> RoomToPost(cfg, st))
    && st.bytes < cfg.size && (st.landed == st.Posted() ==> st.bytes == 0)
    && st.bell == (if Armed(cfg, st) then 1 else 0)
    && st.started == (if ClockStarted(st) then [WARMUP] else [])
    && st.heard <= st.bell
    && (st.landed == cfg.Total() ==> st.heard == 1)
    && (forall k | 0 <= k < st.Posted() :: st.carried[k] == (if k == cfg.Total() - 1 then 1 else 0))
    && (st.heard == 1 && (cfg.depth == 1 || cfg.Inlined()) ==> st.landed == cfg.Total())
    && (LeftLoop(st.meeting.client) ==> st.reaped == cfg.Total())
    && (LeftLoop(st.meeting.server) ==> st.heard == 1)
    && MeetingInv(st.meeting)
  }

  lemma StepKeepsInv(cfg: Config, st: State, e: Event)
    requires Inv(cfg, st) && Enabled(cfg, st, e)
    ensures Inv(cfg, Step(cfg, st, e))
  {
  }

  lemma {:induction false} RunKeepsInv(cfg: Config, st: State, run: seq<Event>, end: State)
    requires Inv(cfg, st) && Reaches(cfg, st, run, end)
    ensures Inv(cfg, end)
    decreases |run|
  {
    if run != [] {
      StepKeepsInv(cfg, st, run[0]);
      RunKeepsInv(cfg, Step(cfg, st, run[0]), run[1..], end);
    }
  }

  lemma ReachableInv(cfg: Config, st: State)
    requires cfg.Valid() && Reachable(cfg, st)
    ensures Inv(cfg, st)
  {
    var run :| Reaches(cfg, Start(), run, st);
    RunKeepsInv(cfg, Start(), run, st);
  }

  // ----- Results about safety

  /** Whatever the polls return, at most `depth` writes are unreaped, so the usable
      entries of the send queue and of the completion queue always suffice. */
  lemma WindowHolds(cfg: Config, st: State)
    requires cfg.Valid() && Reachable(cfg, st)
    ensures st.reaped <= st.Posted() <= cfg.Total()
    ensures st.Posted() - st.reaped <= cfg.depth <= USABLE_WR
    ensures st.acked - st.reaped <= USABLE_WR
  {
    ReachableInv(cfg, st);
  }

  /** The clock is started once, and exactly `iters` writes are posted from then on. */
  lemma ClockCoversIters(cfg: Config, st: State)
    requires cfg.Valid() && Reachable(cfg, st) && st.reaped == cfg.Total()
    ensures |st.started| == 1 && st.Posted() - st.started[0] == cfg.iters
  {
    ReachableInv(cfg, st);
  }

  /** Neither side destroys its queue pair while the other has an unreaped write, nor
      while a byte is still to land. */
  lemma TeardownIsSafe(cfg: Config, st: State)
    requires cfg.Valid() && Reachable(cfg, st)
    requires st.meeting.server.Destroyed? || st.meeting.client.Destroyed?
    ensures st.reaped == st.Posted() == st.landed == cfg.Total()
    ensures LeftLoop(st.meeting.client) && LeftLoop(st.meeting.server)
  {
    ReachableInv(cfg, st);
    DestroyedAfterBothLeft(st.meeting);
  }

  /** What the doorbell is taken to tell: once the server sees it, the last write is in
      place. */
  predicate BellMeansInPlace(cfg: Config, st: State) {
    st.heard != 0 ==> st.landed == cfg.Total()
  }

  ghost predicate AlwaysMeansInPlace(cfg: Config) {
    forall st | Reachable(cfg, st) :: BellMeansInPlace(cfg, st)
  }

  /** `n` writes posted, all but the latest `depth - 1` of them reaped. */
  function Streaming(cfg: Config, n: nat): State
    requires n <= WARMUP + cfg.iters && cfg.depth >= 1
  {
    var done := if n < cfg.depth then 0 else n - (cfg.depth - 1);
    State(Head, seq(n, k => 0), done, 0, if n > WARMUP then [WARMUP] else [], done, 0, done, 0,
          Meeting(Looping, Looping))
  }

  /** All bytes of the oldest write in flight can land. */
  lemma LandWhole(cfg: Config, st: State)
    requires cfg.Valid() && Reachable(cfg, st) && st.landed < st.Posted() && st.bytes == 0
    ensures Reachable(cfg, st.(landed := st.landed + 1, heard := LandingBell(cfg, st)))
  {
    var at := st;
    while at.bytes + 1 < cfg.size
      invariant Reachable(cfg, at) && at == st.(bytes := at.bytes)
      invariant at.bytes < cfg.size
      decreases cfg.size - at.bytes
    {
      ReachableStep(cfg, at, LandByte);
      at := Landed(cfg, at);
    }
    ReachableStep(cfg, at, LandByte);
  }

  lemma {:induction false} CanStream(cfg: Config, n: nat)
    requires cfg.Valid() && n < cfg.Total()
    ensures Reachable(cfg, Streaming(cfg, n))
  {
    if n == 0 {
      assert Reaches(cfg, Start(), [], Streaming(cfg, 0));
    } else {
      CanStream(cfg, n - 1);
      var s0 := Streaming(cfg, n - 1);
      ReachableStep(cfg, s0, Advance);
      var s1 := Advanced(cfg, s0);
      ReachableStep(cfg, s1, Advance);
      var s2 := Advanced(cfg, s1);
      assert s2.carried == seq(n, k => 0);
      if n >= cfg.depth {
        LandWhole(cfg, s2);
        var s3 := s2.(landed := s2.landed + 1, heard := LandingBell(cfg, s2));
        ReachableStep(cfg, s3, Complete);
        var s4 := s3.(acked := s3.acked + 1);
        ReachableStep(cfg, s4, Poll(1));
        assert Step(cfg, s4, Poll(1)) == Streaming(cfg, n);
      } else {
        assert s2 == Streaming(cfg, n);
      }
    }
  }

  /** With two zero-copy writes or more in flight, the byte of an earlier write can carry
      the bell: the server leaves its loop before the last write is even posted. */
  lemma BellCanComeEarly(cfg: Config) returns (st: State)
    requires cfg.Valid() && cfg.depth >= 2 && !cfg.Inlined()
    ensures Reachable(cfg, st) && st.heard == 1 && st.Posted() == cfg.Total() - 1
  {
    var n := cfg.Total() - 1;
    CanStream(cfg, n);
    var s0 := Streaming(cfg, n);
    ReachableStep(cfg, s0, Advance);
    var s1 := Advanced(cfg, s0);
    LandWhole(cfg, s1);
    st := s1.(landed := s1.landed + 1, heard := s1.bell);
  }

  /** The bell means that the last write is in place exactly when one write is in flight
      at a time or the writes are posted inline. */
  lemma BellRule(cfg: Config)
    requires cfg.Valid()
    ensures AlwaysMeansInPlace(cfg) <==> cfg.depth == 1 || cfg.size <= cfg.inline
  {
    if cfg.depth == 1 || cfg.Inlined() {
      forall st | Reachable(cfg, st) ensures BellMeansInPlace(cfg, st) {
        ReachableInv(cfg, st);
      }
    } else {
      var st := BellCanComeEarly(cfg);
      ReachableInv(cfg, st);
      assert !BellMeansInPlace(cfg, st);
    }
  }

  // ----- Results about progress

  predicate Finished(st: State) {
    st.meeting.client.Destroyed? && st.meeting.server.Destroyed?
  }

  /** Everything but a poll that finds nothing. */
  predicate Productive(e: Event) {
    e != Poll(0)
  }

  /** What is left to do: post twice, land, complete and reap every write, and meet. */
  function Remaining(cfg: Config, st: State): int {
    2 * (cfg.Total() - st.Posted()) - (if st.pc.Post? then 1 else 0) +
    Times(cfg.size, cfg.Total() - st.landed) - st.bytes + (cfg.Total() - st.acked) + (cfg.Total() - st.reaped) +
    8 - Rank(st.meeting.server) - Rank(st.meeting.client)
  }

  lemma LandCountsDown(cfg: Config, st: State)
    requires Inv(cfg, st) && st.landed < st.Posted()
    ensures Remaining(cfg, Landed(cfg, st)) == Remaining(cfg, st) - 1
  {
  }

  lemma EventCountsDown(cfg: Config, st: State, e: Event)
    requires Inv(cfg, st) && Enabled(cfg, st, e)
    ensures Productive(e) ==> Remaining(cfg, Step(cfg, st, e)) < Remaining(cfg, st)
    ensures !Productive(e) ==> Step(cfg, st, e) == st
  {
    if e.LandByte? {
      LandCountsDown(cfg, st);
    }
  }

  /** Short of the end, something other than an empty poll can always happen. */
  lemma NoDeadlock(cfg: Config, st: State) returns (e: Event)
    requires Inv(cfg, st) && !Finished(st)
    ensures Enabled(cfg, st, e) && Productive(e)
  {
    if st.landed < st.Posted() {
      e := LandByte;
    } else if st.acked < st.landed {
      e := Complete;
    } else if st.reaped < cfg.Total() {
      e := if st.pc.Post? || RoomToPost(cfg, st) then Advance else Poll(1);
    } else if Enabled(cfg, st, MeetClient) {
      e := MeetClient;
    } else {
      e := MeetServer;
    }
  }

  function ProductiveEvents(run: seq<Event>): (n: nat)
    ensures n <= |run|
    decreases |run|
  {
    if run == [] then 0 else (if Productive(run[0]) then 1 else 0) + ProductiveEvents(run[1..])
  }

  lemma RemainingIsNatural(cfg: Config, st: State)
    requires Inv(cfg, st)
    ensures Remaining(cfg, st) >= 0
  {
  }

  lemma {:induction false} RunCountsDown(cfg: Config, st: State, run: seq<Event>, end: State)
    requires Inv(cfg, st) && Reaches(cfg, st, run, end)
    ensures ProductiveEvents(run) + Remaining(cfg, end) <= Remaining(cfg, st)
    decreases |run|
  {
    if run != [] {
      StepKeepsInv(cfg, st, run[0]);
      EventCountsDown(cfg, st, run[0]);
      RunCountsDown(cfg, Step(cfg, st, run[0]), run[1..], end);
    }
  }

  lemma StartWork(cfg: Config)
    ensures Remaining(cfg, Start()) == cfg.Total() * (cfg.size + 4) + 8
  {
    TimesIsProduct(cfg.size, cfg.Total());
    assert cfg.Total() * (cfg.size + 4) == cfg.Total() * cfg.size + 4 * cfg.Total();
  }

  /** A run holds boundedly many events besides empty polls, however the completions are
      batched, and a run that stops short of the end can be continued by one more: every
      run whose polls keep finding what has completed goes through both loops and the
      teardown. */
  lemma RunsFinish(cfg: Config, run: seq<Event>, end: State)
    requires cfg.Valid() && Reaches(cfg, Start(), run, end)
    ensures ProductiveEvents(run) <= cfg.Total() * (cfg.size + 4) + 8
    ensures !Finished(end) ==> exists e :: Enabled(cfg, end, e) && Productive(e)
  {
    RunKeepsInv(cfg, Start(), run, end);
    RunCountsDown(cfg, Start(), run, end);
    RemainingIsNatural(cfg, end);
    StartWork(cfg);
    if !Finished(end) {
      var e := NoDeadlock(cfg, end);
    }
  }

  // ----- The client's loops, as they are written

  /** The queue pair the client posts to, with what it has been asked to do: `posts` holds
      the doorbell byte at each post and `peak` the largest number of writes outstanding
      at once. */
  class Nic {
    var posts: seq<nat>
    var reaped: nat
    var peak: nat
    // How often polls may still come back empty while writes are outstanding.
    var patience: nat

    ghost predicate Valid()
      reads this
    {
      reaped <= |posts|
    }

    constructor ()
      ensures Valid() && posts == [] && reaped == 0 && peak == 0
    {
      posts, reaped, peak := [], 0, 0;
    }

    method PostWrite(bell: nat)
      requires Valid()
      modifies this`posts, this`peak
      ensures Valid() && posts == old(posts) + [bell]
      ensures peak == if |posts| - reaped > old(peak) then |posts| - reaped else old(peak)
    {
      posts := posts + [bell];
      if |posts| - reaped > peak {
        peak := |posts| - reaped;
      }
    }

    /** Any number of outstanding completions, none included, up to the batch size. */
    method PollCq() returns (ne: nat)
      requires Valid()
      modifies this`reaped, this`patience
      ensures Valid() && reaped == old(reaped) + ne && ne <= BATCH
      ensures ne == 0 ==> |posts| == reaped || patience < old(patience)
    {
      var least := if |posts| == reaped || patience > 0 then 0 else 1;
      ne :| least <= ne <= BATCH && reaped + ne <= |posts|;
      reaped := reaped + ne;
      if ne == 0 && patience > 0 {
        patience := patience - 1;
      }
    }
  }

  /** The bytes of the doorbell over all posts: set for the last one only. */
  function Bells(total: nat): (b: seq<nat>)
    ensures |b| == total
    ensures forall k | 0 <= k < total :: b[k] == (if k == total - 1 then 1 else 0)
  {
    seq(total, k => if k == total - 1 then 1 else 0)
  }

  /** Both loops of the client: they end, with every write posted once and reaped, the bell
      set for the last one, the window filled but never exceeded, and the clock started
      `iters` posts before the end. `started` is the number of posts at that moment. */
  method Stream(nic: Nic, cfg: Config) returns (started: nat)
    requires cfg.Valid() && nic.Valid() && nic.posts == [] && nic.reaped == 0 && nic.peak == 0
    modifies nic
    ensures nic.posts == Bells(cfg.Total()) && nic.reaped == cfg.Total()
    ensures nic.peak == if cfg.depth < cfg.Total() then cfg.depth else cfg.Total()
    ensures cfg.Total() - started == cfg.iters
  {
    var total := cfg.Total();
    var scnt, ccnt, doorbell := 0, 0, 0;
    started := 0;
    while ccnt < total
      invariant nic.Valid() && |nic.posts| == scnt && nic.reaped == ccnt
      invariant ccnt <= scnt <= total && scnt - ccnt <= cfg.depth
      invariant nic.posts == Bells(total)[..scnt]
      invariant doorbell == if scnt == total then 1 else 0
      invariant started == if scnt > WARMUP then WARMUP else 0
      invariant nic.peak <= cfg.depth && nic.peak <= total
      invariant scnt == 0 || nic.peak == cfg.depth || nic.peak == total
      decreases total - ccnt, total - scnt, nic.patience
    {
      ghost var patience := nic.patience;
      while scnt < total && scnt - ccnt < cfg.depth
        invariant nic.Valid() && |nic.posts| == scnt && nic.reaped == ccnt
        invariant ccnt <= scnt <= total && scnt - ccnt <= cfg.depth
        invariant nic.posts == Bells(total)[..scnt]
        invariant doorbell == if scnt == total then 1 else 0
        invariant started == if scnt > WARMUP then WARMUP else 0
        invariant scnt - ccnt <= nic.peak <= cfg.depth && nic.peak <= total
        invariant ccnt == 0 || nic.peak == cfg.depth || nic.peak == total
        invariant nic.patience == patience
        decreases total - scnt
      {
        if scnt == total - 1 {
          doorbell := 1;
        }
        if scnt == WARMUP {
          started := scnt;
        }
        assert Bells(total)[..scnt + 1] == Bells(total)[..scnt] + [Bells(total)[scnt]];
        nic.PostWrite(doorbell);
        scnt := scnt + 1;
      }
      var ne := nic.PollCq();
      ccnt := ccnt + ne;
    }
    assert Bells(total)[..scnt] == Bells(total);
  }
}
