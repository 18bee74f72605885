/**
 The send/receive ping-pong: receive credits and one shared completion queue a side.

 Each side is a program counter with running totals. Completions of sends and receives
 may be reaped in any order, and the program never asks which kind it reaped. A message
 is delivered only where a receive is posted; without one it waits, which is what an
 RNR NAK amounts to.
 */
module PingPong {
  import opened Limits

  /** `total` iterations in all; `depth` receives are kept posted. */
  datatype Config = Config(total: nat, depth: nat) {
    predicate Valid() {
      total >= 1 && depth >= 1
    }

    function Prepost(): nat {
      if depth < total then depth else total
    }
  }

  datatype Pc = Fill | PostRecv | PostSend | Poll1 | Poll2 | Done

  datatype Kind = SendDone | RecvDone

  /** `i` is the iteration; the other fields count since the start: receives and sends
      posted, own messages delivered and acknowledged, completions reaped. */
  datatype Side = Side(i: nat, pc: Pc, recvs: nat, sends: nat, delivered: nat, acked: nat, gotSends: nat, gotRecvs: nat)

  datatype State = State(client: Side, server: Side)

  datatype Event =
    | Act(client: bool, kind: Kind)  // the kind matters to a poll only
    | Deliver(fromClient: bool)
    | Ack(toClient: bool)

  /** The client fills its receive queue after the start barrier; the server has done
      so before it. */
  function Start(cfg: Config): State {
    State(Side(0, Fill, 0, 0, 0, 0, 0, 0), Side(0, Poll1, cfg.Prepost(), 0, 0, 0, 0, 0))
  }

  /** Is a completion of this kind waiting in the side's queue? */
  predicate Ready(s: Side, peer: Side, kind: Kind) {
    match kind
    case SendDone => s.gotSends < s.acked
    case RecvDone => s.gotRecvs < peer.delivered
  }

  function Reap(s: Side, kind: Kind): Side {
    match kind
    case SendDone => s.(gotSends := s.gotSends + 1)
    case RecvDone => s.(gotRecvs := s.gotRecvs + 1)
  }

  /** Replacing the consumed receive, while later iterations still need one. */
  function Repost(cfg: Config, s: Side): Side {
    if s.i + cfg.Prepost() < cfg.total then s.(recvs := s.recvs + 1) else s
  }

  /** Both loops have the same shape: the client starts an iteration by posting, the
      server by polling. */
  function NextIteration(cfg: Config, s: Side, first: Pc): Side {
    s.(i := s.i + 1, pc := if s.i + 1 < cfg.total then first else Done)
  }

  predicate CanAct(s: Side, peer: Side, kind: Kind) {
    match s.pc
    case Done => false
    case Poll1 => Ready(s, peer, kind)
    case Poll2 => Ready(s, peer, kind)
    case _ => true
  }

  function ActClient(cfg: Config, s: Side, kind: Kind): Side {
    match s.pc
    case Fill =>
      if s.recvs < cfg.Prepost() then s.(recvs := s.recvs + 1) else s.(pc := PostRecv)
    case PostRecv => Repost(cfg, s).(pc := PostSend)
    case PostSend => s.(sends := s.sends + 1, pc := Poll1)
    case Poll1 => Reap(s, kind).(pc := Poll2)
    case Poll2 => NextIteration(cfg, Reap(s, kind), PostRecv)
    case Done => s
  }

  function ActServer(cfg: Config, s: Side, kind: Kind): Side {
    match s.pc
    case Poll1 => Reap(s, kind).(pc := PostRecv)
    case PostRecv => Repost(cfg, s).(pc := PostSend)
    case PostSend => s.(sends := s.sends + 1, pc := Poll2)
    case Poll2 => NextIteration(cfg, Reap(s, kind), Poll1)
    case _ => s
  }

  predicate Enabled(st: State, e: Event) {
    match e
    case Act(true, kind) => CanAct(st.client, st.server, kind)
    case Act(false, kind) => CanAct(st.server, st.client, kind)
    case Deliver(true) => st.client.delivered < st.client.sends && st.client.delivered < st.server.recvs
    case Deliver(false) => st.server.delivered < st.server.sends && st.server.delivered < st.client.recvs
    case Ack(true) => st.client.acked < st.client.delivered
    case Ack(false) => st.server.acked < st.server.delivered
  }

  function Step(cfg: Config, st: State, e: Event): State
    requires Enabled(st, e)
  {
    match e
    case Act(true, kind) => st.(client := ActClient(cfg, st.client, kind))
    case Act(false, kind) => st.(server := ActServer(cfg, st.server, kind))
    case Deliver(true) => st.(client := st.client.(delivered := st.client.delivered + 1))
    case Deliver(false) => st.(server := st.server.(delivered := st.server.delivered + 1))
    case Ack(true) => st.(client := st.client.(acked := st.client.acked + 1))
    case Ack(false) => st.(server := st.server.(acked := st.server.acked + 1))
  }

  ghost predicate Reaches(cfg: Config, st: State, run: seq<Event>, end: State)
    decreases |run|
  {
    if run == [] then st == end
    else Enabled(st, run[0]) && Reaches(cfg, Step(cfg, st, run[0]), run[1..], end)
  }

  ghost predicate Reachable(cfg: Config, st: State) {
    exists run :: Reaches(cfg, Start(cfg), run, st)
  }

  // ----- What every run keeps

  function Min(a: nat, b: nat): nat {
    if a < b then a else b
  }

  predicate Counted(s: Side, peer: Side) {
    s.gotSends <= s.acked <= s.delivered <= s.sends && s.gotRecvs <= peer.delivered
  }

  predicate ClientInv(cfg: Config, s: Side) {
    && (s.pc.Fill? ==> s.i == 0 && s.recvs <= cfg.Prepost())
    && (s.pc.Done? <==> s.i == cfg.total)
    && s.i <= cfg.total
    && s.sends == s.i + (if s.pc.Poll1? || s.pc.Poll2? then 1 else 0)
    && s.gotSends + s.gotRecvs == 2 * s.i + (if s.pc.Poll2? then 1 else 0)
    && (!s.pc.Fill? ==>
          var ahead := if s.pc.PostSend? || s.pc.Poll1? || s.pc.Poll2? then 1 else 0;
          s.recvs == Min(cfg.total, cfg.Prepost() + s.i + ahead))
  }

  predicate ServerInv(cfg: Config, s: Side) {
    && !s.pc.Fill?
    && (s.pc.Done? <==> s.i == cfg.total)
    && s.i <= cfg.total
    && s.sends == s.i + (if s.pc.Poll2? then 1 else 0)
    && s.gotSends + s.gotRecvs == 2 * s.i + (if s.pc.Poll1? || s.pc.Done? then 0 else 1)
    && s.recvs == Min(cfg.total, cfg.Prepost() + s.i + (if s.pc.PostSend? || s.pc.Poll2? then 1 else 0))
  }

  predicate Inv(cfg: Config, st: State) {
    && cfg.Valid()
    && ClientInv(cfg, st.client) && ServerInv(cfg, st.server)
    && Counted(st.client, st.server) && Counted(st.server, st.client)
    && st.client.delivered <= st.server.recvs && st.server.delivered <= st.client.recvs
    // Every pong answers a ping that was received, every further ping a pong.
    && st.server.sends <= st.server.gotRecvs
    && st.client.sends <= st.client.gotRecvs + 1
    // At most one send is unreaped.
    && st.server.sends <= st.server.gotSends + 1
    && st.client.sends <= st.client.gotSends + 1
  }

  /** Receives are replaced until there have been `total` of them. */
  lemma RepostCounts(cfg: Config, s: Side)
    requires cfg.Valid() && s.recvs == Min(cfg.total, cfg.Prepost() + s.i)
    ensures Repost(cfg, s).recvs == Min(cfg.total, cfg.Prepost() + s.i + 1)
  {
  }

  lemma ClientFills(cfg: Config, st: State, kind: Kind)
    requires Inv(cfg, st) && st.client.pc.Fill?
    ensures Inv(cfg, Step(cfg, st, Act(true, kind)))
  {
  }

  lemma ClientReposts(cfg: Config, st: State, kind: Kind)
    requires Inv(cfg, st) && st.client.pc.PostRecv?
    ensures Inv(cfg, Step(cfg, st, Act(true, kind)))
  {
    RepostCounts(cfg, st.client);
  }

  lemma ClientSends(cfg: Config, st: State, kind: Kind)
    requires Inv(cfg, st) && st.client.pc.PostSend?
    ensures Inv(cfg, Step(cfg, st, Act(true, kind)))
  {
  }

  lemma ClientPolls(cfg: Config, st: State, kind: Kind)
    requires Inv(cfg, st) && Enabled(st, Act(true, kind))
    requires st.client.pc.Poll1? || st.client.pc.Poll2?
    ensures Inv(cfg, Step(cfg, st, Act(true, kind)))
  {
    if st.client.pc.Poll1? {
    } else if st.client.i + 1 < cfg.total {
    } else {
    }
  }

  lemma ServerReposts(cfg: Config, st: State, kind: Kind)
    requires Inv(cfg, st) && st.server.pc.PostRecv?
    ensures Inv(cfg, Step(cfg, st, Act(false, kind)))
  {
    RepostCounts(cfg, st.server);
  }

  lemma ServerSends(cfg: Config, st: State, kind: Kind)
    requires Inv(cfg, st) && st.server.pc.PostSend?
    ensures Inv(cfg, Step(cfg, st, Act(false, kind)))
  {
  }

  lemma ServerPolls(cfg: Config, st: State, kind: Kind)
    requires Inv(cfg, st) && Enabled(st, Act(false, kind))
    requires st.server.pc.Poll1? || st.server.pc.Poll2?
    ensures Inv(cfg, Step(cfg, st, Act(false, kind)))
  {
    if st.server.pc.Poll1? {
    } else if st.server.i + 1 < cfg.total {
    } else {
    }
  }

  lemma Delivers(cfg: Config, st: State, fromClient: bool)
    requires Inv(cfg, st) && Enabled(st, Deliver(fromClient))
    ensures Inv(cfg, Step(cfg, st, Deliver(fromClient)))
  {
  }

  lemma Acks(cfg: Config, st: State, toClient: bool)
    requires Inv(cfg, st) && Enabled(st, Ack(toClient))
    ensures Inv(cfg, Step(cfg, st, Ack(toClient)))
  {
  }

  lemma StepKeepsInv(cfg: Config, st: State, e: Event)
    requires Inv(cfg, st) && Enabled(st, e)
    ensures Inv(cfg, Step(cfg, st, e))
  {
    match e
    case Act(true, kind) =>
      match st.client.pc {
        case Fill => ClientFills(cfg, st, kind);
        case PostRecv => ClientReposts(cfg, st, kind);
        case PostSend => ClientSends(cfg, st, kind);
        case _ => ClientPolls(cfg, st, kind);
      }
    case Act(false, kind) =>
      match st.server.pc {
        case PostRecv => ServerReposts(cfg, st, kind);
        case PostSend => ServerSends(cfg, st, kind);
        case _ => ServerPolls(cfg, st, kind);
      }
    case Deliver(fromClient) => Delivers(cfg, st, fromClient);
    case Ack(toClient) => Acks(cfg, st, toClient);
  }

  lemma {:induction false} RunKeepsInv(cfg: Config, st: State, run: seq<Event>, end: State)
    requires Inv(cfg, st) && Reaches(cfg, st, run, end)
    ensures Inv(cfg, end)
    decreases |run|
  {
    if run != [] {
      StepKeepsInv(cfg, st, run[0]);
      RunKeepsInv(cfg, Step(cfg, st, run[0]), run[1..], end);
    }
  }

  lemma ReachableInv(cfg: Config, st: State)
    requires cfg.Valid() && Reachable(cfg, st)
    ensures Inv(cfg, st)
  {
    var run :| Reaches(cfg, Start(cfg), run, st);
    RunKeepsInv(cfg, Start(cfg), run, st);
  }

  /** The server answers ping `i` only after it was received, and by then has reaped
      every completion of its earlier pongs: a matter of counting alone, because the
      completions it reaps are of unknown kind. The same holds of the client's pings. */
  lemma AnswersInTurn(cfg: Config, st: State)
    requires cfg.Valid() && Reachable(cfg, st)
    ensures st.server.pc.PostSend? ==>
              st.server.gotRecvs == st.server.i + 1 && st.server.gotSends == st.server.sends == st.server.i
    ensures st.client.pc.PostSend? ==>
              st.client.gotRecvs == st.client.gotSends == st.client.sends == st.client.i
    ensures st.server.sends <= st.client.delivered && st.client.sends <= st.server.delivered + 1
    ensures st.server.sends - st.server.gotSends <= 1 && st.client.sends - st.client.gotSends <= 1
  {
    ReachableInv(cfg, st);
  }

  /** No message ever waits for a receive: whenever one is under way, one is posted. */
  lemma NeverNotReady(cfg: Config, st: State)
    requires cfg.Valid() && Reachable(cfg, st)
    ensures st.client.delivered < st.client.sends ==> Enabled(st, Deliver(true))
    ensures st.server.delivered < st.server.sends ==> Enabled(st, Deliver(false))
  {
    ReachableInv(cfg, st);
  }

  /** Exactly `total` receives are posted and consumed on each side, and every
      completion is reaped, when the side leaves its loop. */
  lemma AccountsClose(cfg: Config, st: State)
    requires cfg.Valid() && Reachable(cfg, st)
    ensures st.server.pc.Done? ==>
              && st.server.recvs == st.server.sends == st.server.gotRecvs == st.server.gotSends == cfg.total
              && st.server.acked == st.client.delivered == cfg.total
    ensures st.client.pc.Done? ==>
              && st.client.recvs == st.client.sends == st.client.gotRecvs == st.client.gotSends == cfg.total
              && st.client.acked == st.server.delivered == cfg.total
  {
    ReachableInv(cfg, st);
  }

  /** Receives posted and not yet consumed. */
  function Outstanding(s: Side, peer: Side): int {
    s.recvs - peer.delivered
  }

  /** The server keeps at most `Prepost()` receives posted, the client at most one more,
      because it posts before it sends; a completion queue never holds more than two. */
  lemma CreditsBounded(cfg: Config, st: State)
    requires cfg.Valid() && Reachable(cfg, st)
    ensures Outstanding(st.server, st.client) <= cfg.Prepost()
    ensures Outstanding(st.client, st.server) <= cfg.Prepost() + 1
    ensures st.client.recvs <= cfg.total && st.server.recvs <= cfg.total
    ensures (st.client.acked - st.client.gotSends) + (st.server.delivered - st.client.gotRecvs) <= 2
    ensures (st.server.acked - st.server.gotSends) + (st.client.delivered - st.server.gotRecvs) <= 2
  {
    ReachableInv(cfg, st);
  }

  // ----- Every run finishes

  predicate Finished(st: State) {
    st.client.pc.Done? && st.server.pc.Done?
  }

  function ClientWork(cfg: Config, s: Side): int {
    4 * (cfg.total - s.i) +
    match s.pc
    case Fill => cfg.Prepost() - s.recvs + 1
    case PostSend => -1
    case Poll1 => -2
    case Poll2 => -3
    case _ => 0
  }

  function ServerWork(cfg: Config, s: Side): int {
    4 * (cfg.total - s.i) +
    match s.pc
    case PostRecv => -1
    case PostSend => -2
    case Poll2 => -3
    case _ => 0
  }

  function WireWork(cfg: Config, s: Side): int {
    2 * cfg.total - s.delivered - s.acked
  }

  /** Events still to come. */
  function Remaining(cfg: Config, st: State): int {
    ClientWork(cfg, st.client) + ServerWork(cfg, st.server) + WireWork(cfg, st.client) + WireWork(cfg, st.server)
  }

  lemma EventCountsDown(cfg: Config, st: State, e: Event)
    requires Inv(cfg, st) && Enabled(st, e)
    ensures Remaining(cfg, Step(cfg, st, e)) == Remaining(cfg, st) - 1
  {
    match e
    case Act(true, kind) => ClientCountsDown(cfg, st, kind);
    case Act(false, kind) => ServerCountsDown(cfg, st, kind);
    case Deliver(fromClient) => DeliveryCountsDown(cfg, st, fromClient);
    case Ack(toClient) => AckCountsDown(cfg, st, toClient);
  }

  lemma DeliveryCountsDown(cfg: Config, st: State, fromClient: bool)
    requires Enabled(st, Deliver(fromClient))
    ensures Remaining(cfg, Step(cfg, st, Deliver(fromClient))) == Remaining(cfg, st) - 1
  {
  }

  lemma AckCountsDown(cfg: Config, st: State, toClient: bool)
    requires Enabled(st, Ack(toClient))
    ensures Remaining(cfg, Step(cfg, st, Ack(toClient))) == Remaining(cfg, st) - 1
  {
  }

  lemma ClientCountsDown(cfg: Config, st: State, kind: Kind)
    requires Inv(cfg, st) && CanAct(st.client, st.server, kind)
    ensures ClientWork(cfg, ActClient(cfg, st.client, kind)) == ClientWork(cfg, st.client) - 1
    ensures WireWork(cfg, ActClient(cfg, st.client, kind)) == WireWork(cfg, st.client)
  {
  }

  lemma ServerCountsDown(cfg: Config, st: State, kind: Kind)
    requires Inv(cfg, st) && CanAct(st.server, st.client, kind)
    ensures ServerWork(cfg, ActServer(cfg, st.server, kind)) == ServerWork(cfg, st.server) - 1
    ensures WireWork(cfg, ActServer(cfg, st.server, kind)) == WireWork(cfg, st.server)
  {
  }

  lemma RemainingIsNatural(cfg: Config, st: State)
    requires Inv(cfg, st)
    ensures Remaining(cfg, st) >= 0
    ensures Finished(st) ==> Remaining(cfg, st) == 0
  {
  }

  /** A poll never waits in vain. */
  lemma NoDeadlock(cfg: Config, st: State) returns (e: Event)
    requires Inv(cfg, st) && !Finished(st)
    ensures Enabled(st, e)
  {
    if st.client.delivered < st.client.sends {
      e := Deliver(true);
    } else if st.server.delivered < st.server.sends {
      e := Deliver(false);
    } else if st.client.acked < st.client.delivered {
      e := Ack(true);
    } else if st.server.acked < st.server.delivered {
      e := Ack(false);
    } else if CanAct(st.client, st.server, SendDone) {
      e := Act(true, SendDone);
    } else if CanAct(st.client, st.server, RecvDone) {
      e := Act(true, RecvDone);
    } else if CanAct(st.server, st.client, SendDone) {
      e := Act(false, SendDone);
    } else {
      e := Act(false, RecvDone);
    }
  }

  lemma {:induction false} RunCountsDown(cfg: Config, st: State, run: seq<Event>, end: State)
    requires Inv(cfg, st) && Reaches(cfg, st, run, end)
    ensures |run| == Remaining(cfg, st) - Remaining(cfg, end)
    decreases |run|
  {
    if run != [] {
      EventCountsDown(cfg, st, run[0]);
      StepKeepsInv(cfg, st, run[0]);
      RunCountsDown(cfg, Step(cfg, st, run[0]), run[1..], end);
    }
  }

  /** No run is longer than a fixed bound, and both sides have left their loops exactly
      when that length is reached. */
  lemma RunsFinish(cfg: Config, run: seq<Event>, end: State)
    requires cfg.Valid() && Reaches(cfg, Start(cfg), run, end)
    ensures |run| <= Remaining(cfg, Start(cfg)) == 12 * cfg.total + cfg.Prepost() + 1
    ensures Finished(end) <==> |run| == Remaining(cfg, Start(cfg))
  {
    RunKeepsInv(cfg, Start(cfg), run, end);
    RunCountsDown(cfg, Start(cfg), run, end);
    RemainingIsNatural(cfg, end);
    if !Finished(end) {
      var e := NoDeadlock(cfg, end);
      EventCountsDown(cfg, end, e);
      StepKeepsInv(cfg, end, e);
      RemainingIsNatural(cfg, Step(cfg, end, e));
    }
  }

  // ----- Does the receive queue suffice?

  function Filling(k: nat): Side {
    Side(0, Fill, k, 0, 0, 0, 0, 0)
  }

  /** The client fills its queue before anything else happens. */
  lemma {:induction false} FillRun(cfg: Config, k: nat) returns (run: seq<Event>)
    requires cfg.Valid() && k <= cfg.Prepost()
    ensures Reaches(cfg, State(Filling(k), Start(cfg).server), run,
                    State(Filling(cfg.Prepost()).(pc := PostRecv), Start(cfg).server))
    decreases cfg.Prepost() - k
  {
    var st := State(Filling(k), Start(cfg).server);
    var e := Act(true, SendDone);
    if k == cfg.Prepost() {
      run := [e];
      assert run[1..] == [];
    } else {
      var rest := FillRun(cfg, k + 1);
      run := [e] + rest;
      assert run[1..] == rest;
    }
  }

  lemma {:induction false} ReachesExtends(cfg: Config, st: State, run: seq<Event>, mid: State, e: Event)
    requires Reaches(cfg, st, run, mid) && Enabled(mid, e)
    ensures Reaches(cfg, st, run + [e], Step(cfg, mid, e))
    decreases |run|
  {
    if run == [] {
      assert (run + [e])[1..] == [];
    } else {
      ReachesExtends(cfg, Step(cfg, st, run[0]), run[1..], mid, e);
      assert (run + [e])[1..] == run[1..] + [e];
    }
  }

  /** The client's first repost makes one receive more than the queue was filled with. */
  lemma PeakIsReached(cfg: Config) returns (st: State)
    requires cfg.Valid() && cfg.Prepost() < cfg.total
    ensures Reachable(cfg, st) && Outstanding(st.client, st.server) == cfg.Prepost() + 1
  {
    var run := FillRun(cfg, 0);
    var full := State(Filling(cfg.Prepost()).(pc := PostRecv), Start(cfg).server);
    ReachesExtends(cfg, Start(cfg), run, full, Act(true, SendDone));
    st := Step(cfg, full, Act(true, SendDone));
  }

  /** The receive queues never hold more than their usable entries.*/
  predicate FitsQueues(st: State) {
    Outstanding(st.client, st.server) <= USABLE_WR && Outstanding(st.server, st.client) <= USABLE_WR
  }

  /** The option parser admits a depth of USABLE_WR, but the client then posts one
      receive too many, unless the run is too short for a repost. */
  lemma QueuesSuffice(cfg: Config)
    requires cfg.Valid() && cfg.depth <= USABLE_WR
    ensures (forall st | Reachable(cfg, st) :: FitsQueues(st)) <==> cfg.depth < USABLE_WR || cfg.total <= USABLE_WR
  {
    if cfg.depth < USABLE_WR || cfg.total <= USABLE_WR {
      forall st | Reachable(cfg, st)
        ensures FitsQueues(st)
      {
        CreditsBounded(cfg, st);
      }
    } else {
      var st := PeakIsReached(cfg);
    }
  }
}
