/**
 The out-of-band exchange two sides hold once their loops are over, before either
 destroys its queue pair. The server accepts, sends and then receives; the client
 connects, receives and then sends. A connection may be queued before it is accepted.
 */
module Rendezvous {

  /** How far a side has come: still in its loop, waiting in accept or having connected,
      first transfer done, second transfer done, queue pair destroyed. */
  datatype Stage = Looping | Joined | Half | Met | Destroyed

  datatype Meeting = Meeting(server: Stage, client: Stage)

  function Rank(s: Stage): nat {
    match s
    case Looping => 0
    case Joined => 1
    case Half => 2
    case Met => 3
    case Destroyed => 4
  }

  function Next(s: Stage): Stage {
    match s
    case Looping => Joined
    case Joined => Half
    case Half => Met
    case _ => Destroyed
  }

  /** Accepting waits for the client to have connected, receiving for the client to have
      sent. */
  predicate ServerMay(m: Meeting) {
    match m.server
    case Joined => Rank(m.client) >= 1
    case Half => Rank(m.client) >= 3
    case Met => true
    case _ => false
  }

  /** Connecting never waits; receiving waits for the server to have sent. */
  predicate ClientMay(m: Meeting) {
    match m.client
    case Joined => Rank(m.server) >= 2
    case Half => true
    case Met => true
    case _ => false
  }

  predicate MeetingInv(m: Meeting) {
    && (Rank(m.server) >= 2 ==> Rank(m.client) >= 1)
    && (Rank(m.server) >= 3 ==> Rank(m.client) >= 3)
    && (Rank(m.client) >= 2 ==> Rank(m.server) >= 2)
  }

  predicate LeftLoop(s: Stage) {
    !s.Looping?
  }

  /** A side that has destroyed its queue pair has seen the other leave its loop. */
  lemma DestroyedAfterBothLeft(m: Meeting)
    requires MeetingInv(m)
    ensures m.server.Destroyed? ==> LeftLoop(m.client)
    ensures m.client.Destroyed? ==> LeftLoop(m.server)
  {
  }

  // ----- The exchange by itself

  /** One side moves on; a side may leave its loop at any time. */
  predicate Moves(m: Meeting, m': Meeting) {
    || ((m.server.Looping? || ServerMay(m)) && m' == m.(server := Next(m.server)))
    || ((m.client.Looping? || ClientMay(m)) && m' == m.(client := Next(m.client)))
  }

  predicate IsRun(run: seq<Meeting>) {
    && |run| >= 1 && run[0] == Meeting(Looping, Looping)
    && forall k | 0 < k < |run| :: Moves(run[k - 1], run[k])
  }

  /** In every run of the exchange: the server is through only once the client is, the
      client only once the server has come to the exchange, no side destroys its queue
      pair before the other has left its loop, and the sides never wait for each other
      for good. */
  lemma {:induction false} ExchangeSynchronizes(run: seq<Meeting>)
    requires IsRun(run)
    ensures var m := run[|run| - 1];
            && (Rank(m.server) >= 3 ==> Rank(m.client) >= 3)
            && (Rank(m.client) >= 3 ==> Rank(m.server) >= 2)
            && (m.server.Destroyed? ==> LeftLoop(m.client))
            && (m.client.Destroyed? ==> LeftLoop(m.server))
            && (m == Meeting(Destroyed, Destroyed) || exists m' :: Moves(m, m'))
  {
    RunKeepsMeetingInv(run);
    var m := run[|run| - 1];
    if m.client.Looping? || ClientMay(m) {
      assert Moves(m, m.(client := Next(m.client)));
    } else if m.server.Looping? || ServerMay(m) {
      assert Moves(m, m.(server := Next(m.server)));
    }
  }

  lemma {:induction false} RunKeepsMeetingInv(run: seq<Meeting>)
    requires IsRun(run)
    ensures MeetingInv(run[|run| - 1])
    decreases |run|
  {
    if |run| > 1 {
      var n := |run| - 1;
      var init := run[..n];
      forall k | 0 < k < n ensures Moves(init[k - 1], init[k]) {
        assert Moves(run[k - 1], run[k]);
      }
      RunKeepsMeetingInv(init);
      assert Moves(run[n - 1], run[n]);
    }
  }
}
