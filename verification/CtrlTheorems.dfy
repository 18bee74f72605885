/**
 The control connection stays framed, however its bytes are split: every reply answers
 the request just sent, and the client's results are those of the pool served directly.
 */
module CtrlTheorems {
  import opened Bytes
  import opened CtrlMessages
  import opened Counting
  import opened KvPool
  import opened CtrlProtocol

  ghost predicate Reaches(cfg: Config, st: State, run: seq<Event>, end: State)
    requires cfg.Valid()
    decreases |run|
  {
    && Shaped(st)
    && if run == [] then st == end
       else Enabled(cfg, st, run[0]) && Reaches(cfg, Step(cfg, st, run[0]), run[1..], end)
  }

  ghost predicate Reachable(cfg: Config, st: State)
    requires cfg.Valid()
  {
    exists run :: Reaches(cfg, Start(cfg), run, st)
  }

  // ----- What every run keeps

  /** The pool served directly, by the first `n` calls. */
  function Direct(cfg: Config, n: nat): Service
    requires n <= |cfg.calls|
  {
    Serve(cfg.slots, Upto(cfg.slots), cfg.calls[..n])
  }

  /** Calls made before exchange `k`. */
  function Before(k: nat): nat {
    if k == 0 then 0 else k - 1
  }

  /** `free` is the free list, and nothing has been refused, after the first `n` calls. */
  predicate Served(cfg: Config, n: nat, free: seq<int>)
    requires n <= |cfg.calls|
  {
    Direct(cfg, n).clean && Direct(cfg, n).free == free
  }

  /** The server's buffer holds the reply of exchange `k`. */
  predicate AnswerStands(cfg: Config, k: nat, buf: seq<Byte>)
    requires k <= |cfg.calls| && |buf| == BUFFER
  {
    if k == 0 then DecodeInt(buf[0..4]) == cfg.slots && Decode(buf[8..16]) == cfg.slotSize
    else Direct(cfg, k).clean && Direct(cfg, k).replies == Direct(cfg, k - 1).replies + [DecodeInt(buf[0..4])]
  }

  /** Request `k` is on its way, `sent` bytes of it sent. */
  predicate Asked(cfg: Config, st: State, k: nat, sent: nat)
    requires cfg.Valid() && k <= |cfg.calls| && Shaped(st)
  {
    var s := st.server;
    && s.pc.Getting? && s.k == k && Served(cfg, Before(k), s.free)
    && s.done <= sent <= AskLength(k)
    && st.up == Ask(cfg, k)[s.done..sent] && s.buf[..s.done] == Ask(cfg, k)[..s.done]
    && st.down == []
  }

  /** `got` bytes of reply `k` are in the client's buffer, and the rest is under way or in
      the server's buffer. */
  predicate Delivering(k: nat, got: nat, buf: seq<Byte>, s: Server, up: seq<Byte>, down: seq<Byte>)
    requires |buf| == |s.buf| == BUFFER
  {
    && up == [] && got <= AnswerLength(k) && buf[..got] == s.buf[..got]
    && (|| (s.pc.Answering? && s.k == k && got <= s.done < AnswerLength(k) && down == s.buf[got..s.done])
        || (s.pc.Getting? && s.k == k + 1 && s.done == 0 && down == s.buf[got..AnswerLength(k)]))
  }

  predicate Ready(cfg: Config, k: nat, s: Server)
    requires k <= |cfg.calls| && |s.buf| == BUFFER
  {
    Served(cfg, k, s.free) && AnswerStands(cfg, k, s.buf)
  }

  /** Reply `k` is on its way, `got` bytes of it received: the server is sending it or has
      sent it. */
  predicate Answered(cfg: Config, st: State, k: nat, got: nat)
    requires cfg.Valid() && k <= |cfg.calls| && Shaped(st)
  {
    Ready(cfg, k, st.server) && Delivering(k, got, st.client.buf, st.server, st.up, st.down)
  }

  /** The server has given up on request `k`. */
  predicate GivenUp(cfg: Config, st: State, k: nat)
    requires k <= |cfg.calls|
  {
    && k >= 1 && st.server.pc == Returned(-1) && st.up == [] && st.down == []
    && Direct(cfg, k) == Service(Direct(cfg, k - 1).replies, st.server.free, false)
  }

  predicate ClientKnows(cfg: Config, c: Client)
    requires Before(c.k) <= |cfg.calls|
  {
    && Direct(cfg, Before(c.k)).clean && c.results == Direct(cfg, Before(c.k)).replies
    && (c.k >= 1 ==> c.slots == cfg.slots && c.slotSize == cfg.slotSize)
  }

  predicate Link(cfg: Config, st: State)
    requires cfg.Valid() && Shaped(st) && st.client.k <= |cfg.calls| + 1
  {
    var c, s := st.client, st.server;
    match c.pc
    case Sending =>
      && c.k <= |cfg.calls| && c.buf[..AskLength(c.k)] == Ask(cfg, c.k)
      && (Asked(cfg, st, c.k, c.done)
          || (c.done == AskLength(c.k) && (Answered(cfg, st, c.k, 0) || GivenUp(cfg, st, c.k))))
    case Receiving =>
      && c.k <= |cfg.calls|
      && ((c.done == 0 && (Asked(cfg, st, c.k, AskLength(c.k)) || GivenUp(cfg, st, c.k)))
          || Answered(cfg, st, c.k, c.done))
    case Closed =>
      && c.k == |cfg.calls| + 1 && st.up == [] && st.down == [] && Served(cfg, |cfg.calls|, s.free)
      && ((s.pc.Getting? && s.k == c.k && s.done == 0) || s.pc == Returned(0))
    case Failed => c.k <= |cfg.calls| && GivenUp(cfg, st, c.k)
  }

  predicate Inv(cfg: Config, st: State) {
    && cfg.Valid() && Shaped(st) && st.client.k <= |cfg.calls| + 1
    && ClientKnows(cfg, st.client) && Link(cfg, st)
  }

  /** One more call, served directly. */
  lemma DirectMore(cfg: Config, n: nat)
    requires n < |cfg.calls| && Direct(cfg, n).clean
    ensures match Handle(cfg.slots, Direct(cfg, n).free, cfg.calls[n])
            case Refused => Direct(cfg, n + 1) == Service(Direct(cfg, n).replies, Direct(cfg, n).free, false)
            case Reply(value, free') => Direct(cfg, n + 1) == Service(Direct(cfg, n).replies + [value], free', true)
  {
    assert cfg.calls[..n + 1] == cfg.calls[..n] + [cfg.calls[n]];
    ServeMore(cfg.slots, Upto(cfg.slots), cfg.calls[..n], cfg.calls[n]);
  }

  /** Replies are small, and a reply to FREE is 0. */
  lemma ReplyIsSmall(cfg: Config, n: nat)
    requires cfg.Valid() && n < |cfg.calls| && Direct(cfg, n + 1).clean
    ensures |Direct(cfg, n + 1).replies| == n + 1
    ensures var r := Direct(cfg, n + 1).replies[n]; IsInt(r) && (cfg.calls[n].kind == FREE ==> r == 0)
  {
    AnyRequests(cfg.slots, Upto(cfg.slots), cfg.calls[..n + 1]);
    ServeLength(cfg.slots, Upto(cfg.slots), cfg.calls[..n + 1]);
    assert cfg.calls[..n + 1][n] == cfg.calls[n];
  }

  lemma StartHasInv(cfg: Config)
    requires cfg.Valid()
    ensures Inv(cfg, Start(cfg))
  {
  }

  lemma ClientSends(cfg: Config, st: State, n: nat)
    requires Inv(cfg, st) && Enabled(cfg, st, ClientMoves(n)) && st.client.pc.Sending?
    ensures Shaped(ClientMoved(cfg, st, n))
    ensures Asked(cfg, ClientMoved(cfg, st, n), st.client.k, st.client.done + n)
  {
    var c, ask := st.client, Ask(cfg, st.client.k);
    assert c.buf[..|ask|][c.done..c.done + n] == c.buf[c.done..c.done + n];
    Extend(ask, st.server.done, c.done, c.done + n);
  }

  lemma DeliverMore(k: nat, got: nat, n: nat, buf: seq<Byte>, s: Server, down: seq<Byte>)
    requires |buf| == |s.buf| == BUFFER && Delivering(k, got, buf, s, [], down)
    requires n <= |down| && got + n <= AnswerLength(k)
    ensures Delivering(k, got + n, Put(buf, got, down[..n]), s, [], down[n..])
  {
    var most := if s.pc.Answering? then s.done else AnswerLength(k);
    Extend(s.buf, got, got + n, most);
    Extend(s.buf, 0, got, got + n);
    PutEnd(buf, got, down[..n]);
  }

  lemma ClientReceives(cfg: Config, st: State, n: nat)
    requires Inv(cfg, st) && Enabled(cfg, st, ClientMoves(n)) && st.client.pc.Receiving?
    ensures Shaped(ClientMoved(cfg, st, n))
    ensures Answered(cfg, ClientMoved(cfg, st, n), st.client.k, st.client.done + n)
  {
    var c, s := st.client, st.server;
    assert Answered(cfg, st, c.k, c.done);
    DeliverMore(c.k, c.done, n, c.buf, s, st.down);
  }

  lemma ClientMovesKeepInv(cfg: Config, st: State, n: nat)
    requires Inv(cfg, st) && Enabled(cfg, st, ClientMoves(n))
    ensures Inv(cfg, ClientMoved(cfg, st, n))
  {
    if st.client.pc.Sending? {
      ClientSends(cfg, st, n);
    } else {
      ClientReceives(cfg, st, n);
    }
  }

  /** How much of the request has been sent, while it is on its way. */
  function SentSoFar(c: Client): nat {
    if c.pc.Sending? then c.done else AskLength(c.k)
  }

  /** How much of the reply has been received, while it is on its way. */
  function GotSoFar(c: Client): nat {
    if c.pc.Sending? then 0 else c.done
  }

  lemma GetMore(ask: seq<Byte>, done: nat, sent: nat, n: nat, buf: seq<Byte>, up: seq<Byte>)
    requires |buf| == BUFFER && done + n <= sent <= |ask| <= BUFFER
    requires up == ask[done..sent] && buf[..done] == ask[..done]
    ensures |Put(buf, done, up[..n])| == BUFFER && Put(buf, done, up[..n])[..done + n] == ask[..done + n]
    ensures up[n..] == ask[done + n..sent]
  {
    Extend(ask, done, done + n, sent);
    Extend(ask, 0, done, done + n);
    PutEnd(buf, done, up[..n]);
  }

  lemma ServerGets(cfg: Config, st: State, n: nat)
    requires cfg.Valid() && st.client.k <= |cfg.calls| && Shaped(st)
    requires Asked(cfg, st, st.client.k, SentSoFar(st.client)) && Enabled(cfg, st, ServerMoves(n))
    ensures Shaped(ServerMoved(cfg, st, n))
    ensures Asked(cfg, ServerMoved(cfg, st, n), st.client.k, SentSoFar(st.client))
  {
    var s := st.server;
    GetMore(Ask(cfg, st.client.k), s.done, SentSoFar(st.client), n, s.buf, st.up);
  }

  lemma AnswerMore(k: nat, got: nat, n: nat, buf: seq<Byte>, s: Server, s': Server, down: seq<Byte>)
    requires |buf| == |s.buf| == BUFFER && Delivering(k, got, buf, s, [], down)
    requires s.pc.Answering? && s.done + n <= AnswerLength(k)
    requires s' == if s.done + n < AnswerLength(k) then s.(done := s.done + n)
                   else s.(pc := Getting, k := k + 1, done := 0)
    ensures Delivering(k, got, buf, s', [], down + s.buf[s.done..s.done + n])
  {
    Extend(s.buf, got, s.done, s.done + n);
  }

  lemma ReadyStays(cfg: Config, k: nat, s: Server, s': Server)
    requires k <= |cfg.calls| && |s.buf| == BUFFER && Ready(cfg, k, s) && s'.free == s.free && s'.buf == s.buf
    ensures Ready(cfg, k, s')
  {
  }

  lemma ServerAnswers(cfg: Config, st: State, n: nat)
    requires cfg.Valid() && st.client.k <= |cfg.calls| && Shaped(st)
    requires Answered(cfg, st, st.client.k, GotSoFar(st.client)) && st.server.pc.Answering?
    requires Enabled(cfg, st, ServerMoves(n))
    ensures Shaped(ServerMoved(cfg, st, n))
    ensures Answered(cfg, ServerMoved(cfg, st, n), st.client.k, GotSoFar(st.client))
  {
    var s, s' := st.server, ServerMoved(cfg, st, n).server;
    AnswerMore(st.client.k, GotSoFar(st.client), n, st.client.buf, s, s', st.down);
    ReadyStays(cfg, st.client.k, s, s');
  }

  lemma ServerMovesKeepInv(cfg: Config, st: State, n: nat)
    requires Inv(cfg, st) && Enabled(cfg, st, ServerMoves(n))
    ensures Inv(cfg, ServerMoved(cfg, st, n))
  {
    if st.server.pc.Getting? {
      assert Asked(cfg, st, st.client.k, SentSoFar(st.client));
      ServerGets(cfg, st, n);
    } else {
      assert Answered(cfg, st, st.client.k, GotSoFar(st.client));
      ServerAnswers(cfg, st, n);
    }
  }

  /** The words of a reply that has wholly arrived. */
  lemma SameWords(a: seq<Byte>, b: seq<Byte>, n: nat)
    requires |a| == |b| == BUFFER && (n == 4 || n == BUFFER) && a[..n] == b[..n]
    ensures a[0..4] == b[0..4] && (n == BUFFER ==> a[8..16] == b[8..16])
  {
    Extend(a, 0, 4, n);
    Extend(b, 0, 4, n);
  }

  /** The reply to a FREE is 0, so the client takes every reply of a call served clean. */
  lemma ReplyIsTaken(cfg: Config, k: nat, buf: seq<Byte>)
    requires cfg.Valid() && 0 < k <= |cfg.calls| && |buf| == BUFFER && AnswerStands(cfg, k, buf)
    ensures cfg.calls[k - 1].kind == FREE ==> DecodeInt(buf[0..4]) == 0
  {
    ReplyIsSmall(cfg, k - 1);
  }

  /** What the client knows once it has taken a whole reply, before it goes on. */
  function Learnt(cfg: Config, c: Client): Client
    requires |c.buf| == BUFFER
  {
    if c.k == 0 then c.(slots := DecodeInt(c.buf[0..4]), slotSize := Decode(c.buf[8..16]))
    else c.(results := c.results + [DecodeInt(c.buf[0..4])])
  }

  lemma LearntIsRight(cfg: Config, c: Client)
    requires c.k <= |cfg.calls| && |c.buf| == BUFFER && ClientKnows(cfg, c) && AnswerStands(cfg, c.k, c.buf)
    ensures ClientKnows(cfg, Learnt(cfg, c).(k := c.k + 1))
  {
  }

  lemma KnowledgeStays(cfg: Config, c: Client, k: nat)
    requires cfg.Valid() && |c.buf| == BUFFER && Before(k) <= |cfg.calls| && ClientKnows(cfg, c.(k := k))
    ensures ClientKnows(cfg, AskNext(cfg, c, k))
  {
  }

  lemma TakeGivesResult(cfg: Config, c: Client, buf: seq<Byte>)
    requires cfg.Valid() && c.k <= |cfg.calls| && |c.buf| == |buf| == BUFFER && ClientKnows(cfg, c)
    requires AnswerStands(cfg, c.k, buf) && c.buf[..AnswerLength(c.k)] == buf[..AnswerLength(c.k)]
    ensures Take(cfg, c) == AskNext(cfg, Learnt(cfg, c), c.k + 1) && ClientKnows(cfg, Take(cfg, c))
  {
    SameWords(c.buf, buf, AnswerLength(c.k));
    if c.k > 0 {
      ReplyIsTaken(cfg, c.k, c.buf);
    }
    LearntIsRight(cfg, c);
    KnowledgeStays(cfg, Learnt(cfg, c), c.k + 1);
  }

  lemma SentTurns(cfg: Config, st: State)
    requires Inv(cfg, st) && Enabled(cfg, st, ClientTurns) && st.client.pc.Sending?
    ensures Inv(cfg, st.(client := ClientTurned(cfg, st.client)))
  {
    var c := st.client;
    var st' := st.(client := ClientTurned(cfg, c));
    if Asked(cfg, st, c.k, c.done) {
      assert Asked(cfg, st', c.k, AskLength(c.k));
    } else if Answered(cfg, st, c.k, 0) {
      assert Answered(cfg, st', c.k, 0);
    } else {
      assert GivenUp(cfg, st', c.k);
    }
  }

  lemma ReceivedTurns(cfg: Config, st: State)
    requires Inv(cfg, st) && Enabled(cfg, st, ClientTurns) && st.client.pc.Receiving?
    ensures Inv(cfg, st.(client := ClientTurned(cfg, st.client)))
  {
    var c := st.client;
    var st' := st.(client := ClientTurned(cfg, c));
    assert Answered(cfg, st, c.k, c.done);
    TakeGivesResult(cfg, c, st.server.buf);
    if c.k < |cfg.calls| {
      PutEnd(c.buf, 0, Ask(cfg, c.k + 1));
      assert Asked(cfg, st', c.k + 1, 0);
    }
  }

  lemma ClientTurnKeepsInv(cfg: Config, st: State)
    requires Inv(cfg, st) && Enabled(cfg, st, ClientTurns)
    ensures Inv(cfg, st.(client := ClientTurned(cfg, st.client)))
  {
    if st.client.pc.Sending? {
      SentTurns(cfg, st);
    } else {
      ReceivedTurns(cfg, st);
    }
  }

  lemma TreatMeta(cfg: Config, s: Server)
    requires cfg.Valid() && |s.buf| == BUFFER && s.k == 0 && s.buf[..4] == Ask(cfg, 0)
    ensures var s' := Treat(cfg, s);
            s'.pc.Answering? && s'.k == 0 && s'.done == 0 && s'.free == s.free && |s'.buf| == BUFFER
            && AnswerStands(cfg, 0, s'.buf)
  {
    DecodeEncodeInt(META);
    DecodeEncodeInt(cfg.slots);
    Spans();
    DecodeEncode(cfg.slotSize, 8);
    var one := Put(s.buf, 0, EncodeInt(cfg.slots));
    var two := Put(one, 8, Encode(cfg.slotSize, 8));
    assert two[0..4] == two[..8][0..4] == one[..8][0..4] == one[0..4];
  }

  lemma TreatCall(cfg: Config, s: Server)
    requires cfg.Valid() && |s.buf| == BUFFER && 1 <= s.k <= |cfg.calls| && s.buf[..8] == Ask(cfg, s.k)
    requires Served(cfg, s.k - 1, s.free)
    ensures var s' := Treat(cfg, s);
            && s'.k == s.k && |s'.buf| == BUFFER
            && if Direct(cfg, s.k).clean then
                 s'.pc.Answering? && s'.done == 0 && Served(cfg, s.k, s'.free) && AnswerStands(cfg, s.k, s'.buf)
               else
                 s'.pc == Returned(-1) && Direct(cfg, s.k) == Service(Direct(cfg, s.k - 1).replies, s'.free, false)
  {
    var call := cfg.calls[s.k - 1];
    assert s.buf[0..4] == s.buf[..8][0..4] == EncodeInt(call.kind);
    assert s.buf[4..8] == s.buf[..8][4..8] == EncodeInt(call.arg);
    DecodeEncodeInt(call.kind);
    DecodeEncodeInt(call.arg);
    DirectMore(cfg, s.k - 1);
    if Direct(cfg, s.k).clean {
      ReplyIsSmall(cfg, s.k - 1);
      var value := Handle(cfg.slots, s.free, call).value;
      DecodeEncodeInt(value);
      assert Put(s.buf, 0, EncodeInt(value))[0..4] == EncodeInt(value);
    }
  }

  /** A request that has wholly arrived has been answered or refused. */
  lemma TreatedKeepsInv(cfg: Config, st: State, s': Server)
    requires Inv(cfg, st) && st.client.k <= |cfg.calls| && Asked(cfg, st, st.client.k, AskLength(st.client.k))
    requires st.client.done == (if st.client.pc.Sending? then AskLength(st.client.k) else 0)
    requires st.client.pc.Sending? || st.client.pc.Receiving?
    requires Shaped(st.(server := s'))
    requires Answered(cfg, st.(server := s'), st.client.k, 0) || GivenUp(cfg, st.(server := s'), st.client.k)
    ensures Inv(cfg, st.(server := s'))
  {
  }

  /** When a whole request has arrived, the client has sent it and waits. */
  lemma WholeRequest(cfg: Config, st: State)
    requires Inv(cfg, st) && Enabled(cfg, st, ServerTurns)
    ensures st.client.k <= |cfg.calls| && Asked(cfg, st, st.client.k, AskLength(st.client.k))
    ensures st.client.pc.Sending? || st.client.pc.Receiving?
    ensures st.client.done == (if st.client.pc.Sending? then AskLength(st.client.k) else 0)
    ensures st.server.buf[..AskLength(st.client.k)] == Ask(cfg, st.client.k)
  {
    var k := st.client.k;
    assert Asked(cfg, st, k, AskLength(k));
    assert Ask(cfg, k)[..AskLength(k)] == Ask(cfg, k);
  }

  lemma MetaTurnKeepsInv(cfg: Config, st: State)
    requires Inv(cfg, st) && Enabled(cfg, st, ServerTurns) && st.server.k == 0
    ensures Inv(cfg, st.(server := Treat(cfg, st.server)))
  {
    WholeRequest(cfg, st);
    TreatMeta(cfg, st.server);
    TreatedKeepsInv(cfg, st, Treat(cfg, st.server));
  }

  lemma CallTurnKeepsInv(cfg: Config, st: State)
    requires Inv(cfg, st) && Enabled(cfg, st, ServerTurns) && st.server.k > 0
    ensures Inv(cfg, st.(server := Treat(cfg, st.server)))
  {
    WholeRequest(cfg, st);
    TreatCall(cfg, st.server);
    TreatedKeepsInv(cfg, st, Treat(cfg, st.server));
  }

  lemma ServerTurnKeepsInv(cfg: Config, st: State)
    requires Inv(cfg, st) && Enabled(cfg, st, ServerTurns)
    ensures Inv(cfg, st.(server := Treat(cfg, st.server)))
  {
    if st.server.k == 0 {
      MetaTurnKeepsInv(cfg, st);
    } else {
      CallTurnKeepsInv(cfg, st);
    }
  }

  lemma EndKeepsInv(cfg: Config, st: State, e: Event)
    requires Inv(cfg, st) && Enabled(cfg, st, e) && (e.ClientSeesEnd? || e.ServerSeesEnd?)
    ensures Inv(cfg, Step(cfg, st, e))
  {
    if e.ClientSeesEnd? {
      assert GivenUp(cfg, Step(cfg, st, e), st.client.k);
    }
  }

  lemma StepKeepsInv(cfg: Config, st: State, e: Event)
    requires Inv(cfg, st) && Enabled(cfg, st, e)
    ensures Inv(cfg, Step(cfg, st, e))
  {
    match e
    case ClientMoves(n) => ClientMovesKeepInv(cfg, st, n);
    case ClientTurns => ClientTurnKeepsInv(cfg, st);
    case ServerMoves(n) => ServerMovesKeepInv(cfg, st, n);
    case ServerTurns => ServerTurnKeepsInv(cfg, st);
    case _ => EndKeepsInv(cfg, st, e);
  }

  lemma {:induction false} RunKeepsInv(cfg: Config, st: State, run: seq<Event>, end: State)
    requires Inv(cfg, st) && Reaches(cfg, st, run, end)
    ensures Inv(cfg, end)
    decreases |run|
  {
    if run != [] {
      StepKeepsInv(cfg, st, run[0]);
      RunKeepsInv(cfg, Step(cfg, st, run[0]), run[1..], end);
    }
  }

  lemma ReachableInv(cfg: Config, st: State)
    requires cfg.Valid() && Reachable(cfg, st)
    ensures Inv(cfg, st)
  {
    StartHasInv(cfg);
    var run :| Reaches(cfg, Start(cfg), run, st);
    RunKeepsInv(cfg, Start(cfg), run, st);
  }

  // ----- Results

  /** Framing, upwards: when the server has received a whole message, it is byte for byte
      the message the client sent in the same exchange, and nothing else is under way. */
  lemma ServerGetsTheRequest(cfg: Config, st: State)
    requires cfg.Valid() && Reachable(cfg, st) && Shaped(st)
    requires st.server.pc.Getting? && st.server.done == AskLength(st.server.k)
    ensures st.client.k == st.server.k <= |cfg.calls|
    ensures st.server.buf[..AskLength(st.server.k)] == Ask(cfg, st.server.k)
    ensures st.up == [] && st.down == []
  {
    ReachableInv(cfg, st);
    var k := st.client.k;
    assert Asked(cfg, st, k, AskLength(k));
    assert Ask(cfg, k)[..AskLength(k)] == Ask(cfg, k);
  }

  /** Framing, downwards: when the client has received a whole message, it is byte for byte
      the one the server sent, and it answers the request the client just sent. */
  lemma ClientGetsTheReply(cfg: Config, st: State)
    requires cfg.Valid() && Reachable(cfg, st) && Shaped(st)
    requires st.client.pc.Receiving? && st.client.done == AnswerLength(st.client.k)
    ensures st.client.buf[..st.client.done] == st.server.buf[..st.client.done]
    ensures st.up == [] && st.down == []
    ensures st.client.k <= |cfg.calls|
    ensures st.client.k >= 1 ==>
              Direct(cfg, st.client.k).replies == st.client.results + [DecodeInt(st.client.buf[0..4])]
  {
    ReachableInv(cfg, st);
    var c, s := st.client, st.server;
    assert Answered(cfg, st, c.k, c.done);
    SameWords(c.buf, s.buf, c.done);
  }

  /** At any moment the client's results are the first replies of the pool served directly
      by the same calls, and once past META it knows the pool's dimensions. */
  lemma ResultsMatch(cfg: Config, st: State)
    requires cfg.Valid() && Reachable(cfg, st)
    ensures st.client.results <= Direct(cfg, |cfg.calls|).replies
    ensures st.client.k >= 1 ==> st.client.slots == cfg.slots && st.client.slotSize == cfg.slotSize
  {
    ReachableInv(cfg, st);
    ServePrefix(cfg.slots, Upto(cfg.slots), cfg.calls[..Before(st.client.k)], cfg.calls[..|cfg.calls|]);
  }

  /** How it ends: the client gets through exactly when the pool refuses none of its calls,
      and then it has all replies; the server ends in good order only after that, with the
      free list the calls leave behind. */
  lemma HowItEnds(cfg: Config, st: State)
    requires cfg.Valid() && Reachable(cfg, st)
    ensures var all := Direct(cfg, |cfg.calls|);
            && (st.client.pc.Closed? ==> all.clean && st.client.results == all.replies)
            && (st.client.pc.Failed? ==> !all.clean && st.client.results == all.replies)
            && (st.server.pc.Returned? ==> st.server.free == all.free)
            && (st.server.pc == Returned(0) ==> all.clean && st.client.pc.Closed?)
            && (st.server.pc.Returned? && st.server.pc != Returned(0) ==> !all.clean)
  {
    ReachableInv(cfg, st);
    var k := st.client.k;
    if k <= |cfg.calls| && GivenUp(cfg, st, k) {
      ServePrefix(cfg.slots, Upto(cfg.slots), cfg.calls[..k], cfg.calls[..|cfg.calls|]);
    }
  }

  // ----- Every run ends

  predicate Finished(st: State) {
    st.server.pc.Returned? && (st.client.pc.Closed? || st.client.pc.Failed?)
  }

  function Last(cfg: Config): nat {
    (|cfg.calls| + 2) * 64
  }

  /** How far a side has come: an exchange counts 64, a turn at least one more than the
      bytes before it. */
  function ClientProgress(cfg: Config, c: Client): nat {
    match c.pc
    case Sending => c.k * 64 + c.done
    case Receiving => c.k * 64 + 20 + c.done
    case _ => Last(cfg)
  }

  function ServerProgress(cfg: Config, s: Server): nat {
    match s.pc
    case Getting => s.k * 64 + s.done
    case Answering => s.k * 64 + 20 + s.done
    case Returned(_) => Last(cfg)
  }

  function Progress(cfg: Config, st: State): nat {
    ClientProgress(cfg, st.client) + ServerProgress(cfg, st.server)
  }

  lemma ServerIsWithUs(cfg: Config, st: State)
    requires Inv(cfg, st)
    ensures st.server.pc.Returned? || st.server.k <= |cfg.calls| + 1
    ensures st.client.pc.Closed? || st.client.k <= |cfg.calls|
    ensures st.server.pc.Answering? ==> st.server.k <= |cfg.calls|
  {
  }

  lemma ClientProgresses(cfg: Config, st: State, e: Event)
    requires Inv(cfg, st) && Enabled(cfg, st, e) && (e.ClientMoves? || e.ClientTurns? || e.ClientSeesEnd?)
    ensures Progress(cfg, Step(cfg, st, e)) > Progress(cfg, st)
  {
    ServerIsWithUs(cfg, st);
  }

  lemma TreatProgresses(cfg: Config, s: Server)
    requires cfg.Valid() && |s.buf| == BUFFER && s.pc.Getting? && s.k <= |cfg.calls| + 1 && s.done <= 8
    ensures ServerProgress(cfg, Treat(cfg, s)) > ServerProgress(cfg, s)
  {
  }

  lemma ServerProgresses(cfg: Config, st: State, e: Event)
    requires Inv(cfg, st) && Enabled(cfg, st, e) && (e.ServerMoves? || e.ServerSeesEnd?)
    ensures Progress(cfg, Step(cfg, st, e)) > Progress(cfg, st)
  {
    ServerIsWithUs(cfg, st);
  }

  /** Every event brings some side further. */
  lemma EventProgresses(cfg: Config, st: State, e: Event)
    requires Inv(cfg, st) && Enabled(cfg, st, e)
    ensures Progress(cfg, Step(cfg, st, e)) > Progress(cfg, st)
  {
    if e.ClientMoves? || e.ClientTurns? || e.ClientSeesEnd? {
      ClientProgresses(cfg, st, e);
    } else if e.ServerTurns? {
      ServerIsWithUs(cfg, st);
      TreatProgresses(cfg, st.server);
    } else {
      ServerProgresses(cfg, st, e);
    }
  }

  /** Short of the end something can happen, however small the connection's capacity. */
  lemma NoDeadlock(cfg: Config, st: State) returns (e: Event)
    requires Inv(cfg, st) && !Finished(st)
    ensures Enabled(cfg, st, e)
  {
    var c, s := st.client, st.server;
    if s.pc.Getting? && s.done == AskLength(s.k) {
      e := ServerTurns;
    } else if s.pc.Getting? && |st.up| > 0 {
      e := ServerMoves(1);
    } else if c.pc.Receiving? && |st.down| > 0 {
      e := ClientMoves(1);
    } else if (c.pc.Sending? && c.done == AskLength(c.k)) || (c.pc.Receiving? && c.done == AnswerLength(c.k)) {
      e := ClientTurns;
    } else if c.pc.Sending? {
      e := ClientMoves(1);
    } else if s.pc.Answering? {
      e := ServerMoves(1);
    } else if s.pc.Returned? {
      e := ClientSeesEnd;
    } else {
      e := ServerSeesEnd;
    }
  }

  lemma {:induction false} RunProgresses(cfg: Config, st: State, run: seq<Event>, end: State)
    requires Inv(cfg, st) && Reaches(cfg, st, run, end)
    ensures |run| + Progress(cfg, st) <= Progress(cfg, end)
    decreases |run|
  {
    if run != [] {
      EventProgresses(cfg, st, run[0]);
      StepKeepsInv(cfg, st, run[0]);
      RunProgresses(cfg, Step(cfg, st, run[0]), run[1..], end);
    }
  }

  /** No run is longer than a bound set by the number of calls, and a run that cannot be
      continued has brought both sides to their end. */
  lemma RunsFinish(cfg: Config, run: seq<Event>, end: State)
    requires cfg.Valid() && Reaches(cfg, Start(cfg), run, end)
    ensures |run| <= 2 * Last(cfg)
    ensures Shaped(end) && (!Finished(end) ==> exists e :: Enabled(cfg, end, e))
  {
    StartHasInv(cfg);
    RunKeepsInv(cfg, Start(cfg), run, end);
    RunProgresses(cfg, Start(cfg), run, end);
    ServerIsWithUs(cfg, end);
    if !Finished(end) {
      var e := NoDeadlock(cfg, end);
    }
  }
}
