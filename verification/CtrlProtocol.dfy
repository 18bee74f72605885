/**
 The control connection between one client and the pool's server: a META exchange, then
 one request and one reply at a time, over a byte stream that moves any number of bytes
 at a time. Each side works in one 16-byte buffer, in which requests, replies and the
 META reply lie over each other.
 */
module CtrlProtocol {
  import opened Bytes
  import opened CtrlMessages
  import opened Counting
  import opened KvPool

  /** The server's pool, the calls the client makes and the bytes the connection holds in
      each direction. */
  datatype Config = Config(slots: nat, slotSize: nat, calls: seq<Request>, capacity: nat) {
    predicate Valid() {
      && 0 < slots < 0x8000_0000 && slotSize < 0x1_0000_0000_0000_0000 && capacity >= 1
      && forall k | 0 <= k < |calls| :: IsCall(calls[k])
    }
  }

  /** What the client sends: ALLOC without a payload, or FREE of any number. */
  predicate IsCall(c: Request) {
    (c.kind == ALLOC && c.arg == 0) || (c.kind == FREE && IsInt(c.arg))
  }

  datatype ClientPc = Sending | Receiving | Closed | Failed

  datatype ServerPc = Getting | Answering | Returned(code: int)

  /** In exchange `k`, `done` bytes of the message being sent or received have moved.
      Exchange 0 is META. */
  datatype Client = Client(pc: ClientPc, k: nat, done: nat, buf: seq<Byte>,
                           slots: int, slotSize: nat, results: seq<int>)

  datatype Server = Server(pc: ServerPc, k: nat, done: nat, buf: seq<Byte>, free: seq<int>)

  datatype State = State(client: Client, server: Server, up: seq<Byte>, down: seq<Byte>)

  datatype Event =
    | ClientMoves(n: nat)
    | ClientTurns
    | ClientSeesEnd
    | ServerMoves(n: nat)
    | ServerTurns
    | ServerSeesEnd

  function AskLength(k: nat): nat {
    if k == 0 then 4 else 8
  }

  function AnswerLength(k: nat): nat {
    if k == 0 then BUFFER else 4
  }

  /** The bytes the client sends in exchange `k`. */
  function Ask(cfg: Config, k: nat): (b: seq<Byte>)
    requires cfg.Valid() && k <= |cfg.calls|
    ensures |b| == AskLength(k)
  {
    if k == 0 then EncodeInt(META) else RequestBytes(cfg.calls[k - 1])
  }

  function Start(cfg: Config): State
    requires cfg.Valid()
  {
    var zeros := seq(BUFFER, i => 0);
    State(Client(Sending, 0, 0, Put(zeros, 0, Ask(cfg, 0)), 0, 0, []),
          Server(Getting, 0, 0, zeros, Upto(cfg.slots)), [], [])
  }

  predicate Shaped(st: State) {
    && |st.client.buf| == BUFFER && |st.server.buf| == BUFFER
    && (st.client.pc.Sending? ==> st.client.done <= AskLength(st.client.k))
    && (st.client.pc.Receiving? ==> st.client.done <= AnswerLength(st.client.k))
    && (st.server.pc.Getting? ==> st.server.done <= AskLength(st.server.k))
    && (st.server.pc.Answering? ==> st.server.done <= AnswerLength(st.server.k))
  }

  predicate Enabled(cfg: Config, st: State, e: Event)
    requires cfg.Valid() && Shaped(st)
  {
    var c, s := st.client, st.server;
    match e
    case ClientMoves(n) =>
      || (c.pc.Sending? && 1 <= n <= AskLength(c.k) - c.done && |st.up| + n <= cfg.capacity)
      || (c.pc.Receiving? && 1 <= n <= AnswerLength(c.k) - c.done && n <= |st.down|)
    case ClientTurns =>
      && c.k <= |cfg.calls| && (c.pc.Sending? || c.pc.Receiving?)
      && c.done == (if c.pc.Sending? then AskLength(c.k) else AnswerLength(c.k))
    case ClientSeesEnd => c.pc.Receiving? && c.done < AnswerLength(c.k) && st.down == [] && s.pc.Returned?
    case ServerMoves(n) =>
      || (s.pc.Getting? && 1 <= n <= AskLength(s.k) - s.done && n <= |st.up|)
      || (s.pc.Answering? && 1 <= n <= AnswerLength(s.k) - s.done && |st.down| + n <= cfg.capacity)
    case ServerTurns => s.pc.Getting? && s.done == AskLength(s.k)
    case ServerSeesEnd =>
      s.pc.Getting? && s.done < AskLength(s.k) && st.up == [] && (c.pc.Closed? || c.pc.Failed?)
  }

  function ClientMoved(cfg: Config, st: State, n: nat): State
    requires cfg.Valid() && Shaped(st) && Enabled(cfg, st, ClientMoves(n))
  {
    var c := st.client;
    if c.pc.Sending? then
      st.(client := c.(done := c.done + n), up := st.up + c.buf[c.done..c.done + n])
    else
      st.(client := c.(done := c.done + n, buf := Put(c.buf, c.done, st.down[..n])), down := st.down[n..])
  }

  /** The request of exchange `k` goes into the buffer, or the client is through. */
  function AskNext(cfg: Config, c: Client, k: nat): Client
    requires cfg.Valid() && |c.buf| == BUFFER
  {
    if k > |cfg.calls| then c.(pc := Closed, k := k, done := 0)
    else c.(pc := Sending, k := k, done := 0, buf := Put(c.buf, 0, Ask(cfg, k)))
  }

  /** What the client does with a whole reply. */
  function Take(cfg: Config, c: Client): Client
    requires cfg.Valid() && |c.buf| == BUFFER && c.k <= |cfg.calls|
  {
    if c.k == 0 then
      AskNext(cfg, c.(slots := DecodeInt(c.buf[0..4]), slotSize := Decode(c.buf[8..16])), 1)
    else
      var value := DecodeInt(c.buf[0..4]);
      if cfg.calls[c.k - 1].kind == FREE && value != 0 then c.(pc := Failed)
      else AskNext(cfg, c.(results := c.results + [value]), c.k + 1)
  }

  function ClientTurned(cfg: Config, c: Client): Client
    requires cfg.Valid() && |c.buf| == BUFFER && c.k <= |cfg.calls|
  {
    if c.pc.Sending? then c.(pc := Receiving, done := 0) else Take(cfg, c)
  }

  /** With its reply sent, the server waits for the next request. */
  function ServerMoved(cfg: Config, st: State, n: nat): State
    requires cfg.Valid() && Shaped(st) && Enabled(cfg, st, ServerMoves(n))
  {
    var s := st.server;
    if s.pc.Getting? then
      st.(server := s.(done := s.done + n, buf := Put(s.buf, s.done, st.up[..n])), up := st.up[n..])
    else
      st.(server := if s.done + n < AnswerLength(s.k) then s.(done := s.done + n)
                    else s.(pc := Getting, k := s.k + 1, done := 0),
          down := st.down + s.buf[s.done..s.done + n])
  }

  /** The META reply as the server's buffer holds it; four bytes of padding stay as they
      are. */
  function WithMeta(cfg: Config, buf: seq<Byte>): (b: seq<Byte>)
    requires cfg.Valid() && |buf| == BUFFER
    ensures |b| == BUFFER
  {
    Put(Put(buf, 0, EncodeInt(cfg.slots)), 8, Encode(cfg.slotSize, 8))
  }

  /** What the server does with a whole request. */
  function Treat(cfg: Config, s: Server): Server
    requires cfg.Valid() && |s.buf| == BUFFER
  {
    if s.k == 0 then
      if DecodeInt(s.buf[0..4]) != META then s.(pc := Returned(-1))
      else s.(pc := Answering, done := 0, buf := WithMeta(cfg, s.buf))
    else
      match Handle(cfg.slots, s.free, RequestIn(s.buf))
      case Refused => s.(pc := Returned(-1))
      case Reply(value, free') =>
        s.(pc := Answering, done := 0, buf := Put(s.buf, 0, EncodeInt(value)), free := free')
  }

  function Step(cfg: Config, st: State, e: Event): State
    requires cfg.Valid() && Shaped(st) && Enabled(cfg, st, e)
  {
    match e
    case ClientMoves(n) => ClientMoved(cfg, st, n)
    case ClientTurns => st.(client := ClientTurned(cfg, st.client))
    case ClientSeesEnd => st.(client := st.client.(pc := Failed))
    case ServerMoves(n) => ServerMoved(cfg, st, n)
    case ServerTurns => st.(server := Treat(cfg, st.server))
    case ServerSeesEnd => st.(server := st.server.(pc := Returned(if st.server.k == 0 then -1 else 0)))
  }
}
