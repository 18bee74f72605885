/**
 One-sided writes paced by acknowledgements only, with a 32-bit iteration number in the
 last four bytes. The server looks at that word at any moment, also while it is half
 written, and waits for the final value alone.

 The word is little-endian and bytes land in increasing address order, so what it shows
 is some bytes of iteration k+1 below the remaining bytes of iteration k. A look takes
 the four bytes at once.
 */
module TornDoorbell {
  import opened Bytes
  import opened Counting

  /** `total` iterations; `size` counts the payload bytes before the word. */
  datatype Config = Config(total: nat, size: nat) {
    predicate Valid() {
      1 <= total < 0x1_0000_0000
    }
  }

  datatype Pc = Fill | Post | Poll | Done

  /** The client's buffer `out` (payload and word), the server's buffer `at`, the client's
      iteration, its writes posted, bytes of the latest landed, writes completed. */
  datatype State = State(i: nat, pc: Pc, out: seq<Byte>, at: seq<Byte>,
                         posted: nat, landed: nat, acked: nat, left: bool)

  /** `Fill` writes the iteration number and, to be general, any payload. */
  datatype Event = Act(payload: seq<Byte>) | LandByte | Complete | Leave

  // ----- The half-written word

  /** The word after the lowest `n` bytes of k+1 have landed over those of k. */
  function Torn(k: nat, n: nat): (b: seq<Byte>)
    requires n <= 4
    ensures |b| == 4
  {
    Encode(k + 1, 4)[..n] + Encode(k, 4)[n..]
  }

  /** The value of a little-endian word, written out. */
  function Weigh(b: seq<Byte>): int
    requires |b| == 4
  {
    var b0: int, b1: int, b2: int, b3: int := b[0], b[1], b[2], b[3];
    b0 + 0x100 * b1 + 0x1_0000 * b2 + 0x100_0000 * b3
  }

  lemma DecodeWord(b: seq<Byte>)
    requires |b| == 4
    ensures Decode(b) == Weigh(b)
  {
    var b2: int, b3: int := b[2], b[3];
    assert b[1..][1..] == b[2..] && b[2..][1..] == b[3..] && b[3..][1..] == [];
    assert Decode(b[2..]) == b2 + 0x100 * b3;
  }

  lemma WordFits(x: nat)
    requires x < 0x1_0000_0000
    ensures Decode(Encode(x, 4)) == x
  {
    Spans();
    DecodeEncode(x, 4);
  }

  /** Adding one to a word: full bytes become zero and carry. */
  function Successor(b: seq<Byte>): (c: seq<Byte>)
    requires |b| == 4
    ensures |c| == 4
  {
    if b[0] < 0xFF then [b[0] + 1, b[1], b[2], b[3]]
    else if b[1] < 0xFF then [0, b[1] + 1, b[2], b[3]]
    else if b[2] < 0xFF then [0, 0, b[2] + 1, b[3]]
    else if b[3] < 0xFF then [0, 0, 0, b[3] + 1]
    else [0, 0, 0, 0]
  }

  lemma BytesOfSuccessor(k: nat)
    requires k + 1 < 0x1_0000_0000
    ensures Encode(k + 1, 4) == Successor(Encode(k, 4))
  {
    WordFits(k);
    DecodeWord(Encode(k, 4));
    var c := Successor(Encode(k, 4));
    DecodeWord(c);
    EncodeDecode(c);
  }

  /** A half-written word is k+1 already, or at most k: a carry out of the landed bytes
      has left them zero. */
  lemma TornWord(k: nat, n: nat)
    requires k + 1 < 0x1_0000_0000 && n <= 4
    ensures Decode(Torn(k, n)) == k + 1 ==> n > 0 && Torn(k, n) == Encode(k + 1, 4)
    ensures Decode(Torn(k, n)) != k + 1 ==> Decode(Torn(k, n)) <= k
  {
    WordFits(k);
    BytesOfSuccessor(k);
    var b, c := Encode(k, 4), Successor(Encode(k, 4));
    DecodeWord(b);
    DecodeWord(Torn(k, n));
    assert Torn(k, n) == c[..n] + b[n..];
  }

  // ----- The protocol

  function Start(cfg: Config): State {
    var zeros := seq(cfg.size + 4, k => 0);
    State(0, Fill, zeros, zeros, 0, cfg.size + 4, 0, false)
  }

  predicate Shaped(cfg: Config, st: State) {
    |st.out| == cfg.size + 4 && |st.at| == cfg.size + 4 && st.landed <= cfg.size + 4
  }

  /** What the server's look at the last four bytes shows. */
  function Seen(cfg: Config, st: State): nat
    requires Shaped(cfg, st)
  {
    Decode(st.at[cfg.size..])
  }

  predicate Enabled(cfg: Config, st: State, e: Event)
    requires Shaped(cfg, st)
  {
    match e
    case Act(payload) =>
      match st.pc {
        case Fill => |payload| == cfg.size
        case Post => true
        case Poll => st.acked == st.posted
        case Done => false
      }
    case LandByte => st.acked < st.posted && st.landed < cfg.size + 4
    case Complete => st.acked < st.posted && st.landed == cfg.size + 4
    case Leave => !st.left && Seen(cfg, st) == cfg.total
  }

  function Step(cfg: Config, st: State, e: Event): State
    requires Shaped(cfg, st) && Enabled(cfg, st, e)
  {
    match e
    case Act(payload) =>
      match st.pc {
        case Fill => st.(pc := Post, out := payload + Encode(st.i + 1, 4))
        case Post => st.(pc := Poll, posted := st.posted + 1, landed := 0)
        case Poll => st.(i := st.i + 1, pc := if st.i + 1 < cfg.total then Fill else Done)
        case Done => st
      }
    case LandByte => st.(at := st.at[st.landed := st.out[st.landed]], landed := st.landed + 1)
    case Complete => st.(acked := st.acked + 1)
    case Leave => st.(left := true)
  }

  ghost predicate Reaches(cfg: Config, st: State, run: seq<Event>, end: State)
    decreases |run|
  {
    && Shaped(cfg, st)
    && if run == [] then st == end
       else Enabled(cfg, st, run[0]) && Reaches(cfg, Step(cfg, st, run[0]), run[1..], end)
  }

  ghost predicate Reachable(cfg: Config, st: State) {
    exists run :: Reaches(cfg, Start(cfg), run, st)
  }

  /** Bytes of the word that the write in flight has put in place. */
  function WordLanded(cfg: Config, st: State): (n: nat)
    requires Shaped(cfg, st)
    ensures n <= 4
  {
    if st.landed <= cfg.size then 0 else st.landed - cfg.size
  }

  /** What has landed is what the client sends, and the word is half-written accordingly. */
  predicate Landing(cfg: Config, st: State)
    requires Shaped(cfg, st)
  {
    && (forall k | 0 <= k < st.landed :: st.at[k] == st.out[k])
    && st.at[cfg.size..] == Torn(st.i, WordLanded(cfg, st))
  }

  predicate Inv(cfg: Config, st: State) {
    && cfg.Valid() && Shaped(cfg, st)
    && (st.pc.Done? <==> st.i == cfg.total) && st.i <= cfg.total
    && st.posted == st.i + (if st.pc.Poll? then 1 else 0)
    && st.acked <= st.posted <= st.acked + 1
    && (st.pc != Poll ==> st.acked == st.posted)
    && (st.acked == st.posted ==> st.landed == cfg.size + 4)
    && (st.pc.Post? || st.pc.Poll? ==> st.out[cfg.size..] == Encode(st.i + 1, 4))
    && (st.pc.Poll? ==> Landing(cfg, st))
    && (st.pc.Done? ==> st.at == st.out)
    && (!st.pc.Poll? ==> st.at[cfg.size..] == Encode(st.i, 4))
    && (st.left ==> st.posted == cfg.total)
  }

  lemma StartHasInv(cfg: Config)
    requires cfg.Valid()
    ensures Inv(cfg, Start(cfg))
  {
    assert Start(cfg).at[cfg.size..] == [0, 0, 0, 0] == Encode(0, 4);
  }

  lemma ActKeepsInv(cfg: Config, st: State, payload: seq<Byte>)
    requires Inv(cfg, st) && Enabled(cfg, st, Act(payload))
    ensures Inv(cfg, Step(cfg, st, Act(payload)))
  {
    match st.pc
    case Fill => assert (payload + Encode(st.i + 1, 4))[cfg.size..] == Encode(st.i + 1, 4);
    case Post => assert Torn(st.i, 0) == Encode(st.i, 4);
    case Poll => assert Torn(st.i, 4) == Encode(st.i + 1, 4);
  }

  /** A byte before the word lands. */
  lemma PayloadLands(cfg: Config, st: State)
    requires Shaped(cfg, st) && Landing(cfg, st) && st.landed < cfg.size && Enabled(cfg, st, LandByte)
    ensures Landing(cfg, Step(cfg, st, LandByte))
  {
    assert Step(cfg, st, LandByte).at[cfg.size..] == st.at[cfg.size..];
  }

  lemma TornMore(out: seq<Byte>, at: seq<Byte>, from: nat, k: nat, n: nat)
    requires |out| == |at| == from + 4 && n < 4
    requires out[from..] == Encode(k + 1, 4) && at[from..] == Torn(k, n)
    ensures at[from + n := out[from + n]][from..] == Torn(k, n + 1)
  {
    assert at[from + n := out[from + n]][from..] == at[from..][n := out[from..][n]];
  }

  /** A byte of the word lands. */
  lemma WordLands(cfg: Config, st: State)
    requires Shaped(cfg, st) && Landing(cfg, st) && st.landed >= cfg.size && Enabled(cfg, st, LandByte)
    requires st.out[cfg.size..] == Encode(st.i + 1, 4)
    ensures Landing(cfg, Step(cfg, st, LandByte))
  {
    TornMore(st.out, st.at, cfg.size, st.i, st.landed - cfg.size);
  }

  lemma LandKeepsInv(cfg: Config, st: State)
    requires Inv(cfg, st) && Enabled(cfg, st, LandByte)
    ensures Inv(cfg, Step(cfg, st, LandByte))
  {
    if st.landed < cfg.size {
      PayloadLands(cfg, st);
    } else {
      WordLands(cfg, st);
    }
  }

  lemma Completes(cfg: Config, st: State)
    requires Inv(cfg, st) && Enabled(cfg, st, Complete)
    ensures Inv(cfg, Step(cfg, st, Complete))
  {
  }

  /** The final value shows only while the last write is landing its word, or later. */
  lemma FinalShowsLast(cfg: Config, st: State)
    requires Inv(cfg, st) && Seen(cfg, st) == cfg.total
    ensures st.posted == cfg.total
    ensures st.landed > cfg.size && st.at[cfg.size..] == Encode(cfg.total, 4)
    ensures st.at == st.out
  {
    if st.pc.Poll? {
      TornWord(st.i, WordLanded(cfg, st));
      assert st.at[cfg.size..] == st.out[cfg.size..];
      assert st.at == st.at[..cfg.size] + st.at[cfg.size..] && st.out == st.out[..cfg.size] + st.out[cfg.size..];
    } else {
      WordFits(st.i);
    }
  }

  lemma StepKeepsInv(cfg: Config, st: State, e: Event)
    requires Inv(cfg, st) && Enabled(cfg, st, e)
    ensures Inv(cfg, Step(cfg, st, e))
  {
    match e
    case Act(payload) => ActKeepsInv(cfg, st, payload);
    case LandByte => LandKeepsInv(cfg, st);
    case Complete => Completes(cfg, st);
    case Leave => FinalShowsLast(cfg, st);
  }

  lemma {:induction false} RunKeepsInv(cfg: Config, st: State, run: seq<Event>, end: State)
    requires Inv(cfg, st) && Reaches(cfg, st, run, end)
    ensures Inv(cfg, end)
    decreases |run|
  {
    if run != [] {
      StepKeepsInv(cfg, st, run[0]);
      RunKeepsInv(cfg, Step(cfg, st, run[0]), run[1..], end);
    }
  }

  lemma ReachableInv(cfg: Config, st: State)
    requires cfg.Valid() && Reachable(cfg, st)
    ensures Inv(cfg, st)
  {
    StartHasInv(cfg);
    var run :| Reaches(cfg, Start(cfg), run, st);
    RunKeepsInv(cfg, Start(cfg), run, st);
  }

  /** Whenever the word shows the final value, half-written or not and whatever
      intermediate values were missed, the last write has been posted and every byte of
      its payload is in place: the two buffers agree, while it is in flight and after. */
  lemma FinalMeansInPlace(cfg: Config, st: State)
    requires cfg.Valid() && Reachable(cfg, st) && Shaped(cfg, st) && Seen(cfg, st) == cfg.total
    ensures st.posted == cfg.total && st.i + 1 >= cfg.total
    ensures st.landed > cfg.size
    ensures st.at == st.out
  {
    ReachableInv(cfg, st);
    FinalShowsLast(cfg, st);
  }

  /** Once the last write has completed the word shows the final value, and nothing can
      change it any more: the server does leave. */
  lemma FinalStays(cfg: Config, st: State)
    requires cfg.Valid() && Reachable(cfg, st) && st.pc.Done?
    ensures Shaped(cfg, st) && Seen(cfg, st) == cfg.total
    ensures forall e | Enabled(cfg, st, e) :: e == Leave
  {
    ReachableInv(cfg, st);
    WordFits(cfg.total);
  }

  // ----- Every run finishes

  predicate Finished(st: State) {
    st.pc.Done? && st.left
  }

  function ClientWork(cfg: Config, st: State): int {
    3 * (cfg.total - st.i) -
    match st.pc
    case Fill => 0
    case Post => 1
    case Poll => 2
    case Done => 0
  }

  /** Bytes to land and completions to arrive, over all iterations. */
  function WireWork(cfg: Config, st: State): int {
    Times(cfg.size + 4, cfg.total - st.posted) + (cfg.size + 4 - st.landed) + (cfg.total - st.acked)
  }

  function Remaining(cfg: Config, st: State): int {
    ClientWork(cfg, st) + WireWork(cfg, st) + if st.left then 0 else 1
  }

  /** Every event brings the count down by one. */
  lemma EventCountsDown(cfg: Config, st: State, e: Event)
    requires Inv(cfg, st) && Enabled(cfg, st, e)
    ensures Remaining(cfg, Step(cfg, st, e)) == Remaining(cfg, st) - 1
  {
  }

  lemma NoDeadlock(cfg: Config, st: State) returns (e: Event)
    requires Inv(cfg, st) && !Finished(st)
    ensures Enabled(cfg, st, e)
  {
    if st.acked < st.posted {
      e := if st.landed < cfg.size + 4 then LandByte else Complete;
    } else if st.pc.Done? {
      WordFits(cfg.total);
      e := Leave;
    } else {
      e := Act(seq(cfg.size, k => 0));
    }
  }

  lemma RemainingIsNatural(cfg: Config, st: State)
    requires Inv(cfg, st)
    ensures Remaining(cfg, st) >= 0
    ensures Finished(st) ==> Remaining(cfg, st) == 0
  {
  }

  lemma {:induction false} RunCountsDown(cfg: Config, st: State, run: seq<Event>, end: State)
    requires Inv(cfg, st) && Reaches(cfg, st, run, end)
    ensures |run| == Remaining(cfg, st) - Remaining(cfg, end)
    decreases |run|
  {
    if run != [] {
      EventCountsDown(cfg, st, run[0]);
      StepKeepsInv(cfg, st, run[0]);
      RunCountsDown(cfg, Step(cfg, st, run[0]), run[1..], end);
    }
  }

  /** No run is longer than a fixed bound, and the client is through and the server has
      left its wait exactly when that length is reached. */
  lemma RunsFinish(cfg: Config, run: seq<Event>, end: State)
    requires cfg.Valid() && Reaches(cfg, Start(cfg), run, end)
    ensures |run| <= Remaining(cfg, Start(cfg))
    ensures Finished(end) <==> |run| == Remaining(cfg, Start(cfg))
  {
    StartHasInv(cfg);
    RunKeepsInv(cfg, Start(cfg), run, end);
    RunCountsDown(cfg, Start(cfg), run, end);
    RemainingIsNatural(cfg, end);
    if !Finished(end) {
      var e := NoDeadlock(cfg, end);
      EventCountsDown(cfg, end, e);
      StepKeepsInv(cfg, end, e);
      RemainingIsNatural(cfg, Step(cfg, end, e));
    }
  }
}
