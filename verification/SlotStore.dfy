/**
 The slab behind the slot pool and the one-sided reads and writes on it. A holder of a
 slot reaches its bytes by address arithmetic alone; the server takes no part.

 Reads and writes move byte by byte, in any interleaving with those on other slots and
 with ALLOC and FREE. A holder may have several writes, or several reads, outstanding on a
 slot; they are carried out in the order they were posted, and each is acknowledged some
 time after its last byte.
 */
module SlotStore {
  import opened Bytes
  import opened Counting
  import opened KvPool
  import opened Remainders

  // ----- Addresses

  /** Addresses and sizes are 64 bits wide. */
  const W: int := 0x1_0000_0000_0000_0000

  /** The largest vector of bytes. */
  const MAX_SIZE: int := 0x7FFF_FFFF_FFFF_FFFF

  const INT_LIMIT: int := 0x8000_0000

  /** The client's computation, in unsigned 64-bit arithmetic. */
  function Address(base: int, size: int, slot: int): int {
    (base + (slot * size) % W) % W
  }

  lemma SlotFits(size: nat, slots: nat, slot: nat)
    requires slot < slots
    ensures 0 <= slot * size && slot * size + size <= slots * size
  {
    MultiplesApart(size, slot, slots);
  }

  /** For a slab that lies in memory, the computed address is the exact one and the slot
      is inside the slab. */
  lemma AddressIsExact(base: nat, size: nat, slots: nat, slot: nat)
    requires base + slots * size <= W && size > 0 && slot < slots
    ensures Address(base, size, slot) == base + slot * size
    ensures base <= Address(base, size, slot) && Address(base, size, slot) + size <= base + slots * size
  {
    SlotFits(size, slots, slot);
  }

  /** The slots of two numbers do not overlap. */
  lemma AddressesApart(base: nat, size: nat, slots: nat, a: nat, b: nat)
    requires base + slots * size <= W && size > 0 && a < slots && b < slots && a != b
    ensures || Address(base, size, a) + size <= Address(base, size, b)
            || Address(base, size, b) + size <= Address(base, size, a)
  {
    AddressIsExact(base, size, slots, a);
    AddressIsExact(base, size, slots, b);
    if a < b {
      MultiplesApart(size, a, b);
    } else {
      MultiplesApart(size, b, a);
    }
  }

  /** A parsed slot size, taken as unsigned. */
  function AsSize(v: int): int {
    if v < 0 then v + W else v
  }

  /** The size asked of the slab's vector. */
  function SlabSize(slots: int, size: int): int {
    slots * size % W
  }

  /** Only zero is refused when the slot size is parsed; a negative one gets through, but
      the slab it asks for exceeds every vector. For a positive one the size of the slab
      is exact. */
  lemma SlabSizeRule(slots: int, v: int)
    requires 0 < slots < INT_LIMIT && -INT_LIMIT <= v < INT_LIMIT && v != 0
    ensures SlabSize(slots, AsSize(v)) <= MAX_SIZE <==> v > 0
    ensures v > 0 ==> SlabSize(slots, AsSize(v)) == slots * v
  {
    if v > 0 {
      ProductBounds(slots, v);
    } else {
      ProductBounds(slots, -v);
      assert slots * AsSize(v) == slots * W - slots * -v;
      assert slots * AsSize(v) == (slots - 1) * W + (W - slots * -v);
      RemainderOfMultiple(slots - 1, W - slots * -v);
    }
  }

  lemma ProductBounds(a: int, b: int)
    requires 0 < a <= INT_LIMIT && 0 < b <= INT_LIMIT
    ensures 0 < a * b <= INT_LIMIT * INT_LIMIT
  {
    assert 0 < a * b <= INT_LIMIT * b;
  }

  lemma RemainderOfMultiple(q: int, r: int)
    requires 0 <= r < W
    ensures (q * W + r) % W == r
  {
  }

  // ----- The system

  datatype Config = Config(slots: nat, size: nat) {
    predicate Valid() {
      slots >= 1 && size >= 1
    }
  }

  /** What is outstanding on a slot. Of the writes `data`, the first `whole` are in place
      and `landed` bytes of the next one; of `posted` reads the first have fetched `got`
      and the next one `part`. */
  datatype Work =
    | Writes(data: seq<seq<Byte>>, whole: nat, landed: nat)
    | Reads(posted: nat, got: seq<seq<Byte>>, part: seq<Byte>)

  /** `owner` tells who holds each held slot, `work` what is outstanding on it. `wrote` is
      for the statement: what the present holder of a slot wrote last, among its writes
      that have been acknowledged. */
  datatype State = State(slab: seq<Byte>, free: seq<int>, owner: map<int, nat>,
                         work: map<int, Work>, wrote: map<int, seq<Byte>>)

  datatype Event =
    | Alloc(holder: nat)
    | Free(holder: nat, slot: int)
    | PostWrite(holder: nat, slot: int, data: seq<Byte>)
    | PostRead(holder: nat, slot: int)
    | MoveByte(slot: int)
    | Finish(slot: int)

  predicate Holds(st: State, holder: nat, slot: int) {
    slot in st.owner && st.owner[slot] == holder
  }

  predicate Idle(st: State, slot: int) {
    slot !in st.work
  }

  /** Does some outstanding read or write still have bytes to move? */
  predicate Moving(w: Work) {
    match w
    case Writes(data, whole, landed) => whole < |data|
    case Reads(posted, got, part) => |got| < posted
  }

  /** Is the oldest outstanding read or write wholly done? */
  predicate HeadDone(w: Work) {
    match w
    case Writes(data, whole, landed) => whole > 0
    case Reads(posted, got, part) => got != []
  }

  /** Each write is of one slot's length, and the counts are within bounds. */
  predicate WellFormed(cfg: Config, w: Work) {
    match w
    case Writes(data, whole, landed) =>
      && data != [] && (forall k | 0 <= k < |data| :: |data[k]| == cfg.size)
      && whole <= |data| && landed < cfg.size && (whole == |data| ==> landed == 0)
    case Reads(posted, got, part) =>
      && posted >= 1 && (forall k | 0 <= k < |got| :: |got[k]| == cfg.size)
      && |got| <= posted && |part| < cfg.size && (|got| == posted ==> part == [])
  }

  predicate Enabled(cfg: Config, st: State, e: Event) {
    match e
    case Alloc(holder) => true
    case Free(holder, slot) => Holds(st, holder, slot) && Idle(st, slot)
    case PostWrite(holder, slot, data) =>
      Holds(st, holder, slot) && |data| == cfg.size && (Idle(st, slot) || st.work[slot].Writes?)
    case PostRead(holder, slot) => Holds(st, holder, slot) && (Idle(st, slot) || st.work[slot].Reads?)
    case MoveByte(slot) => slot in st.work && Moving(st.work[slot])
    case Finish(slot) => slot in st.work && HeadDone(st.work[slot])
  }

  /** Where byte `j` of a slot lies in the slab. */
  function At(cfg: Config, slot: int, j: nat): int {
    slot * cfg.size + j
  }

  /** The state is one in which every event's addresses are in the slab. */
  predicate Shaped(cfg: Config, st: State) {
    && |st.slab| == cfg.slots * cfg.size
    && (forall s | s in st.work :: 0 <= s < cfg.slots)
    && (forall s | s in st.work :: WellFormed(cfg, st.work[s]))
  }

  function AddWrite(w: Work, data: seq<Byte>): Work
    requires w.Writes?
  {
    w.(data := w.data + [data])
  }

  function AddRead(w: Work): Work
    requires w.Reads?
  {
    w.(posted := w.posted + 1)
  }

  /** The work with one more byte moved; `b` is the byte a read fetches. */
  function OneMore(cfg: Config, w: Work, b: Byte): Work
    requires WellFormed(cfg, w) && Moving(w)
  {
    match w
    case Writes(data, whole, landed) =>
      if landed + 1 < cfg.size then Writes(data, whole, landed + 1) else Writes(data, whole + 1, 0)
    case Reads(posted, got, part) =>
      if |part| + 1 < cfg.size then Reads(posted, got, part + [b]) else Reads(posted, got + [part + [b]], [])
  }

  function MoveOne(cfg: Config, st: State, slot: int): State
    requires Shaped(cfg, st) && slot in st.work && Moving(st.work[slot])
  {
    SlotFits(cfg.size, cfg.slots, slot);
    var w := st.work[slot];
    match w
    case Writes(data, whole, landed) =>
      st.(slab := st.slab[At(cfg, slot, landed) := data[whole][landed]], work := st.work[slot := OneMore(cfg, w, 0)])
    case Reads(posted, got, part) =>
      st.(work := st.work[slot := OneMore(cfg, w, st.slab[At(cfg, slot, |part|)])])
  }

  /** The oldest read or write is acknowledged. */
  function FinishOne(st: State, slot: int): State
    requires slot in st.work && HeadDone(st.work[slot])
    requires st.work[slot].Writes? ==> st.work[slot].data != []
  {
    match st.work[slot]
    case Writes(data, whole, landed) =>
      st.(work := if |data| == 1 then st.work - {slot} else st.work[slot := Writes(data[1..], whole - 1, landed)],
          wrote := st.wrote[slot := data[0]])
    case Reads(posted, got, part) =>
      st.(work := if posted <= 1 then st.work - {slot} else st.work[slot := Reads(posted - 1, got[1..], part)])
  }

  /** A new holder starts without anything written. */
  function AllocOne(cfg: Config, st: State, holder: nat): State {
    match Handle(cfg.slots, st.free, Request(ALLOC, 0))
    case Refused => st
    case Reply(slot, free') =>
      if slot == -1 then st
      else st.(free := free', owner := st.owner[slot := holder], wrote := st.wrote - {slot})
  }

  function FreeOne(cfg: Config, st: State, slot: int): State {
    match Handle(cfg.slots, st.free, Request(FREE, slot))
    case Refused => st
    case Reply(ack, free') => st.(free := free', owner := st.owner - {slot}, wrote := st.wrote - {slot})
  }

  function Step(cfg: Config, st: State, e: Event): State
    requires Shaped(cfg, st) && Enabled(cfg, st, e)
  {
    match e
    case Alloc(holder) => AllocOne(cfg, st, holder)
    case Free(holder, slot) => FreeOne(cfg, st, slot)
    case PostWrite(holder, slot, data) =>
      st.(work := st.work[slot := if Idle(st, slot) then Writes([data], 0, 0) else AddWrite(st.work[slot], data)])
    case PostRead(holder, slot) =>
      st.(work := st.work[slot := if Idle(st, slot) then Reads(1, [], []) else AddRead(st.work[slot])])
    case MoveByte(slot) => MoveOne(cfg, st, slot)
    case Finish(slot) => FinishOne(st, slot)
  }

  /** The slab starts out with anything in it. */
  function Start(cfg: Config, slab: seq<Byte>): State {
    State(slab, Upto(cfg.slots), map[], map[], map[])
  }

  ghost predicate Reaches(cfg: Config, st: State, run: seq<Event>, end: State)
    decreases |run|
  {
    && Shaped(cfg, st)
    && if run == [] then st == end
       else Enabled(cfg, st, run[0]) && Reaches(cfg, Step(cfg, st, run[0]), run[1..], end)
  }

  ghost predicate Reachable(cfg: Config, st: State) {
    && Shaped(cfg, st)
    && exists slab, run :: |slab| == cfg.slots * cfg.size && Reaches(cfg, Start(cfg, slab), run, st)
  }

  // ----- What every run keeps

  function LedgerOf(st: State): Ledger {
    Ledger(st.free, multiset(st.owner.Keys))
  }

  ghost predicate Pool(cfg: Config, st: State) {
    && Partitions(cfg.slots, LedgerOf(st))
    && st.work.Keys <= st.owner.Keys && st.wrote.Keys <= st.owner.Keys
  }

  /** Byte `j` of a slot is the one that the latest write to reach it has landed there, or
      else the one its holder wrote last; what reads have fetched is what the holder wrote
      last. */
  predicate SlotMatches(cfg: Config, st: State, s: int)
    requires Shaped(cfg, st) && 0 <= s < cfg.slots
  {
    SlotFits(cfg.size, cfg.slots, s);
    && (s in st.wrote ==> |st.wrote[s]| == cfg.size)
    && (forall j | 0 <= j < cfg.size :: ByteMatches(cfg, st, s, j, st.slab[At(cfg, s, j)]))
    && (s in st.work && st.work[s].Reads? && s in st.wrote ==>
          && (forall k | 0 <= k < |st.work[s].got| :: st.work[s].got[k] == st.wrote[s])
          && st.work[s].part == st.wrote[s][..|st.work[s].part|])
  }

  predicate ByteMatches(cfg: Config, st: State, s: int, j: nat, b: Byte)
    requires Shaped(cfg, st) && j < cfg.size && (s in st.wrote ==> |st.wrote[s]| == cfg.size)
  {
    if s in st.work && st.work[s].Writes? && j < st.work[s].landed then b == st.work[s].data[st.work[s].whole][j]
    else if s in st.work && st.work[s].Writes? && st.work[s].whole > 0 then
      b == st.work[s].data[st.work[s].whole - 1][j]
    else s in st.wrote ==> b == st.wrote[s][j]
  }

  ghost predicate Inv(cfg: Config, st: State) {
    && cfg.Valid() && Shaped(cfg, st) && Pool(cfg, st)
    && forall s | 0 <= s < cfg.slots :: SlotMatches(cfg, st, s)
  }

  lemma StartHasInv(cfg: Config, slab: seq<Byte>)
    requires cfg.Valid() && |slab| == cfg.slots * cfg.size
    ensures Inv(cfg, Start(cfg, slab))
  {
    StartPartitions(cfg.slots);
    var st := Start(cfg, slab);
    assert multiset(st.owner.Keys) == multiset{};
  }

  lemma HeldIsInRange(cfg: Config, st: State, s: int)
    requires Pool(cfg, st) && s in st.owner
    ensures 0 <= s < cfg.slots
  {
    assert multiset(st.owner.Keys)[s] == 1;
    assert multiset(st.free)[s] + LedgerOf(st).held[s] == (if 0 <= s < cfg.slots then 1 else 0);
  }

  lemma OneMoreHeld(owner: map<int, nat>, slot: int, holder: nat)
    requires slot !in owner
    ensures multiset(owner[slot := holder].Keys) == multiset(owner.Keys) + multiset{slot}
  {
    assert owner[slot := holder].Keys == owner.Keys + {slot};
  }

  lemma OneHeldLess(owner: map<int, nat>, slot: int)
    requires slot in owner
    ensures multiset((owner - {slot}).Keys) == multiset(owner.Keys) - multiset{slot}
  {
    assert (owner - {slot}).Keys == owner.Keys - {slot};
  }

  lemma AllocKeepsPool(cfg: Config, st: State, holder: nat)
    requires Inv(cfg, st)
    ensures Pool(cfg, AllocOne(cfg, st, holder))
    ensures var r := Handle(cfg.slots, st.free, Request(ALLOC, 0));
            r.value != -1 ==> r.value !in st.owner && r.value !in st.work
  {
    AllocAnswers(cfg.slots, LedgerOf(st));
    var req := Request(ALLOC, 0);
    var r := Handle(cfg.slots, st.free, req);
    DisciplinedStep(cfg.slots, LedgerOf(st), req);
    if r.value != -1 {
      var st' := AllocOne(cfg, st, holder);
      assert r.value !in multiset(st.owner.Keys);
      OneMoreHeld(st.owner, r.value, holder);
      assert LedgerOf(st') == After(cfg.slots, LedgerOf(st), req);
    }
  }

  lemma FreeKeepsPool(cfg: Config, st: State, slot: int)
    requires Inv(cfg, st) && slot in st.owner && Idle(st, slot)
    ensures Pool(cfg, FreeOne(cfg, st, slot))
  {
    HeldIsInRange(cfg, st, slot);
    var req := Request(FREE, slot);
    DisciplinedStep(cfg.slots, LedgerOf(st), req);
    var st' := FreeOne(cfg, st, slot);
    OneHeldLess(st.owner, slot);
    assert LedgerOf(st') == After(cfg.slots, LedgerOf(st), req);
  }

  /** Dropping the record of what was written asks less of the slab. */
  lemma LessRecorded(cfg: Config, st: State, st': State, s: int)
    requires Shaped(cfg, st) && Shaped(cfg, st') && 0 <= s < cfg.slots && SlotMatches(cfg, st, s)
    requires st'.slab == st.slab && st'.work == st.work
    requires s in st'.wrote ==> s in st.wrote && st'.wrote[s] == st.wrote[s]
    ensures SlotMatches(cfg, st', s)
  {
    SlotFits(cfg.size, cfg.slots, s);
    forall j | 0 <= j < cfg.size ensures ByteMatches(cfg, st', s, j, st'.slab[At(cfg, s, j)]) {
      assert ByteMatches(cfg, st, s, j, st.slab[At(cfg, s, j)]);
    }
  }

  lemma AllocKeepsInv(cfg: Config, st: State, holder: nat)
    requires Inv(cfg, st)
    ensures Inv(cfg, AllocOne(cfg, st, holder))
  {
    AllocKeepsPool(cfg, st, holder);
    var st' := AllocOne(cfg, st, holder);
    forall s | 0 <= s < cfg.slots ensures SlotMatches(cfg, st', s) {
      LessRecorded(cfg, st, st', s);
    }
  }

  lemma FreeKeepsInv(cfg: Config, st: State, slot: int)
    requires Inv(cfg, st) && slot in st.owner && Idle(st, slot)
    ensures Inv(cfg, FreeOne(cfg, st, slot))
  {
    FreeKeepsPool(cfg, st, slot);
    var st' := FreeOne(cfg, st, slot);
    forall s | 0 <= s < cfg.slots ensures SlotMatches(cfg, st', s) {
      LessRecorded(cfg, st, st', s);
    }
  }

  /** A byte of one slot is no byte of another. */
  lemma BytesApart(cfg: Config, s: nat, j: nat, t: nat, k: nat)
    requires s != t && j < cfg.size && k < cfg.size
    ensures At(cfg, s, j) != At(cfg, t, k)
  {
    if s < t {
      MultiplesApart(cfg.size, s, t);
    } else {
      MultiplesApart(cfg.size, t, s);
    }
  }

  lemma OneMoreIsWellFormed(cfg: Config, w: Work, b: Byte)
    requires cfg.Valid() && WellFormed(cfg, w) && Moving(w)
    ensures WellFormed(cfg, OneMore(cfg, w, b))
  {
  }

  lemma MoveKeepsShape(cfg: Config, st: State, slot: int)
    requires Inv(cfg, st) && slot in st.work && Moving(st.work[slot])
    ensures Shaped(cfg, MoveOne(cfg, st, slot)) && Pool(cfg, MoveOne(cfg, st, slot))
  {
    var w, st' := st.work[slot], MoveOne(cfg, st, slot);
    SlotFits(cfg.size, cfg.slots, slot);
    OneMoreIsWellFormed(cfg, w, if w.Writes? then 0 else st.slab[At(cfg, slot, |w.part|)]);
    assert st'.owner == st.owner && st'.free == st.free && st'.wrote == st.wrote;
    assert st'.work.Keys == st.work.Keys;
    assert forall s | s in st'.work :: s == slot || st'.work[s] == st.work[s];
  }

  lemma MoveKeepsOthers(cfg: Config, st: State, slot: int, s: int)
    requires Inv(cfg, st) && slot in st.work && Moving(st.work[slot]) && 0 <= s < cfg.slots && s != slot
    ensures Shaped(cfg, MoveOne(cfg, st, slot)) && SlotMatches(cfg, MoveOne(cfg, st, slot), s)
  {
    var st' := MoveOne(cfg, st, slot);
    MoveKeepsShape(cfg, st, slot);
    SlotFits(cfg.size, cfg.slots, slot);
    SlotFits(cfg.size, cfg.slots, s);
    assert SlotMatches(cfg, st, s);
    forall j | 0 <= j < cfg.size ensures ByteMatches(cfg, st', s, j, st'.slab[At(cfg, s, j)]) {
      assert ByteMatches(cfg, st, s, j, st.slab[At(cfg, s, j)]);
      if st.work[slot].Writes? {
        BytesApart(cfg, s, j, slot, st.work[slot].landed);
      }
    }
  }

  lemma LandKeepsSlot(cfg: Config, st: State, slot: int)
    requires Inv(cfg, st) && slot in st.work && Moving(st.work[slot]) && st.work[slot].Writes?
    ensures Shaped(cfg, MoveOne(cfg, st, slot)) && SlotMatches(cfg, MoveOne(cfg, st, slot), slot)
  {
    var st' := MoveOne(cfg, st, slot);
    MoveKeepsShape(cfg, st, slot);
    SlotFits(cfg.size, cfg.slots, slot);
    assert SlotMatches(cfg, st, slot);
    forall j | 0 <= j < cfg.size ensures ByteMatches(cfg, st', slot, j, st'.slab[At(cfg, slot, j)]) {
      assert ByteMatches(cfg, st, slot, j, st.slab[At(cfg, slot, j)]);
    }
  }

  lemma FetchKeepsSlot(cfg: Config, st: State, slot: int)
    requires Inv(cfg, st) && slot in st.work && Moving(st.work[slot]) && st.work[slot].Reads?
    ensures Shaped(cfg, MoveOne(cfg, st, slot)) && SlotMatches(cfg, MoveOne(cfg, st, slot), slot)
  {
    var st' := MoveOne(cfg, st, slot);
    MoveKeepsShape(cfg, st, slot);
    SlotFits(cfg.size, cfg.slots, slot);
    assert SlotMatches(cfg, st, slot);
    var part := st.work[slot].part;
    assert ByteMatches(cfg, st, slot, |part|, st.slab[At(cfg, slot, |part|)]);
    if slot in st.wrote {
      assert part + [st.wrote[slot][|part|]] == st.wrote[slot][..|part| + 1];
    }
    forall j | 0 <= j < cfg.size ensures ByteMatches(cfg, st', slot, j, st'.slab[At(cfg, slot, j)]) {
      assert ByteMatches(cfg, st, slot, j, st.slab[At(cfg, slot, j)]);
    }
  }

  lemma MoveKeepsInv(cfg: Config, st: State, slot: int)
    requires Inv(cfg, st) && slot in st.work && Moving(st.work[slot])
    ensures Inv(cfg, MoveOne(cfg, st, slot))
  {
    var st' := MoveOne(cfg, st, slot);
    MoveKeepsShape(cfg, st, slot);
    if st.work[slot].Writes? {
      LandKeepsSlot(cfg, st, slot);
    } else {
      FetchKeepsSlot(cfg, st, slot);
    }
    forall s | 0 <= s < cfg.slots ensures SlotMatches(cfg, st', s) {
      if s != slot {
        MoveKeepsOthers(cfg, st, slot, s);
      }
    }
  }

  /** A change of the records of one slot that leaves the slab as it is. */
  lemma RecordsKeepOthers(cfg: Config, st: State, st': State, slot: int)
    requires Inv(cfg, st) && Shaped(cfg, st') && st'.slab == st.slab && Pool(cfg, st')
    requires 0 <= slot < cfg.slots && SlotMatches(cfg, st', slot)
    requires st'.work - {slot} == st.work - {slot} && st'.wrote - {slot} == st.wrote - {slot}
    ensures Inv(cfg, st')
  {
    forall s | 0 <= s < cfg.slots ensures SlotMatches(cfg, st', s) {
      assert SlotMatches(cfg, st, s);
      if s != slot {
        OneOther(cfg, st, st', slot, s);
      }
    }
  }

  lemma OneOther(cfg: Config, st: State, st': State, slot: int, s: int)
    requires Shaped(cfg, st) && Shaped(cfg, st') && st'.slab == st.slab && 0 <= s < cfg.slots && s != slot
    requires SlotMatches(cfg, st, s)
    requires st'.work - {slot} == st.work - {slot} && st'.wrote - {slot} == st.wrote - {slot}
    ensures SlotMatches(cfg, st', s)
  {
    assert s in st.work <==> s in st.work - {slot};
    assert s in st'.work <==> s in st'.work - {slot};
    assert s in st.wrote <==> s in st.wrote - {slot};
    assert s in st'.wrote <==> s in st'.wrote - {slot};
    assert s in st.work ==> (st.work - {slot})[s] == st.work[s] && (st'.work - {slot})[s] == st'.work[s];
    assert s in st.wrote ==> (st.wrote - {slot})[s] == st.wrote[s] && (st'.wrote - {slot})[s] == st'.wrote[s];
    SlotFits(cfg.size, cfg.slots, s);
    forall j | 0 <= j < cfg.size ensures ByteMatches(cfg, st', s, j, st'.slab[At(cfg, s, j)]) {
      assert ByteMatches(cfg, st, s, j, st.slab[At(cfg, s, j)]);
    }
  }

  lemma FinishKeepsSlot(cfg: Config, st: State, slot: int)
    requires Inv(cfg, st) && slot in st.work && HeadDone(st.work[slot])
    ensures Shaped(cfg, FinishOne(st, slot)) && Pool(cfg, FinishOne(st, slot))
    ensures SlotMatches(cfg, FinishOne(st, slot), slot)
  {
    var st' := FinishOne(st, slot);
    SlotFits(cfg.size, cfg.slots, slot);
    assert LedgerOf(st') == LedgerOf(st);
    assert SlotMatches(cfg, st, slot);
    forall j | 0 <= j < cfg.size ensures ByteMatches(cfg, st', slot, j, st'.slab[At(cfg, slot, j)]) {
      assert ByteMatches(cfg, st, slot, j, st.slab[At(cfg, slot, j)]);
    }
  }

  lemma FinishKeepsInv(cfg: Config, st: State, slot: int)
    requires Inv(cfg, st) && slot in st.work && HeadDone(st.work[slot])
    ensures Inv(cfg, FinishOne(st, slot))
  {
    FinishKeepsSlot(cfg, st, slot);
    RecordsKeepOthers(cfg, st, FinishOne(st, slot), slot);
  }

  /** The same work with more posted. */
  predicate PostedMore(w: Work, w': Work) {
    match w
    case Writes(data, whole, landed) => w'.Writes? && data <= w'.data && w'.whole == whole && w'.landed == landed
    case Reads(posted, got, part) => w'.Reads? && posted <= w'.posted && w'.got == got && w'.part == part
  }

  lemma PostKeepsInv(cfg: Config, st: State, slot: int, w: Work)
    requires Inv(cfg, st) && slot in st.owner && WellFormed(cfg, w)
    requires if Idle(st, slot) then w == Reads(1, [], []) || (w.Writes? && w.whole == w.landed == 0)
             else PostedMore(st.work[slot], w)
    ensures Inv(cfg, st.(work := st.work[slot := w]))
  {
    HeldIsInRange(cfg, st, slot);
    var st' := st.(work := st.work[slot := w]);
    assert LedgerOf(st') == LedgerOf(st);
    assert SlotMatches(cfg, st, slot);
    SlotFits(cfg.size, cfg.slots, slot);
    forall j | 0 <= j < cfg.size ensures ByteMatches(cfg, st', slot, j, st'.slab[At(cfg, slot, j)]) {
      assert ByteMatches(cfg, st, slot, j, st.slab[At(cfg, slot, j)]);
    }
    RecordsKeepOthers(cfg, st, st', slot);
  }

  lemma StepKeepsInv(cfg: Config, st: State, e: Event)
    requires Inv(cfg, st) && Enabled(cfg, st, e)
    ensures Inv(cfg, Step(cfg, st, e))
  {
    match e
    case Alloc(holder) => AllocKeepsInv(cfg, st, holder);
    case Free(holder, slot) => FreeKeepsInv(cfg, st, slot);
    case PostWrite(holder, slot, data) => PostKeepsInv(cfg, st, slot, Step(cfg, st, e).work[slot]);
    case PostRead(holder, slot) => PostKeepsInv(cfg, st, slot, Step(cfg, st, e).work[slot]);
    case MoveByte(slot) => MoveKeepsInv(cfg, st, slot);
    case Finish(slot) => FinishKeepsInv(cfg, st, slot);
  }

  lemma {:induction false} RunKeepsInv(cfg: Config, st: State, run: seq<Event>, end: State)
    requires Inv(cfg, st) && Reaches(cfg, st, run, end)
    ensures Inv(cfg, end)
    decreases |run|
  {
    if run != [] {
      StepKeepsInv(cfg, st, run[0]);
      RunKeepsInv(cfg, Step(cfg, st, run[0]), run[1..], end);
    }
  }

  lemma ReachableInv(cfg: Config, st: State)
    requires cfg.Valid() && Reachable(cfg, st)
    ensures Inv(cfg, st)
  {
    var slab, run :| |slab| == cfg.slots * cfg.size && Reaches(cfg, Start(cfg, slab), run, st);
    StartHasInv(cfg, slab);
    RunKeepsInv(cfg, Start(cfg, slab), run, st);
  }

  // ----- Results

  /** A read of a slot its holder has written returns what the holder wrote last, whatever
      reads, writes, ALLOCs and FREEs went on meanwhile. */
  lemma ReadReturnsLastWrite(cfg: Config, st: State, slot: int)
    requires cfg.Valid() && Reachable(cfg, st)
    requires Enabled(cfg, st, Finish(slot)) && st.work[slot].Reads? && slot in st.wrote
    ensures forall k | 0 <= k < |st.work[slot].got| :: st.work[slot].got[k] == st.wrote[slot]
  {
    ReachableInv(cfg, st);
    assert SlotMatches(cfg, st, slot);
  }

  /** What a holder wrote last changes by its own write finishing, and is forgotten when
      the slot changes hands: no event of another holder touches it. */
  lemma OnlyTheHolderChangesIt(cfg: Config, st: State, e: Event, slot: int)
    requires cfg.Valid() && Reachable(cfg, st)
    requires Enabled(cfg, st, e) && slot in st.wrote
    ensures var st' := Step(cfg, st, e);
            if e.Finish? && e.slot == slot && st.work[slot].Writes? then
              slot in st'.wrote && st'.wrote[slot] == st.work[slot].data[0]
            else if e.Free? && e.slot == slot then slot !in st'.wrote && slot in st.owner && st.owner[slot] == e.holder
            else slot in st'.wrote && st'.wrote[slot] == st.wrote[slot] && slot in st'.owner
                 && st'.owner[slot] == st.owner[slot]
  {
    ReachableInv(cfg, st);
    if e.Alloc? {
      AllocKeepsPool(cfg, st, e.holder);
      AllocAnswers(cfg.slots, LedgerOf(st));
    }
    if e.Free? {
      HeldIsInRange(cfg, st, e.slot);
    }
  }

  /** A slot has one holder at a time: ALLOC gives out a slot nobody holds, and says -1
      only when every slot is held. */
  lemma AllocGivesAFreshSlot(cfg: Config, st: State, holder: nat)
    requires cfg.Valid() && Reachable(cfg, st)
    ensures var st' := Step(cfg, st, Alloc(holder));
            || (st' == st && |st.owner.Keys| == cfg.slots)
            || exists s :: 0 <= s < cfg.slots && s !in st.owner && st'.owner == st.owner[s := holder]
  {
    ReachableInv(cfg, st);
    AllocAnswers(cfg.slots, LedgerOf(st));
    assert |multiset(st.owner.Keys)| == |st.owner.Keys|;
    var r := Handle(cfg.slots, st.free, Request(ALLOC, 0));
    if r.value != -1 {
      assert r.value !in multiset(st.owner.Keys);
      assert Step(cfg, st, Alloc(holder)).owner == st.owner[r.value := holder];
    }
  }
}
