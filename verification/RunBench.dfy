/**
 The key-value benchmark's measuring loop: operations go out in batches of `depth`, each
 batch is polled to the end before the next, and the clock for the whole measurement is
 started at the first batch that begins past the warm-up.
 */
module RunBench {
  import opened Counting
  import opened Limits
  import opened Remainders

  // ----- Which operations the clock covers

  /** The operation the clock is started at, found batch by batch. */
  function FirstTimed(depth: nat, from: nat): (b: nat)
    requires depth >= 1
    decreases if from >= WARMUP then 0 else WARMUP - from
  {
    if from >= WARMUP then from else FirstTimed(depth, from + depth)
  }

  /** It lies a whole number of batches on, and no batch before it is past the warm-up. */
  lemma {:induction false} FirstTimedLies(depth: nat, from: nat) returns (q: nat)
    requires depth >= 1
    ensures FirstTimed(depth, from) == from + q * depth >= WARMUP
    ensures q > 0 ==> from + q * depth < WARMUP + depth
    decreases if from >= WARMUP then 0 else WARMUP - from
  {
    if from >= WARMUP {
      q := 0;
    } else {
      var p := FirstTimedLies(depth, from + depth);
      q := p + 1;
      Distribute(p, 1, depth);
    }
  }

  /** So the clock is started at the warm-up rounded up to a multiple of `depth`. */
  lemma ClockStartsAt(depth: nat)
    requires depth >= 1
    ensures FirstTimed(depth, 0) == (WARMUP + depth - 1) / depth * depth
  {
    var q := FirstTimedLies(depth, 0);
    RemainderUnique(WARMUP + depth - 1, depth, q, WARMUP + depth - 1 - q * depth);
  }

  /** With `iters` operations after the warm-up, those from the start of the clock on. */
  function Timed(depth: nat, iters: nat): int
    requires depth >= 1
  {
    WARMUP + iters - FirstTimed(depth, 0)
  }

  /** Does some batch begin past the warm-up? If none does, the clock is never started. */
  predicate ClockStarts(depth: nat, iters: nat)
    requires depth >= 1
  {
    FirstTimed(depth, 0) < WARMUP + iters
  }

  /** If the clock is started, it covers exactly the `iters` operations the bandwidth is
      computed from when `depth` divides the warm-up, and fewer of them, at least one,
      otherwise. */
  lemma WindowRule(depth: nat, iters: nat)
    requires depth >= 1 && ClockStarts(depth, iters)
    ensures Timed(depth, iters) == iters - ((WARMUP + depth - 1) / depth * depth - WARMUP)
    ensures 1 <= Timed(depth, iters) <= iters
    ensures Timed(depth, iters) == iters <==> WARMUP % depth == 0
  {
    ClockStartsAt(depth);
    var q := FirstTimedLies(depth, 0);
    if WARMUP % depth == 0 {
      var t := WARMUP / depth;
      assert depth * (q - t) == q * depth - WARMUP;
      SmallMultiple(depth, q - t);
    } else if q * depth == WARMUP {
      RemainderUnique(WARMUP, depth, q, 0);
      assert false;
    }
  }

  // ----- The loop, as it is written

  /** The data connection and the clock. `ops` are the operations posted, in order, and
      `peak` is the largest number unpolled at once. */
  class Data {
    var ops: seq<int>
    var polled: nat
    var peak: nat
    var now: nat

    ghost predicate Valid()
      reads this
    {
      polled <= |ops| && |ops| - polled <= peak && now >= 1
    }

    constructor ()
      ensures Valid() && ops == [] && polled == 0 && peak == 0
    {
      ops, polled, peak, now := [], 0, 0, 1;
    }

    /** Refuses an operation when the send queue's usable entries are taken. */
    method Post(i: int) returns (r: int)
      requires Valid()
      modifies this`ops, this`peak
      ensures Valid() && r == (if |old(ops)| - polled < USABLE_WR then 0 else -1)
      ensures ops == if r == 0 then old(ops) + [i] else old(ops)
      ensures peak == if |ops| - polled > old(peak) then |ops| - polled else old(peak)
    {
      if |ops| - polled >= USABLE_WR {
        return -1;
      }
      r := 0;
      ops := ops + [i];
      if |ops| - polled > peak {
        peak := |ops| - polled;
      }
    }

    /** Waits for one completion; there has to be one outstanding. */
    method Poll()
      requires Valid() && polled < |ops|
      modifies this`polled
      ensures Valid() && polled == old(polled) + 1
    {
      polled := polled + 1;
    }

    /** A clock that does not go back and has left zero. */
    method TimeNow() returns (t: nat)
      requires Valid()
      modifies this`now
      ensures Valid() && t == now && old(now) <= now
    {
      var tick: nat :| tick >= 0;
      now := now + tick;
      t := now;
    }
  }

  /** One batch: operations `i` to `i + n`, none left unpolled. It fails, before any poll,
      exactly when the batch is larger than the send queue. */
  method Batch(data: Data, i: nat, n: nat) returns (r: int)
    requires data.Valid() && data.ops == Upto(i) && data.polled == i
    modifies data`ops, data`polled, data`peak
    ensures data.Valid() && r == if n <= USABLE_WR then 0 else -1
    ensures r == 0 ==> data.ops == Upto(i + n) && data.polled == i + n
    ensures r == 0 ==> data.peak == if n > old(data.peak) then n else old(data.peak)
    ensures r != 0 ==> data.ops == Upto(i + USABLE_WR) && data.polled == i
  {
    for k := 0 to n
      invariant data.Valid() && data.ops == Upto(i + k) && data.polled == i && k <= USABLE_WR
      invariant data.peak == if k > old(data.peak) then k else old(data.peak)
    {
      r := data.Post(i + k);
      if r != 0 {
        return -1;
      }
    }
    for k := 0 to n
      invariant data.Valid() && data.ops == Upto(i + n) && data.polled == i + k
      invariant data.peak == if n > old(data.peak) then n else old(data.peak)
    {
      data.Poll();
    }
    r := 0;
  }

  /** Enters a batch's figure for each of its operations past the warm-up. `filled` counts
      how often each entry has been written. */
  method Record(latencies: array<nat>, ghost filled: seq<nat>, i: nat, n: nat, per: nat)
      returns (ghost filled': seq<nat>)
    requires |filled| == latencies.Length && i + n <= WARMUP + latencies.Length
    modifies latencies
    ensures |filled'| == |filled|
    ensures forall j | 0 <= j < |filled| :: filled'[j] == filled[j] + (if i <= j + WARMUP < i + n then 1 else 0)
    ensures forall j | 0 <= j < |filled| ::
              latencies[j] == if i <= j + WARMUP < i + n then per else old(latencies[j])
  {
    filled' := filled;
    for k := 0 to n
      invariant |filled'| == |filled|
      invariant forall j | 0 <= j < |filled| :: filled'[j] == filled[j] + (if i <= j + WARMUP < i + k then 1 else 0)
      invariant forall j | 0 <= j < |filled| ::
                  latencies[j] == if i <= j + WARMUP < i + k then per else old(latencies[j])
    {
      if i + k >= WARMUP {
        latencies[i + k - WARMUP] := per;
        filled' := filled'[i + k - WARMUP := filled'[i + k - WARMUP] + 1];
      }
    }
  }

  /** Operation `k` goes out in batch `b`. */
  predicate InBatch(depth: nat, b: nat, k: nat) {
    b * depth <= k < b * depth + depth
  }

  /** Every entry of an operation in the first batches has been written once, with its
      batch's figure; no other entry has been written. */
  ghost predicate Recorded(depth: nat, figures: seq<nat>, latencies: seq<nat>, filled: seq<nat>) {
    && |filled| == |latencies|
    && (forall j | 0 <= j < |filled| :: filled[j] == if j + WARMUP < |figures| * depth then 1 else 0)
    && forall j, b | 0 <= j < |latencies| && 0 <= b < |figures| ::
         InBatch(depth, b, j + WARMUP) ==> latencies[j] == figures[b]
  }

  lemma RecordedMore(depth: nat, n: nat, figures: seq<nat>, per: nat, before: seq<nat>, filled: seq<nat>,
                     after: seq<nat>, filled': seq<nat>)
    requires Recorded(depth, figures, before, filled) && |after| == |filled'| == |filled|
    requires n <= depth && (n < depth ==> |figures| * depth + n == WARMUP + |filled|)
    requires forall j | 0 <= j < |filled| ::
               filled'[j] == filled[j] + (if |figures| * depth <= j + WARMUP < |figures| * depth + n then 1 else 0)
    requires forall j | 0 <= j < |filled| ::
               after[j] == if |figures| * depth <= j + WARMUP < |figures| * depth + n then per else before[j]
    ensures Recorded(depth, figures + [per], after, filled')
  {
    var m := |figures|;
    Distribute(m, 1, depth);
    forall j, b | 0 <= j < |after| && 0 <= b < m + 1 && InBatch(depth, b, j + WARMUP)
      ensures after[j] == (figures + [per])[b]
    {
      if b < m {
        MultiplesApart(depth, b, m);
      }
    }
  }

  /** A batch with its polls and its entries; the batch was begun at `iterStart`. */
  method Measure(data: Data, latencies: array<nat>, i: nat, n: nat, iterStart: nat,
                 ghost depth: nat, ghost figures: seq<nat>, ghost filled: seq<nat>)
      returns (r: int, ghost figures': seq<nat>, ghost filled': seq<nat>)
    requires data.Valid() && data.ops == Upto(i) && data.polled == i && iterStart <= data.now
    requires 1 <= n <= depth && i + n <= WARMUP + latencies.Length && i == |figures| * depth
    requires n < depth ==> i + n == WARMUP + latencies.Length
    requires Recorded(depth, figures, latencies[..], filled)
    modifies data, latencies
    ensures data.Valid() && r == if n <= USABLE_WR then 0 else -1
    ensures r == 0 ==> data.ops == Upto(i + n) && data.polled == i + n
    ensures r == 0 ==> data.peak == if n > old(data.peak) then n else old(data.peak)
    ensures r == 0 ==> |figures'| * depth == i + depth && Recorded(depth, figures', latencies[..], filled')
    ensures r != 0 ==> data.ops == Upto(i + USABLE_WR) && data.polled == i
  {
    figures', filled' := figures, filled;
    r := Batch(data, i, n);
    if r != 0 {
      return;
    }
    var end := data.TimeNow();
    var per := (end - iterStart) / n;
    ghost var before := latencies[..];
    filled' := Record(latencies, filled, i, n, per);
    RecordedMore(depth, n, figures, per, before, filled, latencies[..], filled');
    figures' := figures + [per];
    assert (|figures| + 1) * depth == i + depth;
  }

  /** Operations in the first batch, which is never smaller than a later one. */
  function FirstBatch(depth: nat, iters: nat): nat {
    if depth < WARMUP + iters then depth else WARMUP + iters
  }

  /** The measuring loop. It succeeds exactly when a batch fits the send queue; the depth
      option has no such bound. When it does, every operation is posted once and in order,
      at most `depth` are ever unpolled and none at the end, every entry is written exactly
      once, with the figure of the batch its operation went out in, and the clock is started
      by the first batch past the warm-up if there is one. Otherwise it gives up in the
      first batch, with the queue full. `figures` are the batches' figures in turn; `from`
      is the operation the clock was started at. */
  method Run(data: Data, iters: nat, depth: nat)
      returns (r: int, latencies: array<nat>, bwStart: nat,
               ghost filled: seq<nat>, ghost figures: seq<nat>, ghost from: nat)
    requires data.Valid() && data.ops == [] && data.polled == 0 && data.peak == 0 && depth >= 1
    modifies data
    ensures r == if FirstBatch(depth, iters) <= USABLE_WR then 0 else -1
    ensures r != 0 ==> data.ops == Upto(USABLE_WR) && data.polled == 0
    ensures r == 0 ==> data.ops == Upto(WARMUP + iters) && data.polled == WARMUP + iters
    ensures r == 0 ==> data.peak == FirstBatch(depth, iters)
    ensures fresh(latencies) && latencies.Length == iters
    ensures r == 0 ==> |filled| == iters && forall j | 0 <= j < iters :: filled[j] == 1
    ensures r == 0 ==> |figures| * depth >= WARMUP + iters && Recorded(depth, figures, latencies[..], filled)
    ensures r == 0 ==> (bwStart != 0 <==> ClockStarts(depth, iters))
    ensures r == 0 && bwStart != 0 ==> WARMUP + iters - from == Timed(depth, iters)
  {
    latencies := new nat[iters](j => 0);
    var total := WARMUP + iters;
    bwStart, from, figures, filled := 0, 0, [], seq(iters, j => 0);
    var i := 0;
    while i < total
      invariant data.Valid() && i == |figures| * depth
      invariant i > 0 ==> FirstBatch(depth, iters) <= USABLE_WR
      invariant var reached := if i < total then i else total; data.ops == Upto(reached) && data.polled == reached
      invariant data.peak == if i == 0 then 0 else FirstBatch(depth, iters)
      invariant latencies.Length == iters && Recorded(depth, figures, latencies[..], filled)
      invariant if bwStart == 0 then FirstTimed(depth, i) == FirstTimed(depth, 0) && i < WARMUP + depth
                else from == FirstTimed(depth, 0) < i && from < total
      decreases total - i
    {
      var n := if depth < total - i then depth else total - i;
      var iterStart := data.TimeNow();
      if i >= WARMUP && bwStart == 0 {
        bwStart := iterStart;
        from := i;
      }
      r, figures, filled := Measure(data, latencies, i, n, iterStart, depth, figures, filled);
      if r != 0 {
        return;
      }
      i := i + depth;
    }
    r := 0;
  }
}
