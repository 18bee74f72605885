/**
 The slot pool of the key-value server: a stack of free slot numbers, served to one
 client over a control connection.
 */
module KvPool {
  import opened Counting

  const ALLOC: int := 0
  const FREE: int := 1

  /** A request as it stands in the control buffer: its type and its payload. */
  datatype Request = Request(kind: int, arg: int)

  /** What the server does with a request: answer it and go on, or give up. */
  datatype Outcome = Reply(value: int, free: seq<int>) | Refused

  function Handle(slots: int, free: seq<int>, req: Request): Outcome {
    if req.kind == ALLOC then
      if free == [] then Reply(-1, free) else Reply(free[|free| - 1], free[..|free| - 1])
    else if req.kind == FREE then
      if 0 <= req.arg < slots then Reply(0, free + [req.arg]) else Refused
    else Refused
  }

  /** Serving a connection that delivers `reqs` and is then closed: the replies, the free
      list left, and whether the server ended in good order. */
  datatype Service = Service(replies: seq<int>, free: seq<int>, clean: bool)

  function Serve(slots: int, free: seq<int>, reqs: seq<Request>): Service
    decreases |reqs|
  {
    if reqs == [] then Service([], free, true)
    else
      match Handle(slots, free, reqs[0])
      case Refused => Service([], free, false)
      case Reply(value, free') =>
        var rest := Serve(slots, free', reqs[1..]);
        Service([value] + rest.replies, rest.free, rest.clean)
  }

  lemma {:induction false} ServeMore(slots: int, free: seq<int>, reqs: seq<Request>, req: Request)
    ensures var s, t := Serve(slots, free, reqs), Serve(slots, free, reqs + [req]);
            if !s.clean then t == s
            else match Handle(slots, s.free, req)
                 case Refused => t == Service(s.replies, s.free, false)
                 case Reply(value, free') => t == Service(s.replies + [value], free', true)
    decreases |reqs|
  {
    var all := reqs + [req];
    if reqs == [] {
      assert all[0] == req && all[1..] == [];
    } else {
      assert all[0] == reqs[0] && all[1..] == reqs[1..] + [req];
      match Handle(slots, free, reqs[0])
      case Refused =>
      case Reply(value, free') => ServeMore(slots, free', reqs[1..], req);
    }
  }

  lemma {:induction false} ServeLength(slots: int, free: seq<int>, reqs: seq<Request>)
    ensures var s := Serve(slots, free, reqs); |s.replies| <= |reqs| && (s.clean <==> |s.replies| == |reqs|)
    decreases |reqs|
  {
    if reqs != [] {
      match Handle(slots, free, reqs[0])
      case Refused =>
      case Reply(value, free') => ServeLength(slots, free', reqs[1..]);
    }
  }

  /** What the earlier requests get does not depend on the later ones. */
  lemma {:induction false} ServePrefix(slots: int, free: seq<int>, reqs: seq<Request>, more: seq<Request>)
    requires reqs <= more
    ensures var s, t := Serve(slots, free, reqs), Serve(slots, free, more);
            s.replies <= t.replies && (t.clean ==> s.clean) && (!s.clean ==> s == t)
    decreases |reqs|
  {
    if reqs != [] {
      match Handle(slots, free, reqs[0])
      case Refused =>
      case Reply(value, free') => ServePrefix(slots, free', reqs[1..], more[1..]);
    }
  }

  // ----- Who holds what

  /** The pool together with the slots its client holds, with multiplicity. */
  datatype Ledger = Ledger(free: seq<int>, held: multiset<int>)

  /** How a request and its reply change what the client holds. */
  function Held(held: multiset<int>, req: Request, reply: int): multiset<int> {
    if req.kind == ALLOC then (if reply == -1 then held else held + multiset{reply})
    else held - multiset{req.arg}
  }

  function After(slots: int, at: Ledger, req: Request): Ledger
    requires Handle(slots, at.free, req).Reply?
  {
    var r := Handle(slots, at.free, req);
    Ledger(r.free, Held(at.held, req, r.value))
  }

  /** The ledger after a whole run of accepted requests. */
  ghost predicate Leads(slots: int, at: Ledger, reqs: seq<Request>, end: Ledger)
    decreases |reqs|
  {
    if reqs == [] then at == end
    else Handle(slots, at.free, reqs[0]).Reply? && Leads(slots, After(slots, at, reqs[0]), reqs[1..], end)
  }

  /** Does every FREE of the run name a slot that is held at that moment? */
  ghost predicate Disciplined(slots: int, at: Ledger, reqs: seq<Request>)
    decreases |reqs|
  {
    reqs != [] ==>
      && (reqs[0].kind == FREE ==> reqs[0].arg in at.held)
      && (Handle(slots, at.free, reqs[0]).Reply? ==> Disciplined(slots, After(slots, at, reqs[0]), reqs[1..]))
  }

  /** Every slot is in exactly one place: once on the free list or held once. */
  ghost predicate Partitions(slots: int, at: Ledger) {
    forall s: int :: multiset(at.free)[s] + at.held[s] == (if 0 <= s < slots then 1 else 0)
  }

  ghost predicate InRange(slots: int, free: seq<int>) {
    forall k | 0 <= k < |free| :: 0 <= free[k] < slots
  }

  lemma PopOne(free: seq<int>, s: int)
    requires free != []
    ensures multiset(free)[s] == multiset(free[..|free| - 1])[s] + (if s == free[|free| - 1] then 1 else 0)
  {
    assert free == free[..|free| - 1] + [free[|free| - 1]];
  }

  /** Copies of slot `s` in the ledger: one more after a FREE of a slot that is not held,
      the same number after anything else. */
  lemma CopiesChange(slots: int, at: Ledger, req: Request, s: int)
    requires InRange(slots, at.free) && Handle(slots, at.free, req).Reply?
    ensures var to := After(slots, at, req);
            && InRange(slots, to.free)
            && multiset(to.free)[s] + to.held[s] ==
               multiset(at.free)[s] + at.held[s] +
               (if req.kind == FREE && req.arg == s && s !in at.held then 1 else 0)
  {
    if req.kind == ALLOC && at.free != [] {
      PopOne(at.free, s);
    }
  }

  lemma {:induction false} CopiesGrow(slots: int, at: Ledger, reqs: seq<Request>, end: Ledger, s: int)
    requires InRange(slots, at.free) && Leads(slots, at, reqs, end)
    ensures multiset(at.free)[s] + at.held[s] <= multiset(end.free)[s] + end.held[s]
    decreases |reqs|
  {
    if reqs != [] {
      CopiesChange(slots, at, reqs[0], s);
      CopiesGrow(slots, After(slots, at, reqs[0]), reqs[1..], end, s);
    }
  }

  lemma PartitionIsInRange(slots: int, at: Ledger)
    requires Partitions(slots, at)
    ensures InRange(slots, at.free)
  {
    forall k | 0 <= k < |at.free| ensures 0 <= at.free[k] < slots {
      assert at.free[k] in multiset(at.free);
    }
  }

  lemma DisciplinedStep(slots: int, at: Ledger, req: Request)
    requires Partitions(slots, at) && Handle(slots, at.free, req).Reply?
    requires req.kind == FREE ==> req.arg in at.held
    ensures Partitions(slots, After(slots, at, req))
  {
    PartitionIsInRange(slots, at);
    forall s: int
      ensures var to := After(slots, at, req);
              multiset(to.free)[s] + to.held[s] == multiset(at.free)[s] + at.held[s]
    {
      CopiesChange(slots, at, req, s);
    }
  }

  /** Over whole runs: the free list and the held slots partition the pool after a run
      exactly when every FREE of the run named a slot held at that moment. A slot freed
      twice is never made good again. */
  lemma {:induction false} PartitionRule(slots: int, at: Ledger, reqs: seq<Request>, end: Ledger)
    requires Partitions(slots, at) && Leads(slots, at, reqs, end)
    ensures Partitions(slots, end) <==> Disciplined(slots, at, reqs)
    decreases |reqs|
  {
    if reqs != [] {
      var to := After(slots, at, reqs[0]);
      PartitionIsInRange(slots, at);
      if reqs[0].kind == FREE && reqs[0].arg !in at.held {
        var s := reqs[0].arg;
        CopiesChange(slots, at, reqs[0], s);
        CopiesGrow(slots, to, reqs[1..], end, s);
        assert multiset(end.free)[s] + end.held[s] >= 2;
      } else {
        DisciplinedStep(slots, at, reqs[0]);
        PartitionRule(slots, to, reqs[1..], end);
      }
    }
  }

  /** The pool starts out partitioned, with nothing held. */
  lemma {:induction false} StartPartitions(n: nat)
    ensures Partitions(n, Ledger(Upto(n), multiset{}))
  {
    if n == 0 {
    } else {
      StartPartitions(n - 1);
      assert Upto(n) == Upto(n - 1) + [n - 1];
      forall s: int
        ensures multiset(Upto(n))[s] == multiset(Upto(n - 1))[s] + (if s == n - 1 then 1 else 0)
      {
      }
      assert forall s: int :: multiset(Upto(n - 1))[s] + multiset{}[s] == (if 0 <= s < n - 1 then 1 else 0);
    }
  }

  /** The held slots and the free ones add up. */
  lemma {:induction false} CountsAddUp(slots: nat, at: Ledger)
    requires Partitions(slots, at)
    ensures |at.free| + |at.held| == slots
  {
    var all := multiset(at.free) + at.held;
    StartPartitions(slots);
    assert all == multiset(Upto(slots)) by {
      forall s: int ensures all[s] == multiset(Upto(slots))[s] {
        assert multiset(at.free)[s] + at.held[s] == (if 0 <= s < slots then 1 else 0);
        assert multiset(Upto(slots))[s] + multiset{}[s] == (if 0 <= s < slots then 1 else 0);
      }
    }
    assert |all| == |at.free| + |at.held|;
  }

  /** In a partitioned pool ALLOC answers -1 exactly when every slot is held, and
      otherwise a slot of the pool that nobody holds. */
  lemma AllocAnswers(slots: nat, at: Ledger)
    requires Partitions(slots, at)
    ensures var r := Handle(slots, at.free, Request(ALLOC, 0));
            && r.Reply?
            && (r.value == -1 <==> |at.held| == slots)
            && (r.value != -1 ==> 0 <= r.value < slots && r.value !in at.held)
  {
    CountsAddUp(slots, at);
    PartitionIsInRange(slots, at);
    if at.free != [] {
      var s := at.free[|at.free| - 1];
      assert s in multiset(at.free);
      assert multiset(at.free)[s] + at.held[s] == 1;
    }
  }

  /** FREE of a slot and then ALLOC: that slot again, and the pool as before. */
  lemma FreeThenAlloc(slots: int, free: seq<int>, s: int)
    requires 0 <= s < slots
    ensures Serve(slots, free, [Request(FREE, s), Request(ALLOC, 0)]) == Service([0, s], free, true)
  {
    var reqs := [Request(FREE, s), Request(ALLOC, 0)];
    assert reqs[1..] == [Request(ALLOC, 0)] && reqs[1..][1..] == [];
    assert (free + [s])[..|free|] == free;
    assert Serve(slots, free + [s], reqs[1..]) == Service([s], free, true);
  }

  /** ALLOC of a free slot and then FREE of it: the pool as before. */
  lemma AllocThenFree(slots: int, free: seq<int>)
    requires free != [] && InRange(slots, free)
    ensures var s := free[|free| - 1];
            Serve(slots, free, [Request(ALLOC, 0), Request(FREE, s)]) == Service([s, 0], free, true)
  {
    var reqs := [Request(ALLOC, 0), Request(FREE, free[|free| - 1])];
    assert reqs[1..] == [Request(FREE, free[|free| - 1])] && reqs[1..][1..] == [];
    assert free[..|free| - 1] + [free[|free| - 1]] == free;
    assert Serve(slots, free[..|free| - 1], reqs[1..]) == Service([0], free, true);
  }

  /** With no discipline at all: each reply to ALLOC is -1 or a slot of the pool, each
      reply to FREE is 0, and only a FREE out of range or a foreign request type ends the
      service in error. */
  lemma {:induction false} AnyRequests(slots: int, free: seq<int>, reqs: seq<Request>)
    requires InRange(slots, free)
    ensures var s := Serve(slots, free, reqs);
            && |s.replies| <= |reqs|
            && (forall k | 0 <= k < |s.replies| ::
                  if reqs[k].kind == ALLOC then s.replies[k] == -1 || 0 <= s.replies[k] < slots
                  else s.replies[k] == 0)
            && (s.clean <==> forall k | 0 <= k < |reqs| ::
                  reqs[k].kind == ALLOC || (reqs[k].kind == FREE && 0 <= reqs[k].arg < slots))
    decreases |reqs|
  {
    if reqs != [] {
      match Handle(slots, free, reqs[0])
      case Refused =>
      case Reply(value, free') =>
        AnyRequests(slots, free', reqs[1..]);
        var rest := Serve(slots, free', reqs[1..]);
        forall k | 0 <= k < 1 + |rest.replies|
          ensures var v := ([value] + rest.replies)[k];
                  if reqs[k].kind == ALLOC then v == -1 || 0 <= v < slots
                  else v == 0
        {
          if k > 0 {
            assert reqs[k] == reqs[1..][k - 1] && ([value] + rest.replies)[k] == rest.replies[k - 1];
          }
        }
        if rest.clean {
          forall k | 0 <= k < |reqs|
            ensures reqs[k].kind == ALLOC || (reqs[k].kind == FREE && 0 <= reqs[k].arg < slots)
          {
            if k > 0 {
              assert reqs[k] == reqs[1..][k - 1];
            }
          }
        }
    }
  }

  /** A slot freed while it is free is handed out twice: FREE it, and two of the ALLOCs
      that follow answer with it. */
  lemma FreedTwiceIsSharedOut(slots: int, free: seq<int>, k: nat)
    requires k < |free| && InRange(slots, free)
    ensures var reqs := [Request(FREE, free[k])] + seq(|free| + 1, j => Request(ALLOC, 0));
            var s := Serve(slots, free, reqs);
            s.clean && |s.replies| == |free| + 2 && s.replies[1] == s.replies[|free| + 1 - k] == free[k]
  {
    var reqs := [Request(FREE, free[k])] + seq(|free| + 1, j => Request(ALLOC, 0));
    var free' := free + [free[k]];
    assert reqs[1..] == seq(|free| + 1, j => Request(ALLOC, 0));
    DrainAnswers(slots, free', |free'|);
  }

  /** ALLOCs alone empty the free list from its end. */
  lemma {:induction false} DrainAnswers(slots: int, free: seq<int>, n: nat)
    requires n <= |free|
    ensures var s := Serve(slots, free, seq(n, j => Request(ALLOC, 0)));
            && s.clean && |s.replies| == n && s.free == free[..|free| - n]
            && forall j | 0 <= j < n :: s.replies[j] == free[|free| - 1 - j]
  {
    var reqs := seq(n, j => Request(ALLOC, 0));
    if n > 0 {
      assert reqs[1..] == seq(n - 1, j => Request(ALLOC, 0));
      DrainAnswers(slots, free[..|free| - 1], n - 1);
    }
  }
}
