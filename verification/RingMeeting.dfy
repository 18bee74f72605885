/**
 Where the ranks of a ring stand in their common program, and how they can be brought
 together at the beginning of a call. Both schedules use it.
 */
module RingMeeting {
  import opened RingIndex
  import opened RingSpec
  import opened RingProgram

  /** A rank's call, whether it is yet to be entered, and the step counted through all
      calls. */
  datatype Place = Place(call: nat, idle: bool, position: nat)

  /** The place is one of the program's. */
  predicate Fits<T>(job: Job<T>, p: Place)
    requires job.n >= 2
  {
    && p.call <= |job.calls|
    && (p.idle ==> p.position == job.Base(p.call))
    && (!p.idle ==> p.call < |job.calls| && job.Base(p.call) <= p.position < job.Base(p.call) + job.Steps(p.call))
  }

  /** The rank that is furthest behind, counting through all calls. */
  lemma Hindmost(places: seq<Place>) returns (r: nat)
    requires places != []
    ensures r < |places| && forall x | 0 <= x < |places| :: places[r].position <= places[x].position
  {
    var w := seq(|places|, x requires 0 <= x < |places| => places[x].position);
    r := Smallest(w);
    assert forall x | 0 <= x < |places| :: w[x] == places[x].position;
  }

  /** A rank that is behind another has not finished, unless the other has. */
  lemma BehindIsUnfinished<T>(job: Job<T>, p: Place, x: Place)
    requires job.n >= 2 && Fits(job, p) && Fits(job, x) && p.position <= x.position
    ensures p.call == |job.calls| ==> x.call == |job.calls|
  {
    if p.call == |job.calls| && x.call < |job.calls| {
      job.BaseMonotone(x.call, |job.calls|);
    }
  }

  /** The rank has not entered call `q` or a later one. */
  predicate NotYet(p: Place, q: nat) {
    p.call < q || (p.call == q && p.idle)
  }

  /** Nobody has. */
  predicate NotPast(places: seq<Place>, q: nat) {
    forall r | 0 <= r < |places| :: NotYet(places[r], q)
  }

  /** Everybody is about to enter call `q`. */
  predicate GatheredAt(places: seq<Place>, q: nat) {
    forall r | 0 <= r < |places| :: places[r].call == q && places[r].idle
  }

  /** A step by which one rank alone changes its place, from an earlier call. */
  lemma OneMoves(places: seq<Place>, places': seq<Place>, q: nat, r: nat)
    requires NotPast(places, q) && |places'| == |places| && r < |places| && NotYet(places'[r], q)
    requires forall x | 0 <= x < |places| && x != r :: places'[x] == places[x]
    ensures NotPast(places', q)
  {
    forall x | 0 <= x < |places'| ensures NotYet(places'[x], q) {
      assert NotYet(places[x], q);
    }
  }

  /** Until they are gathered, a rank furthest behind is still in an earlier call. */
  lemma HindmostIsBefore<T>(job: Job<T>, places: seq<Place>, q: nat, r: nat)
    requires job.n >= 2 && q <= |job.calls| && (forall x | 0 <= x < |places| :: Fits(job, places[x]))
    requires NotPast(places, q) && !GatheredAt(places, q)
    requires r < |places| && forall x | 0 <= x < |places| :: places[r].position <= places[x].position
    ensures places[r].call < q
  {
    var z :| 0 <= z < |places| && !(places[z].call == q && places[z].idle);
    assert NotYet(places[z], q) && NotYet(places[r], q);
    job.BaseMonotone(places[z].call, q);
  }
}
