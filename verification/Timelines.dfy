/** How far apart the packets of a match can be, and a timeline that attains it. */
module Timelines {
  import opened Events
  import opened Rules
  import opened Detection
  import opened Soundness

  /** Every state but the root refers to an earlier one. */
  predicate Tree(ps: seq<Predicate>) {
    forall i :: 1 <= i < |ps| ==> 0 <= ps[i].refersTo < i
  }

  lemma WellFormedTree(r: Rule)
    requires WellFormed(r)
    ensures Tree(r.predicates)
  {
    forall i | 1 <= i < |r.predicates| ensures 0 <= r.predicates[i].refersTo < i { assert PredicateOk(r, i); }
  }

  /** By how much state u's packet can be later than state x's, at most: climbing the references
      from x costs each window but one tick, climbing from u at least one tick each. */
  function Lead(ps: seq<Predicate>, u: nat, x: nat): int
    requires Tree(ps) && u < |ps| && x < |ps|
    decreases u + x
  {
    if u == x then 0
    else if u > x then Lead(ps, ps[u].refersTo, x) - 1
    else Lead(ps, u, ps[x].refersTo) + ps[x].win - 1
  }

  /** Some window holds no packet, so that nothing ever matches. */
  predicate Unmatchable(r: Rule) {
    exists i :: 1 <= i < |r.predicates| && r.predicates[i].win < 2
  }

  lemma UnmatchableIsSilent(r: Rule, st: Stacks, e: PubPkt)
    requires WellFormed(r) && Unmatchable(r) && Shaped(r, st)
    ensures Detect(r, st, e) == []
  {
    var ms := Detect(r, st, e);
    if ms != [] { UnmatchableNoMatch(r, st, e, ms[0]); }
  }

  lemma UnmatchableNoMatch(r: Rule, st: Stacks, e: PubPkt, m: Partial)
    requires WellFormed(r) && Unmatchable(r) && Shaped(r, st)
    ensures m !in Detect(r, st, e)
  {
    hide Detect, ParamsHold, Blocked;
    var i :| 1 <= i < |r.predicates| && r.predicates[i].win < 2;
    assert PredicateOk(r, i);
    DetectIsExact(r, st, e, m);
    if |m| == |r.predicates| {
      assert !ChosenEvent(r, st, m[..i], m[i]);
    }
  }

  /** Every window holds a packet. */
  predicate Roomy(ps: seq<Predicate>) {
    |ps| > 0 && Tree(ps) && forall i :: 1 <= i < |ps| ==> ps[i].win >= 2
  }

  lemma {:induction false} LeadStep(ps: seq<Predicate>, i: nat, low: nat)
    requires Roomy(ps) && 1 <= i < |ps| && low < |ps|
    ensures 1 <= Lead(ps, ps[i].refersTo, low) - Lead(ps, i, low) < ps[i].win
    decreases low
  {
    if i < low { LeadStep(ps, i, ps[low].refersTo); }
  }

  lemma {:induction false} LeadFloor(ps: seq<Predicate>, i: nat, low: nat)
    requires Roomy(ps) && i < |ps| && low < |ps|
    ensures 0 - i <= Lead(ps, i, low) <= Lead(ps, 0, low) - (if i == 0 then 0 else 1)
    decreases i + low
  {
    if i > 0 {
      LeadStep(ps, i, low);
      LeadFloor(ps, ps[i].refersTo, low);
      if i < low { LeadFloor(ps, i, ps[low].refersTo); }
    } else if low > 0 {
      LeadFloor(ps, 0, ps[low].refersTo);
    }
  }

  /** Every state's packet as much later than state low's as the windows allow. */
  function Time(ps: seq<Predicate>, low: nat, i: nat): (t: nat)
    requires Roomy(ps) && low < |ps| && i < |ps|
    ensures t > 0
  {
    LeadFloor(ps, i, low);
    |ps| + Lead(ps, i, low)
  }

  lemma TimeStep(ps: seq<Predicate>, low: nat, i: nat)
    requires Roomy(ps) && low < |ps| && 1 <= i < |ps|
    ensures Minus(Time(ps, low, ps[i].refersTo), ps[i].win) < Time(ps, low, i) < Time(ps, low, ps[i].refersTo)
    ensures Time(ps, low, i) < Time(ps, low, 0)
  {
    LeadStep(ps, i, low);
    LeadFloor(ps, i, low);
  }
}
