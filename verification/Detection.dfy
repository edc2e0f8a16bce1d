/** What a terminator detects in a rule's stacks, as functions of their contents. */
module Detection {
  import opened Events
  import opened Rules

  /** The packets received for each state, negation and aggregate of a rule. */
  datatype Stacks = Stacks(states: seq<seq<PubPkt>>, negs: seq<seq<PubPkt>>, aggs: seq<seq<PubPkt>>)

  predicate Shaped(r: Rule, st: Stacks) {
    |st.states| == |r.predicates| && |st.negs| == |r.negations| && |st.aggs| == |r.aggregates|
  }

  /** A partial event: the packets bound to states 0, 1, ..., |p| - 1. */
  type Partial = seq<PubPkt>

  predicate Within(lo: nat, e: PubPkt, hi: nat) {
    lo < e.ts < hi
  }

  /** The open interval a negation watches once the states in `p` are bound. */
  function NegLow(g: Negation, p: Partial): nat
    requires 0 <= g.upperId < |p| && g.lowerId < |p|
  {
    if g.lowerId < 0 then Minus(p[g.upperId].ts, g.lowerTime) else p[g.lowerId].ts
  }

  predicate Negates(r: Rule, j: int, e: PubPkt, p: Partial)
    requires WellFormed(r) && 0 <= j < |r.negations| && |p| == Link(r.negations[j]) + 1
  {
    var g := r.negations[j];
    Within(NegLow(g, p), e, p[g.upperId].ts) && ParamsHold(r, NEG, j, e, p)
  }

  /** Some received packet of negation j invalidates `p`. */
  predicate NegHit(r: Rule, j: int, col: seq<PubPkt>, p: Partial)
    requires WellFormed(r) && 0 <= j < |r.negations| && |p| == Link(r.negations[j]) + 1
  {
    exists k :: 0 <= k < |col| && Negates(r, j, col[k], p)
  }

  /** Some negation linked to the last state of `p` invalidates it. */
  predicate Blocked(r: Rule, negs: seq<seq<PubPkt>>, p: Partial)
    requires WellFormed(r) && |negs| == |r.negations|
  {
    exists j :: 0 <= j < |r.negations| && Link(r.negations[j]) + 1 == |p| && NegHit(r, j, negs[j], p)
  }

  /** `e` may be bound to the next state of `p`. */
  predicate Fits(r: Rule, negs: seq<seq<PubPkt>>, p: Partial, e: PubPkt)
    requires WellFormed(r) && |negs| == |r.negations| && 1 <= |p| < |r.predicates|
  {
    var q := r.predicates[|p|];
    assert PredicateOk(r, |p|);
    && Within(Minus(p[q.refersTo].ts, q.win), e, p[q.refersTo].ts)
    && ParamsHold(r, STATE, |p|, e, p)
    && !Blocked(r, negs, p + [e])
  }

  function Fitting(r: Rule, negs: seq<seq<PubPkt>>, p: Partial, col: seq<PubPkt>): seq<PubPkt>
    requires WellFormed(r) && |negs| == |r.negations| && 1 <= |p| < |r.predicates|
  {
    if col == [] then []
    else (if Fits(r, negs, p, col[0]) then [col[0]] else []) + Fitting(r, negs, p, col[1..])
  }

  function Pick(kind: CompKind, s: seq<PubPkt>): seq<PubPkt> {
    if s == [] then []
    else match kind
      case FIRST_WITHIN => [s[0]]
      case LAST_WITHIN => [s[|s| - 1]]
      case _ => s
  }

  function Append(p: Partial, s: seq<PubPkt>): seq<Partial> {
    seq(|s|, k requires 0 <= k < |s| => p + [s[k]])
  }

  /** The partial events one step longer than `p`, in the order they are produced. */
  function Extend(r: Rule, st: Stacks, p: Partial): seq<Partial>
    requires WellFormed(r) && Shaped(r, st) && 1 <= |p| < |r.predicates|
  {
    Append(p, Pick(r.predicates[|p|].kind, Fitting(r, st.negs, p, st.states[|p|])))
  }

  ghost predicate AllBound(ps: seq<Partial>, i: nat) {
    forall k :: 0 <= k < |ps| ==> |ps[k]| == i
  }

  ghost function ExtendAll(r: Rule, st: Stacks, ps: seq<Partial>, i: nat): (qs: seq<Partial>)
    requires WellFormed(r) && Shaped(r, st) && 1 <= i < |r.predicates| && AllBound(ps, i)
    ensures AllBound(qs, i + 1)
  {
    if ps == [] then [] else Extend(r, st, ps[0]) + ExtendAll(r, st, ps[1..], i)
  }

  ghost function Join(r: Rule, st: Stacks, ps: seq<Partial>, i: nat): (ms: seq<Partial>)
    requires WellFormed(r) && Shaped(r, st) && 1 <= i <= |r.predicates| && AllBound(ps, i)
    ensures AllBound(ms, |r.predicates|)
    decreases |r.predicates| - i
  {
    if i == |r.predicates| then ps else Join(r, st, ExtendAll(r, st, ps, i), i + 1)
  }

  /** The matches of a terminator, in the order they are produced. */
  ghost function Detect(r: Rule, st: Stacks, e: PubPkt): (ms: seq<Partial>)
    requires WellFormed(r) && Shaped(r, st)
    ensures AllBound(ms, |r.predicates|)
  {
    if Blocked(r, st.negs, [e]) then [] else Join(r, st, [[e]], 1)
  }
}
