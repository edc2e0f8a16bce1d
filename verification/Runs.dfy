/** A rule's life: receiving packets, detecting at a terminator, consuming, purging. */
module Runs {
  import opened Events
  import opened Rules
  import opened Search
  import opened Detection
  import opened Aggregates

  /** One publication, with the states, negations and aggregates of the rule it matches. */
  datatype Input = Input(pkt: PubPkt, states: set<int>, negs: set<int>, aggs: set<int>)

  /** Insertion before the first later packet. */
  function Insert(col: seq<PubPkt>, e: PubPkt): (c: seq<PubPkt>)
    ensures |c| == |col| + 1
  {
    var at := |col| - AfterLength(col, e.ts);
    col[..at] + [e] + col[at..]
  }

  function AfterLength(col: seq<PubPkt>, t: nat): (n: nat)
    ensures n == |After(col, t)| && n <= |col|
  {
    if col == [] || col[0].ts > t then |col| else AfterLength(col[1..], t)
  }

  function AddAll(cols: seq<seq<PubPkt>>, keys: set<int>, e: PubPkt): (cs: seq<seq<PubPkt>>)
    ensures |cs| == |cols|
  {
    seq(|cols|, i requires 0 <= i < |cols| => if i in keys then Insert(cols[i], e) else cols[i])
  }

  /** The stacks after a publication has been stored; the terminator's own stack stays empty. */
  function Receive(st: Stacks, inp: Input): Stacks {
    Stacks(AddAll(st.states, inp.states - {0}, inp.pkt), AddAll(st.negs, inp.negs, inp.pkt), AddAll(st.aggs, inp.aggs, inp.pkt))
  }

  /** Expiry of one stack, relative to the oldest packet of the stack it looks back from. */
  function Expire(states: seq<seq<PubPkt>>, upper: int, win: nat, col: seq<PubPkt>): seq<PubPkt>
    requires 0 <= upper < |states|
  {
    if states[upper] == [] then col else Unexpired(col, Minus(states[upper][0].ts, win))
  }

  /** States are purged in order, each against the already purged stack it refers to. */
  function PurgeStates(r: Rule, states: seq<seq<PubPkt>>, i: nat): (s: seq<seq<PubPkt>>)
    requires WellFormed(r) && |states| == |r.predicates| && 1 <= i <= |states|
    ensures |s| == |states| && forall k :: 0 <= k < i ==> s[k] == states[k]
    decreases |states| - i
  {
    if i == |states| then states
    else
      assert PredicateOk(r, i);
      var q := r.predicates[i];
      PurgeStates(r, states[i := Expire(states, q.refersTo, q.win, states[i])], i + 1)
  }

  /** The window by which a negation's stack is purged. */
  function NegPurgeWindow(r: Rule, g: Negation): nat
    requires g.lowerId < |r.predicates|
  {
    if g.lowerId < 0 then g.lowerTime else r.predicates[g.lowerId].win
  }

  function PurgeNegs(r: Rule, states: seq<seq<PubPkt>>, negs: seq<seq<PubPkt>>): (s: seq<seq<PubPkt>>)
    requires WellFormed(r) && |states| == |r.predicates| && |negs| == |r.negations|
    ensures |s| == |negs|
  {
    seq(|negs|, j requires 0 <= j < |negs| =>
      var g := r.negations[j];
      assert NegationOk(r, g);
      Expire(states, g.upperId, NegPurgeWindow(r, g), negs[j]))
  }

  function PurgeAggs(r: Rule, states: seq<seq<PubPkt>>, aggs: seq<seq<PubPkt>>): (s: seq<seq<PubPkt>>)
    requires WellFormed(r) && |states| == |r.predicates| && |aggs| == |r.aggregates|
    ensures |s| == |aggs|
  {
    seq(|aggs|, j requires 0 <= j < |aggs| =>
      var a := r.aggregates[j];
      assert AggregateOk(r, a);
      Expire(states, a.upperId, a.lowerTime, aggs[j]))
  }

  /** The stacks after expiry. */
  function Purge(r: Rule, st: Stacks): (st': Stacks)
    requires WellFormed(r) && Shaped(r, st)
    ensures Shaped(r, st')
  {
    var s := PurgeStates(r, st.states, 1);
    Stacks(s, PurgeNegs(r, s, st.negs), PurgeAggs(r, s, st.aggs))
  }

  /** The packets some match binds to state i. */
  ghost function Used(ms: seq<Partial>, i: nat): set<PubPkt>
    requires forall k :: 0 <= k < |ms| ==> i < |ms[k]|
  {
    set k | 0 <= k < |ms| :: ms[k][i]
  }

  function Without(col: seq<PubPkt>, gone: set<PubPkt>): seq<PubPkt> {
    if col == [] then []
    else (if col[0] in gone then [] else [col[0]]) + Without(col[1..], gone)
  }

  /** The stacks once the packets bound to consuming states have been removed. */
  ghost function Consume(r: Rule, states: seq<seq<PubPkt>>, ms: seq<Partial>): (s: seq<seq<PubPkt>>)
    requires |states| == |r.predicates| && AllBound(ms, |r.predicates|)
    ensures |s| == |states|
  {
    seq(|states|, i requires 0 <= i < |states| =>
      if i >= 1 && i in r.consuming then Without(states[i], Used(ms, i)) else states[i])
  }

  /** What a terminator emits: its matches in order, and the value of any aggregate j of any match k. */
  datatype Emission = Emission(matches: seq<Partial>, aggs: seq<seq<PubPkt>>)

  ghost function Terminate(r: Rule, st: Stacks, e: PubPkt, purging: bool): (res: (Emission, Stacks))
    requires WellFormed(r) && Shaped(r, st)
    ensures Shaped(r, res.1) && AllBound(res.0.matches, |r.predicates|) && |res.0.aggs| == |r.aggregates|
  {
    var st0 := st.(states := st.states[0 := [e]]);
    var st1 := if purging then Purge(r, st0) else st0;
    var ms := Detect(r, st1, e);
    var left := Consume(r, st1.states, ms);
    (Emission(ms, st1.aggs), st1.(states := left[0 := []]))
  }

  /** One publication through the rule. */
  ghost function Step(r: Rule, st: Stacks, inp: Input, purging: bool): (res: (Emission, Stacks))
    requires WellFormed(r) && Shaped(r, st)
    ensures Shaped(r, res.1) && AllBound(res.0.matches, |r.predicates|) && |res.0.aggs| == |r.aggregates|
  {
    var st1 := Receive(st, inp);
    if 0 in inp.states then Terminate(r, st1, inp.pkt, purging) else (Emission([], st1.aggs), st1)
  }

  function Empty(r: Rule): Stacks {
    Stacks(seq(|r.predicates|, _ => []), seq(|r.negations|, _ => []), seq(|r.aggregates|, _ => []))
  }

  /** The stacks after the first n publications. */
  ghost function StacksAfter(r: Rule, inps: seq<Input>, n: nat, purging: bool): (st: Stacks)
    requires WellFormed(r) && n <= |inps|
    ensures Shaped(r, st)
  {
    if n == 0 then Empty(r) else Step(r, StacksAfter(r, inps, n - 1, purging), inps[n - 1], purging).1
  }

  /** What publication k emits. */
  ghost function Emitted(r: Rule, inps: seq<Input>, k: nat, purging: bool): (em: Emission)
    requires WellFormed(r) && k < |inps|
    ensures AllBound(em.matches, |r.predicates|) && |em.aggs| == |r.aggregates|
  {
    Step(r, StacksAfter(r, inps, k, purging), inps[k], purging).0
  }

  /** No packet is published twice. */
  predicate Fresh(inps: seq<Input>) {
    forall a, b :: 0 <= a < b < |inps| ==> inps[a].pkt != inps[b].pkt
  }

  /** Time stamps never decrease along the run. */
  predicate Ordered(inps: seq<Input>) {
    forall a, b :: 0 <= a < b < |inps| ==> inps[a].pkt.ts <= inps[b].pkt.ts
  }
}
