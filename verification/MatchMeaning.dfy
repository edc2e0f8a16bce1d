/** Matches and aggregate values spelled out: time stamps compared as integers, and parameters
    as the values of their trees. */
module MatchMeaning {
  import opened Events
  import opened Rules
  import opened Detection
  import opened Soundness
  import opened Aggregates
  import opened Timelines
  import opened Parameters

  // ---------------------------------------------------------------- parameters

  /** The tree reads the first `n` states and, as a negation or an aggregate, one packet. */
  predicate Closed(t: OpTree, ty: StateType, n: nat) {
    match t
    case Leaf(_, Static(_)) => true
    case Leaf(_, ref) => (ref.sType == STATE && 0 <= ref.index < n) || (ref.sType != STATE && ref.sType == ty)
    case Inner(_, l, r, _) => Closed(l, ty, n) && Closed(r, ty, n)
  }

  /** The value of a tree that reads the packet `e` as a negation or an aggregate, and states in `p`. */
  function ValueWith(pr: Prims, vt: ValType, t: OpTree, ty: StateType, e: PubPkt, p: Partial): int
    requires Closed(t, ty, |p|)
  {
    match t
    case Leaf(_, Static(v)) => pr.literal(vt, v)
    case Leaf(_, PktRef(i, STATE, name)) => pr.attr(vt, ReadAttribute(p[i].attributes, name))
    case Leaf(_, PktRef(_, _, name)) => pr.attr(vt, ReadAttribute(e.attributes, name))
    case Inner(_, l, r, op) => pr.oper(vt, op, ValueWith(pr, vt, l, ty, e, p), ValueWith(pr, vt, r, ty, e, p))
  }

  /** The comparison of the two values, left with right. */
  predicate HoldsWith(pr: Prims, par: Param, ty: StateType, e: PubPkt, p: Partial) {
    Closed(par.left, ty, |p|) && Closed(par.right, ty, |p|)
    && pr.test(par.vType, par.op, ValueWith(pr, par.vType, par.left, ty, e, p), ValueWith(pr, par.vType, par.right, ty, e, p))
  }

  lemma {:induction false} EvalIsValueWith(pr: Prims, vt: ValType, t: OpTree, ty: StateType, e: PubPkt, p: Partial, index: int)
    requires ty != STATE && Readable(t, |p|, index, ty)
    ensures Closed(t, ty, |p|) && Eval(pr, vt, t, e, p, index, ty) == ValueWith(pr, vt, t, ty, e, p)
  {
    match t
    case Leaf(_, ref) =>
    case Inner(_, l, r, _) =>
      EvalIsValueWith(pr, vt, l, ty, e, p, index);
      EvalIsValueWith(pr, vt, r, ty, e, p, index);
  }

  /** The parameters of a negation or an aggregate hold of a packet exactly when each comparison
      does, of the values of its trees. */
  lemma ParamsAreValues(r: Rule, ty: StateType, key: int, e: PubPkt, p: Partial)
    requires WellFormed(r) && ty != STATE && |p| == BoundAt(r, ty, key)
    ensures ParamsHold(r, ty, key, e, p) <==>
              forall par :: par in r.params && par.sType == ty && par.lastIndex == key ==> HoldsWith(r.prims, par, ty, e, p)
  {
    hide Eval, ValueWith, Closed, Readable;
    forall par | par in r.params && InGroup(par, ty, key)
      ensures Readable(par.left, |p|, IndexArg(ty, key), ty) && Readable(par.right, |p|, IndexArg(ty, key), ty)
      ensures CheckParam(r.prims, par, e, p, IndexArg(ty, key), ty) == HoldsWith(r.prims, par, ty, e, p)
    {
      assert ParamOk(r, par);
      EvalIsValueWith(r.prims, par.vType, par.left, ty, e, p, IndexArg(ty, key));
      EvalIsValueWith(r.prims, par.vType, par.right, ty, e, p, IndexArg(ty, key));
    }
  }

  /** A state's own parameters, on the states up to it. */
  ghost predicate StateHolds(r: Rule, m: Partial, i: nat)
    requires i < |m|
  {
    forall par :: par in r.params && par.sType == STATE && par.lastIndex == i ==>
      StateTree(par.left, |m|) && StateTree(par.right, |m|) && HoldsOn(r.prims, par, m)
  }

  lemma StateParamsAreValues(r: Rule, e: PubPkt, p: Partial)
    requires WellFormed(r) && 1 <= |p| < |r.predicates|
    ensures ParamsHold(r, STATE, |p|, e, p) <==> StateHolds(r, p + [e], |p|)
  {
    hide Eval, ValueOf, StateTree, Readable;
    forall par | par in r.params && InGroup(par, STATE, |p|)
      ensures Readable(par.left, |p|, |p|, STATE) && Readable(par.right, |p|, |p|, STATE)
      ensures StateTree(par.left, |p| + 1) && StateTree(par.right, |p| + 1)
      ensures HoldsOn(r.prims, par, p + [e]) == CheckParam(r.prims, par, e, p, |p|, STATE)
    {
      PassesLast(r, p, e, par);
    }
  }

  // ---------------------------------------------------------------- matches

  /** A packet of negation j forbids the states in `p`: between its two states, or before its
      upper state by less than its time. */
  ghost predicate Forbids(r: Rule, j: int, x: PubPkt, p: Partial)
    requires 0 <= j < |r.negations|
  {
    var g := r.negations[j];
    0 <= g.upperId < |p| && g.lowerId < |p| && x.ts < p[g.upperId].ts
    && (if g.lowerId >= 0 then x.ts > p[g.lowerId].ts else x.ts > 0 && x.ts + g.lowerTime > p[g.upperId].ts)
    && forall par :: par in r.params && par.sType == NEG && par.lastIndex == j ==> HoldsWith(r.prims, par, NEG, x, p)
  }

  /** Some packet received for a negation whose last state is the last of `p` forbids it. */
  ghost predicate Forbidden(r: Rule, negs: seq<seq<PubPkt>>, p: Partial)
    requires |negs| == |r.negations|
  {
    exists j, k :: 0 <= j < |r.negations| && 0 <= k < |negs[j]|
      && |p| == (if r.negations[j].lowerId >= 0 then r.negations[j].lowerId else r.negations[j].upperId) + 1
      && Forbids(r, j, negs[j][k], p)
  }

  /** `e` can be the next state after `p`: before the state it refers to by less than the window,
      its parameters hold, and nothing forbids it. */
  ghost predicate Usable(r: Rule, negs: seq<seq<PubPkt>>, p: Partial, e: PubPkt)
    requires WellFormed(r) && |negs| == |r.negations| && 1 <= |p| < |r.predicates|
  {
    var q := r.predicates[|p|];
    assert PredicateOk(r, |p|);
    && 0 < e.ts < p[q.refersTo].ts < e.ts + q.win
    && StateHolds(r, p + [e], |p|) && !Forbidden(r, negs, p + [e])
  }

  lemma NegatesIsForbids(r: Rule, j: int, x: PubPkt, p: Partial)
    requires WellFormed(r) && 0 <= j < |r.negations| && |p| == Link(r.negations[j]) + 1
    ensures Negates(r, j, x, p) <==> Forbids(r, j, x, p)
  {
    hide ParamsHold, HoldsWith;
    assert NegationOk(r, r.negations[j]);
    ParamsAreValues(r, NEG, j, x, p);
  }

  lemma NegHitIsForbids(r: Rule, j: int, col: seq<PubPkt>, p: Partial)
    requires WellFormed(r) && 0 <= j < |r.negations| && |p| == Link(r.negations[j]) + 1
    ensures NegHit(r, j, col, p) <==> exists k :: 0 <= k < |col| && Forbids(r, j, col[k], p)
  {
    hide Negates, Forbids, WellFormed;
    forall k | 0 <= k < |col| ensures Negates(r, j, col[k], p) <==> Forbids(r, j, col[k], p) { NegatesIsForbids(r, j, col[k], p); }
  }

  lemma BlockedIsForbidden(r: Rule, negs: seq<seq<PubPkt>>, p: Partial)
    requires WellFormed(r) && |negs| == |r.negations|
    ensures Blocked(r, negs, p) <==> Forbidden(r, negs, p)
  {
    hide NegHit, Forbids, WellFormed;
    forall j | 0 <= j < |r.negations| && |p| == Link(r.negations[j]) + 1
      ensures NegHit(r, j, negs[j], p) <==> exists k :: 0 <= k < |negs[j]| && Forbids(r, j, negs[j][k], p)
    {
      NegHitIsForbids(r, j, negs[j], p);
    }
  }

  lemma FitsIsUsable(r: Rule, negs: seq<seq<PubPkt>>, p: Partial, e: PubPkt)
    requires WellFormed(r) && |negs| == |r.negations| && 1 <= |p| < |r.predicates|
    ensures Fits(r, negs, p, e) <==> Usable(r, negs, p, e)
  {
    hide ParamsHold, StateHolds, Blocked, Forbidden, ParamOk;
    assert PredicateOk(r, |p|);
    StateParamsAreValues(r, e, p);
    BlockedIsForbidden(r, negs, p + [e]);
  }

  /** Element k of the next state's stack is the state's choice: any usable one, or the first or
      the last of them. */
  ghost predicate Choice(r: Rule, st: Stacks, p: Partial, k: nat)
    requires WellFormed(r) && Shaped(r, st) && 1 <= |p| < |r.predicates| && k < |st.states[|p|]|
  {
    var col, kind := st.states[|p|], r.predicates[|p|].kind;
    && Usable(r, st.negs, p, col[k])
    && (kind == FIRST_WITHIN ==> forall l :: 0 <= l < k ==> !Usable(r, st.negs, p, col[l]))
    && (kind == LAST_WITHIN ==> forall l :: k < l < |col| ==> !Usable(r, st.negs, p, col[l]))
  }

  ghost predicate ChosenAmong(r: Rule, st: Stacks, p: Partial, e: PubPkt)
    requires WellFormed(r) && Shaped(r, st) && 1 <= |p| < |r.predicates|
  {
    exists k :: 0 <= k < |st.states[|p|]| && st.states[|p|][k] == e && Choice(r, st, p, k)
  }

  /** A match, spelled out. */
  ghost predicate SpelledMatch(r: Rule, st: Stacks, e: PubPkt, m: Partial)
    requires WellFormed(r) && Shaped(r, st)
  {
    && |m| == |r.predicates| && m[0] == e && !Forbidden(r, st.negs, [e])
    && forall i :: 1 <= i < |m| ==> ChosenAmong(r, st, m[..i], m[i])
  }

  lemma ChosenIsAmong(r: Rule, st: Stacks, p: Partial, e: PubPkt)
    requires WellFormed(r) && Shaped(r, st) && 1 <= |p| < |r.predicates|
    ensures ChosenEvent(r, st, p, e) <==> ChosenAmong(r, st, p, e)
  {
    hide Fits, Usable, WellFormed;
    var col := st.states[|p|];
    forall k | 0 <= k < |col| ensures Fits(r, st.negs, p, col[k]) <==> Usable(r, st.negs, p, col[k]) { FitsIsUsable(r, st.negs, p, col[k]); }
    forall k | 0 <= k < |col| ensures Chosen(r, st, p, k) <==> Choice(r, st, p, k) {
    }
  }

  /** Main result: the detector finds exactly the matches spelled out. */
  lemma DetectIsSpelled(r: Rule, st: Stacks, e: PubPkt, m: Partial)
    requires WellFormed(r) && Shaped(r, st)
    ensures m in Detect(r, st, e) <==> SpelledMatch(r, st, e, m)
  {
    hide Detect, ChosenEvent, ChosenAmong, Blocked, Forbidden, WellFormed;
    DetectIsExact(r, st, e, m);
    BlockedIsForbidden(r, st.negs, [e]);
    if |m| == |r.predicates| {
      forall i | 1 <= i < |m| ensures ChosenEvent(r, st, m[..i], m[i]) <==> ChosenAmong(r, st, m[..i], m[i]) {
        ChosenIsAmong(r, st, m[..i], m[i]);
      }
    }
  }

  // ---------------------------------------------------------------- aggregates

  /** What a packet adds to an aggregate: its number under the name, and nothing otherwise. */
  function Worth(pr: Prims, e: PubPkt, name: Name): real {
    match ReadAttribute(e.attributes, name)
    case Found(IntVal(i)) => i as real
    case Found(FloatVal(bits)) => pr.float(bits)
    case _ => 0.0
  }

  /** A packet between the aggregate's two states, or before its upper state by less than its time. */
  predicate Inside(a: Aggregate, e: PubPkt, m: Partial)
    requires 0 <= a.upperId < |m| && a.lowerId < |m|
  {
    e.ts < m[a.upperId].ts && if a.lowerId >= 0 then e.ts > m[a.lowerId].ts else e.ts > 0 && e.ts + a.lowerTime > m[a.upperId].ts
  }

  /** The aggregate's parameters hold of a packet. */
  ghost predicate Counts(r: Rule, j: int, e: PubPkt, m: Partial) {
    forall par :: par in r.params && par.sType == AGG && par.lastIndex == j ==> HoldsWith(r.prims, par, AGG, e, m)
  }

  ghost predicate NoneInside(a: Aggregate, col: seq<PubPkt>, m: Partial)
    requires 0 <= a.upperId < |m| && a.lowerId < |m|
  {
    forall k :: 0 <= k < |col| ==> !Inside(a, col[k], m)
  }

  /** What the packets inside add that the aggregate's parameters hold of. */
  ghost function Worths(r: Rule, j: int, col: seq<PubPkt>, m: Partial): seq<real>
    requires 0 <= j < |r.aggregates| && 0 <= r.aggregates[j].upperId < |m| && r.aggregates[j].lowerId < |m|
  {
    if col == [] then []
    else
      var e := col[|col| - 1];
      Worths(r, j, col[..|col| - 1], m)
      + if Inside(r.aggregates[j], e, m) && Counts(r, j, e, m) then [Worth(r.prims, e, r.aggregates[j].name)] else []
  }

  /** The value of aggregate j for a match, spelled out. */
  ghost predicate SpelledAggregate(r: Rule, j: int, col: seq<PubPkt>, m: Partial, x: Number)
    requires 0 <= j < |r.aggregates| && 0 <= r.aggregates[j].upperId < |m| && r.aggregates[j].lowerId < |m|
  {
    IsAggregate(r.aggregates[j].fun, NoneInside(r.aggregates[j], col, m), Worths(r, j, col, m), x)
  }

  lemma ContributionIsWorth(r: Rule, e: PubPkt, name: Name)
    ensures Contribution(r, e, name) == Worth(r.prims, e, name)
  {
  }

  lemma WithinIsInside(a: Aggregate, e: PubPkt, m: Partial)
    requires 0 <= a.upperId < |m| && a.lowerId < |m|
    ensures Within(AggLow(a, m), e, m[a.upperId].ts) <==> Inside(a, e, m)
  {
  }

  lemma NoneInsideSnoc(a: Aggregate, col: seq<PubPkt>, e: PubPkt, m: Partial)
    requires 0 <= a.upperId < |m| && a.lowerId < |m|
    ensures NoneInside(a, col + [e], m) <==> NoneInside(a, col, m) && !Inside(a, e, m)
  {
    hide Inside;
    var all := col + [e];
    assert all[|col|] == e && forall k :: 0 <= k < |col| ==> all[k] == col[k];
  }

  lemma WindowSnoc(col: seq<PubPkt>, e: PubPkt, lo: nat, hi: nat)
    ensures Window(col + [e], lo, hi) == Window(col, lo, hi) + if Within(lo, e, hi) then [e] else []
  {
    hide Within;
    WindowAppend(col, [e], lo, hi);
    NoneBefore(if Within(lo, e, hi) then [e] else []);
    assert [e][1..] == [];
  }

  lemma ContributionsSnoc(r: Rule, j: int, w: seq<PubPkt>, e: PubPkt, m: Partial)
    requires WellFormed(r) && 0 <= j < |r.aggregates| && |m| == |r.predicates|
    ensures Contributions(r, j, w + [e], m) == Contributions(r, j, w, m) + if Counts(r, j, e, m) then [Worth(r.prims, e, r.aggregates[j].name)] else []
  {
    hide ParamsHold, HoldsWith, Contribution, Worth, WellFormed;
    assert (w + [e])[..|w|] == w;
    ParamsAreValues(r, AGG, j, e, m);
    ContributionIsWorth(r, e, r.aggregates[j].name);
  }

  lemma {:induction false} WorthsAreContributions(r: Rule, j: int, col: seq<PubPkt>, m: Partial)
    requires WellFormed(r) && 0 <= j < |r.aggregates| && |m| == |r.predicates| && AggregateOk(r, r.aggregates[j])
    ensures var a := r.aggregates[j]; var w := Window(col, AggLow(a, m), m[a.upperId].ts);
            Worths(r, j, col, m) == Contributions(r, j, w, m) && (w == [] <==> NoneInside(a, col, m))
  {
    hide Counts, Inside, Within, Worth, WellFormed, AggLow, Window, Contributions, NoneInside;
    var a := r.aggregates[j];
    var lo, hi := AggLow(a, m), m[a.upperId].ts;
    if col == [] {
      NothingInside(r, j, m, lo, hi);
    } else {
      var init, e := col[..|col| - 1], col[|col| - 1];
      WorthsAreContributions(r, j, init, m);
      assert col == init + [e];
      WindowSnoc(init, e, lo, hi);
      NoneInsideSnoc(a, init, e, m);
      WithinIsInside(a, e, m);
      ContributionsSnoc(r, j, Window(init, lo, hi), e, m);
      NoneBefore(Window(init, lo, hi));
      NoneBefore(Worths(r, j, init, m));
    }
  }

  lemma NothingInside(r: Rule, j: int, m: Partial, lo: nat, hi: nat)
    requires WellFormed(r) && 0 <= j < |r.aggregates| && |m| == |r.predicates| && AggregateOk(r, r.aggregates[j])
    ensures Window([], lo, hi) == [] && Contributions(r, j, [], m) == [] && NoneInside(r.aggregates[j], [], m)
  {
  }

  /** Main result: the value of an aggregate is the one spelled out. */
  lemma AggregateIsSpelled(r: Rule, j: int, col: seq<PubPkt>, m: Partial, x: Number)
    requires WellFormed(r) && 0 <= j < |r.aggregates| && |m| == |r.predicates|
    ensures AggregateOk(r, r.aggregates[j]) && (AggregateIs(r, j, col, m, x) <==> SpelledAggregate(r, j, col, m, x))
  {
    hide IsAggregate, Worths, Contributions, Window, ParamOk, NoneInside;
    assert AggregateOk(r, r.aggregates[j]);
    WorthsAreContributions(r, j, col, m);
  }
}
