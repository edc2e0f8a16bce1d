/** Checking each parameter as soon as its last state is bound is filtering complete matches. */
module Parameters {
  import opened Events
  import opened Rules
  import opened Detection
  import opened Soundness
  import opened Timelines

  /** The tree reads states only, all of them below `n`. */
  predicate StateTree(t: OpTree, n: nat) {
    match t
    case Leaf(_, Static(_)) => true
    case Leaf(_, ref) => ref.sType == STATE && 0 <= ref.index < n
    case Inner(_, l, r, _) => StateTree(l, n) && StateTree(r, n)
  }

  /** The value of a tree in a match: no packet under examination, no order of binding. */
  function ValueOf(pr: Prims, vt: ValType, t: OpTree, m: Partial): int
    requires StateTree(t, |m|)
  {
    match t
    case Leaf(_, Static(v)) => pr.literal(vt, v)
    case Leaf(_, ref) => pr.attr(vt, ReadAttribute(m[ref.index].attributes, ref.name))
    case Inner(_, l, r, op) => pr.oper(vt, op, ValueOf(pr, vt, l, m), ValueOf(pr, vt, r, m))
  }

  predicate HoldsOn(pr: Prims, par: Param, m: Partial)
    requires StateTree(par.left, |m|) && StateTree(par.right, |m|)
  {
    pr.test(par.vType, par.op, ValueOf(pr, par.vType, par.left, m), ValueOf(pr, par.vType, par.right, m))
  }

  lemma {:induction false} ReadableIsStateTree(t: OpTree, b: nat, n: nat)
    requires Readable(t, b, b, STATE) && b < n
    ensures StateTree(t, n)
  {
    match t
    case Leaf(_, ref) =>
    case Inner(_, l, r, _) =>
      ReadableIsStateTree(l, b, n);
      ReadableIsStateTree(r, b, n);
  }

  /** Evaluating against the candidate and the bound prefix is evaluating in any match that
      extends them: an unbound state is never read. */
  lemma {:induction false} EvalIsValue(pr: Prims, vt: ValType, t: OpTree, e: PubPkt, p: Partial, m: Partial)
    requires Readable(t, |p|, |p|, STATE) && |p| < |m| && m[..|p|] == p && m[|p|] == e
    ensures StateTree(t, |m|) && Eval(pr, vt, t, e, p, |p|, STATE) == ValueOf(pr, vt, t, m)
  {
    match t
    case Leaf(_, ref) =>
      if ref.PktRef? && ref.index < |p| { assert m[..|p|][ref.index] == m[ref.index]; }
    case Inner(_, l, r, _) =>
      EvalIsValue(pr, vt, l, e, p, m);
      EvalIsValue(pr, vt, r, e, p, m);
  }

  /** Every state parameter whose last state is in [from, |m|) holds in `m`. */
  ghost predicate Passes(r: Rule, m: Partial, from: nat)
    requires WellFormed(r)
  {
    forall par :: par in r.params && par.sType == STATE && from <= par.lastIndex < |m| ==>
      (assert ParamOk(r, par);
       ReadableIsStateTree(par.left, par.lastIndex, |m|);
       ReadableIsStateTree(par.right, par.lastIndex, |m|);
       HoldsOn(r.prims, par, m))
  }

  ghost function Keep(r: Rule, ms: seq<Partial>, from: nat): seq<Partial>
    requires WellFormed(r)
  {
    if ms == [] then [] else (if Passes(r, ms[0], from) then [ms[0]] else []) + Keep(r, ms[1..], from)
  }

  /** The same rule without its state parameters. */
  function Unconstrained(r: Rule): (r': Rule)
    requires WellFormed(r)
    ensures WellFormed(r')
  {
    UnconstrainedOk(r, r.(params := NonState(r.params)));
    r.(params := NonState(r.params))
  }

  lemma UnconstrainedOk(r: Rule, r': Rule)
    requires WellFormed(r) && r' == r.(params := NonState(r.params))
    ensures WellFormed(r')
  {
    hide ParamOk, NonState;
    NonStateMember(r.params);
    forall i | 0 <= i < |r'.predicates| ensures PredicateOk(r', i) { assert PredicateOk(r, i); }
    forall j | 0 <= j < |r'.negations| ensures NegationOk(r', r'.negations[j]) { assert NegationOk(r, r.negations[j]); }
    forall a | 0 <= a < |r'.aggregates| ensures AggregateOk(r', r'.aggregates[a]) { assert AggregateOk(r, r.aggregates[a]); }
    forall par | par in r'.params ensures ParamOk(r', par) { SameParamOk(r, r', par); }
  }

  function NonState(ps: seq<Param>): seq<Param> {
    if ps == [] then [] else (if ps[0].sType == STATE then [] else [ps[0]]) + NonState(ps[1..])
  }

  lemma {:induction false} NonStateMember(ps: seq<Param>)
    ensures forall par :: par in NonState(ps) <==> par in ps && par.sType != STATE
  {
    if ps != [] {
      NonStateMember(ps[1..]);
      assert ps == [ps[0]] + ps[1..];
    }
  }

  lemma NegHitUnconstrained(r: Rule, j: int, col: seq<PubPkt>, p: Partial)
    requires WellFormed(r) && 0 <= j < |r.negations| && |p| == Link(r.negations[j]) + 1
    ensures NegHit(Unconstrained(r), j, col, p) == NegHit(r, j, col, p)
  {
    NonStateMember(r.params);
    forall e ensures Negates(Unconstrained(r), j, e, p) == Negates(r, j, e, p) {
    }
  }

  lemma BlockedUnconstrained(r: Rule, negs: seq<seq<PubPkt>>, p: Partial)
    requires WellFormed(r) && |negs| == |r.negations|
    ensures Blocked(Unconstrained(r), negs, p) == Blocked(r, negs, p)
  {
    forall j | 0 <= j < |r.negations| && Link(r.negations[j]) + 1 == |p|
      ensures NegHit(Unconstrained(r), j, negs[j], p) == NegHit(r, j, negs[j], p)
    {
      NegHitUnconstrained(r, j, negs[j], p);
    }
  }

  /** A parameter's value does not change when more states are bound. */
  lemma {:induction false} ValuePrefix(pr: Prims, vt: ValType, t: OpTree, p: Partial, e: PubPkt)
    requires StateTree(t, |p|)
    ensures StateTree(t, |p| + 1) && ValueOf(pr, vt, t, p + [e]) == ValueOf(pr, vt, t, p)
  {
    match t
    case Leaf(_, ref) =>
    case Inner(_, l, r, _) =>
      ValuePrefix(pr, vt, l, p, e);
      ValuePrefix(pr, vt, r, p, e);
  }

  lemma PassesPrefix(r: Rule, p: Partial, e: PubPkt, from: nat, par: Param)
    requires WellFormed(r) && par in r.params && par.sType == STATE && from <= par.lastIndex < |p|
    ensures StateTree(par.left, |p|) && StateTree(par.right, |p|)
    ensures StateTree(par.left, |p| + 1) && StateTree(par.right, |p| + 1)
    ensures HoldsOn(r.prims, par, p + [e]) == HoldsOn(r.prims, par, p)
  {
    assert ParamOk(r, par);
    ReadableIsStateTree(par.left, par.lastIndex, |p|);
    ReadableIsStateTree(par.right, par.lastIndex, |p|);
    ValuePrefix(r.prims, par.vType, par.left, p, e);
    ValuePrefix(r.prims, par.vType, par.right, p, e);
  }

  lemma PassesLast(r: Rule, p: Partial, e: PubPkt, par: Param)
    requires WellFormed(r) && par in r.params && InGroup(par, STATE, |p|)
    ensures Readable(par.left, |p|, |p|, STATE) && Readable(par.right, |p|, |p|, STATE)
    ensures StateTree(par.left, |p| + 1) && StateTree(par.right, |p| + 1)
    ensures HoldsOn(r.prims, par, p + [e]) == CheckParam(r.prims, par, e, p, |p|, STATE)
  {
    assert ParamOk(r, par);
    EvalIsValue(r.prims, par.vType, par.left, e, p, p + [e]);
    EvalIsValue(r.prims, par.vType, par.right, e, p, p + [e]);
  }

  lemma PassesStep(r: Rule, p: Partial, e: PubPkt)
    requires WellFormed(r) && 1 <= |p| < |r.predicates|
    ensures Passes(r, p + [e], 1) <==> Passes(r, p, 1) && ParamsHold(r, STATE, |p|, e, p)
  {
    forall par | par in r.params && par.sType == STATE && 1 <= par.lastIndex <= |p|
      ensures StateTree(par.left, |p| + 1) && StateTree(par.right, |p| + 1)
      ensures par.lastIndex < |p| ==>
        StateTree(par.left, |p|) && StateTree(par.right, |p|) && HoldsOn(r.prims, par, p + [e]) == HoldsOn(r.prims, par, p)
      ensures par.lastIndex == |p| ==>
        Readable(par.left, |p|, |p|, STATE) && Readable(par.right, |p|, |p|, STATE) &&
        HoldsOn(r.prims, par, p + [e]) == CheckParam(r.prims, par, e, p, |p|, STATE)
    {
      if par.lastIndex < |p| { PassesPrefix(r, p, e, 1, par); } else { PassesLast(r, p, e, par); }
    }
  }

  lemma FitsUnconstrained(r: Rule, negs: seq<seq<PubPkt>>, p: Partial, e: PubPkt)
    requires WellFormed(r) && |negs| == |r.negations| && 1 <= |p| < |r.predicates|
    ensures Fits(r, negs, p, e) <==> Fits(Unconstrained(r), negs, p, e) && ParamsHold(r, STATE, |p|, e, p)
  {
    NonStateMember(r.params);
    assert PredicateOk(r, |p|);
    BlockedUnconstrained(r, negs, p + [e]);
  }

  lemma {:induction false} KeepAppend(r: Rule, a: seq<Partial>, b: seq<Partial>, from: nat)
    requires WellFormed(r)
    ensures Keep(r, a + b, from) == Keep(r, a, from) + Keep(r, b, from)
  {
    hide Passes, WellFormed;
    if a == [] {
      NoneBefore(b);
      NoneBefore(Keep(r, b, from));
    } else {
      KeepAppend(r, a[1..], b, from);
      TailOfSum(a, b);
      Cat(if Passes(r, a[0], from) then [a[0]] else [], Keep(r, a[1..], from), Keep(r, b, from));
    }
  }

  lemma AppendCons(p: Partial, e: PubPkt, s: seq<PubPkt>)
    ensures Append(p, [e] + s) == [p + [e]] + Append(p, s)
  {
    forall k | 0 <= k < |s| + 1 ensures Append(p, [e] + s)[k] == ([p + [e]] + Append(p, s))[k] {
    }
  }

  lemma {:induction false} FittingPushdown(r: Rule, negs: seq<seq<PubPkt>>, p: Partial, col: seq<PubPkt>)
    requires WellFormed(r) && |negs| == |r.negations| && 1 <= |p| < |r.predicates|
    ensures Keep(r, Append(p, Fitting(Unconstrained(r), negs, p, col)), 1)
         == if Passes(r, p, 1) then Append(p, Fitting(r, negs, p, col)) else []
  {
    hide Passes, Fits, WellFormed, ParamsHold;
    if col != [] {
      var r', e := Unconstrained(r), col[0];
      FittingPushdown(r, negs, p, col[1..]);
      FitsUnconstrained(r, negs, p, e);
      PassesStep(r, p, e);
      AppendCons(p, e, Fitting(r', negs, p, col[1..]));
      AppendCons(p, e, Fitting(r, negs, p, col[1..]));
      KeepAppend(r, [p + [e]], Append(p, Fitting(r', negs, p, col[1..])), 1);
      assert [] + Fitting(r', negs, p, col[1..]) == Fitting(r', negs, p, col[1..]);
    }
  }

  /** No parameter is checked when state i is bound. */
  predicate Unread(r: Rule, i: int) {
    forall par :: par in r.params ==> !InGroup(par, STATE, i)
  }

  /** Each state takes every candidate or has no parameter of its own. */
  predicate PushesDown(r: Rule) {
    forall i :: 1 <= i < |r.predicates| ==> r.predicates[i].kind in {EACH_WITHIN, ALL_WITHIN} || Unread(r, i)
  }

  lemma {:induction false} FittingUnread(r: Rule, negs: seq<seq<PubPkt>>, p: Partial, col: seq<PubPkt>)
    requires WellFormed(r) && |negs| == |r.negations| && 1 <= |p| < |r.predicates| && Unread(r, |p|)
    ensures Fitting(Unconstrained(r), negs, p, col) == Fitting(r, negs, p, col)
  {
    hide Fits, WellFormed;
    if col != [] {
      FittingUnread(r, negs, p, col[1..]);
      FitsUnconstrained(r, negs, p, col[0]);
    }
  }

  lemma {:induction false} KeepUnread(r: Rule, p: Partial, s: seq<PubPkt>)
    requires WellFormed(r) && 1 <= |p| < |r.predicates| && Unread(r, |p|)
    ensures Keep(r, Append(p, s), 1) == if Passes(r, p, 1) then Append(p, s) else []
  {
    hide Passes, WellFormed;
    if s != [] {
      KeepUnread(r, p, s[1..]);
      PassesStep(r, p, s[0]);
      AppendCons(p, s[0], s[1..]);
      assert s == [s[0]] + s[1..];
      assert Append(p, s)[1..] == Append(p, s[1..]);
    }
  }

  lemma ExtendPushdown(r: Rule, st: Stacks, p: Partial)
    requires WellFormed(r) && PushesDown(r) && Shaped(r, st) && 1 <= |p| < |r.predicates|
    ensures Keep(r, Extend(Unconstrained(r), st, p), 1) == if Passes(r, p, 1) then Extend(r, st, p) else []
  {
    hide Passes, Fitting, Keep;
    if Unread(r, |p|) {
      FittingUnread(r, st.negs, p, st.states[|p|]);
      KeepUnread(r, p, Pick(r.predicates[|p|].kind, Fitting(r, st.negs, p, st.states[|p|])));
    } else {
      ExtendEach(r, st, p);
      ExtendEach(Unconstrained(r), st, p);
      FittingPushdown(r, st.negs, p, st.states[|p|]);
    }
  }

  lemma ExtendEach(r: Rule, st: Stacks, p: Partial)
    requires WellFormed(r) && Shaped(r, st) && 1 <= |p| < |r.predicates|
    requires r.predicates[|p|].kind in {EACH_WITHIN, ALL_WITHIN}
    ensures Extend(r, st, p) == Append(p, Fitting(r, st.negs, p, st.states[|p|]))
  {
  }

  lemma ExtendAllCons(r: Rule, st: Stacks, p: Partial, k: seq<Partial>, i: nat)
    requires WellFormed(r) && Shaped(r, st) && 1 <= i < |r.predicates| && |p| == i && AllBound(k, i)
    ensures AllBound([p] + k, i) && ExtendAll(r, st, [p] + k, i) == Extend(r, st, p) + ExtendAll(r, st, k, i)
  {
    assert ([p] + k)[1..] == k;
  }

  lemma {:induction false} KeepBound(r: Rule, ps: seq<Partial>, i: nat, from: nat)
    requires WellFormed(r) && AllBound(ps, i)
    ensures AllBound(Keep(r, ps, from), i)
  {
    if ps != [] { KeepBound(r, ps[1..], i, from); }
  }

  lemma {:induction false} ExtendAllPushdown(r: Rule, st: Stacks, ps: seq<Partial>, i: nat)
    requires WellFormed(r) && PushesDown(r) && Shaped(r, st) && 1 <= i < |r.predicates|
    requires AllBound(ps, i) && AllBound(Keep(r, ps, 1), i)
    ensures Keep(r, ExtendAll(Unconstrained(r), st, ps, i), 1) == ExtendAll(r, st, Keep(r, ps, 1), i)
  {
    if ps != [] {
      var r' := Unconstrained(r);
      var p, k := ps[0], Keep(r, ps[1..], 1);
      KeepBound(r, ps[1..], i, 1);
      ExtendAllPushdown(r, st, ps[1..], i);
      ExtendPushdown(r, st, p);
      KeepAppend(r, Extend(r', st, p), ExtendAll(r', st, ps[1..], i), 1);
      if Passes(r, p, 1) {
        ExtendAllCons(r, st, p, k, i);
      } else {
        assert [] + k == k;
      }
    }
  }

  lemma {:induction false} JoinPushdown(r: Rule, st: Stacks, ps: seq<Partial>, i: nat)
    requires WellFormed(r) && PushesDown(r) && Shaped(r, st) && 1 <= i <= |r.predicates|
    requires AllBound(ps, i) && AllBound(Keep(r, ps, 1), i)
    ensures Keep(r, Join(Unconstrained(r), st, ps, i), 1) == Join(r, st, Keep(r, ps, 1), i)
    decreases |r.predicates| - i
  {
    var r' := Unconstrained(r);
    if i < |r'.predicates| {
      var qs := ExtendAll(r', st, ps, i);
      KeepBound(r, qs, i + 1, 1);
      ExtendAllPushdown(r, st, ps, i);
      JoinPushdown(r, st, qs, i + 1);
      assert Join(r', st, ps, i) == Join(r', st, qs, i + 1);
      assert Join(r, st, Keep(r, ps, 1), i) == Join(r, st, Keep(r, qs, 1), i + 1);
    }
  }

  /** The detector's list is that of the rule without state parameters, filtered by every
      parameter whose last state is not the terminator. */
  lemma PushdownExact(r: Rule, st: Stacks, e: PubPkt)
    requires WellFormed(r) && PushesDown(r) && Shaped(r, st)
    ensures Detect(r, st, e) == Keep(r, Detect(Unconstrained(r), st, e), 1)
  {
    BlockedUnconstrained(r, st.negs, [e]);
    assert Passes(r, [e], 1);
    assert Keep(r, [[e]], 1) == [[e]];
    if !Blocked(r, st.negs, [e]) { JoinPushdown(r, st, [[e]], 1); }
  }

  /** The terminator alone satisfies every parameter that reads no other state. */
  ghost predicate TerminatorPasses(r: Rule, e: PubPkt)
    requires WellFormed(r)
  {
    Passes(r, [e], 0)
  }

  lemma {:induction false} ValueHead(pr: Prims, vt: ValType, t: OpTree, m: Partial)
    requires StateTree(t, 1) && |m| > 0
    ensures StateTree(t, |m|) && ValueOf(pr, vt, t, m) == ValueOf(pr, vt, t, m[..1])
  {
    match t
    case Leaf(_, ref) =>
    case Inner(_, l, r, _) =>
      ValueHead(pr, vt, l, m);
      ValueHead(pr, vt, r, m);
  }

  lemma PassesHead(r: Rule, m: Partial)
    requires WellFormed(r) && |m| > 0
    ensures Passes(r, m, 0) <==> Passes(r, m, 1) && TerminatorPasses(r, m[0])
  {
    assert m[..1] == [m[0]];
    forall par | par in r.params && par.sType == STATE && par.lastIndex == 0
      ensures StateTree(par.left, 1) && StateTree(par.right, 1) && StateTree(par.left, |m|) && StateTree(par.right, |m|)
      ensures HoldsOn(r.prims, par, m) == HoldsOn(r.prims, par, [m[0]])
    {
      assert ParamOk(r, par);
      ReadableIsStateTree(par.left, 0, 1);
      ReadableIsStateTree(par.right, 0, 1);
      ValueHead(r.prims, par.vType, par.left, m);
      ValueHead(r.prims, par.vType, par.right, m);
    }
  }

  lemma {:induction false} KeepHead(r: Rule, ms: seq<Partial>, e: PubPkt)
    requires WellFormed(r) && forall k :: 0 <= k < |ms| ==> |ms[k]| > 0 && ms[k][0] == e
    ensures Keep(r, ms, 0) == if TerminatorPasses(r, e) then Keep(r, ms, 1) else []
  {
    if ms != [] {
      PassesHead(r, ms[0]);
      KeepHead(r, ms[1..], e);
    }
  }

  /** Filtering complete matches by all parameters gives the detector's list exactly when the
      terminator passes the parameters on itself, which are never checked, or nothing matches. */
  lemma PushdownOfAllParameters(r: Rule, st: Stacks, e: PubPkt)
    requires WellFormed(r) && PushesDown(r) && Shaped(r, st)
    ensures Detect(r, st, e) == Keep(r, Detect(Unconstrained(r), st, e), 0)
       <==> Detect(r, st, e) == [] || TerminatorPasses(r, e)
  {
    PushdownExact(r, st, e);
    var ms := Detect(Unconstrained(r), st, e);
    forall k | 0 <= k < |ms| ensures |ms[k]| > 0 && ms[k][0] == e {
      DetectIsExact(Unconstrained(r), st, e, ms[k]);
    }
    KeepHead(r, ms, e);
  }
}
