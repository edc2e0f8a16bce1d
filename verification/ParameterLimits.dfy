/** Exactly when checking parameters early is filtering complete matches. */
module ParameterLimits {
  import opened Events
  import opened Rules
  import opened Search
  import opened Detection
  import opened Soundness
  import opened Runs
  import opened Timelines
  import opened Purging
  import opened Consumption
  import opened Parameters
  import opened Indexing
  import opened IndexingTables
  import opened Reception
  import opened Targets

  // ---------------------------------------------------------------- grades

  /** The names a tree reads, without repetition. */
  function NamesRead(t: OpTree, names: seq<Name>): (ns: seq<Name>)
    requires Distinct(names)
    ensures Distinct(ns) && (forall n :: n in names ==> n in ns) && ReadsAmong(t, ns)
  {
    match t
    case Leaf(_, Static(_)) => names
    case Leaf(_, PktRef(_, _, n)) => if n in names then names else names + [n]
    case Inner(_, l, r, _) =>
      var ns := NamesRead(l, names);
      ReadsMore(l, ns, NamesRead(r, ns));
      NamesRead(r, ns)
  }

  predicate ReadsAmong(t: OpTree, names: seq<Name>) {
    match t
    case Leaf(_, Static(_)) => true
    case Leaf(_, PktRef(_, _, n)) => n in names
    case Inner(_, l, r, _) => ReadsAmong(l, names) && ReadsAmong(r, names)
  }

  lemma {:induction false} ReadsMore(t: OpTree, a: seq<Name>, b: seq<Name>)
    ensures ReadsAmong(t, a) && (forall n :: n in a ==> n in b) ==> ReadsAmong(t, b)
  {
    if t.Inner? {
      ReadsMore(t.left, a, b);
      ReadsMore(t.right, a, b);
    }
  }

  /** The names the parameters of a rule read. */
  function RuleNames(ps: seq<Param>): (ns: seq<Name>)
    ensures Distinct(ns) && forall par :: par in ps ==> ReadsAmong(par.left, ns) && ReadsAmong(par.right, ns)
  {
    if ps == [] then []
    else
      var ns := NamesRead(ps[0].left, RuleNames(ps[1..]));
      var all := NamesRead(ps[0].right, ns);
      ReadsMore(ps[0].left, ns, all);
      assert forall par | par in ps[1..] :: ReadsAmong(par.left, all) && ReadsAmong(par.right, all) by {
        forall par | par in ps[1..] ensures ReadsAmong(par.left, all) && ReadsAmong(par.right, all) {
          ReadsMore(par.left, RuleNames(ps[1..]), all);
          ReadsMore(par.right, RuleNames(ps[1..]), all);
        }
      }
      assert ps == [ps[0]] + ps[1..];
      all
  }

  /** Every one of the names reads the same number. */
  predicate Graded(p: PubPkt, names: seq<Name>, g: int32) {
    forall n :: n in names ==> ReadAttribute(p.attributes, n) == Found(IntVal(g))
  }

  function Grades(names: seq<Name>, g: int32): seq<Attribute> {
    seq(|names|, k requires 0 <= k < |names| => Attribute(names[k], IntVal(g)))
  }

  lemma GradesRead(names: seq<Name>, g: int32, rest: seq<Attribute>, p: PubPkt)
    requires p.attributes == Grades(names, g) + rest
    ensures Graded(p, names, g)
  {
    forall n | n in names ensures ReadAttribute(p.attributes, n) == Found(IntVal(g)) {
      var k :| 0 <= k < |names| && names[k] == n;
      assert p.attributes[k].name == n;
      assert Events.Lookup(p.attributes, n) <= k;
    }
  }

  lemma GradesDistinct(names: seq<Name>, g: int32)
    requires Distinct(names)
    ensures DistinctNames(Grades(names, g))
  {
  }

  /** Operations on what is read: the larger of two values, and one value that fails. */
  function Grading(fatal: int): Prims {
    Prims((_, _) => 0, (_, f: Reading) => if f.Found? && f.value.IntVal? then f.value.i else 0, (_, _, a, b) => Max(a, b), (_, _, a, b) => Max(a, b) != fatal, _ => 0.0)
  }

  /** A tree's value lies between the grade of the last state it reads and the largest one. */
  lemma {:induction false} ValueGraded(fatal: int, vt: ValType, t: OpTree, m: Partial, names: seq<Name>, gs: seq<int32>, top: int)
    requires StateTree(t, |m|) && ReadsAmong(t, names) && |gs| == |m|
    requires forall i :: 0 <= i < |m| ==> 0 <= gs[i] <= top && Graded(m[i], names, gs[i])
    requires top >= 0
    ensures var last, v := FindLastState(t), ValueOf(Grading(fatal), vt, t, m);
            last < |m| && 0 <= v <= top && (last >= 0 ==> v >= gs[last]) && (last <= 0 && |m| > 0 ==> v <= gs[0])
  {
    match t
    case Leaf(_, ref) =>
    case Inner(_, l, r, _) =>
      ValueGraded(fatal, vt, l, m, names, gs, top);
      ValueGraded(fatal, vt, r, m, names, gs, top);
  }

  // ---------------------------------------------------------------- candidates

  /** A packet for each state, and one that the parameters of a state can reject. */
  datatype Cast = Cast(goods: seq<PubPkt>, bad: PubPkt)

  /** The terminator reads as 1, the other states' packets as 2, and the rejected one as 3. */
  ghost predicate CastFits(r: Rule, i: nat, c: Cast) {
    && Roomy(r.predicates) && i < |r.predicates| == |c.goods|
    && (forall k :: 0 <= k < |c.goods| ==>
          c.goods[k].ts == Time(r.predicates, 0, k) && Graded(c.goods[k], RuleNames(r.params), if k == 0 then 1 else 2))
    && c.bad.ts == Time(r.predicates, 0, i) && Graded(c.bad, RuleNames(r.params), 3) && c.bad != c.goods[i]
  }

  /** State i holds two candidates, the rejected one where it is chosen; for i = 0 none does. */
  function Column(r: Rule, i: nat, c: Cast, k: nat): (col: seq<PubPkt>)
    requires |c.goods| == |r.predicates| && i < |r.predicates| && k < |r.predicates|
    ensures 1 <= |col| <= 2 && forall e :: e in col ==> e == c.goods[k] || (k == i && e == c.bad)
  {
    if k == 0 || k != i then [c.goods[k]]
    else if r.predicates[i].kind == FIRST_WITHIN then [c.bad, c.goods[i]] else [c.goods[i], c.bad]
  }

  function Lineup(r: Rule, i: nat, c: Cast, top: seq<PubPkt>): (st: Stacks)
    requires |c.goods| == |r.predicates| && i < |r.predicates|
    ensures Shaped(r, st)
  {
    Stacks(seq(|r.predicates|, k requires 0 <= k < |r.predicates| => if k == 0 then top else Column(r, i, c, k)),
           seq(|r.negations|, _ => []), seq(|r.aggregates|, _ => []))
  }

  /** A candidate at the planned time fits exactly when it passes the parameters of its state. */
  lemma PlannedFits(r: Rule, i: nat, c: Cast, top: seq<PubPkt>, k: nat, e: PubPkt)
    requires WellFormed(r) && CastFits(r, i, c) && 1 <= k < |r.predicates| && e.ts == Time(r.predicates, 0, k)
    ensures var p := c.goods[..k]; Fits(r, Lineup(r, i, c, top).negs, p, e) <==> ParamsHold(r, STATE, k, e, p)
  {
    hide ParamsHold, Time, Graded, RuleNames;
    assert PredicateOk(r, k);
    TimeStep(r.predicates, 0, k);
  }

  /** A parameter of a state from 1 on fails exactly when it reads the rejected candidate. */
  lemma GradedParam(r: Rule, i: nat, c: Cast, fatal: int, k: nat, e: PubPkt, par: Param)
    requires WellFormed(r) && CastFits(r, i, c) && r.prims == Grading(fatal) && (fatal == 1 || fatal == 3)
    requires 1 <= k < |r.predicates| && (e == c.goods[k] || (k == i && e == c.bad)) && par in r.params && InGroup(par, STATE, k)
    ensures Readable(par.left, k, k, STATE) && Readable(par.right, k, k, STATE)
    ensures CheckParam(r.prims, par, e, c.goods[..k], k, STATE) <==> fatal == 1 || e == c.goods[k]
  {
    hide StateTree, ValueOf, Time, Graded, RuleNames;
    var p, names := c.goods[..k], RuleNames(r.params);
    var m := p + [e];
    var gs: seq<int32> := seq(k + 1, j requires 0 <= j < k + 1 => if j == 0 then 1 else if j == k && e == c.bad && e != c.goods[k] then 3 else 2);
    var top := if e == c.goods[k] then 2 else 3;
    assert ParamOk(r, par);
    PassesLast(r, p, e, par);
    ValueGraded(fatal, par.vType, par.left, m, names, gs, top);
    ValueGraded(fatal, par.vType, par.right, m, names, gs, top);
  }

  lemma GradedParams(r: Rule, i: nat, c: Cast, fatal: int, k: nat, e: PubPkt)
    requires WellFormed(r) && CastFits(r, i, c) && r.prims == Grading(fatal) && (fatal == 1 || fatal == 3)
    requires 1 <= k < |r.predicates| && (e == c.goods[k] || (k == i && e == c.bad))
    ensures ParamsHold(r, STATE, k, e, c.goods[..k]) <==> fatal == 1 || e == c.goods[k] || Unread(r, k)
  {
    hide CastFits, CheckParam, Readable;
    LengthFits(r, i, c);
    forall par | par in r.params && InGroup(par, STATE, k)
      ensures Readable(par.left, k, k, STATE) && Readable(par.right, k, k, STATE)
      ensures CheckParam(r.prims, par, e, c.goods[..k], k, STATE) <==> fatal == 1 || e == c.goods[k]
    {
      GradedParam(r, i, c, fatal, k, e, par);
    }
  }

  lemma LengthFits(r: Rule, i: nat, c: Cast)
    requires CastFits(r, i, c)
    ensures Roomy(r.predicates) && i < |r.predicates| == |c.goods| && c.bad != c.goods[i]
    ensures c.bad.ts == Time(r.predicates, 0, i) && forall k :: 0 <= k < |c.goods| ==> c.goods[k].ts == Time(r.predicates, 0, k)
  {
  }

  /** The state the line-up is about: none, or one that takes a single candidate and tests it. */
  predicate Tested(r: Rule, i: nat, fatal: int)
    requires i < |r.predicates|
  {
    if i == 0 then fatal == 1
    else fatal == 3 && r.predicates[i].kind in {FIRST_WITHIN, LAST_WITHIN} && !Unread(r, i)
  }

  lemma GoodsDetected(r: Rule, i: nat, c: Cast, fatal: int, top: seq<PubPkt>)
    requires WellFormed(r) && CastFits(r, i, c) && r.prims == Grading(fatal) && Tested(r, i, fatal)
    ensures c.goods in Detect(r, Lineup(r, i, c, top), c.goods[0])
  {
    hide Fits, ParamsHold, Unread, Time, CastFits;
    LengthFits(r, i, c);
    var st, m := Lineup(r, i, c, top), c.goods;
    forall k | 1 <= k < |m| ensures ChosenEvent(r, st, m[..k], m[k]) {
      PlannedFits(r, i, c, top, k, m[k]);
      GradedParams(r, i, c, fatal, k, m[k]);
      if k == i {
        PlannedFits(r, i, c, top, k, c.bad);
        GradedParams(r, i, c, fatal, k, c.bad);
      }
      assert Chosen(r, st, m[..k], if k == i && r.predicates[i].kind == FIRST_WITHIN then 1 else 0);
    }
    DetectIsExact(r, st, m[0], m);
  }

  lemma GoodsMissed(r: Rule, i: nat, c: Cast, fatal: int, top: seq<PubPkt>)
    requires WellFormed(r) && CastFits(r, i, c) && 1 <= i && Tested(r, i, fatal)
    ensures c.goods !in Detect(Unconstrained(r), Lineup(r, i, c, top), c.goods[0])
  {
    hide Fits, Time, CastFits, Unread, Graded, RuleNames;
    LengthFits(r, i, c);
    var r', st, m := Unconstrained(r), Lineup(r, i, c, top), c.goods;
    NonStateMember(r.params);
    BadFits(r, i, c, top);
    DetectIsExact(r', st, m[0], m);
    var p, col := m[..i], st.states[i];
    assert |p| == i;
    assert r'.predicates[i].kind == FIRST_WITHIN ==> col[0] == c.bad && !Chosen(r', st, p, 1);
    assert r'.predicates[i].kind == LAST_WITHIN ==> col[1] == c.bad && !Chosen(r', st, p, 0);
    assert !ChosenEvent(r', st, p, m[i]);
  }

  /** Without the parameters the rejected candidate fits. */
  lemma BadFits(r: Rule, i: nat, c: Cast, top: seq<PubPkt>)
    requires WellFormed(r) && CastFits(r, i, c) && 1 <= i
    ensures Fits(Unconstrained(r), Lineup(r, i, c, top).negs, c.goods[..i], c.bad)
  {
    hide Time, Graded, RuleNames;
    NonStateMember(r.params);
    assert PredicateOk(r, i);
    TimeStep(r.predicates, 0, i);
  }

  /** A parameter that reads the terminator only rejects the line-up when 1 is fatal. */
  lemma TerminatorFails(r: Rule, c: Cast)
    requires WellFormed(r) && CastFits(r, 0, c) && r.prims == Grading(1) && !Unread(r, 0)
    ensures !Passes(r, c.goods, 0)
  {
    hide StateTree, ValueOf, Time, Graded, RuleNames;
    var par :| par in r.params && InGroup(par, STATE, 0);
    var m, names := c.goods, RuleNames(r.params);
    assert ParamOk(r, par);
    ReadableIsStateTree(par.left, 0, |m|);
    ReadableIsStateTree(par.right, 0, |m|);
    var gs: seq<int32> := seq(|m|, j => if j == 0 then 1 else 2);
    ValueGraded(1, par.vType, par.left, m, names, gs, 2);
    ValueGraded(1, par.vType, par.right, m, names, gs, 2);
    assert !HoldsOn(r.prims, par, m);
  }

  // ---------------------------------------------------------------- the condition is exact

  /** The detector's list is that of the rule without parameters, filtered by the parameters
      whose last state is `from` or later. */
  ghost predicate FilterHolds(r: Rule, st: Stacks, e: PubPkt, from: nat)
    requires WellFormed(r) && Shaped(r, st)
  {
    Detect(r, st, e) == Keep(r, Detect(Unconstrained(r), st, e), from)
  }

  /** The condition, read off the rule. */
  predicate FilterSafe(r: Rule, from: nat) {
    (PushesDown(r) && (from == 0 ==> Unread(r, 0))) || Unmatchable(r)
  }

  lemma SafeFilter(r: Rule, st: Stacks, e: PubPkt, from: nat)
    requires WellFormed(r) && Shaped(r, st) && FilterSafe(r, from) && from <= 1
    ensures FilterHolds(r, st, e, from)
  {
    hide WellFormed, Detect;
    if Unmatchable(r) {
      UnmatchableIsSilent(r, st, e);
      UnmatchableIsSilent(Unconstrained(r), st, e);
    } else if from == 1 {
      PushdownExact(r, st, e);
    } else {
      PushdownOfAllParameters(r, st, e);
    }
  }

  /** What an unsafe rule is tested with. */
  lemma Unsafe(r: Rule, from: nat) returns (i: nat, fatal: int)
    requires WellFormed(r) && !FilterSafe(r, from)
    ensures Roomy(r.predicates) && i < |r.predicates| && (fatal == 1 || fatal == 3) && Tested(r, i, fatal)
    ensures i == 0 ==> from == 0 && !Unread(r, 0)
  {
    WellFormedTree(r);
    RuleHasRoot(r);
    if PushesDown(r) {
      i, fatal := 0, 1;
    } else {
      i :| 1 <= i < |r.predicates| && r.predicates[i].kind !in {EACH_WITHIN, ALL_WITHIN} && !Unread(r, i);
      fatal := 3;
      var kind := r.predicates[i].kind;
      assert kind.FIRST_WITHIN? || kind.LAST_WITHIN?;
    }
  }

  /** On the line-up of an unsafe rule the list and the filter differ. */
  lemma LineupDiffers(r: Rule, from: nat, i: nat, c: Cast, fatal: int, top: seq<PubPkt>)
    requires WellFormed(r) && CastFits(r, i, c) && r.prims == Grading(fatal) && Tested(r, i, fatal)
    requires i == 0 ==> from == 0 && !Unread(r, 0)
    ensures !FilterHolds(r, Lineup(r, i, c, top), c.goods[0], from)
    ensures c.goods in Detect(r, Lineup(r, i, c, top), c.goods[0])
    ensures c.goods !in Keep(r, Detect(Unconstrained(r), Lineup(r, i, c, top), c.goods[0]), from)
  {
    hide Detect, Lineup, Passes, Unread, CastFits;
    LengthFits(r, i, c);
    GoodsDetected(r, i, c, fatal, top);
    var all := Detect(Unconstrained(r), Lineup(r, i, c, top), c.goods[0]);
    if i > 0 { GoodsMissed(r, i, c, fatal, top); } else { TerminatorFails(r, c); }
    if c.goods in Keep(r, all, from) { KeepMember(r, all, from, c.goods); }
  }

  lemma {:induction false} KeepMember(r: Rule, ms: seq<Partial>, from: nat, m: Partial)
    requires WellFormed(r) && m in Keep(r, ms, from)
    ensures m in ms && Passes(r, m, from)
  {
    hide Passes, WellFormed;
    if !Passes(r, ms[0], from) || m != ms[0] { KeepMember(r, ms[1..], from, m); }
  }

  // ---------------------------------------------------------------- all stacks of the right types

  /** Every packet has the type of what it is stored for. */
  predicate Typed(r: Rule, st: Stacks, e: PubPkt) {
    && Shaped(r, st) && |r.predicates| > 0 && e.eventType == r.predicates[0].eventType
    && (forall i, p :: 1 <= i < |st.states| && p in st.states[i] ==> p.eventType == r.predicates[i].eventType)
    && (forall j, p :: 0 <= j < |st.negs| && p in st.negs[j] ==> p.eventType == r.negations[j].eventType)
    && (forall a, p :: 0 <= a < |st.aggs| && p in st.aggs[a] ==> p.eventType == r.aggregates[a].eventType)
  }

  function GradeOf(k: nat): int32 {
    if k == 0 then 1 else 2
  }

  function TypedCast(r: Rule, i: nat): (c: Cast)
    requires Roomy(r.predicates) && i < |r.predicates|
  {
    var ns, ps := RuleNames(r.params), r.predicates;
    Cast(seq(|ps|, k requires 0 <= k < |ps| => PubPkt(k, ps[k].eventType, Time(ps, 0, k), Grades(ns, GradeOf(k)))),
         PubPkt(|ps|, ps[i].eventType, Time(ps, 0, i), Grades(ns, 3)))
  }

  lemma TypedCastFits(r: Rule, i: nat)
    requires Roomy(r.predicates) && i < |r.predicates|
    ensures CastFits(r, i, TypedCast(r, i)) && Typed(r, Lineup(r, i, TypedCast(r, i), []), TypedCast(r, i).goods[0])
  {
    hide Graded, Time, RuleNames, Grades;
    var c, ns := TypedCast(r, i), RuleNames(r.params);
    forall k | 0 <= k < |c.goods| ensures Graded(c.goods[k], ns, if k == 0 then 1 else 2) {
      NoneBefore(c.goods[k].attributes);
      GradesRead(ns, GradeOf(k), [], c.goods[k]);
    }
    NoneBefore(c.bad.attributes);
    GradesRead(ns, 3, [], c.bad);
  }

  /** For every rule, on stacks of packets of the right types and for all machine operations, the
      condition is exact. */
  lemma FilterIsExact(r: Rule, from: nat)
    requires WellFormed(r) && from <= 1
    ensures (forall prims: Prims, st: Stacks, e: PubPkt :: Typed(r, st, e) ==> FilterHolds(WithPrims(r, prims), st, e, from)) <==> FilterSafe(r, from)
  {
    hide WellFormed, FilterHolds, FilterSafe, Unread, PushesDown;
    if FilterSafe(r, from) {
      forall prims: Prims, st: Stacks, e: PubPkt | Typed(r, st, e) ensures FilterHolds(WithPrims(r, prims), st, e, from) {
        SafeWithPrims(r, prims, from);
        SafeFilter(WithPrims(r, prims), st, e, from);
      }
    } else {
      var i, fatal := Unsafe(r, from);
      var r' := WithPrims(r, Grading(fatal));
      SameTests(r, r', i, fatal);
      TypedCastFits(r', i);
      TypedCastFits(r, i);
      LineupDiffers(r', from, i, TypedCast(r', i), fatal, []);
      assert Typed(r, Lineup(r', i, TypedCast(r', i), []), TypedCast(r', i).goods[0]);
    }
  }

  lemma SafeWithPrims(r: Rule, prims: Prims, from: nat)
    requires WellFormed(r)
    ensures FilterSafe(WithPrims(r, prims), from) == FilterSafe(r, from)
  {
    hide WellFormed;
  }

  lemma SameTests(r: Rule, r': Rule, i: nat, fatal: int)
    requires r' == r.(prims := r'.prims) && i < |r.predicates|
    ensures Tested(r', i, fatal) == Tested(r, i, fatal) && Unread(r', 0) == Unread(r, 0)
  {
  }

  /** Main result: checking each parameter at its last state is filtering complete matches by
      those whose last state is not the terminator, exactly when each FIRST or LAST state has no
      parameter of its own, or some window holds no packet. */
  lemma PushdownIsExact(r: Rule)
    requires WellFormed(r)
    ensures (forall prims: Prims, st: Stacks, e: PubPkt :: Typed(r, st, e) ==> FilterHolds(WithPrims(r, prims), st, e, 1))
       <==> PushesDown(r) || Unmatchable(r)
  {
    hide WellFormed, FilterHolds, Typed, PushesDown, Unmatchable;
    FilterIsExact(r, 1);
  }

  /** Main result: it is filtering by all parameters exactly when, besides, none is checked on
      the terminator alone. */
  lemma PushdownOfAllIsExact(r: Rule)
    requires WellFormed(r)
    ensures (forall prims: Prims, st: Stacks, e: PubPkt :: Typed(r, st, e) ==> FilterHolds(WithPrims(r, prims), st, e, 0))
       <==> (PushesDown(r) && Unread(r, 0)) || Unmatchable(r)
  {
    hide WellFormed, FilterHolds, Typed, PushesDown, Unmatchable, Unread;
    FilterIsExact(r, 0);
  }

  // ---------------------------------------------------------------- all runs the engine can receive

  ghost predicate GradableState(r: Rule, rank: int32 -> int, i: int, eventType: int32, rest: seq<Attribute>) {
    forall g: int32 :: 1 <= g <= 3 ==> OnlyFor(r, rank, STATE, i, PubPkt(0, eventType, 0, Grades(RuleNames(r.params), g) + rest))
  }

  /** Every state has packets of its own, whatever they hold under the names that parameters read. */
  ghost predicate Gradable(r: Rule, rank: int32 -> int) {
    forall i :: 0 <= i < |r.predicates| ==> HasGraded(r, rank, i)
  }

  ghost predicate HasGraded(r: Rule, rank: int32 -> int, i: int) {
    exists eventType: int32, rest :: GradableState(r, rank, i, eventType, rest)
  }

  lemma PlainIsGradable(r: Rule, rank: int32 -> int)
    requires Plain(r)
    ensures Gradable(r, rank)
  {
    hide Plain, OnlyFor, DistinctNames;
    var ns := RuleNames(r.params);
    forall i | 0 <= i < |r.predicates| ensures HasGraded(r, rank, i) {
      forall g: int32 | 1 <= g <= 3
        ensures OnlyFor(r, rank, STATE, i, PubPkt(0, r.predicates[i].eventType, 0, Grades(ns, g) + []))
      {
        GradesDistinct(ns, g);
        NoneBefore(Grades(ns, g));
        PlainOwn(r, rank, STATE, i, PubPkt(0, r.predicates[i].eventType, 0, Grades(ns, g) + []));
      }
      assert GradableState(r, rank, i, r.predicates[i].eventType, []);
    }
  }

  /** A packet of state i with the given grade. */
  ghost function OwnGraded(r: Rule, rank: int32 -> int, i: int, id: nat, ts: nat, g: int32): (p: PubPkt)
    requires Gradable(r, rank) && 0 <= i < |r.predicates| && 1 <= g <= 3
    ensures p.id == id && p.ts == ts && OnlyFor(r, rank, STATE, i, p) && Graded(p, RuleNames(r.params), g)
  {
    hide OnlyFor, Graded, Grades, RuleNames;
    assert HasGraded(r, rank, i);
    var eventType: int32, rest :| GradableState(r, rank, i, eventType, rest);
    var p := PubPkt(id, eventType, ts, Grades(RuleNames(r.params), g) + rest);
    SameContent(r, rank, STATE, i, PubPkt(0, eventType, 0, Grades(RuleNames(r.params), g) + rest), p);
    GradesRead(RuleNames(r.params), g, rest, p);
    p
  }

  ghost function RunCast(r: Rule, rank: int32 -> int, i: nat): (c: Cast)
    requires Roomy(r.predicates) && i < |r.predicates| && Gradable(r, rank)
    ensures CastFits(r, i, c) && OnlyFor(r, rank, STATE, i, c.bad)
    ensures forall k :: 0 <= k < |r.predicates| ==> OnlyFor(r, rank, STATE, k, c.goods[k])
  {
    hide OnlyFor, Gradable, Graded;
    var ps := r.predicates;
    Cast(seq(|ps|, k requires 0 <= k < |ps| => OwnGraded(r, rank, k, k, Time(ps, 0, k), GradeOf(k))),
         OwnGraded(r, rank, i, |ps|, Time(ps, 0, i), 3))
  }

  lemma ColumnKept(r: Rule, i: nat, c: Cast, k: nat, min: nat)
    requires |c.goods| == |r.predicates| && i < |r.predicates| && k < |r.predicates|
    requires c.goods[k].ts > min && (k == i ==> c.bad.ts > min)
    ensures Unexpired(Column(r, i, c, k), min) == Column(r, i, c, k)
  {
  }

  /** Expiry keeps the line-up. */
  lemma {:induction false} LineupKept(r: Rule, i: nat, c: Cast, from: nat)
    requires WellFormed(r) && CastFits(r, i, c) && 1 <= from <= |r.predicates|
    ensures PurgeStates(r, Lineup(r, i, c, [c.goods[0]]).states, from) == Lineup(r, i, c, [c.goods[0]]).states
    decreases |r.predicates| - from
  {
    hide Graded, RuleNames, Time, Unexpired;
    if from < |r.predicates| {
      assert PredicateOk(r, from);
      var q := r.predicates[from];
      TimeStep(r.predicates, 0, from);
      var st: seq<seq<PubPkt>> := Lineup(r, i, c, [c.goods[0]]).states;
      assert st[q.refersTo][0].ts == Time(r.predicates, 0, q.refersTo);
      ColumnKept(r, i, c, from, Minus(st[q.refersTo][0].ts, q.win));
      assert st[from := st[from]] == st;
      LineupKept(r, i, c, from + 1);
    }
  }

  lemma LineupPurged(r: Rule, i: nat, c: Cast)
    requires WellFormed(r) && CastFits(r, i, c)
    ensures var st := Lineup(r, i, c, [c.goods[0]]); Purge(r, st) == st
  {
    hide CastFits;
    LengthFits(r, i, c);
    var st := Lineup(r, i, c, [c.goods[0]]);
    RuleHasRoot(r);
    LineupKept(r, i, c, 1);
    forall j | 0 <= j < |r.negations| ensures Purge(r, st).negs[j] == [] { assert NegationOk(r, r.negations[j]); }
    forall a | 0 <= a < |r.aggregates| ensures Purge(r, st).aggs[a] == [] { assert AggregateOk(r, r.aggregates[a]); }
    assert Purge(r, st).negs == st.negs && Purge(r, st).aggs == st.aggs;
  }

  lemma LineupFillable(r: Rule, rank: int32 -> int, i: nat)
    requires Roomy(r.predicates) && i < |r.predicates| && Gradable(r, rank)
    ensures var c := RunCast(r, rank, i); |c.goods| == |r.predicates|
    ensures var c := RunCast(r, rank, i); Fillable(r, rank, Lineup(r, i, c, [])) && AllPast(Lineup(r, i, c, []), c.goods[0].ts)
  {
    hide OnlyFor, RunCast, CastFits, Time, Gradable;
    var c := RunCast(r, rank, i);
    LengthFits(r, i, c);
    var st := Lineup(r, i, c, []);
    forall k | 1 <= k < |r.predicates| ensures Sorted(st.states[k]) && Distinct(st.states[k]) && Past(st.states[k], c.goods[0].ts) {
      TimeStep(r.predicates, 0, k);
    }
    forall k, l | 1 <= k < |st.states| && 0 <= l < |st.states[k]| ensures OnlyFor(r, rank, STATE, k, st.states[k][l]) {
      assert st.states[k][l] in Column(r, i, c, k);
    }
  }

  /** What a terminator of a run is matched against. */
  ghost predicate FilterOnRuns(r: Rule, rank: int32 -> int, from: nat)
    requires WellFormed(r)
  {
    forall inps: seq<Input>, k: nat :: EngineRun(r, rank, inps) && k < |inps| && 0 in inps[k].states ==>
      FilterHolds(r, Examined(r, StacksAfter(r, inps, k, true), inps[k], true), inps[k].pkt, from)
  }

  /** A run on which the detector's list and the filter differ. */
  lemma FilterFails(r: Rule, rank: int32 -> int, from: nat) returns (prims: Prims, inps: seq<Input>, k: nat)
    requires WellFormed(r) && Gradable(r, rank) && !FilterSafe(r, from)
    ensures EngineRun(WithPrims(r, prims), rank, inps) && k < |inps| && 0 in inps[k].states
    ensures var r' := WithPrims(r, prims);
            !FilterHolds(r', Examined(r', StacksAfter(r', inps, k, true), inps[k], true), inps[k].pkt, from)
  {
    hide WellFormed, FilterHolds, FilterSafe, Unread, PushesDown, Gradable, RunCast, CastFits, Lineup, Fillable, AllPast, EngineRun, StacksAfter, OnlyFor;
    var i, fatal := Unsafe(r, from);
    prims := Grading(fatal);
    var r' := WithPrims(r, prims);
    SameTests(r, r', i, fatal);
    SameGradable(r, r', rank);
    var c := RunCast(r', rank, i);
    LineupFillable(r', rank, i);
    LineupRoot(r', i, c);
    inps, k := Reach(r', rank, Lineup(r', i, c, []), c.goods[0]);
    LineupExamined(r', i, c);
    LineupDiffers(r', from, i, c, fatal, [c.goods[0]]);
  }

  lemma LineupRoot(r: Rule, i: nat, c: Cast)
    requires |c.goods| == |r.predicates| && i < |r.predicates|
    ensures Lineup(r, i, c, []).states[0] == []
  {
  }

  lemma LineupExamined(r: Rule, i: nat, c: Cast)
    requires WellFormed(r) && CastFits(r, i, c)
    ensures Examined(r, Lineup(r, i, c, []), Sole(STATE, 0, c.goods[0]), true) == Lineup(r, i, c, [c.goods[0]])
  {
    hide Purge, CastFits, WellFormed;
    LengthFits(r, i, c);
    var st := Lineup(r, i, c, []);
    var a := Receive(st, Sole(STATE, 0, c.goods[0]));
    assert a.states == st.states && a.negs == st.negs && a.aggs == st.aggs;
    assert a.states[0 := [c.goods[0]]] == Lineup(r, i, c, [c.goods[0]]).states;
    LineupPurged(r, i, c);
  }

  lemma SameGradable(r: Rule, r': Rule, rank: int32 -> int)
    requires Gradable(r, rank) && r' == r.(prims := r'.prims)
    ensures Gradable(r', rank)
  {
    hide OnlyFor;
    forall i | 0 <= i < |r.predicates| ensures HasGraded(r', rank, i) {
      assert HasGraded(r, rank, i);
      var eventType: int32, rest :| GradableState(r, rank, i, eventType, rest);
      forall g: int32 | 1 <= g <= 3 ensures OnlyFor(r', rank, STATE, i, PubPkt(0, eventType, 0, Grades(RuleNames(r.params), g) + rest)) {
        SameTargets(r, r', rank, STATE, i, PubPkt(0, eventType, 0, Grades(RuleNames(r.params), g) + rest));
      }
      assert GradableState(r', rank, i, eventType, rest);
    }
  }

  /** Main result: the same is exact over the runs the engine can receive, for every rule whose
      states have packets of their own. */
  lemma FilterOnRunsIsExact(r: Rule, rank: int32 -> int, from: nat)
    requires WellFormed(r) && from <= 1 && Gradable(r, rank)
    ensures (forall prims: Prims :: FilterOnRuns(WithPrims(r, prims), rank, from)) <==> FilterSafe(r, from)
  {
    hide WellFormed, FilterHolds, FilterSafe, Gradable, EngineRun;
    if FilterSafe(r, from) {
      forall prims: Prims ensures FilterOnRuns(WithPrims(r, prims), rank, from) {
        var r' := WithPrims(r, prims);
        SafeWithPrims(r, prims, from);
        forall inps: seq<Input>, k: nat | EngineRun(r', rank, inps) && k < |inps| && 0 in inps[k].states
          ensures FilterHolds(r', Examined(r', StacksAfter(r', inps, k, true), inps[k], true), inps[k].pkt, from)
        {
          SafeFilter(r', Examined(r', StacksAfter(r', inps, k, true), inps[k], true), inps[k].pkt, from);
        }
      }
    } else {
      var prims, inps, k := FilterFails(r, rank, from);
      assert !FilterOnRuns(WithPrims(r, prims), rank, from);
    }
  }

  // ---------------------------------------------------------------- the smallest rule

  function IntOf(v: Value): int {
    if v.IntVal? then v.i else 0
  }

  function IntOper(op: TreeOp, a: int, b: int): int {
    match op
    case ADD => a + b
    case SUB => a - b
    case MUL => a * b
    case _ => 0
  }

  predicate IntTest(op: Op, a: int, b: int) {
    match op
    case EQ => a == b
    case LT => a < b
    case GT => a > b
    case LE => a <= b
    case GE => a >= b
    case NE => a != b
    case IN => false
  }

  /** Integers as the evaluator computes them, short of overflow and division. */
  function Integers(): Prims {
    Prims((_, v) => IntOf(v), (_, f: Reading) => if f.Found? then IntOf(f.value) else 0,
          (_, op, a, b) => IntOper(op, a, b), (_, op, a, b) => IntTest(op, a, b), _ => 0.0)
  }

  const X: Name := [120]

  /** A terminator of type 0, and the first packet of type 1 within two ticks whose x is 0. */
  function FirstRule(): Rule {
    Rule([Predicate(0, [], -1, 0, EACH_WITHIN), Predicate(1, [], 0, 2, FIRST_WITHIN)], [], [],
         [Param(EQ, Leaf(INT, PktRef(1, STATE, X)), Leaf(INT, Static(IntVal(0))), 1, STATE, INT)], {}, Integers())
  }

  lemma FirstRuleOk()
    ensures WellFormed(FirstRule()) && Plain(FirstRule())
  {
    var r := FirstRule();
    assert PredicateOk(r, 0) && PredicateOk(r, 1) && r.params[0] in r.params && ParamOk(r, r.params[0]);
  }

  /** Two packets of type 1 at the same time, with x = 1 and with x = 0, and the terminator. */
  function FirstRun(): seq<Input> {
    [Sole(STATE, 1, PubPkt(0, 1, 9, [Attribute(X, IntVal(1))])), Sole(STATE, 1, PubPkt(1, 1, 9, [Attribute(X, IntVal(0))])),
     Sole(STATE, 0, PubPkt(2, 0, 10, []))]
  }

  lemma FirstRunReceived(rank: int32 -> int)
    ensures EngineRun(FirstRule(), rank, FirstRun())
  {
    hide Plain, OnlyFor, Receivable;
    var r, run := FirstRule(), FirstRun();
    FirstRuleOk();
    PlainOwn(r, rank, STATE, 1, run[0].pkt);
    PlainOwn(r, rank, STATE, 1, run[1].pkt);
    PlainOwn(r, rank, STATE, 0, run[2].pkt);
    SoleReceivable(r, rank, STATE, 1, run[0].pkt);
    SoleReceivable(r, rank, STATE, 1, run[1].pkt);
    SoleReceivable(r, rank, STATE, 0, run[2].pkt);
  }

  /** What the terminator is matched against. */
  function FirstStacks(): Stacks {
    Stacks([[FirstRun()[2].pkt], [FirstRun()[0].pkt, FirstRun()[1].pkt]], [], [])
  }

  lemma FirstFiled()
    ensures FiledStacks(FirstRule(), FirstRun()[..2]) == Stacks([[], FirstStacks().states[1]], [], [])
  {
    hide Sole;
    var r, run := FirstRule(), FirstRun();
    var two := [run[0], run[1]];
    assert run[..2] == two && two[..1] == [run[0]] && [run[0]][..0] == [];
    assert Filed(two, STATE, 1) == [run[0].pkt, run[1].pkt] by {
      FirstKeys();
      assert Filed([], STATE, 1) == [] && Filed([run[0]], STATE, 1) == [run[0].pkt];
    }
    var a := FiledStacks(r, two);
    assert a.states == [[], FirstStacks().states[1]] && a.negs == [] && a.aggs == [];
  }

  lemma FirstKeys()
    ensures |FirstRun()| == 3 && 1 in KeysOf(FirstRun()[0], STATE) && 1 in KeysOf(FirstRun()[1], STATE)
    ensures FirstRun()[0].pkt == FirstStacks().states[1][0] && FirstRun()[1].pkt == FirstStacks().states[1][1]
    ensures FirstRun()[2].pkt == FirstStacks().states[0][0] && FirstRun()[2] == Sole(STATE, 0, FirstRun()[2].pkt)
    ensures 0 !in FirstRun()[0].states && 0 !in FirstRun()[1].states && Ordered(FirstRun())
  {
  }

  lemma FirstExamined()
    requires WellFormed(FirstRule())
    ensures Examined(FirstRule(), StacksAfter(FirstRule(), FirstRun(), 2, true), FirstRun()[2], true) == FirstStacks()
  {
    hide WellFormed, FirstRule, FirstRun, FiledStacks, StacksAfter, Receive, Purge, Sole;
    FirstKeys();
    FirstFiled();
    CalmStacks(FirstRule(), FirstRun(), 2, true);
    ReceiveNothing(FiledStacks(FirstRule(), FirstRun()[..2]), FirstRun()[2].pkt);
    FirstKept();
    assert [[], FirstStacks().states[1]][0 := [FirstRun()[2].pkt]] == FirstStacks().states;
  }

  lemma FirstKept()
    requires WellFormed(FirstRule())
    ensures Purge(FirstRule(), FirstStacks()) == FirstStacks()
  {
    hide WellFormed;
    var r, st := FirstRule(), FirstStacks();
    assert Expire(st.states, 0, 2, st.states[1]) == st.states[1];
    assert st.states[1 := st.states[1]] == st.states;
    assert PurgeStates(r, st.states, 2) == st.states;
    assert Purge(r, st).negs == [] && Purge(r, st).aggs == [];
  }

  /** The detector matches the second packet with the terminator; without the parameter it would
      have matched the first, which the filter then rejects. */
  lemma FirstFails(rank: int32 -> int) returns (m: Partial)
    ensures WellFormed(FirstRule()) && EngineRun(FirstRule(), rank, FirstRun())
    ensures m in Emitted(FirstRule(), FirstRun(), 2, true).matches
    ensures m !in Keep(FirstRule(), Detect(Unconstrained(FirstRule()), FirstStacks(), FirstRun()[2].pkt), 1)
  {
    hide Plain, EngineRun, Detect, Keep, StacksAfter;
    var r, run, st := FirstRule(), FirstRun(), FirstStacks();
    FirstRuleOk();
    FirstRunReceived(rank);
    FirstExamined();
    m := [run[2].pkt, run[1].pkt];
    FirstDetected();
    FirstMissed();
    var all := Detect(Unconstrained(r), st, run[2].pkt);
    if m in Keep(r, all, 1) { KeepMember(r, all, 1, m); }
  }

  lemma FirstVerdict(e: PubPkt)
    requires WellFormed(FirstRule()) && (e == FirstRun()[0].pkt || e == FirstRun()[1].pkt)
    ensures ParamsHold(FirstRule(), STATE, 1, e, [FirstRun()[2].pkt]) <==> e == FirstRun()[1].pkt
  {
    hide WellFormed;
    var par := FirstRule().params[0];
    assert par in FirstRule().params && ReadAttribute(e.attributes, X) == Found(e.attributes[0].value);
  }

  lemma FirstDetected()
    requires WellFormed(FirstRule())
    ensures [FirstRun()[2].pkt, FirstRun()[1].pkt] in Detect(FirstRule(), FirstStacks(), FirstRun()[2].pkt)
  {
    hide WellFormed, ParamsHold, Detect;
    var r, run, st := FirstRule(), FirstRun(), FirstStacks();
    var m := [run[2].pkt, run[1].pkt];
    FirstVerdict(run[0].pkt);
    FirstVerdict(run[1].pkt);
    assert m[..1] == [run[2].pkt];
    assert Chosen(r, st, m[..1], 1);
    DetectIsExact(r, st, run[2].pkt, m);
  }

  lemma FirstMissed()
    requires WellFormed(FirstRule())
    ensures [FirstRun()[2].pkt, FirstRun()[1].pkt] !in Detect(Unconstrained(FirstRule()), FirstStacks(), FirstRun()[2].pkt)
  {
    hide WellFormed, Detect;
    var r, run, st := Unconstrained(FirstRule()), FirstRun(), FirstStacks();
    var m := [run[2].pkt, run[1].pkt];
    NonStateMember(FirstRule().params);
    assert m[..1] == [run[2].pkt] && Fits(r, st.negs, m[..1], run[0].pkt);
    assert st.states[1][0] == run[0].pkt && r.predicates[1].kind == FIRST_WITHIN;
    assert !Chosen(r, st, m[..1], 1);
    assert !ChosenEvent(r, st, m[..1], m[1]);
    DetectIsExact(r, st, run[2].pkt, m);
  }
}
