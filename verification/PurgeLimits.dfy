/** The purge condition is exact: a rule that violates it can be seen to purge too much. */
module PurgeLimits {
  import opened Events
  import opened Rules
  import opened Search
  import opened Detection
  import opened Soundness
  import opened Runs
  import opened Timelines
  import opened Purging
  import opened Indexing
  import opened IndexingTables
  import opened Reception
  import opened Targets
  import opened Consumption

  // ---------------------------------------------------------------- an unsafe rule

  /** All parameters hold. */
  ghost predicate Permissive(r: Rule) {
    r.params == [] || forall vt, op, a, b :: r.prims.test(vt, op, a, b)
  }

  lemma PermissiveHolds(r: Rule, sType: StateType, key: int, pkt: PubPkt, p: Partial)
    requires WellFormed(r) && Permissive(r) && |p| == BoundAt(r, sType, key)
    ensures ParamsHold(r, sType, key, pkt, p)
  {
  }

  /** Negation j is between states, and its interval can outgrow the window it is purged by. */
  ghost predicate Violates(r: Rule, j: int) {
    && WellFormed(r) && Permissive(r) && Roomy(r.predicates) && 0 <= j < |r.negations|
    && NegationOk(r, r.negations[j]) && !PurgeSafeNeg(r, r.negations[j])
  }

  /** One packet for each state, and two of negation j. */
  datatype Plan = Plan(pkts: seq<PubPkt>, first: PubPkt, second: PubPkt)

  /** The two states of a violating negation drift as far apart as they can, and its packet
      arrives one tick after the lower one. A second packet of the negation arrives with the
      upper state's, since an expiry keeps a newest packet that sits exactly on the bound. */
  ghost predicate Drifts(r: Rule, j: int, s: Plan)
    requires Violates(r, j)
  {
    var g, ps := r.negations[j], r.predicates;
    && |s.pkts| == |ps| && (forall i :: 0 <= i < |ps| ==> s.pkts[i].ts == Time(ps, g.lowerId, i))
    && s.first.ts == |ps| + 1 && s.second.ts == s.pkts[g.upperId].ts
  }

  /** The stacks when everything but the terminator has arrived, with negation j's packets given. */
  function Filled(r: Rule, j: int, s: Plan, col: seq<PubPkt>): (st: Stacks)
    requires |s.pkts| == |r.predicates|
    ensures Shaped(r, st)
  {
    Stacks(seq(|s.pkts|, i requires 0 <= i < |s.pkts| => if i == 0 then [] else [s.pkts[i]]),
           seq(|r.negations|, q requires 0 <= q < |r.negations| => if q == j then col else []), seq(|r.aggregates|, _ => []))
  }

  /** The same with the terminator. */
  function Full(r: Rule, j: int, s: Plan, col: seq<PubPkt>): (st: Stacks)
    requires 0 < |s.pkts| == |r.predicates|
    ensures Shaped(r, st)
  {
    var st := Filled(r, j, s, col);
    st.(states := st.states[0 := [s.pkts[0]]])
  }

  lemma DriftLength(r: Rule, j: int, s: Plan)
    requires Violates(r, j) && Drifts(r, j, s)
    ensures 0 < |s.pkts| == |r.predicates|
  {
  }

  lemma DriftTimes(r: Rule, j: int, s: Plan)
    requires Violates(r, j) && Drifts(r, j, s)
    ensures forall i :: 0 <= i < |s.pkts| ==> s.pkts[i].ts <= s.pkts[0].ts
    ensures s.first.ts < s.second.ts <= s.pkts[0].ts
  {
    forall i | 1 <= i < |s.pkts| ensures s.pkts[i].ts <= s.pkts[0].ts { TimeStep(r.predicates, r.negations[j].lowerId, i); }
  }

  lemma PlanWithin(r: Rule, j: int, s: Plan, i: int)
    requires Violates(r, j) && Drifts(r, j, s) && 1 <= i < |r.predicates|
    ensures InWindow(r, s.pkts, i)
  {
    assert PredicateOk(r, i);
    TimeStep(r.predicates, r.negations[j].lowerId, i);
  }

  lemma OneStays(d: PubPkt, states: seq<seq<PubPkt>>, upper: int, win: nat)
    requires 0 <= upper < |states| && |states[upper]| == 1 && d.ts > Minus(states[upper][0].ts, win)
    ensures Expire(states, upper, win, [d]) == [d]
  {
  }

  lemma {:induction false} PurgeKeepsStates(r: Rule, j: int, s: Plan, col: seq<PubPkt>, i: nat)
    requires Violates(r, j) && Drifts(r, j, s) && 1 <= i <= |r.predicates|
    ensures 0 < |s.pkts| == |r.predicates|
    ensures PurgeStates(r, Full(r, j, s, col).states, i) == Full(r, j, s, col).states
    decreases |r.predicates| - i
  {
    hide Expire, Drifts;
    DriftLength(r, j, s);
    if i < |r.predicates| {
      assert PredicateOk(r, i);
      PlanWithin(r, j, s, i);
      var st := Full(r, j, s, col).states;
      var q := r.predicates[i];
      OneStays(st[i][0], st, q.refersTo, q.win);
      assert st[i := st[i]] == st;
      PurgeKeepsStates(r, j, s, col, i + 1);
    }
  }

  /** The purge drops the negation's first packet. */
  lemma PurgeDropsNegation(r: Rule, j: int, s: Plan)
    requires Violates(r, j) && Drifts(r, j, s)
    ensures Purge(r, Full(r, j, s, [s.first, s.second])) == Full(r, j, s, [s.second])
  {
    var g, col := r.negations[j], [s.first, s.second];
    var st, z := Full(r, j, s, col), Full(r, j, s, [s.second]);
    PurgeKeepsStates(r, j, s, col, 1);
    assert Expire(st.states, g.upperId, r.predicates[g.lowerId].win, col) == [s.second] by {
      assert st.states[g.upperId] == [s.pkts[g.upperId]];
      AfterAt(col, Minus(s.second.ts, r.predicates[g.lowerId].win), 1);
      assert col[1..] == [s.second];
    }
    forall q | 0 <= q < |r.negations| ensures Purge(r, st).negs[q] == z.negs[q] {
      assert NegationOk(r, r.negations[q]);
    }
    assert Purge(r, st).negs == z.negs && Purge(r, st).aggs == z.aggs;
  }

  /** A packet of the negation at the upper state's time, or later, blocks nothing. */
  lemma NothingBlocked(r: Rule, j: int, s: Plan, p: Partial)
    requires Violates(r, j) && Drifts(r, j, s) && p <= s.pkts
    ensures !Blocked(r, Full(r, j, s, [s.second]).negs, p)
  {
    hide Time, ParamsHold;
    assert NegationOk(r, r.negations[j]);
  }

  lemma PurgedDetects(r: Rule, j: int, s: Plan)
    requires Violates(r, j) && Drifts(r, j, s)
    ensures s.pkts in Detect(r, Full(r, j, s, [s.second]), s.pkts[0])
  {
    hide Drifts, Blocked, ParamsHold;
    DriftLength(r, j, s);
    var m, st := s.pkts, Full(r, j, s, [s.second]);
    forall i | 1 <= i < |m| ensures ChosenEvent(r, st, m[..i], m[i]) {
      assert PredicateOk(r, i);
      PlanWithin(r, j, s, i);
      PermissiveHolds(r, STATE, i, m[i], m[..i]);
      assert m[..i] + [m[i]] == m[..i + 1];
      NothingBlocked(r, j, s, m[..i + 1]);
      assert Chosen(r, st, m[..i], 0);
    }
    assert m[..1] == [m[0]];
    NothingBlocked(r, j, s, m[..1]);
    DetectIsExact(r, st, m[0], m);
  }

  lemma PlanBlocked(r: Rule, j: int, s: Plan)
    requires Violates(r, j) && Drifts(r, j, s)
    ensures var low := r.negations[j].lowerId;
            1 <= low < |r.predicates| && Blocked(r, Full(r, j, s, [s.first, s.second]).negs, s.pkts[..low] + [s.pkts[low]])
  {
    var g := r.negations[j];
    var negs, p := Full(r, j, s, [s.first, s.second]).negs, s.pkts[..g.lowerId] + [s.pkts[g.lowerId]];
    PermissiveHolds(r, NEG, j, s.first, p);
    assert Negates(r, j, negs[j][0], p);
    assert NegHit(r, j, negs[j], p);
  }

  /** With it, there is no match. */
  lemma UnpurgedSilent(r: Rule, j: int, s: Plan)
    requires Violates(r, j) && Drifts(r, j, s)
    ensures Detect(r, Full(r, j, s, [s.first, s.second]), s.pkts[0]) == []
  {
    hide Drifts, Blocked, ParamsHold;
    DriftLength(r, j, s);
    var low := r.negations[j].lowerId;
    var st, e := Full(r, j, s, [s.first, s.second]), s.pkts[0];
    var ms := Detect(r, st, e);
    var m := if ms == [] then s.pkts else ms[0];
    assert m == s.pkts by {
      DetectIsExact(r, st, e, m);
      forall i | 0 <= i < |m| ensures m[i] == s.pkts[i] {
        assert ms != [] && i > 0 ==> ChosenEvent(r, st, m[..i], m[i]);
      }
    }
    PlanBlocked(r, j, s);
    DetectIsExact(r, st, e, m);
    assert !ChosenEvent(r, st, m[..low], m[low]);
  }

  // ---------------------------------------------------------------- a run that shows it

  /** The plan with packets that the index files where they belong, and nowhere else. */
  ghost function OwnPlan(r: Rule, rank: int32 -> int, j: int): (s: Plan)
    requires Violates(r, j) && Separable(r, rank)
    ensures Drifts(r, j, s) && s.first != s.second
    ensures forall i :: 0 <= i < |s.pkts| ==> OnlyFor(r, rank, STATE, i, s.pkts[i])
    ensures OnlyFor(r, rank, NEG, j, s.first) && OnlyFor(r, rank, NEG, j, s.second)
  {
    hide OnlyFor, HasOwn;
    var g, ps := r.negations[j], r.predicates;
    Plan(seq(|ps|, i requires 0 <= i < |ps| => OwnPacket(r, rank, STATE, i, i, Time(ps, g.lowerId, i))),
         OwnPacket(r, rank, NEG, j, |ps|, |ps| + 1), OwnPacket(r, rank, NEG, j, |ps| + 1, Time(ps, g.lowerId, g.upperId)))
  }

  lemma OwnPlanFills(r: Rule, rank: int32 -> int, j: int)
    requires Violates(r, j) && Separable(r, rank)
    ensures 0 < |OwnPlan(r, rank, j).pkts| == |r.predicates|
    ensures var s := OwnPlan(r, rank, j); FilledFits(r, rank, j, s)
  {
    hide OnlyFor, Separable, OwnPlan, Violates, Filled;
    var s := OwnPlan(r, rank, j);
    DriftLength(r, j, s);
    DriftTimes(r, j, s);
    var st := Filled(r, j, s, [s.first, s.second]);
    FilledIs(r, j, s, [s.first, s.second]);
    assert Fillable(r, rank, st);
    assert AllPast(st, s.pkts[0].ts);
  }

  ghost predicate FilledFits(r: Rule, rank: int32 -> int, j: int, s: Plan)
    requires 0 < |s.pkts| == |r.predicates|
  {
    var st := Filled(r, j, s, [s.first, s.second]);
    Fillable(r, rank, st) && AllPast(st, s.pkts[0].ts)
  }

  lemma FilledIs(r: Rule, j: int, s: Plan, col: seq<PubPkt>)
    requires 0 < |s.pkts| == |r.predicates|
    ensures var st := Filled(r, j, s, col);
            Shaped(r, st) && st.states[0] == [] && (forall i :: 1 <= i < |st.states| ==> st.states[i] == [s.pkts[i]])
            && (forall q :: 0 <= q < |st.negs| ==> st.negs[q] == if q == j then col else []) && forall a :: 0 <= a < |st.aggs| ==> st.aggs[a] == []
  {
  }

  /** A run on which an unsafe rule emits nothing, and something because it purges. */
  lemma PurgesTooMuch(r: Rule, rank: int32 -> int) returns (inps: seq<Input>, k: nat)
    requires WellFormed(r) && Permissive(r) && Separable(r, rank) && !PurgeSafe(r) && !Unmatchable(r)
    ensures EngineRun(r, rank, inps) && k < |inps|
    ensures Emitted(r, inps, k, false).matches == [] && Emitted(r, inps, k, true).matches != []
  {
    hide Purge, Detect, OwnPlan, Drifts, Filled, PurgeSafeNeg, Permissive, Separable, OnlyFor, Fillable, AllPast, EngineRun, StacksAfter;
    WellFormedTree(r);
    var j :| 0 <= j < |r.negations| && NegationOk(r, r.negations[j]) && !PurgeSafeNeg(r, r.negations[j]);
    var s := OwnPlan(r, rank, j);
    OwnPlanFills(r, rank, j);
    var st := Filled(r, j, s, [s.first, s.second]);
    FilledIs(r, j, s, [s.first, s.second]);
    inps, k := Reach(r, rank, st, s.pkts[0]);
    TerminatorSees(r, j, s, inps, k, false);
    TerminatorSees(r, j, s, inps, k, true);
    PurgeDropsNegation(r, j, s);
    PurgedDetects(r, j, s);
    UnpurgedSilent(r, j, s);
  }

  lemma TerminatorSees(r: Rule, j: int, s: Plan, inps: seq<Input>, k: nat, purging: bool)
    requires WellFormed(r) && 0 < |s.pkts| == |r.predicates| && k < |inps| && inps[k] == Sole(STATE, 0, s.pkts[0])
    requires StacksAfter(r, inps, k, purging) == Filled(r, j, s, [s.first, s.second])
    ensures var st := Full(r, j, s, [s.first, s.second]);
            Emitted(r, inps, k, purging).matches == Detect(r, if purging then Purge(r, st) else st, s.pkts[0])
  {
    hide Filled, Purge, Detect, Consume, WellFormed;
    ReceiveNothing(Filled(r, j, s, [s.first, s.second]), s.pkts[0]);
  }

  // ---------------------------------------------------------------- the condition is exact

  /** On every run the engine can receive, purging changes nothing a subscriber sees. */
  ghost predicate Invisible(r: Rule, rank: int32 -> int)
    requires WellFormed(r)
  {
    forall inps: seq<Input>, k: nat :: EngineRun(r, rank, inps) && k < |inps| ==>
      SameEmission(r, Emitted(r, inps, k, false), Emitted(r, inps, k, true))
  }

  /** On every ordered run, in fact. */
  lemma SafeIsInvisible(r: Rule, inps: seq<Input>, k: nat)
    requires WellFormed(r) && (PurgeSafe(r) || Unmatchable(r)) && Ordered(inps) && k < |inps|
    ensures SameEmission(r, Emitted(r, inps, k, false), Emitted(r, inps, k, true))
  {
    hide PurgeSafe, WellFormed;
    if PurgeSafe(r) {
      PurgingInvisible(r, inps, k);
    } else {
      UnmatchableEmitsNothing(r, StacksAfter(r, inps, k, false), inps[k], false);
      UnmatchableEmitsNothing(r, StacksAfter(r, inps, k, true), inps[k], true);
    }
  }

  lemma UnmatchableEmitsNothing(r: Rule, st: Stacks, inp: Input, purging: bool)
    requires WellFormed(r) && Unmatchable(r) && Shaped(r, st)
    ensures Step(r, st, inp, purging).0.matches == []
  {
    hide Unmatchable, Purge, Insert, Detect, Consume;
    var st0 := Receive(st, inp).(states := Receive(st, inp).states[0 := [inp.pkt]]);
    UnmatchableIsSilent(r, if purging then Purge(r, st0) else st0, inp.pkt);
  }

  /** A separable rule whose parameters all hold: purging is invisible on every run the engine
      can receive exactly when some window holds no packet or the packets of each negation's two
      states are never further apart than the lower state's window. */
  lemma PermissiveSafeIsExact(r: Rule, rank: int32 -> int)
    requires WellFormed(r) && Permissive(r) && Separable(r, rank)
    ensures Invisible(r, rank) <==> PurgeSafe(r) || Unmatchable(r)
  {
    hide PurgeSafe, Unmatchable, Emitted, Separable, WellFormed, Permissive, Receivable;
    if PurgeSafe(r) || Unmatchable(r) {
      forall inps: seq<Input>, k: nat | EngineRun(r, rank, inps) && k < |inps|
        ensures SameEmission(r, Emitted(r, inps, k, false), Emitted(r, inps, k, true))
      {
        SafeIsInvisible(r, inps, k);
      }
    } else {
      var inps, k := PurgesTooMuch(r, rank);
      assert !SameEmission(r, Emitted(r, inps, k, false), Emitted(r, inps, k, true));
    }
  }

  /** Without parameters this says it of the rule as it is. */
  lemma BareSafeIsExact(r: Rule, rank: int32 -> int)
    requires WellFormed(r) && r.params == [] && Separable(r, rank)
    ensures Invisible(r, rank) <==> PurgeSafe(r) || Unmatchable(r)
  {
    hide PurgeSafe, Unmatchable, Invisible;
    PermissiveSafeIsExact(r, rank);
  }

  /** Machine operations that satisfy every parameter. */
  function Lenient(): Prims {
    Prims((_, _) => 0, (_, _) => 0, (_, _, _, _) => 0, (_, _, _, _) => true, _ => 0.0)
  }

  /** With them, of any separable rule, whatever the machine operations. */
  lemma SeparableSafeIsExact(r: Rule, rank: int32 -> int)
    requires WellFormed(r) && Separable(r, rank)
    ensures (forall prims: Prims :: Invisible(WithPrims(r, prims), rank)) <==> PurgeSafe(r) || Unmatchable(r)
  {
    hide WellFormed, PurgeSafe, Unmatchable, Separable, Invisible;
    var r' := WithPrims(r, Lenient());
    if PurgeSafe(r) || Unmatchable(r) {
      forall prims: Prims ensures Invisible(WithPrims(r, prims), rank) {
        SafeShape(r, WithPrims(r, prims), rank);
      }
    } else {
      SameSeparable(r, r', rank);
      PermissiveSafeIsExact(r', rank);
      PurgeSafeOfShape(r, r');
    }
  }

  lemma SafeShape(r: Rule, r': Rule, rank: int32 -> int)
    requires WellFormed(r) && WellFormed(r') && SameShape(r, r') && (PurgeSafe(r) || Unmatchable(r))
    ensures Invisible(r', rank)
  {
    hide WellFormed, PurgeSafe, Unmatchable, SameShape, Receivable, SameEmission;
    PurgeSafeOfShape(r, r');
    forall inps: seq<Input>, k: nat | EngineRun(r', rank, inps) && k < |inps|
      ensures SameEmission(r', Emitted(r', inps, k, false), Emitted(r', inps, k, true))
    {
      SafeIsInvisible(r', inps, k);
    }
  }

  /** Main result: for every rule, purging is invisible on every run the engine can receive,
      whatever the event types, the constraints and the machine operations, exactly when the
      condition holds. */
  lemma PurgeSafeIsExact(r: Rule, rank: int32 -> int)
    requires WellFormed(r)
    ensures (forall r': Rule :: SameShape(r, r') ==> WellFormed(r') && Invisible(r', rank)) <==> PurgeSafe(r) || Unmatchable(r)
  {
    hide WellFormed, PurgeSafe, Unmatchable, Invisible, SameShape;
    if PurgeSafe(r) || Unmatchable(r) {
      forall r': Rule | SameShape(r, r') ensures WellFormed(r') && Invisible(r', rank) {
        ShapeOk(r, r');
        SafeShape(r, r', rank);
      }
    } else {
      var r' := Labeled(r);
      ShapeOk(r, r');
      LabeledIsSeparable(r, rank);
      PurgeSafeOfShape(r, r');
      SeparableSafeIsExact(r', rank);
      var prims: Prims :| !Invisible(WithPrims(r', prims), rank);
      OtherPrims(r, r', prims);
    }
  }

  lemma OtherPrims(r: Rule, r': Rule, prims: Prims)
    requires WellFormed(r') && SameShape(r, r')
    ensures SameShape(r, WithPrims(r', prims))
  {
  }

  // ---------------------------------------------------------------- the smallest rule

  /** Three states in a chain, negated from end to end. */
  function Chain(w1: nat, w2: nat, prims: Prims): Rule {
    Rule([Predicate(0, [], -1, 0, EACH_WITHIN), Predicate(1, [], 0, w1, EACH_WITHIN), Predicate(2, [], 1, w2, EACH_WITHIN)],
         [Negation(3, [], 2, 0, 0)], [], [], {}, prims)
  }

  lemma ChainOk(w1: nat, w2: nat, prims: Prims)
    ensures WellFormed(Chain(w1, w2, prims)) && Plain(Chain(w1, w2, prims))
    ensures PurgeSafe(Chain(w1, w2, prims)) || Unmatchable(Chain(w1, w2, prims)) <==> w1 < 3 || w2 < 2
  {
    var r := Chain(w1, w2, prims);
    assert PredicateOk(r, 0) && PredicateOk(r, 1) && PredicateOk(r, 2) && NegationOk(r, r.negations[0]);
    WellFormedTree(r);
    assert Lead(r.predicates, 0, 2) == w1 + w2 - 2;
    assert PurgeSafe(r) <==> PurgeSafeNeg(r, r.negations[0]);
    assert Unmatchable(r) <==> r.predicates[1].win < 2 || r.predicates[2].win < 2;
  }

  /** The smallest rule that can go wrong: it does as soon as the middle state's window is
      at least 3 ticks and the last one's at least 2. */
  lemma ChainIsExact(w1: nat, w2: nat, prims: Prims, rank: int32 -> int)
    ensures WellFormed(Chain(w1, w2, prims))
    ensures Invisible(Chain(w1, w2, prims), rank) <==> w1 < 3 || w2 < 2
  {
    hide Invisible, Plain, Separable, PurgeSafe, Unmatchable;
    ChainOk(w1, w2, prims);
    PlainIsSeparable(Chain(w1, w2, prims), rank);
    BareSafeIsExact(Chain(w1, w2, prims), rank);
  }

  lemma ChainPurgesTooMuch(prims: Prims, rank: int32 -> int) returns (r: Rule, inps: seq<Input>, k: nat)
    ensures r == Chain(10, 10, prims) && WellFormed(r) && EngineRun(r, rank, inps) && k < |inps|
    ensures Emitted(r, inps, k, false).matches == [] && Emitted(r, inps, k, true).matches != []
  {
    hide Emitted, PurgeSafe, Plain, Separable, EngineRun, Unmatchable;
    r := Chain(10, 10, prims);
    ChainOk(10, 10, prims);
    PlainIsSeparable(r, rank);
    inps, k := PurgesTooMuch(r, rank);
  }

  // ---------------------------------------------------------------- a rule nothing is filed for

  /** State i asks for the same constraint twice, so the index never reports it. */
  ghost predicate Unreported(r: Rule, rank: int32 -> int, i: int)
    requires WellFormed(r)
  {
    1 <= i < |r.predicates| && Repeats(r.predicates[i].constraints, rank)
  }

  lemma NotFiled(r: Rule, rank: int32 -> int, inp: Input, i: int)
    requires WellFormed(r) && Unreported(r, rank, i) && Receivable(r, rank, inp)
    ensures 1 <= i < |r.predicates| && i !in inp.states
  {
    hide WellFormed, Distinct;
  }

  lemma {:induction false} StaysEmpty(r: Rule, rank: int32 -> int, inps: seq<Input>, i: int, n: nat, purging: bool)
    requires WellFormed(r) && Unreported(r, rank, i) && EngineRun(r, rank, inps) && n <= |inps|
    ensures StacksAfter(r, inps, n, purging).states[i] == []
    ensures n < |inps| ==> Examined(r, StacksAfter(r, inps, n, purging), inps[n], purging).states[i] == []
  {
    hide WellFormed, Step, Insert, Purge, Receivable, Distinct, Examined;
    var st := StacksAfter(r, inps, n, purging);
    if n > 0 {
      StaysEmpty(r, rank, inps, i, n - 1, purging);
      NotFiled(r, rank, inps[n - 1], i);
      LeavesEmpty(r, StacksAfter(r, inps, n - 1, purging), inps[n - 1], purging, i);
    }
    if n < |inps| {
      NotFiled(r, rank, inps[n], i);
      LeavesEmpty(r, st, inps[n], purging, i);
    }
  }

  lemma LeavesEmpty(r: Rule, st: Stacks, inp: Input, purging: bool, i: nat)
    requires WellFormed(r) && Shaped(r, st) && 1 <= i < |r.predicates| && st.states[i] == [] && i !in inp.states
    ensures Examined(r, st, inp, purging).states[i] == [] && Step(r, st, inp, purging).1.states[i] == []
  {
    hide Insert, PurgeStates, Detect;
    var s := Receive(st, inp).states[0 := [inp.pkt]];
    if purging && PurgeStates(r, s, 1)[i] != [] { PurgeMember(r, s, 1, i, PurgeStates(r, s, 1)[i][0]); }
  }

  /** Such a rule emits nothing, purging or not, so purging is invisible even where the windows
      would let it be seen: the equivalence needs packets that reach every state. */
  lemma UnreportedIsInvisible(r: Rule, rank: int32 -> int, i: int)
    requires WellFormed(r) && Unreported(r, rank, i)
    ensures Invisible(r, rank)
  {
    hide WellFormed, Emitted, Unreported, EngineRun, Examined;
    forall inps: seq<Input>, k: nat | EngineRun(r, rank, inps) && k < |inps|
      ensures SameEmission(r, Emitted(r, inps, k, false), Emitted(r, inps, k, true))
    {
      UnreportedEmitsNothing(r, rank, inps, i, k, false);
      UnreportedEmitsNothing(r, rank, inps, i, k, true);
    }
  }

  lemma UnreportedEmitsNothing(r: Rule, rank: int32 -> int, inps: seq<Input>, i: int, k: nat, purging: bool)
    requires WellFormed(r) && Unreported(r, rank, i) && EngineRun(r, rank, inps) && k < |inps|
    ensures Emitted(r, inps, k, purging).matches == []
  {
    hide WellFormed, EngineRun, Receive, Purge, Detect, StacksAfter, Consume, ChosenEvent;
    StaysEmpty(r, rank, inps, i, k, purging);
    var s := Examined(r, StacksAfter(r, inps, k, purging), inps[k], purging);
    var ms := Detect(r, s, inps[k].pkt);
    if ms != [] {
      DetectIsExact(r, s, inps[k].pkt, ms[0]);
      NoneChosen(r, s, ms[0][..i], ms[0][i]);
    }
  }

  lemma NoneChosen(r: Rule, st: Stacks, p: Partial, e: PubPkt)
    requires WellFormed(r) && Shaped(r, st) && 1 <= |p| < |r.predicates| && st.states[|p|] == []
    ensures !ChosenEvent(r, st, p, e)
  {
  }
}
