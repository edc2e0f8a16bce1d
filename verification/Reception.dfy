/** What the index files under a rule's states, negations and aggregates, and runs made of it. */
module Reception {
  import opened Events
  import opened Rules
  import opened Detection
  import opened Runs
  import opened Purging
  import opened Indexing
  import opened IndexingTables

  /** The handler of the packet names this state, negation or aggregate. */
  predicate Reported(r: Rule, rank: int32 -> int, ty: StateType, i: int, pkt: PubPkt)
    requires 0 <= i < NumOf(r, ty)
  {
    Naive(r, ty, i, pkt, rank) && !Repeats(ConstraintsOf(r, ty, i), rank)
  }

  /** A publication as the engine hands it to a rule. */
  ghost predicate Receivable(r: Rule, rank: int32 -> int, inp: Input) {
    && DistinctNames(inp.pkt.attributes)
    && (forall i :: i in inp.states <==> 0 <= i < |r.predicates| && Reported(r, rank, STATE, i, inp.pkt))
    && (forall i :: i in inp.negs <==> 0 <= i < |r.negations| && Reported(r, rank, NEG, i, inp.pkt))
    && (forall i :: i in inp.aggs <==> 0 <= i < |r.aggregates| && Reported(r, rank, AGG, i, inp.pkt))
  }

  /** A run the engine can receive. */
  ghost predicate EngineRun(r: Rule, rank: int32 -> int, inps: seq<Input>) {
    Ordered(inps) && Fresh(inps) && forall k :: 0 <= k < |inps| ==> Receivable(r, rank, inps[k])
  }

  function KeysOf(inp: Input, ty: StateType): set<int> {
    match ty case STATE => inp.states case NEG => inp.negs case AGG => inp.aggs
  }

  // ---------------------------------------------------------------- the index's answer

  function Answer(mh: MatchingHandler, ruleId: int, pkt: PubPkt): Input {
    Input(pkt, if ruleId in mh.states then mh.states[ruleId] else {}, if ruleId in mh.negs then mh.negs[ruleId] else {},
          if ruleId in mh.aggs then mh.aggs[ruleId] else {})
  }

  /** Main result: what a message's handler says of a rule the table knows is receivable. */
  method Ask(table: IndexingTable, ruleId: int, r: Rule, pkt: PubPkt) returns (inp: Input)
    requires table.Valid() && table.Knows(ruleId, r) && DistinctNames(pkt.attributes)
    ensures inp.pkt == pkt && Receivable(r, table.rank, inp)
  {
    hide Naive, Matches, Repeats;
    var mh := table.ProcessMessage(pkt);
    inp := Answer(mh, ruleId, pkt);
    forall ty, i ensures i in KeysOf(inp, ty) <==> 0 <= i < NumOf(r, ty) && Reported(r, table.rank, ty, i, pkt) {
      table.HandlerIsNaive(ruleId, r, pkt, mh, ty, i);
      assert i in KeysOf(inp, ty) <==> Has(mh, Slot(ty, ruleId, i));
    }
    assert forall i :: i in KeysOf(inp, STATE) <==> i in inp.states;
    assert forall i :: i in KeysOf(inp, NEG) <==> i in inp.negs;
    assert forall i :: i in KeysOf(inp, AGG) <==> i in inp.aggs;
  }

  // ---------------------------------------------------------------- what a run files

  /** The packets a run files under a key, in the order of publication. */
  function Filed(inps: seq<Input>, ty: StateType, i: int): seq<PubPkt> {
    if inps == [] then []
    else
      var x := inps[|inps| - 1];
      Filed(inps[..|inps| - 1], ty, i) + if i in KeysOf(x, ty) then [x.pkt] else []
  }

  lemma {:induction false} FiledAppend(a: seq<Input>, b: seq<Input>, ty: StateType, i: int)
    ensures Filed(a + b, ty, i) == Filed(a, ty, i) + Filed(b, ty, i)
  {
    if b == [] {
      NoneBefore(a);
      NoneBefore(Filed(a, ty, i));
    } else {
      var c, x := b[..|b| - 1], b[|b| - 1];
      FiledAppend(a, c, ty, i);
      assert (a + b)[..|a + b| - 1] == a + c;
      Cat(Filed(a, ty, i), Filed(c, ty, i), if i in KeysOf(x, ty) then [x.pkt] else []);
    }
  }

  lemma {:induction false} FiledMember(inps: seq<Input>, ty: StateType, i: int, p: PubPkt)
    ensures p in Filed(inps, ty, i) <==> exists k :: 0 <= k < |inps| && inps[k].pkt == p && i in KeysOf(inps[k], ty)
  {
    if inps != [] {
      var n := |inps| - 1;
      FiledMember(inps[..n], ty, i, p);
      assert forall k :: 0 <= k < n ==> inps[..n][k] == inps[k];
      if i in KeysOf(inps[n], ty) { assert p == inps[n].pkt ==> p in Filed(inps, ty, i); }
    }
  }

  lemma {:induction false} FiledNone(inps: seq<Input>, ty: StateType, i: int)
    requires forall k :: 0 <= k < |inps| ==> i !in KeysOf(inps[k], ty)
    ensures Filed(inps, ty, i) == []
  {
    if inps != [] { FiledNone(inps[..|inps| - 1], ty, i); }
  }

  lemma FiledPast(inps: seq<Input>, ty: StateType, i: int, now: nat)
    requires forall k :: 0 <= k < |inps| ==> inps[k].pkt.ts <= now
    ensures Past(Filed(inps, ty, i), now)
  {
    var f := Filed(inps, ty, i);
    forall k | 0 <= k < |f| ensures f[k].ts <= now { FiledMember(inps, ty, i, f[k]); }
  }

  /** The stacks that hold everything filed so far. */
  function FiledStacks(r: Rule, inps: seq<Input>): (st: Stacks)
    ensures Shaped(r, st)
  {
    Stacks(seq(|r.predicates|, i requires 0 <= i < |r.predicates| => if i == 0 then [] else Filed(inps, STATE, i)),
           seq(|r.negations|, j requires 0 <= j < |r.negations| => Filed(inps, NEG, j)),
           seq(|r.aggregates|, a requires 0 <= a < |r.aggregates| => Filed(inps, AGG, a)))
  }

  /** A stack receives what is filed under its key. */
  lemma ReceiveFiled(inps: seq<Input>, x: Input, ty: StateType, i: int)
    requires forall k :: 0 <= k < |inps| ==> inps[k].pkt.ts <= x.pkt.ts
    ensures Filed(inps + [x], ty, i) == if i in KeysOf(x, ty) then Insert(Filed(inps, ty, i), x.pkt) else Filed(inps, ty, i)
  {
    hide Insert;
    assert (inps + [x])[..|inps|] == inps;
    FiledPast(inps, ty, i, x.pkt.ts);
    InsertLast(Filed(inps, ty, i), x.pkt);
    NoneBefore(Filed(inps, ty, i));
  }

  lemma ReceiveAll(r: Rule, inps: seq<Input>, x: Input)
    requires forall k :: 0 <= k < |inps| ==> inps[k].pkt.ts <= x.pkt.ts
    ensures Receive(FiledStacks(r, inps), x) == FiledStacks(r, inps + [x])
  {
    hide Insert, Filed;
    var a, b := Receive(FiledStacks(r, inps), x), FiledStacks(r, inps + [x]);
    forall i | 0 <= i < |r.predicates| ensures a.states[i] == b.states[i] { ReceiveFiled(inps, x, STATE, i); }
    forall j | 0 <= j < |r.negations| ensures a.negs[j] == b.negs[j] { ReceiveFiled(inps, x, NEG, j); }
    forall c | 0 <= c < |r.aggregates| ensures a.aggs[c] == b.aggs[c] { ReceiveFiled(inps, x, AGG, c); }
    assert a.states == b.states && a.negs == b.negs && a.aggs == b.aggs;
  }

  lemma FiledNothing(r: Rule)
    ensures FiledStacks(r, []) == Empty(r)
  {
    var a, b := FiledStacks(r, []), Empty(r);
    assert a.states == b.states && a.negs == b.negs && a.aggs == b.aggs;
  }

  /** Without a terminator, purging or not, everything filed is stored. */
  lemma {:induction false} CalmStacks(r: Rule, inps: seq<Input>, n: nat, purging: bool)
    requires WellFormed(r) && Ordered(inps) && n <= |inps| && forall k :: 0 <= k < n ==> 0 !in inps[k].states
    ensures StacksAfter(r, inps, n, purging) == FiledStacks(r, inps[..n])
  {
    hide Receive, FiledStacks, WellFormed, Terminate;
    if n == 0 {
      FiledNothing(r);
    } else {
      CalmStacks(r, inps, n - 1, purging);
      ReceiveAll(r, inps[..n - 1], inps[n - 1]);
      assert inps[..n] == inps[..n - 1] + [inps[n - 1]];
    }
  }

  // ---------------------------------------------------------------- packets of one target

  /** A packet with this type and these attributes is filed under (ty, i) and nowhere else. */
  ghost predicate OnlyFor(r: Rule, rank: int32 -> int, ty: StateType, i: int, pkt: PubPkt) {
    && DistinctNames(pkt.attributes)
    && forall ty', i' :: 0 <= i' < NumOf(r, ty') ==> (Reported(r, rank, ty', i', pkt) <==> ty' == ty && i' == i)
  }

  /** The publication of such a packet. */
  function Sole(ty: StateType, i: int, pkt: PubPkt): Input {
    Input(pkt, if ty == STATE then {i} else {}, if ty == NEG then {i} else {}, if ty == AGG then {i} else {})
  }

  lemma SoleReceivable(r: Rule, rank: int32 -> int, ty: StateType, i: int, pkt: PubPkt)
    requires 0 <= i < NumOf(r, ty) && OnlyFor(r, rank, ty, i, pkt)
    ensures Receivable(r, rank, Sole(ty, i, pkt))
  {
    hide Reported;
    assert NumOf(r, STATE) == |r.predicates| && NumOf(r, NEG) == |r.negations| && NumOf(r, AGG) == |r.aggregates|;
  }

  /** What a packet is filed under depends on its type and attributes only. */
  lemma SameContent(r: Rule, rank: int32 -> int, ty: StateType, i: int, p: PubPkt, q: PubPkt)
    requires p.eventType == q.eventType && p.attributes == q.attributes
    ensures OnlyFor(r, rank, ty, i, p) <==> OnlyFor(r, rank, ty, i, q)
  {
    forall ty', i' | 0 <= i' < NumOf(r, ty') ensures Reported(r, rank, ty', i', p) <==> Reported(r, rank, ty', i', q) {
      assert forall c :: MetBy(p, c, rank) <==> MetBy(q, c, rank);
    }
  }

  /** A terminator that is filed nowhere else leaves the stacks alone. */
  lemma ReceiveNothing(st: Stacks, e: PubPkt)
    ensures Receive(st, Sole(STATE, 0, e)) == st
  {
    var a := Receive(st, Sole(STATE, 0, e));
    assert a.states == st.states && a.negs == st.negs && a.aggs == st.aggs;
  }

  // ---------------------------------------------------------------- arranging a run

  /** Publishes `x` after everything that is not later. */
  function SortIn(run: seq<Input>, x: Input): (s: seq<Input>)
    ensures |s| == |run| + 1
  {
    if run == [] || run[|run| - 1].pkt.ts <= x.pkt.ts then run + [x]
    else SortIn(run[..|run| - 1], x) + [run[|run| - 1]]
  }

  lemma {:induction false} SortInMember(run: seq<Input>, x: Input)
    ensures forall y :: y in SortIn(run, x) <==> y in run || y == x
  {
    if run != [] && run[|run| - 1].pkt.ts > x.pkt.ts {
      SortInMember(run[..|run| - 1], x);
      Halves(run, |run| - 1);
      assert run == run[..|run| - 1] + [run[|run| - 1]];
    }
  }

  lemma {:induction false} SortInOrdered(run: seq<Input>, x: Input)
    requires Ordered(run)
    ensures Ordered(SortIn(run, x))
  {
    if run != [] && run[|run| - 1].pkt.ts > x.pkt.ts {
      var c, y := run[..|run| - 1], run[|run| - 1];
      SortInOrdered(c, x);
      SortInMember(c, x);
      var s := SortIn(c, x);
      forall k | 0 <= k < |s| ensures s[k].pkt.ts <= y.pkt.ts { assert s[k] in s; }
    }
  }

  lemma {:induction false} SortInFresh(run: seq<Input>, x: Input)
    requires Fresh(run + [x])
    ensures Fresh(SortIn(run, x))
  {
    if run != [] && run[|run| - 1].pkt.ts > x.pkt.ts {
      var c, y := run[..|run| - 1], run[|run| - 1];
      var a := run + [x];
      assert forall k :: 0 <= k < |c| ==> (c + [x])[k] == a[k];
      assert a[|run|] == x && a[|run| - 1] == y;
      SortInFresh(c, x);
      SortInMember(c, x);
      var s := SortIn(c, x);
      forall k | 0 <= k < |s| ensures s[k].pkt != y.pkt {
        assert s[k] in s;
        if s[k] != x {
          var j :| 0 <= j < |c| && c[j] == s[k];
          assert a[j] == c[j];
        }
      }
    }
  }

  function Mine(x: Input, ty: StateType, i: int): seq<PubPkt> {
    if i in KeysOf(x, ty) then [x.pkt] else []
  }

  lemma FiledSnoc(run: seq<Input>, x: Input, ty: StateType, i: int)
    ensures Filed(run + [x], ty, i) == Filed(run, ty, i) + Mine(x, ty, i)
  {
    assert (run + [x])[..|run|] == run;
  }

  lemma LaterIsNotMine(f: seq<PubPkt>, y: Input, ty: StateType, i: int, now: nat)
    requires Past(f + Mine(y, ty, i), now) && y.pkt.ts > now
    ensures Mine(y, ty, i) == [] && Past(f, now)
  {
    var g := f + Mine(y, ty, i);
    assert forall k :: 0 <= k < |f| ==> g[k] == f[k];
    assert forall p :: p in g ==> p.ts <= now;
    assert y.pkt in f + [y.pkt];
  }

  /** Sorting in a packet that is not earlier than its group puts it at the group's end. */
  lemma {:induction false} SortInFiled(run: seq<Input>, x: Input, ty: StateType, i: int)
    requires i in KeysOf(x, ty) ==> Past(Filed(run, ty, i), x.pkt.ts)
    ensures Filed(SortIn(run, x), ty, i) == Filed(run, ty, i) + Mine(x, ty, i)
  {
    hide Filed, Past;
    if run != [] && run[|run| - 1].pkt.ts > x.pkt.ts {
      var c, y := run[..|run| - 1], run[|run| - 1];
      var f := Filed(c, ty, i);
      assert run == c + [y];
      FiledSnoc(c, y, ty, i);
      if i in KeysOf(x, ty) { LaterIsNotMine(f, y, ty, i, x.pkt.ts); }
      SortInFiled(c, x, ty, i);
      FiledSnoc(SortIn(c, x), y, ty, i);
      NoneBefore(f);
      NoneBefore(f + Mine(x, ty, i));
      NoneBefore(f + Mine(y, ty, i));
    } else {
      FiledSnoc(run, x, ty, i);
    }
  }

  function Arrange(d: seq<Input>): (s: seq<Input>)
    ensures |s| == |d|
  {
    if d == [] then [] else SortIn(Arrange(d[..|d| - 1]), d[|d| - 1])
  }

  lemma {:induction false} ArrangeOrdered(d: seq<Input>)
    ensures Ordered(Arrange(d)) && forall y :: y in Arrange(d) <==> y in d
  {
    if d != [] {
      var c, x := d[..|d| - 1], d[|d| - 1];
      ArrangeOrdered(c);
      SortInOrdered(Arrange(c), x);
      SortInMember(Arrange(c), x);
      assert d == c + [x];
    }
  }

  lemma {:induction false} ArrangeFresh(d: seq<Input>)
    requires Fresh(d)
    ensures Fresh(Arrange(d))
  {
    if d != [] {
      var c, x := d[..|d| - 1], d[|d| - 1];
      ArrangeFresh(c);
      ArrangeOrdered(c);
      var a := Arrange(c);
      forall k | 0 <= k < |a| ensures a[k].pkt != x.pkt {
        assert a[k] in c;
        var j :| 0 <= j < |c| && c[j] == a[k];
      }
      SortInFresh(a, x);
    }
  }

  lemma {:induction false} ArrangeFiled(d: seq<Input>, ty: StateType, i: int)
    requires Sorted(Filed(d, ty, i))
    ensures Filed(Arrange(d), ty, i) == Filed(d, ty, i)
  {
    if d != [] {
      var c, x := d[..|d| - 1], d[|d| - 1];
      var f, g := Filed(c, ty, i), Filed(d, ty, i);
      assert forall k :: 0 <= k < |f| ==> f[k] == g[k];
      if i in KeysOf(x, ty) { assert g[|f|] == x.pkt; }
      ArrangeFiled(c, ty, i);
      SortInFiled(Arrange(c), x, ty, i);
    }
  }

  // ---------------------------------------------------------------- reaching given stacks

  /** The publications that file `col` under one key. */
  function Deliver(ty: StateType, i: int, col: seq<PubPkt>): (d: seq<Input>)
    ensures |d| == |col|
  {
    seq(|col|, k requires 0 <= k < |col| => Sole(ty, i, col[k]))
  }

  /** The publications that file each stack from the given one on. */
  function DeliverFrom(ty: StateType, cols: seq<seq<PubPkt>>, from: nat): seq<Input>
    requires from <= |cols|
    decreases |cols| - from
  {
    if from == |cols| then [] else Deliver(ty, from, cols[from]) + DeliverFrom(ty, cols, from + 1)
  }

  lemma {:induction false} DeliverFiled(ty: StateType, i: int, col: seq<PubPkt>, ty': StateType, i': int)
    ensures Filed(Deliver(ty, i, col), ty', i') == if ty' == ty && i' == i then col else []
  {
    if col != [] {
      var n := |col| - 1;
      DeliverFiled(ty, i, col[..n], ty', i');
      assert Deliver(ty, i, col)[..n] == Deliver(ty, i, col[..n]);
      assert col == col[..n] + [col[n]];
    }
  }

  lemma {:induction false} DeliverFromFiled(ty: StateType, cols: seq<seq<PubPkt>>, from: nat, ty': StateType, i: int)
    requires from <= |cols|
    ensures Filed(DeliverFrom(ty, cols, from), ty', i) == if ty' == ty && from <= i < |cols| then cols[i] else []
    decreases |cols| - from
  {
    hide Filed, Deliver;
    if from < |cols| {
      var a, b := Deliver(ty, from, cols[from]), DeliverFrom(ty, cols, from + 1);
      FiledAppend(a, b, ty', i);
      DeliverFiled(ty, from, cols[from], ty', i);
      DeliverFromFiled(ty, cols, from + 1, ty', i);
      NoneBefore(Filed(a, ty', i));
      NoneBefore(Filed(b, ty', i));
    } else {
      FiledNone([], ty', i);
    }
  }

  /** Everything delivered is the sole publication of a packet of its stack. */
  lemma {:induction false} DeliverFromMember(ty: StateType, cols: seq<seq<PubPkt>>, from: nat, x: Input)
    requires from <= |cols| && x in DeliverFrom(ty, cols, from)
    ensures exists i, k :: from <= i < |cols| && 0 <= k < |cols[i]| && x == Sole(ty, i, cols[i][k])
    decreases |cols| - from
  {
    hide Sole;
    var a := Deliver(ty, from, cols[from]);
    if x in a {
      var k :| 0 <= k < |a| && a[k] == x;
      assert x == Sole(ty, from, cols[from][k]);
    } else {
      DeliverFromMember(ty, cols, from + 1, x);
    }
  }

  /** The stacks can be filled by packets that are filed nowhere else. */
  ghost predicate Fillable(r: Rule, rank: int32 -> int, st: Stacks) {
    && Shaped(r, st)
    && (forall i, k :: 1 <= i < |st.states| && 0 <= k < |st.states[i]| ==> OnlyFor(r, rank, STATE, i, st.states[i][k]))
    && (forall j, k :: 0 <= j < |st.negs| && 0 <= k < |st.negs[j]| ==> OnlyFor(r, rank, NEG, j, st.negs[j][k]))
    && (forall i :: 1 <= i < |st.states| ==> Sorted(st.states[i]) && Distinct(st.states[i]))
    && (forall j :: 0 <= j < |st.negs| ==> Sorted(st.negs[j]) && Distinct(st.negs[j]))
    && (forall a :: 0 <= a < |st.aggs| ==> st.aggs[a] == [])
  }

  function DeliverAll(st: Stacks): seq<Input>
    requires |st.states| > 0
  {
    DeliverFrom(STATE, st.states, 1) + DeliverFrom(NEG, st.negs, 0)
  }

  /** Every publication is of a packet filed under its own key. */
  ghost predicate OwnKey(r: Rule, rank: int32 -> int, x: Input) {
    exists ty, i :: 0 <= i < NumOf(r, ty) && (ty == STATE ==> i > 0) && OnlyFor(r, rank, ty, i, x.pkt) && x == Sole(ty, i, x.pkt)
  }

  lemma DeliverAllOwn(r: Rule, rank: int32 -> int, st: Stacks, x: Input)
    requires |r.predicates| > 0 && Fillable(r, rank, st) && x in DeliverAll(st)
    ensures OwnKey(r, rank, x)
  {
    hide OnlyFor, Sorted, Distinct;
    if x in DeliverFrom(STATE, st.states, 1) {
      DeliverFromMember(STATE, st.states, 1, x);
      var i, k :| 1 <= i < |st.states| && 0 <= k < |st.states[i]| && x == Sole(STATE, i, st.states[i][k]);
      assert i < NumOf(r, STATE) && OnlyFor(r, rank, STATE, i, x.pkt);
    } else {
      DeliverFromMember(NEG, st.negs, 0, x);
      var j, k :| 0 <= j < |st.negs| && 0 <= k < |st.negs[j]| && x == Sole(NEG, j, st.negs[j][k]);
      assert j < NumOf(r, NEG) && OnlyFor(r, rank, NEG, j, x.pkt);
    }
  }

  lemma OwnReceivable(r: Rule, rank: int32 -> int, x: Input)
    requires OwnKey(r, rank, x)
    ensures Receivable(r, rank, x) && 0 !in x.states
  {
    hide OnlyFor, Receivable;
    var ty, i :| 0 <= i < NumOf(r, ty) && (ty == STATE ==> i > 0) && OnlyFor(r, rank, ty, i, x.pkt) && x == Sole(ty, i, x.pkt);
    SoleReceivable(r, rank, ty, i, x.pkt);
  }

  /** A packet of one key is not a packet of another. */
  lemma OtherKey(r: Rule, rank: int32 -> int, ty: StateType, i: int, ty': StateType, i': int, pkt: PubPkt)
    requires 0 <= i < NumOf(r, ty) && 0 <= i' < NumOf(r, ty') && OnlyFor(r, rank, ty, i, pkt) && OnlyFor(r, rank, ty', i', pkt)
    ensures ty == ty' && i == i'
  {
    hide Reported;
    assert Reported(r, rank, ty, i, pkt);
  }

  lemma FreshAppend(a: seq<Input>, b: seq<Input>)
    requires Fresh(a) && Fresh(b) && forall x, y :: x in a && y in b ==> x.pkt != y.pkt
    ensures Fresh(a + b)
  {
    var c := a + b;
    forall i, j | 0 <= i < j < |c| ensures c[i].pkt != c[j].pkt {
      if i < |a| <= j { assert c[i] in a && c[j] in b; }
    }
  }

  ghost predicate ColsOwn(r: Rule, rank: int32 -> int, ty: StateType, cols: seq<seq<PubPkt>>, from: nat) {
    && |cols| == NumOf(r, ty)
    && (forall i, k :: from <= i < |cols| && 0 <= k < |cols[i]| ==> OnlyFor(r, rank, ty, i, cols[i][k]))
    && (forall i :: from <= i < |cols| ==> Distinct(cols[i]))
  }

  lemma {:induction false} DeliverFresh(r: Rule, rank: int32 -> int, ty: StateType, cols: seq<seq<PubPkt>>, from: nat)
    requires from <= |cols| && ColsOwn(r, rank, ty, cols, from)
    ensures Fresh(DeliverFrom(ty, cols, from))
    decreases |cols| - from
  {
    hide OnlyFor;
    if from < |cols| {
      var a, b := Deliver(ty, from, cols[from]), DeliverFrom(ty, cols, from + 1);
      DeliverFresh(r, rank, ty, cols, from + 1);
      forall x, y | x in a && y in b ensures x.pkt != y.pkt {
        DeliverFromMember(ty, cols, from + 1, y);
        var i, k :| from + 1 <= i < |cols| && 0 <= k < |cols[i]| && y == Sole(ty, i, cols[i][k]);
        if x.pkt == y.pkt { OtherKey(r, rank, ty, from, ty, i, x.pkt); }
      }
      FreshAppend(a, b);
    }
  }

  lemma DeliverAllFresh(r: Rule, rank: int32 -> int, st: Stacks)
    requires |r.predicates| > 0 && Fillable(r, rank, st)
    ensures Fresh(DeliverAll(st))
  {
    hide OnlyFor, Sorted, Distinct, DeliverFrom;
    DeliverFresh(r, rank, STATE, st.states, 1);
    DeliverFresh(r, rank, NEG, st.negs, 0);
    forall x, y | x in DeliverFrom(STATE, st.states, 1) && y in DeliverFrom(NEG, st.negs, 0) ensures x.pkt != y.pkt {
      DeliverFromMember(STATE, st.states, 1, x);
      var i, k :| 1 <= i < |st.states| && 0 <= k < |st.states[i]| && x == Sole(STATE, i, st.states[i][k]);
      DeliverFromMember(NEG, st.negs, 0, y);
      var j, l :| 0 <= j < |st.negs| && 0 <= l < |st.negs[j]| && y == Sole(NEG, j, st.negs[j][l]);
      if x.pkt == y.pkt { OtherKey(r, rank, STATE, i, NEG, j, x.pkt); }
    }
    FreshAppend(DeliverFrom(STATE, st.states, 1), DeliverFrom(NEG, st.negs, 0));
  }

  lemma DeliverAllFiled(st: Stacks, ty: StateType, i: int)
    requires |st.states| > 0
    ensures Filed(DeliverAll(st), ty, i) ==
      if ty == STATE && 1 <= i < |st.states| then st.states[i] else if ty == NEG && 0 <= i < |st.negs| then st.negs[i] else []
  {
    hide Filed, DeliverFrom;
    FiledAppend(DeliverFrom(STATE, st.states, 1), DeliverFrom(NEG, st.negs, 0), ty, i);
    DeliverFromFiled(STATE, st.states, 1, ty, i);
    DeliverFromFiled(NEG, st.negs, 0, ty, i);
    NoneBefore(Filed(DeliverFrom(STATE, st.states, 1), ty, i));
    NoneBefore(Filed(DeliverFrom(NEG, st.negs, 0), ty, i));
  }

  /** Arranged in time order, the deliveries fill just these stacks. */
  lemma ArrangeFills(r: Rule, rank: int32 -> int, st: Stacks)
    requires |r.predicates| > 0 && Fillable(r, rank, st) && st.states[0] == []
    ensures FiledStacks(r, Arrange(DeliverAll(st))) == st
  {
    hide Filed, Arrange, DeliverAll, OnlyFor, Sorted, Distinct;
    var run := Arrange(DeliverAll(st));
    var a := FiledStacks(r, run);
    forall i | 0 <= i < |r.predicates| ensures a.states[i] == st.states[i] { KeyFilled(st, STATE, i); }
    forall j | 0 <= j < |r.negations| ensures a.negs[j] == st.negs[j] { KeyFilled(st, NEG, j); }
    forall c | 0 <= c < |r.aggregates| ensures a.aggs[c] == st.aggs[c] { KeyFilled(st, AGG, c); }
    assert a.states == st.states && a.negs == st.negs && a.aggs == st.aggs;
  }

  lemma KeyFilled(st: Stacks, ty: StateType, i: int)
    requires |st.states| > 0
    requires forall i :: 1 <= i < |st.states| ==> Sorted(st.states[i])
    requires forall j :: 0 <= j < |st.negs| ==> Sorted(st.negs[j])
    ensures Filed(Arrange(DeliverAll(st)), ty, i) ==
      if ty == STATE && 1 <= i < |st.states| then st.states[i] else if ty == NEG && 0 <= i < |st.negs| then st.negs[i] else []
  {
    hide Filed, Arrange, DeliverAll;
    DeliverAllFiled(st, ty, i);
    ArrangeFiled(DeliverAll(st), ty, i);
  }

  /** All stored packets are at most as late. */
  ghost predicate AllPast(st: Stacks, now: nat) {
    && (forall i :: 1 <= i < |st.states| ==> Past(st.states[i], now))
    && (forall j :: 0 <= j < |st.negs| ==> Past(st.negs[j], now))
  }

  /** The engine can be brought to hold just these stacks when a terminator arrives. */
  lemma Reach(r: Rule, rank: int32 -> int, st: Stacks, e: PubPkt) returns (inps: seq<Input>, k: nat)
    requires WellFormed(r) && Fillable(r, rank, st) && st.states[0] == [] && AllPast(st, e.ts)
    requires OnlyFor(r, rank, STATE, 0, e)
    ensures EngineRun(r, rank, inps) && k < |inps| && inps[k] == Sole(STATE, 0, e)
    ensures forall purging: bool :: StacksAfter(r, inps, k, purging) == st
  {
    hide Sorted, Distinct, AllPast, Arrange, DeliverAll, Ordered, Fresh, OnlyFor, Receivable, WellFormed, FiledStacks;
    RuleHasRoot(r);
    var d, t := DeliverAll(st), Sole(STATE, 0, e);
    var run := Arrange(d);
    inps, k := run + [t], |run|;
    ArrangeOrdered(d);
    forall x | x in run ensures Receivable(r, rank, x) && 0 !in x.states && x.pkt.ts <= e.ts && x.pkt != e {
      DeliveredBefore(r, rank, st, x, e);
    }
    SoleReceivable(r, rank, STATE, 0, e);
    DeliverAllFresh(r, rank, st);
    ArrangeFresh(d);
    OneLast(run, t);
    assert inps[..k] == run && forall j :: 0 <= j < k ==> inps[j] == run[j] && inps[j] in run;
    forall purging: bool ensures StacksAfter(r, inps, k, purging) == st {
      CalmStacks(r, inps, k, purging);
      ArrangeFills(r, rank, st);
    }
  }

  lemma RuleHasRoot(r: Rule)
    requires WellFormed(r)
    ensures |r.predicates| > 0 && NumOf(r, STATE) == |r.predicates|
  {
  }

  lemma OneLast(run: seq<Input>, t: Input)
    requires Ordered(run) && Fresh(run) && forall x :: x in run ==> x.pkt.ts <= t.pkt.ts && x.pkt != t.pkt
    ensures Ordered(run + [t]) && Fresh(run + [t])
  {
    assert forall k :: 0 <= k < |run| ==> run[k] in run;
  }

  lemma DeliveredBefore(r: Rule, rank: int32 -> int, st: Stacks, x: Input, e: PubPkt)
    requires |r.predicates| > 0 && Fillable(r, rank, st) && AllPast(st, e.ts) && OnlyFor(r, rank, STATE, 0, e) && x in DeliverAll(st)
    ensures Receivable(r, rank, x) && 0 !in x.states && x.pkt.ts <= e.ts && x.pkt != e
  {
    hide OnlyFor, Sorted, Distinct, DeliverFrom, Receivable;
    DeliverAllOwn(r, rank, st, x);
    OwnReceivable(r, rank, x);
    var ty, i :| 0 <= i < NumOf(r, ty) && (ty == STATE ==> i > 0) && OnlyFor(r, rank, ty, i, x.pkt) && x == Sole(ty, i, x.pkt);
    if x.pkt == e { OtherKey(r, rank, ty, i, STATE, 0, e); }
    if x in DeliverFrom(STATE, st.states, 1) {
      DeliverFromMember(STATE, st.states, 1, x);
    } else {
      DeliverFromMember(NEG, st.negs, 0, x);
    }
  }
}
