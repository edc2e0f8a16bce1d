/** What an expiry removes and what it leaves, packet by packet. */
module Expiry {
  import opened Events
  import opened Rules
  import opened Search
  import opened Detection
  import opened Soundness
  import opened Runs
  import opened Purging
  import opened Consumption

  /** Element k of a stack survives an expiry that looks back `win` from time `t`: it is later
      than that, or it is the newest and sits exactly there. Time does not go below zero. */
  predicate Outlives(col: seq<PubPkt>, k: nat, t: nat, win: nat)
    requires k < |col|
  {
    var ts := col[k].ts;
    (ts > 0 && ts + win > t) || (k == |col| - 1 && (ts + win == t || (ts == 0 && t <= win)))
  }

  /** Exactly the elements from number `cut` on survive. */
  ghost predicate CutAt(col: seq<PubPkt>, t: nat, win: nat, cut: nat) {
    cut <= |col| && forall k :: 0 <= k < |col| ==> (k >= cut <==> Outlives(col, k, t, win))
  }

  /** `left` is what an expiry leaves of `col`: exactly the elements that survive, looking back
      from the oldest packet of `upper`, and everything when there is none. */
  ghost predicate Leaves(col: seq<PubPkt>, upper: seq<PubPkt>, win: nat, left: seq<PubPkt>) {
    if upper == [] then left == col
    else exists cut: nat :: CutAt(col, upper[0].ts, win, cut) && left == col[cut..]
  }

  /** Every state's stack has expired by its window against what is left of the state it refers
      to; a negation's against its upper state, by the lower state's window when it is between
      states and by its own otherwise; an aggregate's against its upper state by its own. */
  ghost predicate Cleared(r: Rule, before: Stacks, after: Stacks)
    requires WellFormed(r)
  {
    && Shaped(r, before) && Shaped(r, after) && after.states[0] == before.states[0]
    && (forall i :: 1 <= i < |r.predicates| ==> StateCleared(r, before, after, i))
    && (forall j :: 0 <= j < |r.negations| ==> NegCleared(r, before, after, j))
    && (forall a :: 0 <= a < |r.aggregates| ==> AggCleared(r, before, after, a))
  }

  ghost predicate StateCleared(r: Rule, before: Stacks, after: Stacks, i: nat)
    requires WellFormed(r) && Shaped(r, before) && Shaped(r, after) && 1 <= i < |r.predicates|
  {
    assert PredicateOk(r, i);
    Leaves(before.states[i], after.states[r.predicates[i].refersTo], r.predicates[i].win, after.states[i])
  }

  ghost predicate NegCleared(r: Rule, before: Stacks, after: Stacks, j: nat)
    requires WellFormed(r) && Shaped(r, before) && Shaped(r, after) && j < |r.negations|
  {
    var g := r.negations[j];
    assert NegationOk(r, g);
    Leaves(before.negs[j], after.states[g.upperId], if g.lowerId >= 0 then r.predicates[g.lowerId].win else g.lowerTime, after.negs[j])
  }

  ghost predicate AggCleared(r: Rule, before: Stacks, after: Stacks, a: nat)
    requires WellFormed(r) && Shaped(r, before) && Shaped(r, after) && a < |r.aggregates|
  {
    var g := r.aggregates[a];
    assert AggregateOk(r, g);
    Leaves(before.aggs[a], after.states[g.upperId], g.lowerTime, after.aggs[a])
  }

  ghost predicate SortedStacks(st: Stacks) {
    && (forall i :: 0 <= i < |st.states| ==> Sorted(st.states[i]))
    && (forall j :: 0 <= j < |st.negs| ==> Sorted(st.negs[j]))
    && (forall a :: 0 <= a < |st.aggs| ==> Sorted(st.aggs[a]))
  }

  // ---------------------------------------------------------------- the purge

  lemma ExpireLeaves(states: seq<seq<PubPkt>>, upper: int, win: nat, col: seq<PubPkt>)
    requires 0 <= upper < |states| && Sorted(col)
    ensures Leaves(col, states[upper], win, Expire(states, upper, win, col))
  {
    if states[upper] != [] {
      var t := states[upper][0].ts;
      var cut := UnexpiredIsSuffix(col, Minus(t, win));
      assert CutAt(col, t, win, cut);
    }
  }

  /** States expire in order, each against one that has. */
  lemma {:induction false} PurgeStatesLeaves(r: Rule, states: seq<seq<PubPkt>>, i: nat, k: nat)
    requires WellFormed(r) && |states| == |r.predicates| && 1 <= i <= k < |states|
    requires forall j :: 0 <= j < |states| ==> Sorted(states[j])
    ensures PredicateOk(r, k)
    ensures Leaves(states[k], PurgeStates(r, states, i)[r.predicates[k].refersTo], r.predicates[k].win, PurgeStates(r, states, i)[k])
    decreases |states| - i
  {
    hide Leaves, Expire, Sorted;
    assert PredicateOk(r, i) && PredicateOk(r, k);
    var q := r.predicates[i];
    var s := states[i := Expire(states, q.refersTo, q.win, states[i])];
    ExpireLeaves(states, q.refersTo, q.win, states[i]);
    if i < k {
      ExpireSorted(states, q.refersTo, q.win, states[i]);
      PurgeStatesLeaves(r, s, i + 1, k);
    }
  }

  lemma ExpireSorted(states: seq<seq<PubPkt>>, upper: int, win: nat, col: seq<PubPkt>)
    requires 0 <= upper < |states| && Sorted(col)
    ensures Sorted(Expire(states, upper, win, col))
  {
    if states[upper] != [] { var cut := UnexpiredIsSuffix(col, Minus(states[upper][0].ts, win)); }
  }

  /** A purge clears the stacks. */
  lemma PurgeClears(r: Rule, st: Stacks)
    requires WellFormed(r) && Shaped(r, st) && SortedStacks(st)
    ensures Cleared(r, st, Purge(r, st))
  {
    hide Leaves, Expire, Sorted, PurgeStates, PredicateOk, ParamOk;
    var s := PurgeStates(r, st.states, 1);
    forall i | 1 <= i < |r.predicates| ensures StateCleared(r, st, Purge(r, st), i) { PurgeStatesLeaves(r, st.states, 1, i); }
    forall j | 0 <= j < |r.negations| ensures NegCleared(r, st, Purge(r, st), j) {
      assert NegationOk(r, r.negations[j]);
      ExpireLeaves(s, r.negations[j].upperId, NegPurgeWindow(r, r.negations[j]), st.negs[j]);
    }
    forall a | 0 <= a < |r.aggregates| ensures AggCleared(r, st, Purge(r, st), a) {
      assert AggregateOk(r, r.aggregates[a]);
      ExpireLeaves(s, r.aggregates[a].upperId, r.aggregates[a].lowerTime, st.aggs[a]);
    }
    RootStays(r, st.states);
  }

  lemma RootStays(r: Rule, states: seq<seq<PubPkt>>)
    requires WellFormed(r) && |states| == |r.predicates|
    ensures |states| > 0 && PurgeStates(r, states, 1)[0] == states[0]
  {
  }

  // ---------------------------------------------------------------- a terminator

  /** What is stored when a terminator arrives, with the terminator. */
  function Arrived(r: Rule, st: Stacks, inp: Input): (s: Stacks)
    requires WellFormed(r) && Shaped(r, st)
    ensures Shaped(r, s)
  {
    var st1 := Receive(st, inp);
    st1.(states := st1.states[0 := [inp.pkt]])
  }

  /** Main result: a terminator clears the stacks, is matched against what is left, and then
      exactly the packets that its matches bind to consuming states are removed too. */
  lemma TerminatorExpires(r: Rule, st: Stacks, inp: Input) returns (left: Stacks)
    requires WellFormed(r) && Shaped(r, st) && SortedStacks(st) && 0 in inp.states
    ensures Cleared(r, Arrived(r, st, inp), left)
    ensures var res := Step(r, st, inp, true);
            res.0.matches == Detect(r, left, inp.pkt) && res.1.negs == left.negs && res.1.aggs == left.aggs && res.0.aggs == left.aggs
            && (forall i, x :: 1 <= i < |r.predicates| ==> (x in res.1.states[i] <==>
                 x in left.states[i] && !(i in r.consuming && exists k :: 0 <= k < |res.0.matches| && res.0.matches[k][i] == x)))
  {
    hide Purge, Detect, Leaves, Sorted, WellFormed, Receive, Cleared, Without;
    left := Examined(r, st, inp, true);
    ReceiveSorted(r, st, inp);
    PurgeClears(r, Arrived(r, st, inp));
    var res := Step(r, st, inp, true);
    var ms := Detect(r, left, inp.pkt);
    forall i, x | 1 <= i < |r.predicates|
      ensures x in res.1.states[i] <==> x in left.states[i] && !(i in r.consuming && exists k :: 0 <= k < |ms| && ms[k][i] == x)
    {
      WithoutMember(left.states[i], Used(ms, i), x);
    }
  }

  /** What a terminator leaves for a state that refers to it is recent: later than the
      terminator less the window, or the one newest packet exactly there. */
  lemma LeftIsRecent(r: Rule, st: Stacks, inp: Input, i: nat, x: PubPkt)
    requires WellFormed(r) && Shaped(r, st) && SortedStacks(st) && 0 in inp.states
    requires 1 <= i < |r.predicates| && r.predicates[i].refersTo == 0 && x in Step(r, st, inp, true).1.states[i]
    ensures var win := r.predicates[i].win;
            x.ts + win > inp.pkt.ts || (x.ts + win == inp.pkt.ts && forall y :: y in Step(r, st, inp, true).1.states[i] ==> y.ts <= x.ts)
  {
    hide Purge, Detect, Sorted, ParamOk, Insert, Step, Leaves;
    var left := TerminatorExpires(r, st, inp);
    assert StateCleared(r, Arrived(r, st, inp), left, i) && left.states[0] == [inp.pkt];
    var col, rest := Arrived(r, st, inp).states[i], Step(r, st, inp, true).1.states[i];
    ReceiveSorted(r, st, inp);
    LeftBound(col, [inp.pkt], r.predicates[i].win, left.states[i], x);
    forall y | y in rest ensures y in left.states[i] {
    }
  }

  lemma LeftBound(col: seq<PubPkt>, upper: seq<PubPkt>, win: nat, left: seq<PubPkt>, x: PubPkt)
    requires upper != [] && Leaves(col, upper, win, left) && Sorted(col) && x in left
    ensures x.ts + win > upper[0].ts || (x.ts + win == upper[0].ts && forall y :: y in left ==> y.ts <= x.ts)
  {
    var t := upper[0].ts;
    var cut: nat :| CutAt(col, t, win, cut) && left == col[cut..];
    var k :| 0 <= k < |left| && left[k] == x;
    SuffixAt(col, cut, k);
    assert Outlives(col, cut + k, t, win);
    if x.ts + win <= t { LastIsNewest(col, cut, x); }
  }

  lemma SuffixAt(col: seq<PubPkt>, cut: nat, k: nat)
    requires cut + k < |col|
    ensures col[cut..][k] == col[cut + k]
  {
  }

  lemma LastIsNewest(col: seq<PubPkt>, cut: nat, x: PubPkt)
    requires Sorted(col) && cut < |col| && col[|col| - 1] == x
    ensures forall y :: y in col[cut..] ==> y.ts <= x.ts
  {
    forall y | y in col[cut..] ensures y.ts <= x.ts {
      var l :| 0 <= l < |col| - cut && col[cut..][l] == y;
      SuffixAt(col, cut, l);
    }
  }

  // ---------------------------------------------------------------- sorted runs

  lemma InsertIsAt(col: seq<PubPkt>, e: PubPkt, k: nat)
    requires k <= |col|
    requires forall j :: 0 <= j < k ==> col[j].ts <= e.ts
    requires k < |col| ==> col[k].ts > e.ts
    ensures Insert(col, e) == col[..k] + [e] + col[k..]
  {
    AfterAt(col, e.ts, k);
  }

  lemma InsertSorted(col: seq<PubPkt>, e: PubPkt)
    requires Sorted(col)
    ensures Sorted(Insert(col, e))
  {
    var cut := AfterIsSuffix(col, e.ts);
    InsertIsAt(col, e, cut);
    SortedAround(col, e, cut);
  }

  lemma SortedAround(col: seq<PubPkt>, e: PubPkt, cut: nat)
    requires Sorted(col) && cut <= |col|
    requires forall k :: 0 <= k < cut ==> col[k].ts <= e.ts
    requires forall k :: cut <= k < |col| ==> col[k].ts > e.ts
    ensures Sorted(col[..cut] + [e] + col[cut..])
  {
    var s := col[..cut] + [e] + col[cut..];
    assert forall k :: 0 <= k < cut ==> s[k] == col[k];
    assert forall k :: cut < k < |s| ==> s[k] == col[k - 1];
  }

  lemma ReceiveSorted(r: Rule, st: Stacks, inp: Input)
    requires WellFormed(r) && Shaped(r, st) && SortedStacks(st)
    ensures SortedStacks(Receive(st, inp)) && SortedStacks(Arrived(r, st, inp))
  {
    hide Insert, Sorted;
    forall i | 0 <= i < |st.states| ensures Sorted(Receive(st, inp).states[i]) { InsertSorted(st.states[i], inp.pkt); }
    forall j | 0 <= j < |st.negs| ensures Sorted(Receive(st, inp).negs[j]) { InsertSorted(st.negs[j], inp.pkt); }
    forall a | 0 <= a < |st.aggs| ensures Sorted(Receive(st, inp).aggs[a]) { InsertSorted(st.aggs[a], inp.pkt); }
    OneSorted(inp.pkt);
  }

  lemma OneSorted(e: PubPkt)
    ensures Sorted([e]) && Sorted([])
  {
  }

  lemma LeavesSorted(col: seq<PubPkt>, upper: seq<PubPkt>, win: nat, left: seq<PubPkt>)
    requires Sorted(col) && Leaves(col, upper, win, left)
    ensures Sorted(left)
  {
  }

  lemma ClearedSorted(r: Rule, before: Stacks, after: Stacks)
    requires WellFormed(r) && Cleared(r, before, after) && SortedStacks(before)
    ensures SortedStacks(after)
  {
    hide Leaves, Sorted, ParamOk;
    forall i | 0 <= i < |after.states| ensures Sorted(after.states[i]) {
      if i > 0 {
        assert PredicateOk(r, i) && StateCleared(r, before, after, i);
        LeavesSorted(before.states[i], after.states[r.predicates[i].refersTo], r.predicates[i].win, after.states[i]);
      }
    }
    forall j | 0 <= j < |after.negs| ensures Sorted(after.negs[j]) {
      assert NegationOk(r, r.negations[j]) && NegCleared(r, before, after, j);
      var g := r.negations[j];
      LeavesSorted(before.negs[j], after.states[g.upperId], if g.lowerId >= 0 then r.predicates[g.lowerId].win else g.lowerTime, after.negs[j]);
    }
    forall a | 0 <= a < |after.aggs| ensures Sorted(after.aggs[a]) {
      assert AggregateOk(r, r.aggregates[a]) && AggCleared(r, before, after, a);
      LeavesSorted(before.aggs[a], after.states[r.aggregates[a].upperId], r.aggregates[a].lowerTime, after.aggs[a]);
    }
  }

  lemma StepSorted(r: Rule, st: Stacks, inp: Input)
    requires WellFormed(r) && Shaped(r, st) && SortedStacks(st)
    ensures SortedStacks(Step(r, st, inp, true).1)
  {
    hide Purge, Detect, Sorted, WellFormed, Receive, Cleared;
    ReceiveSorted(r, st, inp);
    if 0 in inp.states {
      PurgeClears(r, Arrived(r, st, inp));
      var left := Examined(r, st, inp, true);
      ClearedSorted(r, Arrived(r, st, inp), left);
      var ms, after := Detect(r, left, inp.pkt), Step(r, st, inp, true).1;
      OneSorted(inp.pkt);
      forall i | 0 <= i < |after.states| ensures Sorted(after.states[i]) { WithoutSorted(left.states[i], Used(ms, i)); }
    }
  }

  /** Along every run, whatever the order of the time stamps, stacks are sorted. */
  lemma {:induction false} RunSorted(r: Rule, inps: seq<Input>, n: nat)
    requires WellFormed(r) && n <= |inps|
    ensures SortedStacks(StacksAfter(r, inps, n, true))
  {
    hide Step, WellFormed;
    if n > 0 {
      RunSorted(r, inps, n - 1);
      StepSorted(r, StacksAfter(r, inps, n - 1, true), inps[n - 1]);
    }
  }

  /** Main result: along every run each terminator clears the stacks. */
  lemma RunExpires(r: Rule, inps: seq<Input>, k: nat) returns (left: Stacks)
    requires WellFormed(r) && k < |inps| && 0 in inps[k].states
    ensures Cleared(r, Arrived(r, StacksAfter(r, inps, k, true), inps[k]), left)
    ensures Emitted(r, inps, k, true).matches == Detect(r, left, inps[k].pkt)
    ensures var st := StacksAfter(r, inps, k + 1, true);
            st.negs == left.negs && st.aggs == left.aggs
            && (forall i, x :: 1 <= i < |r.predicates| ==> (x in st.states[i] <==>
                 x in left.states[i] && !(i in r.consuming && exists l :: 0 <= l < |Emitted(r, inps, k, true).matches| && Emitted(r, inps, k, true).matches[l][i] == x)))
  {
    hide Step, WellFormed, Cleared, Detect;
    RunSorted(r, inps, k);
    left := TerminatorExpires(r, StacksAfter(r, inps, k, true), inps[k]);
  }
}
