/** A consumed packet is never used again. */
module Consumption {
  import opened Events
  import opened Rules
  import opened Search
  import opened Detection
  import opened Soundness
  import opened Runs
  import opened Purging

  lemma {:induction false} AfterMember(col: seq<PubPkt>, t: nat)
    ensures forall e :: e in After(col, t) ==> e in col
  {
    if col != [] { AfterMember(col[1..], t); }
  }

  lemma InsertMember(col: seq<PubPkt>, e: PubPkt, x: PubPkt)
    ensures x in Insert(col, e) <==> x in col || x == e
  {
    var at := |col| - AfterLength(col, e.ts);
    assert col == col[..at] + col[at..];
  }

  lemma {:induction false} PurgeMember(r: Rule, states: seq<seq<PubPkt>>, i: nat, k: nat, x: PubPkt)
    requires WellFormed(r) && |states| == |r.predicates| && 1 <= i <= |states| && k < |states|
    ensures x in PurgeStates(r, states, i)[k] ==> x in states[k]
    decreases |states| - i
  {
    if i < |states| {
      assert PredicateOk(r, i);
      var q := r.predicates[i];
      var s := states[i := Expire(states, q.refersTo, q.win, states[i])];
      PurgeMember(r, s, i + 1, k, x);
      if states[q.refersTo] != [] { AfterMember(states[i], Minus(states[q.refersTo][0].ts, q.win)); }
    }
  }

  /** The stacks a terminator is matched against hold only stored packets and its own. */
  ghost function Examined(r: Rule, st: Stacks, inp: Input, purging: bool): (s: Stacks)
    requires WellFormed(r) && Shaped(r, st)
    ensures Shaped(r, s)
  {
    var st1 := Receive(st, inp);
    var st0 := st1.(states := st1.states[0 := [inp.pkt]]);
    if purging then Purge(r, st0) else st0
  }

  lemma ExaminedMember(r: Rule, st: Stacks, inp: Input, purging: bool, i: nat, x: PubPkt)
    requires WellFormed(r) && Shaped(r, st) && i < |r.predicates| && x in Examined(r, st, inp, purging).states[i]
    ensures x in st.states[i] || x == inp.pkt
  {
    InsertMember(st.states[i], inp.pkt, x);
    if purging {
      PurgeMember(r, Receive(st, inp).states[0 := [inp.pkt]], 1, i, x);
    }
  }

  /** A match binds stored packets only. */
  lemma EmittedMember(r: Rule, st: Stacks, inp: Input, purging: bool, m: Partial, i: nat)
    requires WellFormed(r) && Shaped(r, st) && m in Step(r, st, inp, purging).0.matches && 1 <= i < |r.predicates|
    ensures |m| == |r.predicates| && (m[i] in st.states[i] || m[i] == inp.pkt)
  {
    var s := Examined(r, st, inp, purging);
    DetectIsExact(r, s, inp.pkt, m);
    assert ChosenEvent(r, s, m[..i], m[i]);
    ExaminedMember(r, st, inp, purging, i, m[i]);
  }

  /** What a publication leaves in a stack was there or is the published packet, and no
      packet that a match binds to a consuming state stays. */
  lemma StepMember(r: Rule, st: Stacks, inp: Input, purging: bool, i: nat, x: PubPkt)
    requires WellFormed(r) && Shaped(r, st) && 1 <= i < |r.predicates| && x in Step(r, st, inp, purging).1.states[i]
    ensures x in st.states[i] || x == inp.pkt
    ensures i in r.consuming ==> forall m :: m in Step(r, st, inp, purging).0.matches ==> |m| > i && m[i] != x
  {
    if 0 in inp.states {
      var s := Examined(r, st, inp, purging);
      var ms := Detect(r, s, inp.pkt);
      if i in r.consuming {
        WithoutMember(s.states[i], Used(ms, i), x);
        forall m | m in ms ensures |m| > i && m[i] != x {
          var k :| 0 <= k < |ms| && ms[k] == m;
          assert ms[k][i] in Used(ms, i);
        }
      }
      ExaminedMember(r, st, inp, purging, i, x);
    } else {
      InsertMember(st.states[i], inp.pkt, x);
    }
  }

  lemma {:induction false} Provenance(r: Rule, inps: seq<Input>, n: nat, purging: bool, i: nat, x: PubPkt)
    requires WellFormed(r) && n <= |inps| && 1 <= i < |r.predicates| && x in StacksAfter(r, inps, n, purging).states[i]
    ensures exists k :: 0 <= k < n && inps[k].pkt == x
  {
    hide Step, WellFormed;
    if n > 0 {
      var before := StacksAfter(r, inps, n - 1, purging);
      StepMember(r, before, inps[n - 1], purging, i, x);
      if x in before.states[i] { Provenance(r, inps, n - 1, purging, i, x); }
    }
  }

  /** A packet that has left a stack does not come back. */
  lemma {:induction false} StaysGone(r: Rule, inps: seq<Input>, a: nat, b: nat, purging: bool, i: nat, x: PubPkt)
    requires WellFormed(r) && 1 <= i < |r.predicates| && a <= b <= |inps|
    requires x !in StacksAfter(r, inps, a, purging).states[i]
    requires forall k :: a <= k < b ==> inps[k].pkt != x
    ensures x !in StacksAfter(r, inps, b, purging).states[i]
    decreases b
  {
    hide Step, WellFormed;
    if a < b {
      StaysGone(r, inps, a, b - 1, purging, i, x);
      if x in StacksAfter(r, inps, b, purging).states[i] {
        StepMember(r, StacksAfter(r, inps, b - 1, purging), inps[b - 1], purging, i, x);
      }
    }
  }

  /** A packet that a publication consumes has left, and was published by then. */
  lemma ConsumedLeaves(r: Rule, inps: seq<Input>, a: nat, purging: bool, i: nat, m: Partial)
    requires WellFormed(r) && a < |inps| && 1 <= i < |r.predicates| && i in r.consuming
    requires m in Emitted(r, inps, a, purging).matches
    ensures |m| == |r.predicates| && m[i] !in StacksAfter(r, inps, a + 1, purging).states[i]
    ensures exists k :: 0 <= k <= a && inps[k].pkt == m[i]
  {
    hide Step, WellFormed;
    var st := StacksAfter(r, inps, a, purging);
    EmittedMember(r, st, inps[a], purging, m, i);
    var x := m[i];
    if x in StacksAfter(r, inps, a + 1, purging).states[i] {
      StepMember(r, st, inps[a], purging, i, x);
      assert false;
    }
    if x in st.states[i] { Provenance(r, inps, a, purging, i, x); }
  }

  /** Main result: along every run of fresh packets, a packet bound to a consuming state by
      one publication is not bound to it by a later one. */
  lemma ConsumedOnce(r: Rule, inps: seq<Input>, a: nat, b: nat, purging: bool, i: nat, m: Partial, m': Partial)
    requires WellFormed(r) && Fresh(inps) && a < b < |inps| && 1 <= i < |r.predicates| && i in r.consuming
    requires m in Emitted(r, inps, a, purging).matches && m' in Emitted(r, inps, b, purging).matches
    ensures |m| == |m'| == |r.predicates| && m[i] != m'[i]
  {
    hide Step, WellFormed;
    ConsumedLeaves(r, inps, a, purging, i, m);
    ConsumedLeaves(r, inps, b, purging, i, m');
    var k :| 0 <= k <= a && inps[k].pkt == m[i];
    StaysGone(r, inps, a + 1, b, purging, i, m[i]);
    EmittedMember(r, StacksAfter(r, inps, b, purging), inps[b], purging, m', i);
  }

  // ---------------------------------------------------------------- no match twice

  lemma InsertDistinct(col: seq<PubPkt>, e: PubPkt)
    requires Distinct(col) && e !in col
    ensures Distinct(Insert(col, e))
  {
  }

  lemma {:induction false} AfterDistinct(col: seq<PubPkt>, t: nat)
    requires Distinct(col)
    ensures Distinct(After(col, t))
  {
    if col != [] { AfterDistinct(col[1..], t); }
  }

  lemma {:induction false} WithoutDistinct(col: seq<PubPkt>, gone: set<PubPkt>)
    requires Distinct(col)
    ensures Distinct(Without(col, gone))
  {
    if col != [] {
      WithoutDistinct(col[1..], gone);
      WithoutMember(col[1..], gone, col[0]);
      assert forall k :: 0 < k < |col| ==> col[k] == col[1..][k - 1];
    }
  }

  lemma {:induction false} PurgeDistinct(r: Rule, states: seq<seq<PubPkt>>, i: nat, k: nat)
    requires WellFormed(r) && |states| == |r.predicates| && 1 <= i <= |states| && k < |states| && Distinct(states[k])
    ensures Distinct(PurgeStates(r, states, i)[k])
    decreases |r.predicates| - i
  {
    hide Distinct;
    if i < |states| {
      assert PredicateOk(r, i);
      var q := r.predicates[i];
      ExpireDistinct(states, q.refersTo, q.win, states[i]);
      PurgeDistinct(r, states[i := Expire(states, q.refersTo, q.win, states[i])], i + 1, k);
    }
  }

  lemma ExpireDistinct(states: seq<seq<PubPkt>>, upper: int, win: nat, col: seq<PubPkt>)
    requires 0 <= upper < |states|
    ensures Distinct(col) ==> Distinct(Expire(states, upper, win, col))
  {
    if Distinct(col) && states[upper] != [] { AfterDistinct(col, Minus(states[upper][0].ts, win)); }
  }

  /** The stacks hold no packet twice, and none that is still to come. */
  lemma {:induction false} RunDistinct(r: Rule, inps: seq<Input>, n: nat, purging: bool)
    requires WellFormed(r) && Fresh(inps) && n <= |inps|
    ensures DistinctStacks(StacksAfter(r, inps, n, purging))
  {
    hide Step, WellFormed, Distinct;
    if n == 0 {
      ShortDistinct<PubPkt>([]);
    } else {
      var st := StacksAfter(r, inps, n - 1, purging);
      RunDistinct(r, inps, n - 1, purging);
      forall i | 1 <= i < |r.predicates| ensures inps[n - 1].pkt !in st.states[i] {
        if inps[n - 1].pkt in st.states[i] { Provenance(r, inps, n - 1, purging, i, inps[n - 1].pkt); }
      }
      StepDistinct(r, st, inps[n - 1], purging);
    }
  }

  lemma ShortDistinct<T>(col: seq<T>)
    requires |col| <= 1
    ensures Distinct(col)
  {
  }

  /** The stacks a terminator is matched against hold no packet twice either. */
  lemma ExaminedDistinct(r: Rule, st: Stacks, inp: Input, purging: bool)
    requires WellFormed(r) && Shaped(r, st) && DistinctStacks(st)
    requires forall i :: 1 <= i < |r.predicates| ==> inp.pkt !in st.states[i]
    ensures DistinctStacks(Receive(st, inp)) && DistinctStacks(Examined(r, st, inp, purging))
  {
    hide Distinct, Insert, PurgeStates;
    var st1 := Receive(st, inp);
    forall i | 0 <= i < |r.predicates| ensures Distinct(st1.states[i]) {
      if i > 0 { InsertDistinct(st.states[i], inp.pkt); }
    }
    var st0 := st1.(states := st1.states[0 := [inp.pkt]]);
    ShortDistinct([inp.pkt]);
    forall i | 0 <= i < |r.predicates| ensures Distinct(Examined(r, st, inp, purging).states[i]) {
      PurgeDistinct(r, st0.states, 1, i);
    }
  }

  lemma StepDistinct(r: Rule, st: Stacks, inp: Input, purging: bool)
    requires WellFormed(r) && Shaped(r, st) && DistinctStacks(st)
    requires forall i :: 1 <= i < |r.predicates| ==> inp.pkt !in st.states[i]
    ensures DistinctStacks(Step(r, st, inp, purging).1)
  {
    hide Distinct, Receive, Purge, Detect;
    ExaminedDistinct(r, st, inp, purging);
    if 0 in inp.states {
      var s := Examined(r, st, inp, purging);
      var ms := Detect(r, s, inp.pkt);
      ShortDistinct<PubPkt>([]);
      forall i | 0 <= i < |r.predicates| ensures Distinct(Step(r, st, inp, purging).1.states[i]) {
        WithoutDistinct(s.states[i], Used(ms, i));
      }
    }
  }

  /** Main result: along every run of fresh packets, no publication emits a match twice. */
  lemma EmittedDistinct(r: Rule, inps: seq<Input>, k: nat, purging: bool)
    requires WellFormed(r) && Fresh(inps) && k < |inps|
    ensures Distinct(Emitted(r, inps, k, purging).matches)
  {
    hide Distinct, Receive, Purge, Detect, WellFormed;
    var st := StacksAfter(r, inps, k, purging);
    RunDistinct(r, inps, k, purging);
    forall i | 1 <= i < |r.predicates| ensures inps[k].pkt !in st.states[i] {
      if inps[k].pkt in st.states[i] { Provenance(r, inps, k, purging, i, inps[k].pkt); }
    }
    ExaminedDistinct(r, st, inps[k], purging);
    DetectDistinct(r, Examined(r, st, inps[k], purging), inps[k].pkt);
    ShortDistinct<Partial>([]);
  }
}
