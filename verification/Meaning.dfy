/** What a rule means over a history of packets, without an index, stacks, expiry or a detector. */
module Meaning {
  import opened Events
  import opened Rules
  import opened Search
  import opened Detection
  import opened Soundness
  import opened Aggregates
  import opened Runs
  import opened Purging
  import opened PurgeLimits
  import opened Indexing
  import opened IndexingTables
  import opened Reception
  import opened Timelines
  import Consumption

  /** The packets that pass the naive check of one target. */
  function Passing(r: Rule, rank: int32 -> int, ty: StateType, i: int, pkts: seq<PubPkt>): seq<PubPkt>
    requires 0 <= i < NumOf(r, ty)
  {
    if pkts == [] then []
    else
      var n := |pkts| - 1;
      Passing(r, rank, ty, i, pkts[..n]) + if Reported(r, rank, ty, i, pkts[n]) then [pkts[n]] else []
  }

  /** The packets among the first n that pass for state i and that no declared match of an
      earlier packet than number k has used up. */
  ghost function Unspent(r: Rule, rank: int32 -> int, pkts: seq<PubPkt>, k: nat, i: int, n: nat): seq<PubPkt>
    requires WellFormed(r) && k <= |pkts| && n <= |pkts| && 0 <= i < |r.predicates|
    decreases k, 2, n
  {
    if n == 0 then []
    else
      Unspent(r, rank, pkts, k, i, n - 1)
      + if Reported(r, rank, STATE, i, pkts[n - 1]) && !Spent(r, rank, pkts, k, i, pkts[n - 1]) then [pkts[n - 1]] else []
  }

  /** Some declared match of a packet before number k has bound `p` to the consuming state i. */
  ghost predicate Spent(r: Rule, rank: int32 -> int, pkts: seq<PubPkt>, k: nat, i: int, p: PubPkt)
    requires WellFormed(r) && k <= |pkts| && 0 <= i < |r.predicates|
    decreases k, 1, 0
  {
    i in r.consuming && exists a: nat, m: Partial :: a < k && Declared(r, rank, pkts, a, m) && i < |m| && m[i] == p
  }

  /** Everything a match of packet k can be made of. */
  ghost function Seen(r: Rule, rank: int32 -> int, pkts: seq<PubPkt>, k: nat): (st: Stacks)
    requires WellFormed(r) && k < |pkts|
    ensures Shaped(r, st)
    decreases k, 3, 0
  {
    Stacks(seq(|r.predicates|, i requires 0 <= i < |r.predicates| =>
             if i == 0 then [pkts[k]] else Unspent(r, rank, pkts, k, i, k + 1)),
           seq(|r.negations|, j requires 0 <= j < |r.negations| => Passing(r, rank, NEG, j, pkts[..k + 1])),
           seq(|r.aggregates|, a requires 0 <= a < |r.aggregates| => Passing(r, rank, AGG, a, pkts[..k + 1])))
  }

  /** Packet k completes the match `m`: it passes the check of state 0, and `m` is a match of
      what has passed the checks of the others. */
  ghost predicate Declared(r: Rule, rank: int32 -> int, pkts: seq<PubPkt>, k: nat, m: Partial)
    requires WellFormed(r) && k < |pkts|
    decreases k, 4, 0
  {
    Reported(r, rank, STATE, 0, pkts[k]) && IsMatch(r, Seen(r, rank, pkts, k), pkts[k], m)
  }

  // ---------------------------------------------------------------- the rule's run, unpurged

  function PktsOf(inps: seq<Input>): (pkts: seq<PubPkt>)
    ensures |pkts| == |inps|
  {
    seq(|inps|, k requires 0 <= k < |inps| => inps[k].pkt)
  }

  lemma UnspentMember(r: Rule, rank: int32 -> int, pkts: seq<PubPkt>, k: nat, i: int, n: nat, p: PubPkt)
    requires WellFormed(r) && k <= |pkts| && n <= |pkts| && 0 <= i < |r.predicates| && p in Unspent(r, rank, pkts, k, i, n)
    ensures exists a :: 0 <= a < n && pkts[a] == p
  {
    hide Spent, Reported;
    if n > 0 && p in Unspent(r, rank, pkts, k, i, n - 1) { UnspentMember(r, rank, pkts, k, i, n - 1, p); }
  }

  /** What has been used up was published by then. */
  lemma SpentBefore(r: Rule, rank: int32 -> int, pkts: seq<PubPkt>, k: nat, i: int, p: PubPkt)
    requires WellFormed(r) && k <= |pkts| && 1 <= i < |r.predicates| && Spent(r, rank, pkts, k, i, p)
    ensures exists a :: 0 <= a < k && pkts[a] == p
  {
    hide Unspent, Reported;
    var b: nat, m: Partial :| b < k && Declared(r, rank, pkts, b, m) && i < |m| && m[i] == p;
    assert ChosenEvent(r, Seen(r, rank, pkts, b), m[..i], m[i]);
    UnspentMember(r, rank, pkts, b, i, b + 1, p);
  }

  lemma SpentMore(r: Rule, rank: int32 -> int, pkts: seq<PubPkt>, k: nat, i: int, p: PubPkt)
    requires WellFormed(r) && k < |pkts| && 0 <= i < |r.predicates|
    ensures Spent(r, rank, pkts, k + 1, i, p)
       <==> Spent(r, rank, pkts, k, i, p) || (i in r.consuming && exists m: Partial :: Declared(r, rank, pkts, k, m) && i < |m| && m[i] == p)
  {
    hide Declared;
  }

  /** Using up what the matches of packet k bind. */
  lemma {:induction false} UnspentLess(r: Rule, rank: int32 -> int, pkts: seq<PubPkt>, k: nat, i: int, n: nat, gone: set<PubPkt>)
    requires WellFormed(r) && k < |pkts| && n <= |pkts| && 0 <= i < |r.predicates|
    requires forall p :: p in gone <==> i in r.consuming && exists m: Partial :: Declared(r, rank, pkts, k, m) && i < |m| && m[i] == p
    ensures Without(Unspent(r, rank, pkts, k, i, n), gone) == Unspent(r, rank, pkts, k + 1, i, n)
  {
    hide Declared, Spent, Reported;
    if n > 0 {
      var p, u := pkts[n - 1], Unspent(r, rank, pkts, k, i, n - 1);
      UnspentLess(r, rank, pkts, k, i, n - 1, gone);
      SpentMore(r, rank, pkts, k, i, p);
      WithoutAppend(u, if Reported(r, rank, STATE, i, p) && !Spent(r, rank, pkts, k, i, p) then [p] else [], gone);
    }
  }

  /** The stacks between two publications: state i holds what has passed and is not used up. */
  ghost function Stored(r: Rule, rank: int32 -> int, pkts: seq<PubPkt>, n: nat): (st: Stacks)
    requires WellFormed(r) && n <= |pkts|
    ensures Shaped(r, st)
  {
    Stacks(seq(|r.predicates|, i requires 0 <= i < |r.predicates| => if i == 0 then [] else Unspent(r, rank, pkts, n, i, n)),
           seq(|r.negations|, j requires 0 <= j < |r.negations| => Passing(r, rank, NEG, j, pkts[..n])),
           seq(|r.aggregates|, a requires 0 <= a < |r.aggregates| => Passing(r, rank, AGG, a, pkts[..n])))
  }

  lemma PassingMember(r: Rule, rank: int32 -> int, ty: StateType, i: int, pkts: seq<PubPkt>, p: PubPkt)
    requires 0 <= i < NumOf(r, ty) && p in Passing(r, rank, ty, i, pkts)
    ensures p in pkts
  {
    hide Reported;
    if pkts != [] && p in Passing(r, rank, ty, i, pkts[..|pkts| - 1]) { PassingMember(r, rank, ty, i, pkts[..|pkts| - 1], p); }
  }

  lemma ReceivePassing(r: Rule, rank: int32 -> int, inps: seq<Input>, n: nat, ty: StateType, i: int)
    requires EngineRun(r, rank, inps) && n < |inps| && 0 <= i < NumOf(r, ty)
    ensures Passing(r, rank, ty, i, PktsOf(inps)[..n + 1])
         == if i in KeysOf(inps[n], ty) then Insert(Passing(r, rank, ty, i, PktsOf(inps)[..n]), inps[n].pkt) else Passing(r, rank, ty, i, PktsOf(inps)[..n])
  {
    hide Insert, Reported;
    var pkts := PktsOf(inps);
    var f := Passing(r, rank, ty, i, pkts[..n]);
    assert Receivable(r, rank, inps[n]);
    assert pkts[..n + 1][..n] == pkts[..n] && pkts[..n + 1][n] == inps[n].pkt;
    forall k | 0 <= k < |f| ensures f[k].ts <= inps[n].pkt.ts {
      PassingMember(r, rank, ty, i, pkts[..n], f[k]);
    }
    InsertLast(f, inps[n].pkt);
    NoneBefore(f);
    assert i in KeysOf(inps[n], ty) <==> Reported(r, rank, ty, i, inps[n].pkt);
  }

  lemma ReceiveUnspent(r: Rule, rank: int32 -> int, inps: seq<Input>, n: nat, i: int)
    requires WellFormed(r) && EngineRun(r, rank, inps) && n < |inps| && 1 <= i < |r.predicates|
    ensures Unspent(r, rank, PktsOf(inps), n, i, n + 1)
         == if i in inps[n].states then Insert(Unspent(r, rank, PktsOf(inps), n, i, n), inps[n].pkt) else Unspent(r, rank, PktsOf(inps), n, i, n)
  {
    hide Insert, Reported, Spent, WellFormed;
    var pkts := PktsOf(inps);
    var f := Unspent(r, rank, pkts, n, i, n);
    assert Receivable(r, rank, inps[n]);
    forall k | 0 <= k < |f| ensures f[k].ts <= inps[n].pkt.ts { UnspentMember(r, rank, pkts, n, i, n, f[k]); }
    InsertLast(f, inps[n].pkt);
    NoneBefore(f);
    if Spent(r, rank, pkts, n, i, pkts[n]) { SpentBefore(r, rank, pkts, n, i, pkts[n]); }
  }

  /** Storing packet n turns what is stored into what its matches are made of, but for the
      terminator's own stack. */
  lemma ReceiveSeen(r: Rule, rank: int32 -> int, inps: seq<Input>, n: nat)
    requires WellFormed(r) && EngineRun(r, rank, inps) && n < |inps|
    ensures var st, seen := Receive(Stored(r, rank, PktsOf(inps), n), inps[n]), Seen(r, rank, PktsOf(inps), n);
            |st.states| == |r.predicates| && st.(states := st.states[0 := [inps[n].pkt]]) == seen
  {
    hide Insert, Unspent, Passing, EngineRun, WellFormed, NumOf;
    var pkts := PktsOf(inps);
    var st, seen := Receive(Stored(r, rank, pkts, n), inps[n]), Seen(r, rank, pkts, n);
    assert |r.predicates| > 0 by { RuleHasRoot(r); }
    forall i | 1 <= i < |r.predicates| ensures st.states[i] == seen.states[i] { ReceiveUnspent(r, rank, inps, n, i); }
    forall j | 0 <= j < |r.negations| ensures st.negs[j] == seen.negs[j] { NumIs(r); ReceivePassing(r, rank, inps, n, NEG, j); }
    forall a | 0 <= a < |r.aggregates| ensures st.aggs[a] == seen.aggs[a] { NumIs(r); ReceivePassing(r, rank, inps, n, AGG, a); }
    assert st.states[0 := [inps[n].pkt]] == seen.states && st.negs == seen.negs && st.aggs == seen.aggs;
  }

  lemma NumIs(r: Rule)
    ensures NumOf(r, STATE) == |r.predicates| && NumOf(r, NEG) == |r.negations| && NumOf(r, AGG) == |r.aggregates|
  {
  }

  /** What packet n's terminator leaves is what is stored next. */
  lemma ConsumeStored(r: Rule, rank: int32 -> int, inps: seq<Input>, n: nat, ms: seq<Partial>)
    requires WellFormed(r) && n < |inps| && AllBound(ms, |r.predicates|)
    requires forall m :: m in ms <==> Declared(r, rank, PktsOf(inps), n, m)
    ensures Consume(r, Seen(r, rank, PktsOf(inps), n).states, ms)[0 := []] == Stored(r, rank, PktsOf(inps), n + 1).states
  {
    hide Unspent, Passing, WellFormed, Declared;
    RuleHasRoot(r);
    var pkts := PktsOf(inps);
    var a, b := Consume(r, Seen(r, rank, pkts, n).states, ms)[0 := []], Stored(r, rank, pkts, n + 1).states;
    forall i | 1 <= i < |r.predicates| ensures a[i] == b[i] {
      var gone := if i in r.consuming then Used(ms, i) else {};
      forall p ensures p in gone <==> i in r.consuming && exists m: Partial :: Declared(r, rank, pkts, n, m) && i < |m| && m[i] == p {
        UsedMember(ms, i, p);
      }
      UnspentLess(r, rank, pkts, n, i, n + 1, gone);
      WithoutNone(Unspent(r, rank, pkts, n, i, n + 1));
    }
    assert a == b;
  }

  lemma UsedMember(ms: seq<Partial>, i: nat, p: PubPkt)
    requires forall k :: 0 <= k < |ms| ==> i < |ms[k]|
    ensures p in Used(ms, i) <==> exists m: Partial :: m in ms && i < |m| && m[i] == p
  {
    if m: Partial :| m in ms && i < |m| && m[i] == p {
      var k :| 0 <= k < |ms| && ms[k] == m;
      assert ms[k][i] in Used(ms, i);
    }
  }

  lemma {:induction false} WithoutNone(col: seq<PubPkt>)
    ensures Without(col, {}) == col
  {
    if col != [] {
      WithoutNone(col[1..]);
      HeadTail(col);
    }
  }

  /** Along every run the engine can receive, the stacks without expiry are what the history
      leaves, and what a publication emits is exactly what it completes. */
  lemma {:induction false} StoredIs(r: Rule, rank: int32 -> int, inps: seq<Input>, n: nat)
    requires WellFormed(r) && EngineRun(r, rank, inps) && n <= |inps|
    ensures StacksAfter(r, inps, n, false) == Stored(r, rank, PktsOf(inps), n)
    decreases n, 0
  {
    hide Step, Stored, EngineRun, WellFormed;
    if n == 0 {
      StoredNothing(r, rank, PktsOf(inps));
    } else {
      StoredIs(r, rank, inps, n - 1);
      StepStored(r, rank, inps, n - 1);
    }
  }

  lemma StoredNothing(r: Rule, rank: int32 -> int, pkts: seq<PubPkt>)
    requires WellFormed(r)
    ensures Stored(r, rank, pkts, 0) == Empty(r)
  {
    var a, b := Stored(r, rank, pkts, 0), Empty(r);
    assert a.states == b.states && a.negs == b.negs && a.aggs == b.aggs;
  }

  lemma StepStored(r: Rule, rank: int32 -> int, inps: seq<Input>, n: nat)
    requires WellFormed(r) && EngineRun(r, rank, inps) && n < |inps|
    ensures var pkts := PktsOf(inps);
            var res := Step(r, Stored(r, rank, pkts, n), inps[n], false);
            res.1 == Stored(r, rank, pkts, n + 1)
            && (forall m :: m in res.0.matches <==> Declared(r, rank, pkts, n, m))
            && res.0.aggs == Seen(r, rank, pkts, n).aggs
  {
    hide Stored, Seen, WellFormed, Receive, Detect, IsMatch, Consume, Reported, NumOf;
    var pkts := PktsOf(inps);
    var st, seen := Receive(Stored(r, rank, pkts, n), inps[n]), Seen(r, rank, pkts, n);
    ReceiveSeen(r, rank, inps, n);
    NumIs(r);
    RuleHasRoot(r);
    assert Receivable(r, rank, inps[n]);
    assert 0 in inps[n].states <==> Reported(r, rank, STATE, 0, pkts[n]);
    var ms := if 0 in inps[n].states then Detect(r, seen, pkts[n]) else [];
    forall m ensures m in ms <==> Declared(r, rank, pkts, n, m) { DetectIsExact(r, seen, pkts[n], m); }
    ConsumeStored(r, rank, inps, n, ms);
    StoredSides(r, rank, pkts, n);
    if 0 !in inps[n].states {
      RootStays(Stored(r, rank, pkts, n), inps[n]);
      ConsumeNothing(r, seen.states, st.states, pkts[n]);
    }
  }

  lemma StoredSides(r: Rule, rank: int32 -> int, pkts: seq<PubPkt>, n: nat)
    requires WellFormed(r) && n < |pkts|
    ensures Stored(r, rank, pkts, n + 1).negs == Seen(r, rank, pkts, n).negs && Stored(r, rank, pkts, n + 1).aggs == Seen(r, rank, pkts, n).aggs
    ensures |r.predicates| > 0 && Stored(r, rank, pkts, n).states[0] == []
  {
    hide Unspent;
  }

  lemma RootStays(st: Stacks, inp: Input)
    requires |st.states| > 0
    ensures |Receive(st, inp).states| == |st.states| && Receive(st, inp).states[0] == st.states[0]
  {
    hide Insert;
  }

  lemma ConsumeNothing(r: Rule, seen: seq<seq<PubPkt>>, states: seq<seq<PubPkt>>, e: PubPkt)
    requires WellFormed(r) && |seen| == |states| == |r.predicates| > 0 && states[0 := [e]] == seen && states[0] == []
    ensures Consume(r, seen, [])[0 := []] == states
  {
    hide WellFormed;
    var a := Consume(r, seen, [])[0 := []];
    forall i | 1 <= i < |states| ensures a[i] == states[i] {
      assert Used([], i) == {};
      WithoutNone(seen[i]);
    }
    assert a == states;
  }

  /** Main result: what a publication makes a rule report, with the index before it and expiry
      inside it, is exactly what the history of packets declares, unless the rule is one whose
      expiry can be seen. */
  lemma EmittedIsDeclared(r: Rule, rank: int32 -> int, inps: seq<Input>, k: nat)
    requires WellFormed(r) && (PurgeSafe(r) || Unmatchable(r)) && EngineRun(r, rank, inps) && k < |inps|
    ensures var em := Emitted(r, inps, k, true);
            Distinct(em.matches) && (forall m :: m in em.matches <==> Declared(r, rank, PktsOf(inps), k, m))
            && forall i, j, x :: 0 <= i < |em.matches| && 0 <= j < |r.aggregates| && r.aggregates[j].lowerId < 0 ==>
                 (AggregateIs(r, j, em.aggs[j], em.matches[i], x) <==> AggregateIs(r, j, Seen(r, rank, PktsOf(inps), k).aggs[j], em.matches[i], x))
  {
    hide Step, Stored, Seen, WellFormed, PurgeSafe, Unmatchable, Declared, Distinct, AggregateIs, Receivable, StacksAfter;
    SafeIsInvisible(r, inps, k);
    StoredIs(r, rank, inps, k);
    StepStored(r, rank, inps, k);
    Consumption.EmittedDistinct(r, inps, k, true);
  }
}
