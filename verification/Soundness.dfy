/** Detection is sound, complete and free of duplicates. */
module Soundness {
  import opened Events
  import opened Rules
  import opened Detection

  /** Element k of the next state's stack is the one a partial event is extended with. */
  ghost predicate Chosen(r: Rule, st: Stacks, p: Partial, k: nat)
    requires WellFormed(r) && Shaped(r, st) && 1 <= |p| < |r.predicates| && k < |st.states[|p|]|
  {
    var col := st.states[|p|];
    && Fits(r, st.negs, p, col[k])
    && (r.predicates[|p|].kind == FIRST_WITHIN ==> forall k' :: 0 <= k' < k ==> !Fits(r, st.negs, p, col[k']))
    && (r.predicates[|p|].kind == LAST_WITHIN ==> forall k' :: k < k' < |col| ==> !Fits(r, st.negs, p, col[k']))
  }

  ghost predicate ChosenEvent(r: Rule, st: Stacks, p: Partial, e: PubPkt)
    requires WellFormed(r) && Shaped(r, st) && 1 <= |p| < |r.predicates|
  {
    exists k :: 0 <= k < |st.states[|p|]| && st.states[|p|][k] == e && Chosen(r, st, p, k)
  }

  /** The declarative meaning of a rule: an assignment of packets to states. */
  ghost predicate IsMatch(r: Rule, st: Stacks, e: PubPkt, m: Partial)
    requires WellFormed(r) && Shaped(r, st)
  {
    && |m| == |r.predicates|
    && m[0] == e && !Blocked(r, st.negs, [e])
    && forall i :: 1 <= i < |m| ==> ChosenEvent(r, st, m[..i], m[i])
  }

  /** Every state's stack holds a packet at most once. */
  ghost predicate DistinctStacks(st: Stacks) {
    forall i :: 0 <= i < |st.states| ==> Distinct(st.states[i])
  }

  lemma {:induction false} FittingMember(r: Rule, negs: seq<seq<PubPkt>>, p: Partial, col: seq<PubPkt>, e: PubPkt)
    requires WellFormed(r) && |negs| == |r.negations| && 1 <= |p| < |r.predicates|
    ensures e in Fitting(r, negs, p, col) <==> e in col && Fits(r, negs, p, e)
  {
    if col != [] {
      FittingMember(r, negs, p, col[1..], e);
      assert col == [col[0]] + col[1..];
    }
  }

  lemma {:induction false} FittingDistinct(r: Rule, negs: seq<seq<PubPkt>>, p: Partial, col: seq<PubPkt>)
    requires WellFormed(r) && |negs| == |r.negations| && 1 <= |p| < |r.predicates|
    requires Distinct(col)
    ensures Distinct(Fitting(r, negs, p, col))
  {
    if col != [] {
      FittingDistinct(r, negs, p, col[1..]);
      FittingMember(r, negs, p, col[1..], col[0]);
      assert forall k :: 0 < k < |col| ==> col[k] == col[1..][k - 1];
    }
  }

  /** The first fitting element of the stack heads the filtered list, and no earlier one fits. */
  lemma {:induction false} FirstFitting(r: Rule, negs: seq<seq<PubPkt>>, p: Partial, col: seq<PubPkt>) returns (k: nat)
    requires WellFormed(r) && |negs| == |r.negations| && 1 <= |p| < |r.predicates|
    requires Fitting(r, negs, p, col) != []
    ensures k < |col| && Fits(r, negs, p, col[k]) && col[k] == Fitting(r, negs, p, col)[0]
    ensures forall k' :: 0 <= k' < k ==> !Fits(r, negs, p, col[k'])
  {
    if Fits(r, negs, p, col[0]) {
      k := 0;
    } else {
      var k1 := FirstFitting(r, negs, p, col[1..]);
      k := k1 + 1;
      assert forall j :: 0 < j < |col| ==> col[j] == col[1..][j - 1];
    }
  }

  lemma {:induction false} LastFitting(r: Rule, negs: seq<seq<PubPkt>>, p: Partial, col: seq<PubPkt>) returns (k: nat)
    requires WellFormed(r) && |negs| == |r.negations| && 1 <= |p| < |r.predicates|
    requires Fitting(r, negs, p, col) != []
    ensures k < |col| && Fits(r, negs, p, col[k])
    ensures var f := Fitting(r, negs, p, col); col[k] == f[|f| - 1]
    ensures forall k' :: k < k' < |col| ==> !Fits(r, negs, p, col[k'])
  {
    assert forall j :: 0 < j < |col| ==> col[j] == col[1..][j - 1];
    if Fitting(r, negs, p, col[1..]) == [] {
      k := 0;
      forall k' | 0 < k' < |col| ensures !Fits(r, negs, p, col[k']) {
        FittingMember(r, negs, p, col[1..], col[k']);
      }
    } else {
      var k1 := LastFitting(r, negs, p, col[1..]);
      k := k1 + 1;
    }
  }

  /** One extension step produces exactly the chosen packets. */
  lemma {:induction false} ExtendMember(r: Rule, st: Stacks, p: Partial, q: Partial)
    requires WellFormed(r) && Shaped(r, st) && 1 <= |p| < |r.predicates|
    ensures q in Extend(r, st, p) <==> |q| == |p| + 1 && q[..|p|] == p && ChosenEvent(r, st, p, q[|p|])
  {
    var i, col := |p|, st.states[|p|];
    var f := Fitting(r, st.negs, p, col);
    var s := Pick(r.predicates[i].kind, f);
    if |q| == i + 1 && q[..i] == p {
      assert q == p + [q[i]];
      PickMember(r, st, p, q[i]);
    }
    if |q| == i + 1 && q[..i] == p && q[i] in s {
      var k :| 0 <= k < |s| && s[k] == q[i];
      assert Extend(r, st, p)[k] == q;
    }
  }

  lemma {:induction false} PickMember(r: Rule, st: Stacks, p: Partial, e: PubPkt)
    requires WellFormed(r) && Shaped(r, st) && 1 <= |p| < |r.predicates|
    ensures e in Pick(r.predicates[|p|].kind, Fitting(r, st.negs, p, st.states[|p|])) <==> ChosenEvent(r, st, p, e)
  {
    var col := st.states[|p|];
    var f := Fitting(r, st.negs, p, col);
    FittingMember(r, st.negs, p, col, e);
    if f != [] {
      var a := FirstFitting(r, st.negs, p, col);
      var b := LastFitting(r, st.negs, p, col);
      match r.predicates[|p|].kind {
        case FIRST_WITHIN => assert e == col[a] ==> Chosen(r, st, p, a);
        case LAST_WITHIN => assert e == col[b] ==> Chosen(r, st, p, b);
        case _ =>
          if e in f {
            var k :| 0 <= k < |col| && col[k] == e;
            assert Chosen(r, st, p, k);
          }
      }
    } else if ChosenEvent(r, st, p, e) {
      assert false;
    }
  }

  lemma {:induction false} ExtendAllMember(r: Rule, st: Stacks, ps: seq<Partial>, i: nat, q: Partial)
    requires WellFormed(r) && Shaped(r, st) && 1 <= i < |r.predicates| && AllBound(ps, i)
    ensures q in ExtendAll(r, st, ps, i) <==> |q| == i + 1 && q[..i] in ps && ChosenEvent(r, st, q[..i], q[i])
  {
    if ps != [] {
      ExtendMember(r, st, ps[0], q);
      ExtendAllMember(r, st, ps[1..], i, q);
      assert ps == [ps[0]] + ps[1..];
    }
  }

  /** `m` completes some member of `ps` by chosen packets only. */
  ghost predicate Completes(r: Rule, st: Stacks, ps: seq<Partial>, i: nat, m: Partial)
    requires WellFormed(r) && Shaped(r, st) && 1 <= i <= |r.predicates|
  {
    |m| == |r.predicates| && m[..i] in ps && forall k :: i <= k < |m| ==> ChosenEvent(r, st, m[..k], m[k])
  }

  lemma {:induction false} CompletesStep(r: Rule, st: Stacks, ps: seq<Partial>, i: nat, m: Partial)
    requires WellFormed(r) && Shaped(r, st) && 1 <= i < |r.predicates| && AllBound(ps, i)
    ensures Completes(r, st, ps, i, m) <==> Completes(r, st, ExtendAll(r, st, ps, i), i + 1, m)
  {
    hide ExtendAll, ChosenEvent, Shaped, WellFormed;
    if |m| == |r.predicates| {
      ExtendAllMember(r, st, ps, i, m[..i + 1]);
      assert m[..i + 1][..i] == m[..i];
    }
  }

  lemma {:induction false} JoinMember(r: Rule, st: Stacks, ps: seq<Partial>, i: nat, m: Partial)
    requires WellFormed(r) && Shaped(r, st) && 1 <= i <= |r.predicates| && AllBound(ps, i)
    ensures m in Join(r, st, ps, i) <==> Completes(r, st, ps, i, m)
    decreases |r.predicates| - i
  {
    if i == |r.predicates| {
      if |m| == i { assert m[..i] == m; }
    } else {
      CompletesStep(r, st, ps, i, m);
      JoinMember(r, st, ExtendAll(r, st, ps, i), i + 1, m);
    }
  }

  /** Main result: the detector finds exactly the declared matches. */
  lemma {:induction false} DetectIsExact(r: Rule, st: Stacks, e: PubPkt, m: Partial)
    requires WellFormed(r) && Shaped(r, st)
    ensures m in Detect(r, st, e) <==> IsMatch(r, st, e, m)
  {
    if !Blocked(r, st.negs, [e]) {
      JoinMember(r, st, [[e]], 1, m);
      if |m| == |r.predicates| { assert m[..1] == [m[0]]; }
    }
  }

  lemma {:induction false} ExtendDistinct(r: Rule, st: Stacks, p: Partial)
    requires WellFormed(r) && Shaped(r, st) && 1 <= |p| < |r.predicates| && DistinctStacks(st)
    ensures Distinct(Extend(r, st, p))
  {
    FittingDistinct(r, st.negs, p, st.states[|p|]);
    var s := Pick(r.predicates[|p|].kind, Fitting(r, st.negs, p, st.states[|p|]));
    forall a, b | 0 <= a < b < |s| ensures p + [s[a]] != p + [s[b]] {
      assert (p + [s[a]])[|p|] != (p + [s[b]])[|p|];
    }
  }

  lemma {:induction false} ExtendAllDistinct(r: Rule, st: Stacks, ps: seq<Partial>, i: nat)
    requires WellFormed(r) && Shaped(r, st) && 1 <= i < |r.predicates| && AllBound(ps, i)
    requires DistinctStacks(st) && Distinct(ps)
    ensures Distinct(ExtendAll(r, st, ps, i))
  {
    if ps != [] {
      var x, y := Extend(r, st, ps[0]), ExtendAll(r, st, ps[1..], i);
      ExtendDistinct(r, st, ps[0]);
      ExtendAllDistinct(r, st, ps[1..], i);
      forall a, b | 0 <= a < |x| && 0 <= b < |y| ensures x[a] != y[b] {
        ExtendMember(r, st, ps[0], x[a]);
        ExtendAllMember(r, st, ps[1..], i, y[b]);
        assert ps[0] !in ps[1..];
      }
    }
  }

  lemma {:induction false} JoinDistinct(r: Rule, st: Stacks, ps: seq<Partial>, i: nat)
    requires WellFormed(r) && Shaped(r, st) && 1 <= i <= |r.predicates| && AllBound(ps, i)
    requires DistinctStacks(st) && Distinct(ps)
    ensures Distinct(Join(r, st, ps, i))
    decreases |r.predicates| - i
  {
    hide Distinct, DistinctStacks, ExtendAll, Blocked;
    if i < |r.predicates| {
      ExtendAllDistinct(r, st, ps, i);
      JoinDistinct(r, st, ExtendAll(r, st, ps, i), i + 1);
    }
  }

  lemma {:induction false} DetectDistinct(r: Rule, st: Stacks, e: PubPkt)
    requires WellFormed(r) && Shaped(r, st) && DistinctStacks(st)
    ensures Distinct(Detect(r, st, e))
  {
    if !Blocked(r, st.negs, [e]) {
      JoinDistinct(r, st, [[e]], 1);
    }
  }
}
