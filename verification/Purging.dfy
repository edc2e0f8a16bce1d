/** Purging is invisible: an engine that expires packets emits what one that never does emits. */
module Purging {
  import opened Events
  import opened Rules
  import opened Search
  import opened Detection
  import opened Aggregates
  import opened Runs
  import opened Timelines

  /** State `a` lies on the path of references from state `b` to the root (or is `b`). */
  predicate Reaches(r: Rule, b: int, a: int)
    requires WellFormed(r) && 0 <= b < |r.predicates|
    decreases b
  {
    assert PredicateOk(r, b);
    a == b || (b > 0 && Reaches(r, r.predicates[b].refersTo, a))
  }

  /** A negation is purged by a window wide enough for the interval it watches: time based, or
      the packets of its two states are never further apart than the lower state's window. */
  predicate PurgeSafeNeg(r: Rule, g: Negation)
    requires WellFormed(r) && NegationOk(r, g)
  {
    WellFormedTree(r);
    g.lowerId < 0 || Lead(r.predicates, g.upperId, g.lowerId) <= r.predicates[g.lowerId].win
  }

  predicate PurgeSafe(r: Rule)
    requires WellFormed(r)
  {
    forall j :: 0 <= j < |r.negations| ==> (assert NegationOk(r, r.negations[j]); PurgeSafeNeg(r, r.negations[j]))
  }

  /** `d` is too old for every packet bound, now or later, to the state above it. */
  ghost predicate Dead(upper: seq<PubPkt>, win: nat, now: nat, d: PubPkt) {
    d.ts <= Minus(now, win) && forall k :: 0 <= k < |upper| ==> d.ts <= Minus(upper[k].ts, win)
  }

  /** `p` is `u` without some dead oldest packets. */
  ghost predicate Lag(u: seq<PubPkt>, p: seq<PubPkt>, upper: seq<PubPkt>, win: nat, now: nat) {
    && |p| <= |u| && u[|u| - |p|..] == p
    && forall k :: 0 <= k < |u| - |p| ==> Dead(upper, win, now, u[k])
  }

  ghost predicate Past(col: seq<PubPkt>, now: nat) {
    forall k :: 0 <= k < |col| ==> col[k].ts <= now
  }

  ghost predicate StateLag(r: Rule, now: nat, u: seq<seq<PubPkt>>, p: seq<seq<PubPkt>>, i: nat)
    requires WellFormed(r) && |u| == |p| == |r.predicates| && i < |u|
  {
    assert PredicateOk(r, i);
    && Past(u[i], now) && Past(p[i], now) && Sorted(p[i])
    && if i == 0 then u[0] == p[0] else Lag(u[i], p[i], p[r.predicates[i].refersTo], r.predicates[i].win, now)
  }

  ghost predicate StatesLag(r: Rule, now: nat, u: seq<seq<PubPkt>>, p: seq<seq<PubPkt>>)
    requires WellFormed(r) && |u| == |p| == |r.predicates|
  {
    forall i :: 0 <= i < |u| ==> StateLag(r, now, u, p, i)
  }

  ghost predicate SideLag(now: nat, u: seq<PubPkt>, p: seq<PubPkt>, states: seq<seq<PubPkt>>, upper: int, win: nat)
    requires 0 <= upper < |states|
  {
    Past(u, now) && Past(p, now) && Sorted(p) && Lag(u, p, states[upper], win, now)
  }

  ghost predicate NegLag(r: Rule, now: nat, u: Stacks, p: Stacks, j: int)
    requires WellFormed(r) && Shaped(r, u) && Shaped(r, p) && 0 <= j < |r.negations|
  {
    var g := r.negations[j];
    assert NegationOk(r, g);
    SideLag(now, u.negs[j], p.negs[j], p.states, g.upperId, NegPurgeWindow(r, g))
  }

  ghost predicate AggLag(r: Rule, now: nat, u: Stacks, p: Stacks, j: int)
    requires WellFormed(r) && Shaped(r, u) && Shaped(r, p) && 0 <= j < |r.aggregates|
  {
    var a := r.aggregates[j];
    assert AggregateOk(r, a);
    SideLag(now, u.aggs[j], p.aggs[j], p.states, a.upperId, a.lowerTime)
  }

  /** The purged stacks `p` differ from the unpurged ones `u` by dead packets only. */
  ghost predicate Related(r: Rule, now: nat, u: Stacks, p: Stacks)
    requires WellFormed(r)
  {
    && Shaped(r, u) && Shaped(r, p) && StatesLag(r, now, u.states, p.states)
    && (forall j :: 0 <= j < |r.negations| ==> NegLag(r, now, u, p, j))
    && (forall j :: 0 <= j < |r.aggregates| ==> AggLag(r, now, u, p, j))
  }

  // ---------------------------------------------------------------- single stacks

  lemma InsertLast(col: seq<PubPkt>, e: PubPkt)
    requires Past(col, e.ts)
    ensures Insert(col, e) == col + [e]
  {
    AfterAt(col, e.ts, |col|);
  }

  /** A stack and the one above it keep their relation whoever receives the new packet. */
  lemma LagReceive(u: seq<PubPkt>, p: seq<PubPkt>, upper: seq<PubPkt>, win: nat, now: nat, e: PubPkt, mine: bool, above: bool)
    requires Lag(u, p, upper, win, now) && now <= e.ts
    ensures Lag(if mine then u + [e] else u, if mine then p + [e] else p, if above then upper + [e] else upper, win, e.ts)
  {
    var u', p' := if mine then u + [e] else u, if mine then p + [e] else p;
    assert u'[|u'| - |p'|..] == p' by {
      assert u == u[..|u| - |p|] + p;
      if mine { assert u' == u[..|u| - |p|] + (p + [e]); }
    }
    assert forall k :: 0 <= k < |u'| - |p'| ==> u'[k] == u[k];
  }

  lemma DeadFewer(upper: seq<PubPkt>, fewer: seq<PubPkt>, win: nat, now: nat, d: PubPkt)
    requires Dead(upper, win, now, d) && forall k :: 0 <= k < |fewer| ==> fewer[k] in upper
    ensures Dead(fewer, win, now, d)
  {
  }

  lemma LagFewer(u: seq<PubPkt>, p: seq<PubPkt>, upper: seq<PubPkt>, fewer: seq<PubPkt>, win: nat, now: nat)
    requires Lag(u, p, upper, win, now) && forall k :: 0 <= k < |fewer| ==> fewer[k] in upper
    ensures Lag(u, p, fewer, win, now)
  {
    forall k | 0 <= k < |u| - |p| ensures Dead(fewer, win, now, u[k]) {
      DeadFewer(upper, fewer, win, now, u[k]);
    }
  }

  lemma ShorterSuffix(u: seq<PubPkt>, p: seq<PubPkt>, cut: nat)
    requires |p| <= |u| && u[|u| - |p|..] == p && cut <= |p|
    ensures u[|u| - (|p| - cut)..] == p[cut..]
    ensures forall k :: |u| - |p| <= k < |u| - (|p| - cut) ==> u[k] == p[k - (|u| - |p|)]
  {
    assert u == u[..|u| - |p|] + p;
  }

  /** What an expiry drops is dead. */
  lemma LagExpire(u: seq<PubPkt>, p: seq<PubPkt>, states: seq<seq<PubPkt>>, upper: int, win: nat, now: nat)
    requires 0 <= upper < |states| && Sorted(states[upper]) && Past(states[upper], now)
    requires SideLag(now, u, p, states, upper, win)
    ensures SideLag(now, u, Expire(states, upper, win, p), states, upper, win)
    ensures forall k :: 0 <= k < |Expire(states, upper, win, p)| ==> Expire(states, upper, win, p)[k] in p
  {
    if states[upper] != [] {
      var min := Minus(states[upper][0].ts, win);
      var cut := UnexpiredIsSuffix(p, min);
      var p' := p[cut..];
      ShorterSuffix(u, p, cut);
      forall d: PubPkt | d.ts <= min ensures Dead(states[upper], win, now, d) {
      }
    }
  }

  lemma {:induction false} WithoutAppend(a: seq<PubPkt>, b: seq<PubPkt>, gone: set<PubPkt>)
    ensures Without(a + b, gone) == Without(a, gone) + Without(b, gone)
  {
    if a == [] {
      NoneBefore(b);
      NoneBefore(Without(b, gone));
    } else {
      WithoutAppend(a[1..], b, gone);
      TailOfSum(a, b);
      Cat(if a[0] in gone then [] else [a[0]], Without(a[1..], gone), Without(b, gone));
    }
  }

  lemma {:induction false} WithoutMember(col: seq<PubPkt>, gone: set<PubPkt>, e: PubPkt)
    ensures e in Without(col, gone) <==> e in col && e !in gone
  {
    if col != [] {
      WithoutMember(col[1..], gone, e);
      assert col == [col[0]] + col[1..];
    }
  }

  lemma {:induction false} WithoutSorted(col: seq<PubPkt>, gone: set<PubPkt>)
    requires Sorted(col)
    ensures Sorted(Without(col, gone))
  {
    if col != [] {
      WithoutSorted(col[1..], gone);
      var w := Without(col[1..], gone);
      forall k | 0 <= k < |w| ensures col[0].ts <= w[k].ts {
        WithoutMember(col[1..], gone, w[k]);
      }
    }
  }

  lemma WithoutPast(col: seq<PubPkt>, gone: set<PubPkt>, now: nat)
    requires Past(col, now)
    ensures Past(Without(col, gone), now)
  {
    var w := Without(col, gone);
    forall k | 0 <= k < |w| ensures w[k].ts <= now {
      WithoutMember(col, gone, w[k]);
    }
  }

  lemma LagWithout(u: seq<PubPkt>, p: seq<PubPkt>, upper: seq<PubPkt>, win: nat, now: nat, gone: set<PubPkt>)
    requires Lag(u, p, upper, win, now)
    ensures Lag(Without(u, gone), Without(p, gone), upper, win, now)
  {
    var d := u[..|u| - |p|];
    assert u == d + p;
    WithoutAppend(d, p, gone);
    var d' := Without(d, gone);
    forall k | 0 <= k < |d'| ensures Dead(upper, win, now, d'[k]) {
      WithoutMember(d, gone, d'[k]);
    }
  }

  // ---------------------------------------------------------------- detection

  /** `p` binds packets of the purged stacks, each inside its window. */
  ghost predicate Bound(r: Rule, states: seq<seq<PubPkt>>, p: Partial)
    requires WellFormed(r) && |states| == |r.predicates|
  {
    && 1 <= |p| <= |r.predicates|
    && (forall i :: 0 <= i < |p| ==> p[i] in states[i])
    && (forall i :: 1 <= i < |p| ==> InWindow(r, p, i))
  }

  predicate InWindow(r: Rule, p: Partial, i: nat)
    requires WellFormed(r) && 1 <= i < |p| <= |r.predicates|
  {
    assert PredicateOk(r, i);
    var q := r.predicates[i];
    Within(Minus(p[q.refersTo].ts, q.win), p[i], p[q.refersTo].ts)
  }

  lemma {:induction false} LeadBounds(r: Rule, p: Partial, u: nat, x: nat)
    requires WellFormed(r) && Tree(r.predicates) && u < |p| && x < |p| <= |r.predicates|
    requires forall i :: 1 <= i < |p| ==> InWindow(r, p, i)
    ensures p[u].ts - p[x].ts <= Lead(r.predicates, u, x)
    decreases u + x
  {
    if u > x {
      assert InWindow(r, p, u);
      LeadBounds(r, p, r.predicates[u].refersTo, x);
    } else if x > u {
      assert InWindow(r, p, x);
      LeadBounds(r, p, u, r.predicates[x].refersTo);
    }
  }

  lemma {:induction false} AncestorLead(r: Rule, b: int, a: int)
    requires WellFormed(r) && Tree(r.predicates) && 0 <= b < |r.predicates| && Reaches(r, b, a)
    ensures 0 <= a <= b && Lead(r.predicates, b, a) <= 0
    decreases b
  {
    assert PredicateOk(r, b);
    if a != b { AncestorLead(r, r.predicates[b].refersTo, a); }
  }

  /** A negation whose lower state refers to its upper state, or to an ancestor of it, is safe. */
  lemma AncestorIsSafe(r: Rule, g: Negation)
    requires WellFormed(r) && NegationOk(r, g)
    requires g.lowerId >= 0 ==> (assert PredicateOk(r, g.lowerId); Reaches(r, g.upperId, r.predicates[g.lowerId].refersTo))
    ensures PurgeSafeNeg(r, g)
  {
    WellFormedTree(r);
    if g.lowerId >= 0 {
      assert PredicateOk(r, g.lowerId);
      AncestorLead(r, g.upperId, r.predicates[g.lowerId].refersTo);
    }
  }

  /** A dead negation packet is too old for the interval the negation watches. */
  lemma DeadNegSilent(r: Rule, now: nat, states: seq<seq<PubPkt>>, j: int, d: PubPkt, p: Partial)
    requires WellFormed(r) && PurgeSafe(r) && |states| == |r.predicates| && 0 <= j < |r.negations|
    requires NegationOk(r, r.negations[j])
    requires Dead(states[r.negations[j].upperId], NegPurgeWindow(r, r.negations[j]), now, d)
    requires Bound(r, states, p) && |p| == Link(r.negations[j]) + 1
    ensures !Negates(r, j, d, p)
  {
    var g := r.negations[j];
    assert p[g.upperId] in states[g.upperId];
    if g.lowerId >= 0 {
      WellFormedTree(r);
      assert PurgeSafeNeg(r, g);
      LeadBounds(r, p, g.upperId, g.lowerId);
    }
  }

  lemma NegHitSame(r: Rule, now: nat, u: Stacks, p: Stacks, j: int, m: Partial)
    requires WellFormed(r) && PurgeSafe(r) && Related(r, now, u, p) && 0 <= j < |r.negations|
    requires Bound(r, p.states, m) && |m| == Link(r.negations[j]) + 1
    ensures NegHit(r, j, u.negs[j], m) == NegHit(r, j, p.negs[j], m)
  {
    var a, b := u.negs[j], p.negs[j];
    assert NegationOk(r, r.negations[j]) && NegLag(r, now, u, p, j);
    if NegHit(r, j, a, m) {
      var k :| 0 <= k < |a| && Negates(r, j, a[k], m);
      if k < |a| - |b| {
        DeadNegSilent(r, now, p.states, j, a[k], m);
        assert false;
      }
      assert a[k] == b[k - (|a| - |b|)];
    }
    if NegHit(r, j, b, m) {
      var k :| 0 <= k < |b| && Negates(r, j, b[k], m);
      assert a[k + |a| - |b|] == b[k];
    }
  }

  lemma BlockedSame(r: Rule, now: nat, u: Stacks, p: Stacks, m: Partial)
    requires WellFormed(r) && PurgeSafe(r) && Related(r, now, u, p) && Bound(r, p.states, m)
    ensures Blocked(r, u.negs, m) == Blocked(r, p.negs, m)
  {
    forall j | 0 <= j < |r.negations| && Link(r.negations[j]) + 1 == |m|
      ensures NegHit(r, j, u.negs[j], m) == NegHit(r, j, p.negs[j], m)
    {
      NegHitSame(r, now, u, p, j, m);
    }
  }

  /** A candidate of the purged stacks fits alike, and fitting extends the bound prefix. */
  lemma FitsSame(r: Rule, now: nat, u: Stacks, p: Stacks, m: Partial, e: PubPkt)
    requires WellFormed(r) && PurgeSafe(r) && Related(r, now, u, p)
    requires Bound(r, p.states, m) && |m| < |r.predicates| && e in p.states[|m|]
    ensures Fits(r, u.negs, m, e) == Fits(r, p.negs, m, e)
    ensures Fits(r, p.negs, m, e) ==> Bound(r, p.states, m + [e])
  {
    var q := r.predicates[|m|];
    assert PredicateOk(r, |m|);
    if Within(Minus(m[q.refersTo].ts, q.win), e, m[q.refersTo].ts) {
      var m' := m + [e];
      forall i | 1 <= i < |m'| ensures InWindow(r, m', i) {
        assert PredicateOk(r, i);
        if i < |m| { assert InWindow(r, m, i); }
      }
      assert Bound(r, p.states, m');
      BlockedSame(r, now, u, p, m');
    }
  }

  lemma {:induction false} FittingAppend(r: Rule, negs: seq<seq<PubPkt>>, m: Partial, a: seq<PubPkt>, b: seq<PubPkt>)
    requires WellFormed(r) && |negs| == |r.negations| && 1 <= |m| < |r.predicates|
    ensures Fitting(r, negs, m, a + b) == Fitting(r, negs, m, a) + Fitting(r, negs, m, b)
  {
    hide Fits, WellFormed;
    if a == [] {
      NoneBefore(b);
      NoneBefore(Fitting(r, negs, m, b));
    } else {
      FittingAppend(r, negs, m, a[1..], b);
      TailOfSum(a, b);
      Cat(if Fits(r, negs, m, a[0]) then [a[0]] else [], Fitting(r, negs, m, a[1..]), Fitting(r, negs, m, b));
    }
  }

  lemma {:induction false} FittingNone(r: Rule, negs: seq<seq<PubPkt>>, m: Partial, col: seq<PubPkt>)
    requires WellFormed(r) && |negs| == |r.negations| && 1 <= |m| < |r.predicates|
    requires forall k :: 0 <= k < |col| ==> !Fits(r, negs, m, col[k])
    ensures Fitting(r, negs, m, col) == []
  {
    if col != [] { FittingNone(r, negs, m, col[1..]); }
  }

  lemma {:induction false} FittingSame(r: Rule, now: nat, u: Stacks, p: Stacks, m: Partial, col: seq<PubPkt>)
    requires WellFormed(r) && PurgeSafe(r) && Related(r, now, u, p)
    requires Bound(r, p.states, m) && |m| < |r.predicates| && forall k :: 0 <= k < |col| ==> col[k] in p.states[|m|]
    ensures Fitting(r, u.negs, m, col) == Fitting(r, p.negs, m, col)
    ensures forall e :: e in Fitting(r, p.negs, m, col) ==> Bound(r, p.states, m + [e])
  {
    if col != [] {
      FittingSame(r, now, u, p, m, col[1..]);
      FitsSame(r, now, u, p, m, col[0]);
    }
  }

  lemma DeadStateSilent(r: Rule, now: nat, u: Stacks, p: Stacks, m: Partial, d: seq<PubPkt>)
    requires WellFormed(r) && Related(r, now, u, p) && Bound(r, p.states, m) && |m| < |r.predicates|
    requires |d| + |p.states[|m|]| == |u.states[|m|]| && d <= u.states[|m|]
    ensures Fitting(r, u.negs, m, d) == []
  {
    var i, q := |m|, r.predicates[|m|];
    assert PredicateOk(r, i) && StateLag(r, now, u.states, p.states, i);
    assert m[q.refersTo] in p.states[q.refersTo];
    forall k | 0 <= k < |d| ensures !Fits(r, u.negs, m, d[k]) {
      assert Dead(p.states[q.refersTo], q.win, now, u.states[i][k]);
    }
    FittingNone(r, u.negs, m, d);
  }

  lemma FittingAll(r: Rule, now: nat, u: Stacks, p: Stacks, m: Partial)
    requires WellFormed(r) && PurgeSafe(r) && Related(r, now, u, p) && Bound(r, p.states, m) && |m| < |r.predicates|
    ensures Fitting(r, u.negs, m, u.states[|m|]) == Fitting(r, p.negs, m, p.states[|m|])
  {
    hide Fitting, Bound, PurgeSafe;
    var a, b := u.states[|m|], p.states[|m|];
    BoundLength(r, p.states, m);
    StateSplit(r, now, u, p, |m|);
    var d := a[..|a| - |b|];
    FittingAppend(r, u.negs, m, d, b);
    DeadStateSilent(r, now, u, p, m, d);
    FittingSame(r, now, u, p, m, b);
    NoneBefore(Fitting(r, p.negs, m, b));
  }

  /** The unpurged stack is the purged one after what was dropped. */
  lemma StateSplit(r: Rule, now: nat, u: Stacks, p: Stacks, i: nat)
    requires WellFormed(r) && Related(r, now, u, p) && 1 <= i < |r.predicates|
    ensures |p.states[i]| <= |u.states[i]| && u.states[i] == u.states[i][..|u.states[i]| - |p.states[i]|] + p.states[i]
  {
    hide Dead, Sorted, Past;
    assert StateLag(r, now, u.states, p.states, i);
    Halves(u.states[i], |u.states[i]| - |p.states[i]|);
  }

  lemma ExtendSame(r: Rule, now: nat, u: Stacks, p: Stacks, m: Partial)
    requires WellFormed(r) && PurgeSafe(r) && Related(r, now, u, p) && Bound(r, p.states, m) && |m| < |r.predicates|
    ensures Extend(r, u, m) == Extend(r, p, m)
    ensures forall k :: 0 <= k < |Extend(r, p, m)| ==> Bound(r, p.states, Extend(r, p, m)[k])
  {
    hide Fitting, Bound, PurgeSafe, Related;
    RelatedShaped(r, now, u, p);
    BoundLength(r, p.states, m);
    FittingAll(r, now, u, p, m);
    FittingSame(r, now, u, p, m, p.states[|m|]);
    var f := Fitting(r, p.negs, m, p.states[|m|]);
    var s := Pick(r.predicates[|m|].kind, f);
    assert forall k :: 0 <= k < |s| ==> s[k] in f;
  }

  lemma RelatedShaped(r: Rule, now: nat, u: Stacks, p: Stacks)
    requires WellFormed(r) && Related(r, now, u, p)
    ensures Shaped(r, u) && Shaped(r, p)
  {
  }

  lemma BoundLength(r: Rule, states: seq<seq<PubPkt>>, m: Partial)
    requires WellFormed(r) && |states| == |r.predicates| && Bound(r, states, m)
    ensures 1 <= |m| <= |r.predicates|
  {
  }

  ghost predicate AllBoundIn(r: Rule, states: seq<seq<PubPkt>>, ms: seq<Partial>, i: nat)
    requires WellFormed(r) && |states| == |r.predicates|
  {
    forall k :: 0 <= k < |ms| ==> |ms[k]| == i && Bound(r, states, ms[k])
  }

  lemma {:induction false} ExtendAllSame(r: Rule, now: nat, u: Stacks, p: Stacks, ms: seq<Partial>, i: nat)
    requires WellFormed(r) && PurgeSafe(r) && Related(r, now, u, p)
    requires 1 <= i < |r.predicates| && AllBoundIn(r, p.states, ms, i)
    ensures ExtendAll(r, u, ms, i) == ExtendAll(r, p, ms, i)
    ensures AllBoundIn(r, p.states, ExtendAll(r, p, ms, i), i + 1)
  {
    if ms != [] {
      ExtendSame(r, now, u, p, ms[0]);
      ExtendAllSame(r, now, u, p, ms[1..], i);
    }
  }

  lemma {:induction false} JoinSame(r: Rule, now: nat, u: Stacks, p: Stacks, ms: seq<Partial>, i: nat)
    requires WellFormed(r) && PurgeSafe(r) && Related(r, now, u, p)
    requires 1 <= i <= |r.predicates| && AllBoundIn(r, p.states, ms, i)
    ensures Join(r, u, ms, i) == Join(r, p, ms, i)
    ensures AllBoundIn(r, p.states, Join(r, p, ms, i), |r.predicates|)
    decreases |r.predicates| - i
  {
    if i < |r.predicates| {
      ExtendAllSame(r, now, u, p, ms, i);
      JoinSame(r, now, u, p, ExtendAll(r, p, ms, i), i + 1);
    }
  }

  lemma DetectSame(r: Rule, now: nat, u: Stacks, p: Stacks, e: PubPkt)
    requires WellFormed(r) && PurgeSafe(r) && Related(r, now, u, p) && p.states[0] == [e]
    ensures Detect(r, u, e) == Detect(r, p, e)
    ensures AllBoundIn(r, p.states, Detect(r, p, e), |r.predicates|)
  {
    assert Bound(r, p.states, [e]);
    BlockedSame(r, now, u, p, [e]);
    JoinSame(r, now, u, p, [[e]], 1);
  }

  // ---------------------------------------------------------------- steps

  lemma ReceiveState(r: Rule, now: nat, u: Stacks, p: Stacks, inp: Input, i: nat)
    requires WellFormed(r) && Related(r, now, u, p) && now <= inp.pkt.ts && 1 <= i < |r.predicates|
    ensures StateLag(r, inp.pkt.ts, Receive(u, inp).states, Receive(p, inp).states, i)
  {
    hide Insert, Lag, Past, Sorted;
    assert PredicateOk(r, i) && StateLag(r, now, u.states, p.states, i);
    var q := r.predicates[i];
    SideReceive(now, u.states[i], p.states[i], u.states, p.states, r, q.refersTo, q.win, inp, i in inp.states);
  }

  lemma ReceiveNeg(r: Rule, now: nat, u: Stacks, p: Stacks, inp: Input, j: nat)
    requires WellFormed(r) && Related(r, now, u, p) && now <= inp.pkt.ts && j < |r.negations|
    ensures NegLag(r, inp.pkt.ts, Receive(u, inp), Receive(p, inp), j)
  {
    hide Insert, SideLag;
    var g := r.negations[j];
    assert NegationOk(r, g) && NegLag(r, now, u, p, j);
    SideReceive(now, u.negs[j], p.negs[j], u.states, p.states, r, g.upperId, NegPurgeWindow(r, g), inp, j in inp.negs);
  }

  lemma ReceiveAgg(r: Rule, now: nat, u: Stacks, p: Stacks, inp: Input, j: nat)
    requires WellFormed(r) && Related(r, now, u, p) && now <= inp.pkt.ts && j < |r.aggregates|
    ensures AggLag(r, inp.pkt.ts, Receive(u, inp), Receive(p, inp), j)
  {
    hide Insert, SideLag;
    var a := r.aggregates[j];
    assert AggregateOk(r, a) && AggLag(r, now, u, p, j);
    SideReceive(now, u.aggs[j], p.aggs[j], u.states, p.states, r, a.upperId, a.lowerTime, inp, j in inp.aggs);
  }

  lemma ReceiveRelated(r: Rule, now: nat, u: Stacks, p: Stacks, inp: Input)
    requires WellFormed(r) && Related(r, now, u, p) && now <= inp.pkt.ts
    ensures Related(r, inp.pkt.ts, Receive(u, inp), Receive(p, inp))
  {
    hide Insert, NegLag, AggLag, Lag, Past, Sorted;
    var u', p', e := Receive(u, inp), Receive(p, inp), inp.pkt;
    forall i | 0 <= i < |u.states| ensures StateLag(r, e.ts, u'.states, p'.states, i) {
      if i > 0 {
        ReceiveState(r, now, u, p, inp, i);
      } else {
        ReceiveRoot(r, now, u, p, inp);
      }
    }
    forall j | 0 <= j < |r.negations| ensures NegLag(r, e.ts, u', p', j) { ReceiveNeg(r, now, u, p, inp, j); }
    forall j | 0 <= j < |r.aggregates| ensures AggLag(r, e.ts, u', p', j) { ReceiveAgg(r, now, u, p, inp, j); }
  }

  lemma ReceiveRoot(r: Rule, now: nat, u: Stacks, p: Stacks, inp: Input)
    requires WellFormed(r) && Related(r, now, u, p) && now <= inp.pkt.ts
    ensures StateLag(r, inp.pkt.ts, Receive(u, inp).states, Receive(p, inp).states, 0)
  {
    hide Insert;
    assert StateLag(r, now, u.states, p.states, 0);
  }

  lemma SideReceive(now: nat, a: seq<PubPkt>, b: seq<PubPkt>, us: seq<seq<PubPkt>>, ps: seq<seq<PubPkt>>, r: Rule,
                    up: int, win: nat, inp: Input, mine: bool)
    requires WellFormed(r) && |us| == |ps| == |r.predicates| && StatesLag(r, now, us, ps)
    requires 0 <= up < |ps| && SideLag(now, a, b, ps, up, win) && now <= inp.pkt.ts
    ensures SideLag(inp.pkt.ts, if mine then Insert(a, inp.pkt) else a, if mine then Insert(b, inp.pkt) else b,
                    AddAll(ps, inp.states - {0}, inp.pkt), up, win)
  {
    hide Lag, Past, Sorted, Insert, StatesLag;
    PastOf(r, now, us, ps, up);
    StackReceives(a, now, inp.pkt);
    StackReceives(b, now, inp.pkt);
    StackReceives(ps[up], now, inp.pkt);
    LagReceive(a, b, ps[up], win, now, inp.pkt, mine, up in inp.states - {0});
  }

  lemma PastOf(r: Rule, now: nat, us: seq<seq<PubPkt>>, ps: seq<seq<PubPkt>>, i: nat)
    requires WellFormed(r) && |us| == |ps| == |r.predicates| && StatesLag(r, now, us, ps) && i < |ps|
    ensures Past(ps[i], now) && Sorted(ps[i])
  {
    hide Lag, Past, Sorted;
    assert StateLag(r, now, us, ps, i);
  }

  lemma StackReceives(col: seq<PubPkt>, now: nat, e: PubPkt)
    requires Past(col, now) && now <= e.ts
    ensures Insert(col, e) == col + [e] && Past(col, e.ts) && Past(col + [e], e.ts) && (Sorted(col) ==> Sorted(col + [e]))
  {
    hide Insert;
    InsertLast(col, e);
  }

  /** `p'` holds no more than `p`, stack by stack. */
  ghost predicate Fewer(p': seq<seq<PubPkt>>, p: seq<seq<PubPkt>>) {
    |p'| == |p| && forall i :: 0 <= i < |p| ==> SubStack(p'[i], p[i])
  }

  ghost predicate SubStack(a: seq<PubPkt>, b: seq<PubPkt>) {
    forall k :: 0 <= k < |a| ==> a[k] in b
  }

  /** The purge of one state. */
  lemma PurgeOneRelated(r: Rule, now: nat, u: seq<seq<PubPkt>>, p: seq<seq<PubPkt>>, i: nat)
    requires WellFormed(r) && |u| == |p| == |r.predicates| && 1 <= i < |p| && StatesLag(r, now, u, p) && PredicateOk(r, i)
    ensures var p' := p[i := Expire(p, r.predicates[i].refersTo, r.predicates[i].win, p[i])];
            StatesLag(r, now, u, p') && Fewer(p', p)
  {
    hide Lag, Past, Sorted, Expire;
    var q := r.predicates[i];
    var p' := p[i := Expire(p, q.refersTo, q.win, p[i])];
    assert StateLag(r, now, u, p, i) && StateLag(r, now, u, p, q.refersTo);
    LagExpire(u[i], p[i], p, q.refersTo, q.win, now);
    assert forall k :: 0 <= k < |p| ==> SubStack(p'[k], p[k]);
    forall k | 0 <= k < |p| ensures StateLag(r, now, u, p', k) {
      assert PredicateOk(r, k) && StateLag(r, now, u, p, k);
      if k > 0 {
        var up := r.predicates[k].refersTo;
        assert SubStack(p'[up], p[up]);
        LagFewer(u[k], p'[k], p[up], p'[up], r.predicates[k].win, now);
      }
    }
  }

  lemma FewerStill(a: seq<seq<PubPkt>>, b: seq<seq<PubPkt>>, c: seq<seq<PubPkt>>)
    requires Fewer(a, b) && Fewer(b, c)
    ensures Fewer(a, c)
  {
    forall k | 0 <= k < |c| ensures SubStack(a[k], c[k]) {
      assert SubStack(a[k], b[k]) && SubStack(b[k], c[k]);
    }
  }

  lemma {:induction false} PurgeStatesRelated(r: Rule, now: nat, u: seq<seq<PubPkt>>, p: seq<seq<PubPkt>>, i: nat)
    requires WellFormed(r) && |u| == |p| == |r.predicates| && 1 <= i <= |p| && StatesLag(r, now, u, p)
    ensures StatesLag(r, now, u, PurgeStates(r, p, i)) && Fewer(PurgeStates(r, p, i), p)
    decreases |p| - i
  {
    hide StatesLag, Fewer, Expire;
    if i < |p| {
      assert PredicateOk(r, i);
      var p' := p[i := Expire(p, r.predicates[i].refersTo, r.predicates[i].win, p[i])];
      PurgeOneRelated(r, now, u, p, i);
      PurgeStatesRelated(r, now, u, p', i + 1);
      FewerStill(PurgeStates(r, p', i + 1), p', p);
    } else {
      FewerSelf(p);
    }
  }

  lemma FewerSelf(p: seq<seq<PubPkt>>)
    ensures Fewer(p, p)
  {
  }

  lemma PurgeRelated(r: Rule, now: nat, u: Stacks, p: Stacks)
    requires WellFormed(r) && Related(r, now, u, p)
    ensures Related(r, now, u, Purge(r, p))
  {
    PurgeStatesRelated(r, now, u.states, p.states, 1);
    var p' := Purge(r, p);
    forall j | 0 <= j < |r.negations| ensures NegLag(r, now, u, p', j) {
      var g := r.negations[j];
      assert NegationOk(r, g) && NegLag(r, now, u, p, j) && StateLag(r, now, u.states, p'.states, g.upperId);
      assert SubStack(p'.states[g.upperId], p.states[g.upperId]);
      LagFewer(u.negs[j], p.negs[j], p.states[g.upperId], p'.states[g.upperId], NegPurgeWindow(r, g), now);
      LagExpire(u.negs[j], p.negs[j], p'.states, g.upperId, NegPurgeWindow(r, g), now);
    }
    forall j | 0 <= j < |r.aggregates| ensures AggLag(r, now, u, p', j) {
      var a := r.aggregates[j];
      assert AggregateOk(r, a) && AggLag(r, now, u, p, j) && StateLag(r, now, u.states, p'.states, a.upperId);
      assert SubStack(p'.states[a.upperId], p.states[a.upperId]);
      LagFewer(u.aggs[j], p.aggs[j], p.states[a.upperId], p'.states[a.upperId], a.lowerTime, now);
      LagExpire(u.aggs[j], p.aggs[j], p'.states, a.upperId, a.lowerTime, now);
    }
  }

  /** Replacing the states of both engines by fewer of them keeps negations and aggregates related. */
  lemma SidesFewer(r: Rule, now: nat, u: Stacks, p: Stacks, u': Stacks, p': Stacks)
    requires WellFormed(r) && Related(r, now, u, p) && Shaped(r, u') && Shaped(r, p')
    requires u'.negs == u.negs && u'.aggs == u.aggs && p'.negs == p.negs && p'.aggs == p.aggs
    requires StatesLag(r, now, u'.states, p'.states) && Fewer(p'.states, p.states)
    ensures Related(r, now, u', p')
  {
    forall j | 0 <= j < |r.negations| ensures NegLag(r, now, u', p', j) {
      var g := r.negations[j];
      assert NegationOk(r, g) && NegLag(r, now, u, p, j) && SubStack(p'.states[g.upperId], p.states[g.upperId]);
      LagFewer(u.negs[j], p.negs[j], p.states[g.upperId], p'.states[g.upperId], NegPurgeWindow(r, g), now);
    }
    forall j | 0 <= j < |r.aggregates| ensures AggLag(r, now, u', p', j) {
      var a := r.aggregates[j];
      assert AggregateOk(r, a) && AggLag(r, now, u, p, j) && SubStack(p'.states[a.upperId], p.states[a.upperId]);
      LagFewer(u.aggs[j], p.aggs[j], p.states[a.upperId], p'.states[a.upperId], a.lowerTime, now);
    }
  }

  /** Consumption followed by the removal of the terminator. */
  ghost function Settle(r: Rule, states: seq<seq<PubPkt>>, ms: seq<Partial>): (s: seq<seq<PubPkt>>)
    requires WellFormed(r) && |states| == |r.predicates| && AllBound(ms, |r.predicates|)
    ensures |s| == |states|
  {
    Consume(r, states, ms)[0 := []]
  }

  lemma SettleRelated(r: Rule, now: nat, u: seq<seq<PubPkt>>, p: seq<seq<PubPkt>>, ms: seq<Partial>)
    requires WellFormed(r) && |u| == |p| == |r.predicates| && StatesLag(r, now, u, p) && AllBound(ms, |r.predicates|)
    ensures StatesLag(r, now, Settle(r, u, ms), Settle(r, p, ms)) && Fewer(Settle(r, p, ms), p)
  {
    var u', p' := Settle(r, u, ms), Settle(r, p, ms);
    forall i | 0 <= i < |p| ensures SubStack(p'[i], p[i]) {
      forall k | 0 <= k < |p'[i]| ensures p'[i][k] in p[i] {
        if 1 <= i && i in r.consuming { WithoutMember(p[i], Used(ms, i), p'[i][k]); }
      }
    }
    forall i | 0 <= i < |p| ensures StateLag(r, now, u', p', i) {
      assert PredicateOk(r, i) && StateLag(r, now, u, p, i);
      if i > 0 {
        var up, win := r.predicates[i].refersTo, r.predicates[i].win;
        assert SubStack(p'[up], p[up]);
        LagFewer(u[i], p[i], p[up], p'[up], win, now);
        if i in r.consuming {
          LagWithout(u[i], p[i], p'[up], win, now, Used(ms, i));
          WithoutSorted(p[i], Used(ms, i));
          WithoutPast(p[i], Used(ms, i), now);
          WithoutPast(u[i], Used(ms, i), now);
        }
      }
    }
  }

  /** Two emissions a subscriber cannot tell apart: the same matches in the same order, and
      for each of them the same values of the time-based aggregates. */
  ghost predicate SameEmission(r: Rule, a: Emission, b: Emission)
    requires WellFormed(r) && |a.aggs| == |b.aggs| == |r.aggregates| && AllBound(a.matches, |r.predicates|)
  {
    && a.matches == b.matches
    && forall k, j, x :: 0 <= k < |a.matches| && 0 <= j < |r.aggregates| && r.aggregates[j].lowerId < 0 ==>
         (AggregateIs(r, j, a.aggs[j], a.matches[k], x) <==> AggregateIs(r, j, b.aggs[j], a.matches[k], x))
  }

  lemma AggregateSame(r: Rule, now: nat, u: Stacks, p: Stacks, j: int, m: Partial, x: Number)
    requires WellFormed(r) && Related(r, now, u, p) && 0 <= j < |r.aggregates| && r.aggregates[j].lowerId < 0
    requires |m| == |r.predicates| && Bound(r, p.states, m)
    ensures AggregateIs(r, j, u.aggs[j], m, x) <==> AggregateIs(r, j, p.aggs[j], m, x)
  {
    var a, c, b := r.aggregates[j], u.aggs[j], p.aggs[j];
    assert AggregateOk(r, a) && AggLag(r, now, u, p, j);
    var d := c[..|c| - |b|];
    assert c == d + b;
    assert m[a.upperId] in p.states[a.upperId];
    var lo, hi := AggLow(a, m), m[a.upperId].ts;
    WindowAppend(d, b, lo, hi);
    WindowNone(d, lo, hi);
    assert Window(c, lo, hi) == Window(b, lo, hi);
  }

  lemma TerminatorRelated(r: Rule, now: nat, u: Stacks, p: Stacks, e: PubPkt)
    requires WellFormed(r) && Related(r, now, u, p) && e.ts == now && p.states[0] == []
    ensures Related(r, now, u.(states := u.states[0 := [e]]), p.(states := p.states[0 := [e]]))
  {
    var u', p' := u.(states := u.states[0 := [e]]), p.(states := p.states[0 := [e]]);
    assert forall d, win :: Dead([], win, now, d) ==> Dead([e], win, now, d);
    forall i | 0 <= i < |p.states| ensures StateLag(r, now, u'.states, p'.states, i) {
      assert PredicateOk(r, i) && StateLag(r, now, u.states, p.states, i);
    }
    forall j | 0 <= j < |r.negations| ensures NegLag(r, now, u', p', j) {
      assert NegationOk(r, r.negations[j]) && NegLag(r, now, u, p, j);
    }
    forall j | 0 <= j < |r.aggregates| ensures AggLag(r, now, u', p', j) {
      assert AggregateOk(r, r.aggregates[j]) && AggLag(r, now, u, p, j);
    }
  }

  lemma TerminateSame(r: Rule, now: nat, u: Stacks, p: Stacks, e: PubPkt)
    requires WellFormed(r) && PurgeSafe(r) && Related(r, now, u, p) && e.ts == now && p.states[0] == []
    ensures SameEmission(r, Terminate(r, u, e, false).0, Terminate(r, p, e, true).0)
    ensures Related(r, now, Terminate(r, u, e, false).1, Terminate(r, p, e, true).1)
    ensures Terminate(r, p, e, true).1.states[0] == []
  {
    TerminatorRelated(r, now, u, p, e);
    var u0, p0 := u.(states := u.states[0 := [e]]), p.(states := p.states[0 := [e]]);
    PurgeRelated(r, now, u0, p0);
    var p1 := Purge(r, p0);
    DetectSame(r, now, u0, p1, e);
    var ms := Detect(r, p1, e);
    forall k, j, x | 0 <= k < |ms| && 0 <= j < |r.aggregates| && r.aggregates[j].lowerId < 0
      ensures AggregateIs(r, j, u0.aggs[j], ms[k], x) <==> AggregateIs(r, j, p1.aggs[j], ms[k], x)
    {
      AggregateSame(r, now, u0, p1, j, ms[k], x);
    }
    SettleRelated(r, now, u0.states, p1.states, ms);
    SidesFewer(r, now, u0, p1, u0.(states := Settle(r, u0.states, ms)), p1.(states := Settle(r, p1.states, ms)));
  }

  lemma StepSame(r: Rule, now: nat, u: Stacks, p: Stacks, inp: Input)
    requires WellFormed(r) && PurgeSafe(r) && Related(r, now, u, p) && now <= inp.pkt.ts && p.states[0] == []
    ensures SameEmission(r, Step(r, u, inp, false).0, Step(r, p, inp, true).0)
    ensures Related(r, inp.pkt.ts, Step(r, u, inp, false).1, Step(r, p, inp, true).1)
    ensures Step(r, p, inp, true).1.states[0] == []
  {
    ReceiveRelated(r, now, u, p, inp);
    if 0 in inp.states {
      TerminateSame(r, inp.pkt.ts, Receive(u, inp), Receive(p, inp), inp.pkt);
    }
  }

  /** The time of the last of the first n publications. */
  function Clock(inps: seq<Input>, n: nat): nat
    requires n <= |inps|
  {
    if n == 0 then 0 else inps[n - 1].pkt.ts
  }

  lemma StartRelated(r: Rule)
    requires WellFormed(r)
    ensures Related(r, 0, Empty(r), Empty(r)) && Empty(r).states[0] == []
  {
    var s := Empty(r);
    assert forall i :: 0 <= i < |r.predicates| ==> PredicateOk(r, i) && StateLag(r, 0, s.states, s.states, i);
    assert forall j :: 0 <= j < |r.negations| ==> NegationOk(r, r.negations[j]) && NegLag(r, 0, s, s, j);
    assert forall j :: 0 <= j < |r.aggregates| ==> AggregateOk(r, r.aggregates[j]) && AggLag(r, 0, s, s, j);
  }

  lemma {:induction false} RunRelated(r: Rule, inps: seq<Input>, n: nat)
    requires WellFormed(r) && PurgeSafe(r) && Ordered(inps) && n <= |inps|
    ensures Related(r, Clock(inps, n), StacksAfter(r, inps, n, false), StacksAfter(r, inps, n, true))
    ensures StacksAfter(r, inps, n, true).states[0] == []
  {
    hide Related, Step, WellFormed, PurgeSafe;
    if n == 0 {
      StartRelated(r);
    } else {
      RunRelated(r, inps, n - 1);
      StepSame(r, Clock(inps, n - 1), StacksAfter(r, inps, n - 1, false), StacksAfter(r, inps, n - 1, true), inps[n - 1]);
    }
  }

  /** Main result: along every ordered run, purging never changes what a publication emits. */
  lemma PurgingInvisible(r: Rule, inps: seq<Input>, k: nat)
    requires WellFormed(r) && PurgeSafe(r) && Ordered(inps) && k < |inps|
    ensures SameEmission(r, Emitted(r, inps, k, false), Emitted(r, inps, k, true))
  {
    hide Related, Step, WellFormed, PurgeSafe, SameEmission;
    RunRelated(r, inps, k);
    StepSame(r, Clock(inps, k), StacksAfter(r, inps, k, false), StacksAfter(r, inps, k, true), inps[k]);
  }
}
