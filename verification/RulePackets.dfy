/** Building rules, and the time span a rule can cover. */
module RulePackets {
  import opened Events
  import opened Rules
  import opened Detection
  import opened Soundness
  import opened Purging
  import opened Parameters

  /** The last state is the largest one read: below it and at it, everything is readable. */
  lemma {:induction false} LastStateReadable(t: OpTree, n: nat, b: nat)
    requires StateTree(t, n) && FindLastState(t) <= b
    ensures Readable(t, b, b, STATE) && FindLastState(t) < n
  {
    match t
    case Leaf(_, ref) =>
    case Inner(_, l, r, _) =>
      LastStateReadable(l, n, b);
      LastStateReadable(r, n, b);
  }

  /** The largest aggregate a tree refers to, or -1. */
  function FindAggregate(t: OpTree): int {
    match t
    case Leaf(_, PktRef(i, AGG, _)) => i
    case Leaf(_, _) => -1
    case Inner(_, l, r, _) => Max(FindAggregate(l), FindAggregate(r))
  }

  /** The largest negation a tree refers to, or -1. */
  function FindNegation(t: OpTree): int {
    match t
    case Leaf(_, PktRef(i, NEG, _)) => i
    case Leaf(_, _) => -1
    case Inner(_, l, r, _) => Max(FindNegation(l), FindNegation(r))
  }

  /** The index under which a parameter of each kind is registered. */
  function ParamIndex(sType: StateType, left: OpTree, right: OpTree): int {
    match sType
    case STATE => Max(FindLastState(left), FindLastState(right))
    case AGG => Max(FindAggregate(left), FindAggregate(right))
    case NEG => Max(FindNegation(left), FindNegation(right))
  }

  lemma HasMember(s: set<int>)
    requires s != {}
    ensures exists x: int :: x in s
  {
    if forall x: int :: x !in s {
      assert false;
    }
  }

  lemma {:induction false} ReadableMore(t: OpTree, b: nat, b': nat, index: int, sType: StateType)
    requires b <= b' && Readable(t, b, index, sType)
    ensures Readable(t, b', index, sType)
  {
    if t.Inner? {
      ReadableMore(t.left, b, b', index, sType);
      ReadableMore(t.right, b, b', index, sType);
    }
  }

  /** A rule stays well formed when proper negations, aggregates or parameters are added. */
  lemma StillWellFormed(r: Rule, r': Rule)
    requires WellFormed(r) && r'.predicates == r.predicates
    requires |r'.negations| >= |r.negations| && |r'.aggregates| >= |r.aggregates|
    requires forall j :: 0 <= j < |r'.negations| ==> NegationOk(r', r'.negations[j]) && (j < |r.negations| ==> r'.negations[j] == r.negations[j])
    requires forall a :: 0 <= a < |r'.aggregates| ==> AggregateOk(r', r'.aggregates[a])
    requires forall par :: par in r'.params ==> par in r.params || ParamOk(r', par)
    ensures WellFormed(r')
  {
    forall i | 0 <= i < |r.predicates| ensures PredicateOk(r', i) {
      assert PredicateOk(r, i);
    }
    forall par | par in r.params ensures ParamOk(r', par) {
      assert ParamOk(r, par);
      assert par.sType == NEG ==> NegationOk(r', r'.negations[par.lastIndex]);
    }
  }

  lemma OneMoreParameter(r: Rule, r': Rule, par: Param)
    requires WellFormed(r) && r' == r.(params := r.params + [par])
    ensures WellFormed(r') <==> ParamOk(r, par)
  {
    OldPartsOk(r, r');
    if ParamOk(r, par) {
      SameParamOk(r, r', par);
      StillWellFormed(r, r');
    }
    if WellFormed(r') {
      assert r'.params[|r.params|] == par && ParamOk(r', par);
      SameParamOk(r', r, par);
    }
  }

  lemma OldPartsOk(r: Rule, r': Rule)
    requires WellFormed(r) && r'.predicates == r.predicates
    ensures forall j :: 0 <= j < |r.negations| ==> NegationOk(r', r.negations[j])
    ensures forall a :: 0 <= a < |r.aggregates| ==> AggregateOk(r', r.aggregates[a])
  {
    forall j | 0 <= j < |r.negations| ensures NegationOk(r', r.negations[j]) {
      assert NegationOk(r, r.negations[j]);
    }
    forall a | 0 <= a < |r.aggregates| ensures AggregateOk(r', r.aggregates[a]) {
      assert AggregateOk(r, r.aggregates[a]);
    }
  }

  /** The predicates that refer to state i. */
  function Referring(ps: seq<Predicate>, i: int): set<int> {
    set k | 0 <= k < |ps| && ps[k].refersTo == i
  }

  lemma ReferringMore(ps: seq<Predicate>, n: nat, i: int)
    requires n < |ps|
    ensures |Referring(ps[..n + 1], i)| == |Referring(ps[..n], i)| + if i == ps[n].refersTo then 1 else 0
  {
    var a, b := Referring(ps[..n], i), Referring(ps[..n + 1], i);
    if i == ps[n].refersTo {
      assert b == a + {n};
    } else {
      assert b == a;
    }
  }

  lemma NoneRefer(ps: seq<Predicate>, i: int)
    ensures |Referring(ps, i)| == 0 <==> !exists k :: 0 <= k < |ps| && ps[k].refersTo == i
  {
    var s := Referring(ps, i);
    if |s| == 0 {
      forall k | 0 <= k < |ps| ensures ps[k].refersTo != i { assert k !in s; }
    } else {
      assert s != {};
      HasMember(s);
    }
  }

  /** Every state read is below b, and everything else is a packet under examination. */
  predicate ReadsStatesBelow(t: OpTree, b: nat, own: StateType) {
    match t
    case Leaf(_, Static(_)) => true
    case Leaf(_, PktRef(i, sType, _)) => sType == own || (sType == STATE && 0 <= i < b)
    case Inner(_, l, r, _) => ReadsStatesBelow(l, b, own) && ReadsStatesBelow(r, b, own)
  }

  /** A parameter of a negation or an aggregate may read the states bound when it is checked. */
  lemma {:induction false} OwnTreeReadable(t: OpTree, b: nat, index: int, own: StateType)
    requires own != STATE
    ensures Readable(t, b, index, own) <==> ReadsStatesBelow(t, b, own)
    ensures Readable(t, b, index, own) ==> FindLastState(t) < b
  {
    match t
    case Leaf(_, ref) =>
    case Inner(_, l, r, _) =>
      OwnTreeReadable(l, b, index, own);
      OwnTreeReadable(r, b, index, own);
  }

  class RulePkt {
    var predicates: seq<Predicate>
    var negations: seq<Negation>
    var aggregates: seq<Aggregate>
    var complexParameters: seq<Param>
    var consuming: set<int>
    const prims: Prims

    function Rule(): Rule
      reads this
    {
      Rules.Rule(predicates, negations, aggregates, complexParameters, consuming, prims)
    }

    constructor (prims: Prims)
      ensures Rule() == Rules.Rule([], [], [], [], {}, prims)
    {
      predicates, negations, aggregates, complexParameters, consuming := [], [], [], [], {};
      this.prims := prims;
    }

    method AddRootPredicate(eventType: int32, constraints: seq<Constraint>) returns (ok: bool)
      modifies this
      ensures ok <==> old(predicates) == []
      ensures !ok ==> Rule() == old(Rule())
      ensures ok ==> Rule() == old(Rule()).(predicates := [Predicate(eventType, constraints, -1, 0, EACH_WITHIN)])
      ensures ok && old(negations == [] && aggregates == [] && complexParameters == []) ==> WellFormed(Rule())
    {
      if |predicates| > 0 { return false; }
      predicates := [Predicate(eventType, constraints, -1, 0, EACH_WITHIN)];
      return true;
    }

    /** A negative reference is accepted, and is the only way to leave the tree shape. */
    method AddPredicate(eventType: int32, constraints: seq<Constraint>, refersTo: int32, win: nat, kind: CompKind) returns (ok: bool)
      modifies this
      ensures ok <==> 0 < |old(predicates)| && refersTo < |old(predicates)|
      ensures !ok ==> Rule() == old(Rule())
      ensures ok ==> Rule() == old(Rule()).(predicates := old(predicates) + [Predicate(eventType, constraints, refersTo, win, kind)])
      ensures ok && old(WellFormed(Rule())) ==> (WellFormed(Rule()) <==> refersTo >= 0)
    {
      if |predicates| <= 0 || refersTo >= |predicates| { return false; }
      ghost var r := Rule();
      predicates := predicates + [Predicate(eventType, constraints, refersTo, win, kind)];
      if WellFormed(r) {
        forall i | 0 <= i < |r.predicates| ensures PredicateOk(Rule(), i) { assert PredicateOk(r, i); }
        forall j | 0 <= j < |negations| ensures NegationOk(Rule(), negations[j]) { assert NegationOk(r, r.negations[j]); }
        forall a | 0 <= a < |aggregates| ensures AggregateOk(Rule(), aggregates[a]) { assert AggregateOk(r, r.aggregates[a]); }
        forall par | par in r.params ensures ParamOk(Rule(), par) {
          assert ParamOk(r, par);
          if par.sType == AGG {
            ReadableMore(par.left, |r.predicates|, |predicates|, -1, AGG);
            ReadableMore(par.right, |r.predicates|, |predicates|, -1, AGG);
          }
        }
        assert WellFormed(Rule()) ==> PredicateOk(Rule(), |r.predicates|);
      }
      return true;
    }

    method AddNegation(eventType: int32, constraints: seq<Constraint>, lowerId: int32, lowerTime: nat, upperId: int32) returns (ok: bool)
      modifies this
      ensures ok <==> lowerId < |old(predicates)| && 0 <= upperId < |old(predicates)| && (lowerId >= 0 ==> lowerId > upperId)
      ensures !ok ==> Rule() == old(Rule())
      ensures ok ==> Rule() == old(Rule()).(negations := old(negations) + [Negation(eventType, constraints, lowerId, lowerTime, upperId)])
      ensures old(WellFormed(Rule())) ==> WellFormed(Rule())
    {
      if lowerId >= |predicates| { return false; }
      if upperId < 0 || upperId >= |predicates| { return false; }
      if lowerId >= 0 && lowerId <= upperId { return false; }
      ghost var r := Rule();
      negations := negations + [Negation(eventType, constraints, lowerId, lowerTime, upperId)];
      if WellFormed(r) {
        OldPartsOk(r, Rule());
        StillWellFormed(r, Rule());
      }
      return true;
    }

    /** The two states may be given in either order; equal ones are refused. */
    method AddNegationBetweenStates(eventType: int32, constraints: seq<Constraint>, id1: int32, id2: int32, now: nat) returns (ok: bool)
      modifies this
      ensures ok <==> id1 != id2 && 0 <= id1 < |old(predicates)| && 0 <= id2 < |old(predicates)|
      ensures !ok ==> Rule() == old(Rule())
      ensures ok ==> Rule() == old(Rule()).(negations := old(negations) +
                       [Negation(eventType, constraints, Max(id1, id2), now, id1 + id2 - Max(id1, id2))])
      ensures old(WellFormed(Rule())) ==> WellFormed(Rule())
    {
      var low, high := id1, id2;
      if id1 < id2 { low, high := high, low; }
      ok := AddNegation(eventType, constraints, low, now, high);
    }

    method AddAggregate(eventType: int32, constraints: seq<Constraint>, lowerId: int32, lowerTime: nat, upperId: int32,
                        name: Name, fun: AggregateFun) returns (ok: bool)
      modifies this
      ensures ok <==> lowerId < |old(predicates)| && 0 <= upperId < |old(predicates)| && (lowerId >= 0 ==> lowerId > upperId)
      ensures !ok ==> Rule() == old(Rule())
      ensures ok ==> Rule() == old(Rule()).(aggregates := old(aggregates) + [Aggregate(eventType, constraints, lowerId, lowerTime, upperId, fun, name)])
      ensures old(WellFormed(Rule())) ==> WellFormed(Rule())
    {
      if lowerId >= |predicates| { return false; }
      if upperId < 0 || upperId >= |predicates| { return false; }
      if lowerId >= 0 && lowerId <= upperId { return false; }
      ghost var r := Rule();
      aggregates := aggregates + [Aggregate(eventType, constraints, lowerId, lowerTime, upperId, fun, name)];
      if WellFormed(r) {
        OldPartsOk(r, Rule());
        StillWellFormed(r, Rule());
      }
      return true;
    }

    method AddAggregateBetweenStates(eventType: int32, constraints: seq<Constraint>, id1: int32, id2: int32, now: nat,
                                     name: Name, fun: AggregateFun) returns (ok: bool)
      modifies this
      ensures ok <==> id1 != id2 && 0 <= id1 < |old(predicates)| && 0 <= id2 < |old(predicates)|
      ensures !ok ==> Rule() == old(Rule())
      ensures ok ==> Rule() == old(Rule()).(aggregates := old(aggregates) +
                       [Aggregate(eventType, constraints, Max(id1, id2), now, id1 + id2 - Max(id1, id2), fun, name)])
      ensures old(WellFormed(Rule())) ==> WellFormed(Rule())
    {
      var low, high := id1, id2;
      if id1 < id2 { low, high := high, low; }
      ok := AddAggregate(eventType, constraints, low, now, high, name, fun);
    }

    /** Registers a parameter of an aggregate under the last aggregate it reads. */
    method AddComplexParameterForAggregate(op: Op, vType: ValType, left: OpTree, right: OpTree) returns (ok: bool)
      modifies this
      ensures ok <==> ParamIndex(AGG, left, right) >= 0
      ensures Rule() == if ok then old(Rule()).(params := old(complexParameters) + [Param(op, left, right, ParamIndex(AGG, left, right), AGG, vType)])
                        else old(Rule())
      ensures ok && old(WellFormed(Rule())) ==>
                (WellFormed(Rule()) <==>
                 var j := ParamIndex(AGG, left, right);
                 j < |aggregates| && ReadsStatesBelow(left, |predicates|, AGG) && ReadsStatesBelow(right, |predicates|, AGG))
    {
      ghost var r := Rule();
      var lIndex := Max(FindAggregate(left), FindAggregate(right));
      if lIndex < 0 { return false; }
      complexParameters := complexParameters + [Param(op, left, right, lIndex, AGG, vType)];
      if WellFormed(r) {
        OneMoreParameter(r, Rule(), Param(op, left, right, lIndex, AGG, vType));
        OwnTreeReadable(left, |predicates|, -1, AGG);
        OwnTreeReadable(right, |predicates|, -1, AGG);
      }
      return true;
    }

    /** Registers a parameter of a negation under the last negation it reads. */
    method AddComplexParameterForNegation(op: Op, vType: ValType, left: OpTree, right: OpTree) returns (ok: bool)
      modifies this
      ensures ok <==> ParamIndex(NEG, left, right) >= 0
      ensures Rule() == if ok then old(Rule()).(params := old(complexParameters) + [Param(op, left, right, ParamIndex(NEG, left, right), NEG, vType)])
                        else old(Rule())
      ensures ok && old(WellFormed(Rule())) ==>
                (WellFormed(Rule()) <==>
                 var j := ParamIndex(NEG, left, right);
                 j < |negations|
                 && ReadsStatesBelow(left, Link(negations[j]) + 1, NEG) && ReadsStatesBelow(right, Link(negations[j]) + 1, NEG))
    {
      ghost var r := Rule();
      var lIndex := Max(FindNegation(left), FindNegation(right));
      if lIndex < 0 { return false; }
      complexParameters := complexParameters + [Param(op, left, right, lIndex, NEG, vType)];
      if WellFormed(r) {
        OneMoreParameter(r, Rule(), Param(op, left, right, lIndex, NEG, vType));
        if lIndex < |negations| {
          assert NegationOk(r, negations[lIndex]);
          OwnTreeReadable(left, Link(negations[lIndex]) + 1, lIndex, NEG);
          OwnTreeReadable(right, Link(negations[lIndex]) + 1, lIndex, NEG);
        }
      }
      return true;
    }

    /** Registers a parameter under the last state it reads; one that reads none is refused. */
    method AddComplexParameter(op: Op, vType: ValType, left: OpTree, right: OpTree) returns (ok: bool)
      modifies this
      ensures ok <==> Max(FindLastState(left), FindLastState(right)) >= 0
      ensures !ok ==> Rule() == old(Rule())
      ensures ok ==> Rule() == old(Rule()).(params := old(complexParameters) +
                       [Param(op, left, right, Max(FindLastState(left), FindLastState(right)), STATE, vType)])
      ensures ok && old(WellFormed(Rule())) ==>
                (WellFormed(Rule()) <==> StateTree(left, |predicates|) && StateTree(right, |predicates|))
    {
      var lIndex := Max(FindLastState(left), FindLastState(right));
      if lIndex < 0 { return false; }
      ghost var r := Rule();
      var par := Param(op, left, right, lIndex, STATE, vType);
      complexParameters := complexParameters + [par];
      if WellFormed(r) && StateTree(left, |predicates|) && StateTree(right, |predicates|) {
        LastStateReadable(left, |predicates|, lIndex);
        LastStateReadable(right, |predicates|, lIndex);
        assert ParamOk(r, par);
      }
      if WellFormed(r) {
        OneMoreParameter(r, Rule(), par);
        if ParamOk(r, par) {
          ReadableIsStateTree(left, lIndex, |predicates|);
          ReadableIsStateTree(right, lIndex, |predicates|);
        }
      }
      return true;
    }

    method AddConsuming(eventIndex: int) returns (ok: bool)
      modifies this
      ensures ok <==> 0 <= eventIndex < |old(predicates)|
      ensures Rule() == if ok then old(Rule()).(consuming := old(consuming) + {eventIndex}) else old(Rule())
      ensures old(WellFormed(Rule())) ==> WellFormed(Rule())
    {
      if eventIndex < 0 || eventIndex >= |predicates| { return false; }
      ghost var r := Rule();
      consuming := consuming + {eventIndex};
      if WellFormed(r) {
        OldPartsOk(r, Rule());
        StillWellFormed(r, Rule());
      }
      return true;
    }

    /** The total window along the references from `upperId` down to `lowerId`. */
    method GetWinBetween(lowerId: int, upperId: int) returns (timeBetween: nat)
      requires WellFormed(Rule()) && 0 <= upperId < |predicates| && Reaches(Rule(), upperId, lowerId)
      ensures timeBetween == PathWin(Rule(), upperId, lowerId)
    {
      var currentIndex := upperId;
      timeBetween := 0;
      while currentIndex != lowerId
        invariant 0 <= currentIndex < |predicates| && Reaches(Rule(), currentIndex, lowerId)
        invariant timeBetween + PathWin(Rule(), currentIndex, lowerId) == PathWin(Rule(), upperId, lowerId)
        decreases currentIndex
      {
        assert PredicateOk(Rule(), currentIndex);
        timeBetween := timeBetween + predicates[currentIndex].win;
        currentIndex := predicates[currentIndex].refersTo;
      }
    }

    /** How many predicates refer to each state; the root's reference is counted under -1. */
    method GetReferenceCount() returns (referenceCount: map<int, int>)
      requires WellFormed(Rule())
      ensures forall i :: i in referenceCount <==> -1 <= i < |predicates|
      ensures forall i :: -1 <= i < |predicates| ==> referenceCount[i] == |Referring(predicates, i)|
    {
      referenceCount := map[];
      for i := 0 to |predicates|
        invariant forall k :: k in referenceCount <==> 0 <= k < i
        invariant forall k :: k in referenceCount ==> referenceCount[k] == 0
      {
        referenceCount := referenceCount[i := 0];
      }
      assert PredicateOk(Rule(), 0);
      assert predicates[..|predicates|] == predicates;
      var n := 0;
      while n < |predicates|
        invariant 0 <= n <= |predicates|
        invariant forall i :: i in referenceCount <==> 0 <= i < |predicates| || (i == -1 && n > 0)
        invariant forall i :: i in referenceCount ==> referenceCount[i] == |Referring(predicates[..n], i)|
      {
        assert PredicateOk(Rule(), n);
        var key: int := predicates[n].refersTo;
        forall i ensures |Referring(predicates[..n + 1], i)| == |Referring(predicates[..n], i)| + if i == key then 1 else 0 {
          ReferringMore(predicates, n, i);
        }
        if key == -1 && n == 0 { NoneRefer(predicates[..n], -1); }
        referenceCount := referenceCount[key := (if key in referenceCount then referenceCount[key] else 0) + 1];
        n := n + 1;
      }
    }

    /** The largest window total over the leaves. */
    method GetMaxWin() returns (returnTime: nat)
      requires WellFormed(Rule())
      ensures forall i :: 0 <= i < |predicates| ==> RootReached(Rule(), i) && PathWin(Rule(), i, 0) <= returnTime
      ensures returnTime > 0 ==> exists i :: 0 <= i < |predicates| && RootReached(Rule(), i) && PathWin(Rule(), i, 0) == returnTime
    {
      hide PathWin, Referring, Reaches;
      var referenceCount := GetReferenceCount();
      var leaves := set i | i in referenceCount && referenceCount[i] == 0;
      assert forall i :: i in leaves <==> 0 <= i < |predicates| && IsLeaf(Rule(), i) by {
        assert PredicateOk(Rule(), 0);
        forall i | -1 <= i < |predicates| ensures |Referring(predicates, i)| == 0 <==> IsLeaf(Rule(), i) { NoneRefer(predicates, i); }
        assert !IsLeaf(Rule(), -1);
      }
      returnTime := 0;
      var rest := leaves;
      while rest != {}
        invariant rest <= leaves
        invariant forall i :: i in leaves - rest ==> RootReached(Rule(), i) && PathWin(Rule(), i, 0) <= returnTime
        invariant returnTime > 0 ==> exists i :: 0 <= i < |predicates| && RootReached(Rule(), i) && PathWin(Rule(), i, 0) == returnTime
        decreases rest
      {
        HasMember(rest);
        var leaf: int :| leaf in rest;
        ReachesRoot(Rule(), leaf);
        var currentTime := GetWinBetween(0, leaf);
        if currentTime > returnTime { returnTime := currentTime; }
        rest := rest - {leaf};
      }
      forall i | 0 <= i < |predicates| ensures RootReached(Rule(), i) && PathWin(Rule(), i, 0) <= returnTime {
        var leaf := LeafBelow(Rule(), i);
      }
    }

    /** Whether the references from the larger state lead to the smaller one. */
    method IsInTheSameSequence(id1: int, id2: int) returns (b: bool)
      requires WellFormed(Rule())
      ensures b <==> id1 != id2 && 0 <= id1 < |predicates| && 0 <= id2 < |predicates|
                     && Reaches(Rule(), Max(id1, id2), id1 + id2 - Max(id1, id2))
    {
      if id1 == id2 || id1 < 0 || id2 < 0 || id1 >= |predicates| || id2 >= |predicates| { return false; }
      var min, i := id1 + id2 - Max(id1, id2), Max(id1, id2);
      while i > 0
        invariant 0 <= i < |predicates| && i != min
        invariant Reaches(Rule(), i, min) <==> Reaches(Rule(), Max(id1, id2), min)
        decreases i
      {
        assert PredicateOk(Rule(), i);
        i := predicates[i].refersTo;
        if i == min { return true; }
      }
      return false;
    }
  }

  ghost predicate RootReached(r: Rule, i: int)
    requires WellFormed(r) && 0 <= i < |r.predicates|
  {
    Reaches(r, i, 0)
  }

  lemma {:induction false} ReachesRoot(r: Rule, i: int)
    requires WellFormed(r) && 0 <= i < |r.predicates|
    ensures RootReached(r, i)
    decreases i
  {
    assert PredicateOk(r, i);
    if i > 0 { ReachesRoot(r, r.predicates[i].refersTo); }
  }

  function PathWin(r: Rule, i: int, lower: int): nat
    requires WellFormed(r) && 0 <= i < |r.predicates| && Reaches(r, i, lower)
    decreases i
  {
    assert PredicateOk(r, i);
    if i == lower then 0 else r.predicates[i].win + PathWin(r, r.predicates[i].refersTo, lower)
  }

  ghost predicate IsLeaf(r: Rule, i: int) {
    0 <= i < |r.predicates| && !exists k :: 0 <= k < |r.predicates| && r.predicates[k].refersTo == i
  }

  /** Below every state hangs a leaf whose window total is at least as large. */
  lemma {:induction false} LeafBelow(r: Rule, i: int) returns (leaf: int)
    requires WellFormed(r) && 0 <= i < |r.predicates|
    ensures RootReached(r, i) && IsLeaf(r, leaf) && RootReached(r, leaf) && PathWin(r, i, 0) <= PathWin(r, leaf, 0)
    decreases |r.predicates| - i
  {
    ReachesRoot(r, i);
    if IsLeaf(r, i) {
      leaf := i;
    } else {
      var k :| 0 <= k < |r.predicates| && r.predicates[k].refersTo == i;
      assert PredicateOk(r, k);
      leaf := LeafBelow(r, k);
    }
  }

  /** Main result: a match spans less than the window total of each of its states. */
  lemma {:induction false} SpanBound(r: Rule, st: Stacks, e: PubPkt, m: Partial, i: int)
    requires WellFormed(r) && Shaped(r, st) && m in Detect(r, st, e) && 1 <= i < |r.predicates|
    ensures |m| == |r.predicates| && m[0] == e && RootReached(r, i) && m[0].ts - m[i].ts < PathWin(r, i, 0)
    decreases i
  {
    DetectIsExact(r, st, e, m);
    ReachesRoot(r, i);
    assert ChosenEvent(r, st, m[..i], m[i]);
    assert PredicateOk(r, i);
    var up := r.predicates[i].refersTo;
    if up > 0 { SpanBound(r, st, e, m, up); }
  }
}
