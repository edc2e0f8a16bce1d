/** Rules whose states and negations each have a packet of their own, and rules of one shape. */
module Targets {
  import opened Events
  import opened Rules
  import opened Detection
  import opened Timelines
  import opened Purging
  import opened Indexing
  import opened IndexingTables
  import opened Reception

  /** Some packet is filed under (ty, i) and under nothing else of the rule. */
  ghost predicate HasOwn(r: Rule, rank: int32 -> int, ty: StateType, i: int) {
    exists eventType: int32, attrs :: OnlyFor(r, rank, ty, i, PubPkt(0, eventType, 0, attrs))
  }

  /** Every state and every negation has a packet of its own. */
  ghost predicate Separable(r: Rule, rank: int32 -> int) {
    && (forall i :: 0 <= i < |r.predicates| ==> HasOwn(r, rank, STATE, i))
    && (forall j :: 0 <= j < |r.negations| ==> HasOwn(r, rank, NEG, j))
  }

  ghost function OwnPacket(r: Rule, rank: int32 -> int, ty: StateType, i: int, id: nat, ts: nat): (p: PubPkt)
    requires HasOwn(r, rank, ty, i)
    ensures p.id == id && p.ts == ts && OnlyFor(r, rank, ty, i, p)
  {
    var eventType: int32, attrs :| OnlyFor(r, rank, ty, i, PubPkt(0, eventType, 0, attrs));
    SameContent(r, rank, ty, i, PubPkt(0, eventType, 0, attrs), PubPkt(id, eventType, ts, attrs));
    PubPkt(id, eventType, ts, attrs)
  }

  /** What is filed depends on the states, negations and aggregates of the rule only. */
  lemma SameTargets(r: Rule, r': Rule, rank: int32 -> int, ty: StateType, i: int, p: PubPkt)
    requires r'.predicates == r.predicates && r'.negations == r.negations && r'.aggregates == r.aggregates
    ensures OnlyFor(r, rank, ty, i, p) == OnlyFor(r', rank, ty, i, p)
  {
    forall ty', i' | 0 <= i' < NumOf(r, ty') ensures NumOf(r', ty') == NumOf(r, ty') && Reported(r, rank, ty', i', p) == Reported(r', rank, ty', i', p) {
      assert ConstraintsOf(r, ty', i') == ConstraintsOf(r', ty', i') && TypeOf(r, ty', i') == TypeOf(r', ty', i');
    }
  }

  lemma SameSeparable(r: Rule, r': Rule, rank: int32 -> int)
    requires Separable(r, rank)
    requires r'.predicates == r.predicates && r'.negations == r.negations && r'.aggregates == r.aggregates
    ensures Separable(r', rank)
  {
    forall ty, i | HasOwn(r, rank, ty, i) ensures HasOwn(r', rank, ty, i) {
      var eventType: int32, attrs :| OnlyFor(r, rank, ty, i, PubPkt(0, eventType, 0, attrs));
      SameTargets(r, r', rank, ty, i, PubPkt(0, eventType, 0, attrs));
    }
  }

  // ---------------------------------------------------------------- plain rules

  /** No constraints, and no type asked for twice. */
  predicate Plain(r: Rule) {
    && (forall ty, i :: 0 <= i < NumOf(r, ty) ==> ConstraintsOf(r, ty, i) == [])
    && (forall ty, i, ty', i' :: 0 <= i < NumOf(r, ty) && 0 <= i' < NumOf(r, ty') && TypeOf(r, ty, i) == TypeOf(r, ty', i') ==> ty == ty' && i == i')
  }

  lemma PlainOwn(r: Rule, rank: int32 -> int, ty: StateType, i: int, pkt: PubPkt)
    requires Plain(r) && 0 <= i < NumOf(r, ty) && pkt.eventType == TypeOf(r, ty, i) && DistinctNames(pkt.attributes)
    ensures OnlyFor(r, rank, ty, i, pkt)
  {
    forall ty', i' | 0 <= i' < NumOf(r, ty') ensures Reported(r, rank, ty', i', pkt) <==> ty' == ty && i' == i {
      assert ConstraintsOf(r, ty', i') == [];
    }
  }

  lemma PlainIsSeparable(r: Rule, rank: int32 -> int)
    requires Plain(r)
    ensures Separable(r, rank)
  {
    forall ty, i | 0 <= i < NumOf(r, ty) ensures HasOwn(r, rank, ty, i) {
      PlainOwn(r, rank, ty, i, PubPkt(0, TypeOf(r, ty, i), 0, []));
    }
    assert NumOf(r, STATE) == |r.predicates| && NumOf(r, NEG) == |r.negations|;
  }

  // ---------------------------------------------------------------- shapes

  /** The rules differ in event types, constraints and machine operations only. */
  predicate SameShape(r: Rule, r': Rule) {
    && |r'.predicates| == |r.predicates| && |r'.negations| == |r.negations| && |r'.aggregates| == |r.aggregates|
    && (forall i :: 0 <= i < |r.predicates| ==>
          r'.predicates[i] == r.predicates[i].(eventType := r'.predicates[i].eventType, constraints := r'.predicates[i].constraints))
    && (forall j :: 0 <= j < |r.negations| ==>
          r'.negations[j] == r.negations[j].(eventType := r'.negations[j].eventType, constraints := r'.negations[j].constraints))
    && (forall a :: 0 <= a < |r.aggregates| ==>
          r'.aggregates[a] == r.aggregates[a].(eventType := r'.aggregates[a].eventType, constraints := r'.aggregates[a].constraints))
    && r'.params == r.params && r'.consuming == r.consuming
  }

  lemma ShapeOk(r: Rule, r': Rule)
    requires WellFormed(r) && SameShape(r, r')
    ensures WellFormed(r')
  {
    hide Readable, FindLastState;
    forall i | 0 <= i < |r'.predicates| ensures PredicateOk(r', i) { assert PredicateOk(r, i); }
    forall j | 0 <= j < |r'.negations| ensures NegationOk(r', r'.negations[j]) { assert NegationOk(r, r.negations[j]); }
    forall a | 0 <= a < |r'.aggregates| ensures AggregateOk(r', r'.aggregates[a]) { assert AggregateOk(r, r.aggregates[a]); }
    forall par | par in r'.params ensures ParamOk(r', par) {
      assert ParamOk(r, par);
      if par.sType == NEG { assert NegationOk(r', r'.negations[par.lastIndex]) && Link(r'.negations[par.lastIndex]) == Link(r.negations[par.lastIndex]); }
    }
  }

  lemma {:induction false} LeadOfShape(ps: seq<Predicate>, ps': seq<Predicate>, u: nat, x: nat)
    requires Tree(ps) && Tree(ps') && |ps'| == |ps| && u < |ps| && x < |ps|
    requires forall i :: 0 <= i < |ps| ==> ps'[i].refersTo == ps[i].refersTo && ps'[i].win == ps[i].win
    ensures Lead(ps', u, x) == Lead(ps, u, x)
    decreases u + x
  {
    if u > x {
      LeadOfShape(ps, ps', ps[u].refersTo, x);
    } else if x > u {
      LeadOfShape(ps, ps', u, ps[x].refersTo);
    }
  }

  lemma PurgeSafeOfShape(r: Rule, r': Rule)
    requires WellFormed(r) && WellFormed(r') && SameShape(r, r')
    ensures PurgeSafe(r') == PurgeSafe(r) && Unmatchable(r') == Unmatchable(r)
  {
    hide Lead;
    WellFormedTree(r);
    WellFormedTree(r');
    forall j | 0 <= j < |r.negations| && r.negations[j].lowerId >= 0
      ensures NegationOk(r, r.negations[j]) && NegationOk(r', r'.negations[j]) && PurgeSafeNeg(r', r'.negations[j]) == PurgeSafeNeg(r, r.negations[j])
    {
      var g := r.negations[j];
      assert NegationOk(r, g);
      LeadOfShape(r.predicates, r'.predicates, g.upperId, g.lowerId);
    }
    assert forall i :: 0 <= i < |r.predicates| ==> r'.predicates[i].win == r.predicates[i].win;
  }

  // ---------------------------------------------------------------- labels

  /** The number of a state, a negation or an aggregate among all of the rule. */
  function Number(r: Rule, ty: StateType, i: nat): nat {
    match ty
    case STATE => i
    case NEG => |r.predicates| + i
    case AGG => |r.predicates| + |r.negations| + i
  }

  /** The k-th attribute name of a family without end. */
  function Label(k: nat): Name {
    seq(k, _ => 0)
  }

  function Asking(k: nat): seq<Constraint> {
    [Constraint(Label(k), EQ, IntVal(0))]
  }

  /** The same shape, with one attribute for each state, negation and aggregate to ask for. */
  function Labeled(r: Rule): (r': Rule)
    ensures SameShape(r, r')
  {
    var n, m := |r.predicates|, |r.negations|;
    r.(predicates := seq(n, i requires 0 <= i < n => r.predicates[i].(eventType := 0, constraints := Asking(i))),
       negations := seq(m, j requires 0 <= j < m => r.negations[j].(eventType := 0, constraints := Asking(n + j))),
       aggregates := seq(|r.aggregates|, a requires 0 <= a < |r.aggregates| => r.aggregates[a].(eventType := 0, constraints := Asking(n + m + a))))
  }

  lemma LabeledAsks(r: Rule, ty: StateType, i: int)
    requires 0 <= i < NumOf(Labeled(r), ty)
    ensures NumOf(Labeled(r), ty) == NumOf(r, ty)
    ensures ConstraintsOf(Labeled(r), ty, i) == Asking(Number(r, ty, i)) && TypeOf(Labeled(r), ty, i) == 0
  {
  }

  lemma LabelMeets(pkt: PubPkt, k: nat, l: nat, rank: int32 -> int)
    requires pkt.attributes == [Attribute(Label(l), IntVal(0))]
    ensures MetBy(pkt, Asking(k)[0], rank) <==> k == l
  {
    assert |Label(k)| == k && |Label(l)| == l;
    assert pkt.attributes[0].value == IntVal(0);
  }

  lemma LabeledIsSeparable(r: Rule, rank: int32 -> int)
    ensures Separable(Labeled(r), rank)
  {
    hide Labeled, MetBy, Label;
    var r' := Labeled(r);
    forall ty, i | 0 <= i < NumOf(r', ty) ensures HasOwn(r', rank, ty, i) {
      LabeledAsks(r, ty, i);
      var pkt := PubPkt(0, 0, 0, [Attribute(Label(Number(r, ty, i)), IntVal(0))]);
      forall ty', i' | 0 <= i' < NumOf(r', ty') ensures Reported(r', rank, ty', i', pkt) <==> ty' == ty && i' == i {
        LabeledAsks(r, ty', i');
        LabelMeets(pkt, Number(r, ty', i'), Number(r, ty, i), rank);
      }
      assert OnlyFor(r', rank, ty, i, pkt);
    }
    assert NumOf(r', STATE) == |r'.predicates| && NumOf(r', NEG) == |r'.negations|;
  }
}
