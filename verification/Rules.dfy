/** Rules: the tree of states, negations, aggregates and parameters. */
module Rules {
  import opened Events

  datatype Op = EQ | LT | GT | NE | IN | LE | GE
  datatype CompKind = EACH_WITHIN | FIRST_WITHIN | LAST_WITHIN | ALL_WITHIN
  datatype AggregateFun = NONE | AVG | COUNT | MIN | MAX | SUM

  datatype Constraint = Constraint(name: Name, op: Op, value: Value)
  datatype Predicate = Predicate(eventType: int32, constraints: seq<Constraint>, refersTo: int32, win: nat, kind: CompKind)
  datatype Negation = Negation(eventType: int32, constraints: seq<Constraint>, lowerId: int32, lowerTime: nat, upperId: int32)
  datatype Aggregate = Aggregate(eventType: int32, constraints: seq<Constraint>, lowerId: int32, lowerTime: nat, upperId: int32,
                                 fun: AggregateFun, name: Name)
  datatype Param = Param(op: Op, left: OpTree, right: OpTree, lastIndex: int, sType: StateType, vType: ValType)

  /** The machine operations under the parameter evaluators, one family per value type.
      They are arbitrary functions of what the packets hold: nothing below depends on overflow,
      on division or on how a missing attribute reads. */
  datatype Prims = Prims(
    literal: (ValType, Value) -> int,
    attr: (ValType, Reading) -> int,
    oper: (ValType, TreeOp, int, int) -> int,
    test: (ValType, Op, int, int) -> bool,
    float: int32 -> real)

  datatype Rule = Rule(
    predicates: seq<Predicate>,
    negations: seq<Negation>,
    aggregates: seq<Aggregate>,
    params: seq<Param>,
    consuming: set<int>,
    prims: Prims)

  /** The largest state an operation tree reads, or -1. */
  function FindLastState(t: OpTree): int {
    match t
    case Leaf(_, PktRef(i, STATE, _)) => i
    case Leaf(_, _) => -1
    case Inner(_, l, r, _) => Max(FindLastState(l), FindLastState(r))
  }

  /** Whether a reference is read from the packet under examination. */
  predicate ReadsCandidate(ref: ValueRef, index: int, sType: StateType)
    requires ref.PktRef?
  {
    || (ref.index == index && ref.sType == STATE && sType == STATE)
    || (ref.sType == NEG && sType == NEG)
    || (ref.sType == AGG && sType == AGG)
  }

  /** Every reference of the tree is to the candidate or to one of the first `bound` states. */
  predicate Readable(t: OpTree, bound: nat, index: int, sType: StateType) {
    match t
    case Leaf(_, Static(_)) => true
    case Leaf(_, ref) => ReadsCandidate(ref, index, sType) || (ref.sType == STATE && 0 <= ref.index < bound)
    case Inner(_, l, r, _) => Readable(l, bound, index, sType) && Readable(r, bound, index, sType)
  }

  /** The state at whose binding a negation is checked. */
  function Link(g: Negation): int {
    if g.lowerId < 0 then g.upperId else g.lowerId
  }

  predicate PredicateOk(r: Rule, i: int)
    requires 0 <= i < |r.predicates|
  {
    if i == 0 then r.predicates[0].refersTo == -1 && r.predicates[0].kind == EACH_WITHIN
    else 0 <= r.predicates[i].refersTo < i
  }

  predicate NegationOk(r: Rule, g: Negation) {
    0 <= g.upperId < |r.predicates| && g.lowerId < |r.predicates| && (g.lowerId >= 0 ==> g.lowerId > g.upperId)
  }

  predicate AggregateOk(r: Rule, a: Aggregate) {
    0 <= a.upperId < |r.predicates| && a.lowerId < |r.predicates| && (a.lowerId >= 0 ==> a.lowerId > a.upperId)
  }

  /** A parameter that, when it is checked, reads bound states only. */
  predicate ParamOk(r: Rule, par: Param) {
    match par.sType
    case STATE =>
      && 0 <= par.lastIndex < |r.predicates|
      && par.lastIndex == Max(FindLastState(par.left), FindLastState(par.right))
      && Readable(par.left, par.lastIndex, par.lastIndex, STATE)
      && Readable(par.right, par.lastIndex, par.lastIndex, STATE)
    case NEG =>
      && 0 <= par.lastIndex < |r.negations|
      && NegationOk(r, r.negations[par.lastIndex])
      && Readable(par.left, Link(r.negations[par.lastIndex]) + 1, par.lastIndex, NEG)
      && Readable(par.right, Link(r.negations[par.lastIndex]) + 1, par.lastIndex, NEG)
    case AGG =>
      && 0 <= par.lastIndex < |r.aggregates|
      && Readable(par.left, |r.predicates|, -1, AGG)
      && Readable(par.right, |r.predicates|, -1, AGG)
  }

  predicate WellFormed(r: Rule) {
    && |r.predicates| > 0
    && (forall i :: 0 <= i < |r.predicates| ==> PredicateOk(r, i))
    && (forall j :: 0 <= j < |r.negations| ==> NegationOk(r, r.negations[j]))
    && (forall a :: 0 <= a < |r.aggregates| ==> AggregateOk(r, r.aggregates[a]))
    && (forall par :: par in r.params ==> ParamOk(r, par))
  }

  /** A packet reference of a tree, read while `p` holds the states bound so far. */
  function Eval(pr: Prims, vt: ValType, t: OpTree, pkt: PubPkt, p: seq<PubPkt>, index: int, sType: StateType): int
    requires Readable(t, |p|, index, sType)
  {
    match t
    case Leaf(_, Static(v)) => pr.literal(vt, v)
    case Leaf(_, ref) =>
      var cPkt := if ReadsCandidate(ref, index, sType) then pkt else p[ref.index];
      pr.attr(vt, ReadAttribute(cPkt.attributes, ref.name))
    case Inner(_, l, rt, op) => pr.oper(vt, op, Eval(pr, vt, l, pkt, p, index, sType), Eval(pr, vt, rt, pkt, p, index, sType))
  }

  predicate CheckParam(pr: Prims, par: Param, pkt: PubPkt, p: seq<PubPkt>, index: int, sType: StateType)
    requires Readable(par.left, |p|, index, sType) && Readable(par.right, |p|, index, sType)
  {
    pr.test(par.vType, par.op,
      Eval(pr, par.vType, par.left, pkt, p, index, sType), Eval(pr, par.vType, par.right, pkt, p, index, sType))
  }

  predicate InGroup(par: Param, sType: StateType, key: int) {
    par.sType == sType && par.lastIndex == key
  }

  /** How many states are bound when the parameters of a group are checked. */
  function BoundAt(r: Rule, sType: StateType, key: int): nat
    requires WellFormed(r)
  {
    match sType
    case STATE => if key >= 0 then key else 0
    case NEG => if 0 <= key < |r.negations| then Link(r.negations[key]) + 1 else 0
    case AGG => |r.predicates|
  }

  function IndexArg(sType: StateType, key: int): int {
    if sType == AGG then -1 else key
  }

  /** All parameters registered under (sType, key) hold of the candidate. */
  predicate ParamsHold(r: Rule, sType: StateType, key: int, pkt: PubPkt, p: seq<PubPkt>)
    requires WellFormed(r) && |p| == BoundAt(r, sType, key)
  {
    forall par :: par in r.params && InGroup(par, sType, key) ==>
      CheckParam(r.prims, par, pkt, p, IndexArg(sType, key), sType)
  }

  /** The same rule over other machine operations. */
  function WithPrims(r: Rule, prims: Prims): (r': Rule)
    requires WellFormed(r)
    ensures WellFormed(r')
  {
    WithPrimsOk(r, r.(prims := prims));
    r.(prims := prims)
  }

  lemma WithPrimsOk(r: Rule, r': Rule)
    requires WellFormed(r) && r' == r.(prims := r'.prims)
    ensures WellFormed(r')
  {
    hide ParamOk;
    forall i | 0 <= i < |r'.predicates| ensures PredicateOk(r', i) { assert PredicateOk(r, i); }
    forall j | 0 <= j < |r'.negations| ensures NegationOk(r', r'.negations[j]) { assert NegationOk(r, r.negations[j]); }
    forall a | 0 <= a < |r'.aggregates| ensures AggregateOk(r', r'.aggregates[a]) { assert AggregateOk(r, r.aggregates[a]); }
    forall par | par in r'.params ensures ParamOk(r', par) { SameParamOk(r, r', par); }
  }

  /** A parameter is judged by the states, negations and aggregates only. */
  lemma SameParamOk(r: Rule, r': Rule, par: Param)
    requires ParamOk(r, par) && r'.predicates == r.predicates && r'.negations == r.negations && r'.aggregates == r.aggregates
    ensures ParamOk(r', par)
  {
    hide Readable, FindLastState;
    if par.sType == NEG { assert NegationOk(r', r'.negations[par.lastIndex]); }
  }
}
