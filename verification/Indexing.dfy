/** The indexing table: shared constraints, sorted tables scanned with early exit, and one
    counter per predicate. */
module Indexing {
  import opened Events
  import opened Rules

  /** A state, aggregate or negation of an installed rule. */
  datatype TablePred = TablePred(ruleId: int, stateId: int, constraintsNum: nat, stateType: StateType)

  /** Where a predicate shows in the matching handler. */
  datatype Slot = Slot(stateType: StateType, ruleId: int, stateId: int)

  function SlotOf(tp: TablePred): Slot {
    Slot(tp.stateType, tp.ruleId, tp.stateId)
  }

  datatype MatchingHandler = MatchingHandler(states: map<int, set<int>>, aggs: map<int, set<int>>, negs: map<int, set<int>>)

  predicate Has(mh: MatchingHandler, x: Slot) {
    var m := match x.stateType case STATE => mh.states case AGG => mh.aggs case NEG => mh.negs;
    x.ruleId in m && x.stateId in m[x.ruleId]
  }

  function InsertInto(m: map<int, set<int>>, ruleId: int, stateId: int): map<int, set<int>> {
    if ruleId !in m then m[ruleId := {stateId}] else m[ruleId := m[ruleId] + {stateId}]
  }

  function AddToMatchingHandler(mh: MatchingHandler, tp: TablePred): (r: MatchingHandler)
    ensures forall x :: Has(r, x) <==> Has(mh, x) || x == SlotOf(tp)
  {
    match tp.stateType
    case STATE => mh.(states := InsertInto(mh.states, tp.ruleId, tp.stateId))
    case AGG => mh.(aggs := InsertInto(mh.aggs, tp.ruleId, tp.stateId))
    case NEG => mh.(negs := InsertInto(mh.negs, tp.ruleId, tp.stateId))
  }

  /** A constraint as the index stores it. Values are keys in the order of their type: floats
      by their rank, booleans as 0 and 1. */
  datatype Cond = Cond(ty: ValType, name: Name, op: Op, key: int)

  function Key(v: Value, rank: int32 -> int): int {
    match v
    case IntVal(i) => i
    case FloatVal(bits) => rank(bits)
    case BoolVal(b) => if b then 1 else 0
    case StringVal(_) => 0
  }

  function CondOf(c: Constraint, rank: int32 -> int): Cond {
    Cond(c.value.Type(), c.name, c.op, Key(c.value, rank))
  }

  /** The meaning of an operator on an attribute's value and a constraint's. */
  predicate Holds(op: Op, val: int, key: int) {
    match op
    case EQ => val == key
    case LT => val < key
    case GT => val > key
    case LE => val <= key
    case GE => val >= key
    case NE => val != key
    case IN => false
  }

  /** An attribute of the event satisfies the condition. */
  predicate Satisfies(a: Attribute, c: Cond, rank: int32 -> int) {
    a.name == c.name && a.value.Type() == c.ty && Holds(c.op, Key(a.value, rank), c.key)
  }

  /** Value -> constraint, one sorted table for each operator. */
  datatype OpsTable = OpsTable(eq: seq<int>, lt: seq<int>, gt: seq<int>, le: seq<int>, ge: seq<int>, ne: seq<int>)

  function Table(t: OpsTable, op: Op): seq<int> {
    match op
    case EQ => t.eq
    case LT => t.lt
    case GT => t.gt
    case LE => t.le
    case GE => t.ge
    case _ => t.ne
  }

  /** One index: the constraints in use with the predicates connected to them, and the tables. */
  datatype ConstraintIndex = ConstraintIndex(used: map<Cond, set<TablePred>>, tables: map<Name, OpsTable>)

  predicate Ascending(s: seq<int>) {
    forall a, b :: 0 <= a < b < |s| ==> s[a] < s[b]
  }

  /** The constraint can be indexed: IN is for strings only, and booleans know EQ and NE. */
  predicate Indexable(c: Cond) {
    c.ty != STRING && c.op != IN && (c.ty == BOOL ==> c.op in {EQ, NE} && c.key in {0, 1})
  }

  /** The tables hold the constraints in use, and nothing else. */
  ghost predicate IndexOk(idx: ConstraintIndex, ty: ValType) {
    && (forall c :: c in idx.used ==> c.ty == ty && Indexable(c) && c.name in idx.tables && c.key in Table(idx.tables[c.name], c.op))
    && (forall n :: n in idx.tables ==> TableOk(idx, ty, n))
  }

  ghost predicate TableOk(idx: ConstraintIndex, ty: ValType, n: Name)
    requires n in idx.tables
  {
    forall op :: op != IN ==> OpOk(idx, ty, n, op)
  }

  ghost predicate OpOk(idx: ConstraintIndex, ty: ValType, n: Name, op: Op)
    requires n in idx.tables
  {
    var s := Table(idx.tables[n], op);
    Ascending(s) && forall k :: k in s ==> Cond(ty, n, op, k) in idx.used
  }

  // ---------------------------------------------------------------- counting

  /** The counters of one message, and the handler being filled. */
  datatype Tally = Tally(count: map<TablePred, int>, mh: MatchingHandler)

  function Count(t: Tally, tp: TablePred): int {
    if tp in t.count then t.count[tp] else 0
  }

  /** The counter has reached the number of constraints; predicates without any are in `free`. */
  predicate Reached(t: Tally, free: set<TablePred>, tp: TablePred) {
    if tp.constraintsNum == 0 then tp in free else Count(t, tp) >= tp.constraintsNum
  }

  /** The constraints in `hits` connected to a predicate. */
  function Touching(conn: map<Cond, set<TablePred>>, hits: set<Cond>, tp: TablePred): set<Cond> {
    set c | c in hits && c in conn && tp in conn[c]
  }

  /** Each counter is the number of satisfied constraints so far, and the handler shows
      exactly the predicates whose counter has reached its target. */
  ghost predicate TallyOk(conn: map<Cond, set<TablePred>>, free: set<TablePred>, hits: set<Cond>, t: Tally) {
    && (forall tp :: Count(t, tp) == |Touching(conn, hits, tp)|)
    && (forall x :: Has(t.mh, x) <==> exists tp :: SlotOf(tp) == x && Reached(t, free, tp))
  }

  /** What processing a constraint with the given predicates does to the counters. */
  ghost predicate Counted(t: Tally, preds: set<TablePred>, t': Tally) {
    && (forall tp :: Count(t', tp) == Count(t, tp) + if tp in preds then 1 else 0)
    && (forall x :: Has(t'.mh, x) <==> Has(t.mh, x) || exists tp :: tp in preds && SlotOf(tp) == x && Count(t', tp) == tp.constraintsNum)
  }

  method ProcessConstraint(preds: set<TablePred>, t: Tally) returns (t': Tally)
    ensures Counted(t, preds, t')
  {
    t' := t;
    var rest := preds;
    while rest != {}
      invariant rest <= preds && Counted(t, preds - rest, t')
      decreases rest
    {
      var it :| it in rest;
      ghost var before := t';
      t' := CountOne(t', it);
      CountedMore(t, preds - rest, before, it, t');
      assert preds - rest + {it} == preds - (rest - {it});
      rest := rest - {it};
    }
  }

  function CountOne(t: Tally, tp: TablePred): Tally {
    var count := if tp !in t.count then t.count[tp := 1] else t.count[tp := t.count[tp] + 1];
    Tally(count, if count[tp] == tp.constraintsNum then AddToMatchingHandler(t.mh, tp) else t.mh)
  }

  lemma CountedMore(t: Tally, preds: set<TablePred>, t1: Tally, tp: TablePred, t2: Tally)
    requires Counted(t, preds, t1) && tp !in preds && t2 == CountOne(t1, tp)
    ensures Counted(t, preds + {tp}, t2)
  {
  }

  /** Processing a constraint that had not been counted yet keeps the tally exact. */
  lemma TallyStep(conn: map<Cond, set<TablePred>>, free: set<TablePred>, hits: set<Cond>, t: Tally, c: Cond, t': Tally)
    requires TallyOk(conn, free, hits, t) && c in conn && c !in hits && Counted(t, conn[c], t')
    ensures TallyOk(conn, free, hits + {c}, t')
  {
    forall tp ensures Count(t', tp) == |Touching(conn, hits + {c}, tp)| {
      var a, b := Touching(conn, hits, tp), Touching(conn, hits + {c}, tp);
      if tp in conn[c] { assert b == a + {c}; } else { assert b == a; }
    }
    forall x ensures Has(t'.mh, x) <==> exists tp :: SlotOf(tp) == x && Reached(t', free, tp) {
      if Has(t.mh, x) {
        var tp :| SlotOf(tp) == x && Reached(t, free, tp);
        assert Reached(t', free, tp);
      } else if exists tp :: tp in conn[c] && SlotOf(tp) == x && Count(t', tp) == tp.constraintsNum {
        var tp :| tp in conn[c] && SlotOf(tp) == x && Count(t', tp) == tp.constraintsNum;
        assert Reached(t', free, tp);
      }
    }
  }

  // ---------------------------------------------------------------- scanning

  /** The satisfied constraints among the given keys of one table. */
  function SatKeys(ty: ValType, n: Name, op: Op, keys: seq<int>, val: int): set<Cond> {
    set k | k in keys && Holds(op, val, k) :: Cond(ty, n, op, k)
  }

  /** The table's constraints are all connected and none has been counted. */
  ghost predicate Uncounted(conn: map<Cond, set<TablePred>>, hits: set<Cond>, ty: ValType, n: Name, op: Op, keys: seq<int>) {
    forall k :: k in keys ==> Cond(ty, n, op, k) in conn && Cond(ty, n, op, k) !in hits
  }

  lemma SatKeysMore(ty: ValType, n: Name, op: Op, keys: seq<int>, val: int, k: int)
    ensures Holds(op, val, k) ==> SatKeys(ty, n, op, [k] + keys, val) == {Cond(ty, n, op, k)} + SatKeys(ty, n, op, keys, val)
    ensures Holds(op, val, k) ==> SatKeys(ty, n, op, keys + [k], val) == SatKeys(ty, n, op, keys, val) + {Cond(ty, n, op, k)}
    ensures !Holds(op, val, k) ==> SatKeys(ty, n, op, keys + [k], val) == SatKeys(ty, n, op, keys, val)
  {
    hide Holds;
    InSum([k], keys);
    InSum(keys, [k]);
  }

  lemma InSum(a: seq<int>, b: seq<int>)
    ensures forall x :: x in a + b <==> x in a || x in b
  {
  }

  lemma SatKeysSame(ty: ValType, n: Name, op: Op, keys: seq<int>, part: seq<int>, val: int)
    requires forall k :: Holds(op, val, k) ==> (k in keys <==> k in part)
    ensures SatKeys(ty, n, op, keys, val) == SatKeys(ty, n, op, part, val)
  {
  }

  /** One more key of a table, at either end of the part already scanned. */
  method CountKey(conn: map<Cond, set<TablePred>>, ghost free: set<TablePred>, ghost hits: set<Cond>, ghost done: set<Cond>, c: Cond, t: Tally)
    returns (t': Tally)
    requires TallyOk(conn, free, hits + done, t) && c in conn && c !in hits && c !in done
    ensures TallyOk(conn, free, hits + (done + {c}), t') && hits + (done + {c}) == hits + ({c} + done)
  {
    t' := ProcessConstraint(conn[c], t);
    TallyStep(conn, free, hits + done, t, c, t');
    assert hits + done + {c} == hits + (done + {c});
    assert done + {c} == {c} + done;
  }

  /** LT and LE: from the largest key down, until one is too small. */
  method ScanDown(conn: map<Cond, set<TablePred>>, ghost free: set<TablePred>, ghost hits: set<Cond>,
                  ty: ValType, n: Name, op: Op, keys: seq<int>, val: int, t: Tally) returns (t': Tally)
    requires op == LT || op == LE
    requires Ascending(keys) && Uncounted(conn, hits, ty, n, op, keys) && TallyOk(conn, free, hits, t)
    ensures TallyOk(conn, free, hits + SatKeys(ty, n, op, keys, val), t')
  {
    t' := t;
    var r := |keys|;
    assert hits + SatKeys(ty, n, op, keys[r..], val) == hits;
    while r > 0
      invariant 0 <= r <= |keys| && TallyOk(conn, free, hits + SatKeys(ty, n, op, keys[r..], val), t')
    {
      var k := keys[r - 1];
      if (op == LT && k <= val) || (op == LE && k < val) { break; }
      assert keys[r - 1..] == [k] + keys[r..];
      SatKeysMore(ty, n, op, keys[r..], val, k);
      assert k !in keys[r..];
      t' := CountKey(conn, free, hits, SatKeys(ty, n, op, keys[r..], val), Cond(ty, n, op, k), t');
      r := r - 1;
    }
    assert forall j :: 0 <= j < r ==> !Holds(op, val, keys[j]);
    SatKeysSame(ty, n, op, keys, keys[r..], val);
  }

  /** GT and GE: from the smallest key up, until one is too large. */
  method ScanUp(conn: map<Cond, set<TablePred>>, ghost free: set<TablePred>, ghost hits: set<Cond>,
                ty: ValType, n: Name, op: Op, keys: seq<int>, val: int, t: Tally) returns (t': Tally)
    requires op == GT || op == GE
    requires Ascending(keys) && Uncounted(conn, hits, ty, n, op, keys) && TallyOk(conn, free, hits, t)
    ensures TallyOk(conn, free, hits + SatKeys(ty, n, op, keys, val), t')
  {
    t' := t;
    var r := 0;
    assert hits + SatKeys(ty, n, op, keys[..r], val) == hits;
    while r < |keys|
      invariant 0 <= r <= |keys| && TallyOk(conn, free, hits + SatKeys(ty, n, op, keys[..r], val), t')
    {
      var k := keys[r];
      if (op == GT && k >= val) || (op == GE && k > val) { break; }
      OneKeyUp(keys, r);
      SatKeysMore(ty, n, op, keys[..r], val, k);
      t' := CountKey(conn, free, hits, SatKeys(ty, n, op, keys[..r], val), Cond(ty, n, op, k), t');
      r := r + 1;
    }
    RestFails(op, val, keys, r);
    SatKeysSame(ty, n, op, keys, keys[..r], val);
  }

  lemma OneKeyUp(keys: seq<int>, r: nat)
    requires Ascending(keys) && r < |keys|
    ensures keys[..r + 1] == keys[..r] + [keys[r]] && keys[r] !in keys[..r] && keys[r] in keys
  {
  }

  /** Once one key of a sorted table is not below the value, no later one is. */
  lemma RestFails(op: Op, val: int, keys: seq<int>, r: nat)
    requires (op == GT || op == GE) && Ascending(keys) && r <= |keys| && (r < |keys| ==> !Holds(op, val, keys[r]))
    ensures forall k :: Holds(op, val, k) ==> (k in keys <==> k in keys[..r])
  {
    assert keys == keys[..r] + keys[r..];
    assert forall j :: r <= j < |keys| ==> !Holds(op, val, keys[j]);
  }

  /** NE: every key but the value itself. */
  method ScanOthers(conn: map<Cond, set<TablePred>>, ghost free: set<TablePred>, ghost hits: set<Cond>,
                    ty: ValType, n: Name, keys: seq<int>, val: int, t: Tally) returns (t': Tally)
    requires Ascending(keys) && Uncounted(conn, hits, ty, n, NE, keys) && TallyOk(conn, free, hits, t)
    ensures TallyOk(conn, free, hits + SatKeys(ty, n, NE, keys, val), t')
  {
    t' := t;
    var r := 0;
    assert hits + SatKeys(ty, n, NE, keys[..r], val) == hits;
    while r < |keys|
      invariant 0 <= r <= |keys| && TallyOk(conn, free, hits + SatKeys(ty, n, NE, keys[..r], val), t')
    {
      var k := keys[r];
      ghost var part := keys[..r];
      assert keys[..r + 1] == part + [k] && k !in part;
      SatKeysMore(ty, n, NE, part, val, k);
      if k != val {
        t' := CountKey(conn, free, hits, SatKeys(ty, n, NE, part, val), Cond(ty, n, NE, k), t');
      }
      r := r + 1;
    }
    assert keys[..r] == keys;
  }

  /** EQ, and NE on booleans: a single lookup. */
  method Lookup(conn: map<Cond, set<TablePred>>, ghost free: set<TablePred>, ghost hits: set<Cond>,
                ty: ValType, n: Name, op: Op, keys: seq<int>, val: int, key: int, t: Tally) returns (t': Tally)
    requires Uncounted(conn, hits, ty, n, op, keys) && TallyOk(conn, free, hits, t)
    requires forall k :: k in keys ==> (Holds(op, val, k) <==> k == key)
    ensures TallyOk(conn, free, hits + SatKeys(ty, n, op, keys, val), t')
  {
    t' := t;
    if key in keys {
      assert SatKeys(ty, n, op, keys, val) == {} + {Cond(ty, n, op, key)};
      assert hits + {} == hits;
      t' := CountKey(conn, free, hits, {}, Cond(ty, n, op, key), t');
    } else {
      assert hits + SatKeys(ty, n, op, keys, val) == hits;
    }
  }

  /** The constraints of an index that an attribute with this name and value satisfies. */
  function SatAttr(used: map<Cond, set<TablePred>>, n: Name, val: int): set<Cond> {
    set c | c in used && c.name == n && Holds(c.op, val, c.key)
  }

  lemma SatAttrSplit(idx: ConstraintIndex, ty: ValType, n: Name, val: int)
    requires IndexOk(idx, ty) && n in idx.tables
    ensures SatAttr(idx.used, n, val) ==
              SatOp(idx, ty, n, EQ, val) + SatOp(idx, ty, n, LT, val) + SatOp(idx, ty, n, LE, val)
              + SatOp(idx, ty, n, GT, val) + SatOp(idx, ty, n, GE, val) + SatOp(idx, ty, n, NE, val)
  {
    hide SatAttr, SatOp, IndexOk;
    forall c ensures c in SatAttr(idx.used, n, val) <==>
      c in SatOp(idx, ty, n, EQ, val) || c in SatOp(idx, ty, n, LT, val) || c in SatOp(idx, ty, n, LE, val)
      || c in SatOp(idx, ty, n, GT, val) || c in SatOp(idx, ty, n, GE, val) || c in SatOp(idx, ty, n, NE, val)
    {
      SatOpMember(idx, ty, n, val, c);
    }
  }

  /** A satisfied constraint is in the table of its own operator and in no other. */
  lemma SatOpMember(idx: ConstraintIndex, ty: ValType, n: Name, val: int, c: Cond)
    requires IndexOk(idx, ty) && n in idx.tables
    ensures forall op :: op != IN ==> (c in SatOp(idx, ty, n, op, val) <==> c in SatAttr(idx.used, n, val) && c.op == op)
    ensures c in SatAttr(idx.used, n, val) ==> c.op != IN
  {
    hide Ascending, Holds;
    forall op | op != IN ensures c in SatOp(idx, ty, n, op, val) <==> c in SatAttr(idx.used, n, val) && c.op == op {
      assert TableOk(idx, ty, n) && OpOk(idx, ty, n, op);
    }
  }

  /** An index is part of the connections of its event type. */
  ghost predicate Part(idx: ConstraintIndex, conn: map<Cond, set<TablePred>>) {
    forall c :: c in idx.used ==> c in conn && conn[c] == idx.used[c]
  }

  /** Of this attribute, only constraints with the given operators have been counted. */
  ghost predicate OnlyOps(hits: set<Cond>, ty: ValType, n: Name, ops: set<Op>) {
    forall c :: c in hits && c.ty == ty && c.name == n ==> c.op in ops
  }

  lemma OnlyOpsMore(hits: set<Cond>, ty: ValType, n: Name, ops: set<Op>, op: Op, keys: seq<int>, val: int)
    requires OnlyOps(hits, ty, n, ops)
    ensures OnlyOps(hits + SatKeys(ty, n, op, keys, val), ty, n, ops + {op})
  {
  }

  lemma TablesUncounted(idx: ConstraintIndex, ty: ValType, n: Name, op: Op, conn: map<Cond, set<TablePred>>, hits: set<Cond>, ops: set<Op>)
    requires IndexOk(idx, ty) && n in idx.tables && Part(idx, conn) && op != IN && OnlyOps(hits, ty, n, ops) && op !in ops
    ensures Ascending(Table(idx.tables[n], op)) && Uncounted(conn, hits, ty, n, op, Table(idx.tables[n], op))
  {
    assert TableOk(idx, ty, n) && OpOk(idx, ty, n, op);
  }

  /** The constraints of an index under one operator. */
  function SatOp(idx: ConstraintIndex, ty: ValType, n: Name, op: Op, val: int): set<Cond>
    requires n in idx.tables
  {
    SatKeys(ty, n, op, Table(idx.tables[n], op), val)
  }

  /** The scan of one operator's table. */
  method ScanOp(idx: ConstraintIndex, ty: ValType, conn: map<Cond, set<TablePred>>, ghost free: set<TablePred>,
                ghost hits: set<Cond>, n: Name, op: Op, val: int, t: Tally, ghost ops: set<Op>) returns (t': Tally)
    requires IndexOk(idx, ty) && Part(idx, conn) && TallyOk(conn, free, hits, t) && n in idx.tables && op != IN
    requires OnlyOps(hits, ty, n, ops) && op !in ops
    ensures TallyOk(conn, free, hits + SatOp(idx, ty, n, op, val), t')
    ensures OnlyOps(hits + SatOp(idx, ty, n, op, val), ty, n, ops + {op})
  {
    TablesUncounted(idx, ty, n, op, conn, hits, ops);
    OnlyOpsMore(hits, ty, n, ops, op, Table(idx.tables[n], op), val);
    var keys := Table(idx.tables[n], op);
    match op {
      case EQ => t' := Lookup(conn, free, hits, ty, n, EQ, keys, val, val, t);
      case LT => t' := ScanDown(conn, free, hits, ty, n, LT, keys, val, t);
      case LE => t' := ScanDown(conn, free, hits, ty, n, LE, keys, val, t);
      case GT => t' := ScanUp(conn, free, hits, ty, n, GT, keys, val, t);
      case GE => t' := ScanUp(conn, free, hits, ty, n, GE, keys, val, t);
      case NE => t' := ScanOthers(conn, free, hits, ty, n, keys, val, t);
    }
  }

  lemma UnionSix<T>(h: set<T>, a: set<T>, b: set<T>, c: set<T>, d: set<T>, e: set<T>, f: set<T>)
    ensures h + a + b + c + d + e + f == h + (a + b + c + d + e + f)
  {
  }

  /** All operators of one integer or float attribute. */
  method ProcessOrdered(idx: ConstraintIndex, ty: ValType, conn: map<Cond, set<TablePred>>, ghost free: set<TablePred>,
                        ghost hits: set<Cond>, n: Name, val: int, t: Tally) returns (t': Tally)
    requires IndexOk(idx, ty) && Part(idx, conn) && TallyOk(conn, free, hits, t) && n in idx.tables
    requires forall c :: c in hits && c.ty == ty ==> c.name != n
    ensures TallyOk(conn, free, hits + SatAttr(idx.used, n, val), t')
  {
    SatAttrSplit(idx, ty, n, val);
    t' := ScanOp(idx, ty, conn, free, hits, n, EQ, val, t, {});
    ghost var h1 := hits + SatOp(idx, ty, n, EQ, val);
    t' := ScanOp(idx, ty, conn, free, h1, n, LT, val, t', {} + {EQ});
    ghost var h2 := h1 + SatOp(idx, ty, n, LT, val);
    t' := ScanOp(idx, ty, conn, free, h2, n, LE, val, t', {} + {EQ} + {LT});
    ghost var h3 := h2 + SatOp(idx, ty, n, LE, val);
    t' := ScanOp(idx, ty, conn, free, h3, n, GT, val, t', {} + {EQ} + {LT} + {LE});
    ghost var h4 := h3 + SatOp(idx, ty, n, GT, val);
    t' := ScanOp(idx, ty, conn, free, h4, n, GE, val, t', {} + {EQ} + {LT} + {LE} + {GT});
    ghost var h5 := h4 + SatOp(idx, ty, n, GE, val);
    t' := ScanOp(idx, ty, conn, free, h5, n, NE, val, t', {} + {EQ} + {LT} + {LE} + {GT} + {GE});
    UnionSix(hits, SatOp(idx, ty, n, EQ, val), SatOp(idx, ty, n, LT, val), SatOp(idx, ty, n, LE, val),
             SatOp(idx, ty, n, GT, val), SatOp(idx, ty, n, GE, val), SatOp(idx, ty, n, NE, val));
  }

  /** Both operators of one boolean attribute. */
  method ProcessBool(idx: ConstraintIndex, conn: map<Cond, set<TablePred>>, ghost free: set<TablePred>,
                     ghost hits: set<Cond>, n: Name, val: int, t: Tally) returns (t': Tally)
    requires IndexOk(idx, BOOL) && Part(idx, conn) && TallyOk(conn, free, hits, t) && n in idx.tables && 0 <= val <= 1
    requires forall c :: c in hits && c.ty == BOOL ==> c.name != n
    ensures TallyOk(conn, free, hits + SatAttr(idx.used, n, val), t')
  {
    SatAttrSplit(idx, BOOL, n, val);
    BoolTables(idx, n);
    var ops := idx.tables[n];
    TablesUncounted(idx, BOOL, n, EQ, conn, hits, {});
    t' := Lookup(conn, free, hits, BOOL, n, EQ, ops.eq, val, val, t);
    ghost var h1 := hits + SatKeys(BOOL, n, EQ, ops.eq, val);
    OnlyOpsMore(hits, BOOL, n, {}, EQ, ops.eq, val);
    TablesUncounted(idx, BOOL, n, NE, conn, h1, {} + {EQ});
    t' := Lookup(conn, free, h1, BOOL, n, NE, ops.ne, val, 1 - val, t');
    assert h1 + SatKeys(BOOL, n, NE, ops.ne, val) == hits + SatAttr(idx.used, n, val);
  }

  /** All operators of one attribute, when some constraint uses its name. */
  method ProcessAttribute(idx: ConstraintIndex, ty: ValType, conn: map<Cond, set<TablePred>>, ghost free: set<TablePred>,
                          ghost hits: set<Cond>, n: Name, val: int, t: Tally) returns (t': Tally)
    requires IndexOk(idx, ty) && Part(idx, conn) && TallyOk(conn, free, hits, t) && (ty == BOOL ==> 0 <= val <= 1)
    requires forall c :: c in hits && c.ty == ty ==> c.name != n
    ensures TallyOk(conn, free, hits + SatAttr(idx.used, n, val), t')
  {
    if n !in idx.tables {
      assert hits + SatAttr(idx.used, n, val) == hits;
      return t;
    }
    if ty == BOOL {
      t' := ProcessBool(idx, conn, free, hits, n, val, t);
    } else {
      t' := ProcessOrdered(idx, ty, conn, free, hits, n, val, t);
    }
  }

  /** A boolean index has keys 0 and 1 under EQ and NE only. */
  lemma BoolTables(idx: ConstraintIndex, n: Name)
    requires IndexOk(idx, BOOL) && n in idx.tables
    ensures var t := idx.tables[n]; t.lt == [] && t.le == [] && t.gt == [] && t.ge == [] && forall k :: k in t.ne ==> k == 0 || k == 1
  {
    var t := idx.tables[n];
    if t.lt != [] { BoolKey(idx, n, LT, t.lt[0]); }
    if t.le != [] { BoolKey(idx, n, LE, t.le[0]); }
    if t.gt != [] { BoolKey(idx, n, GT, t.gt[0]); }
    if t.ge != [] { BoolKey(idx, n, GE, t.ge[0]); }
    forall k | k in t.ne ensures k == 0 || k == 1 { BoolKey(idx, n, NE, k); }
  }

  lemma BoolKey(idx: ConstraintIndex, n: Name, op: Op, k: int)
    requires IndexOk(idx, BOOL) && n in idx.tables && op != IN && k in Table(idx.tables[n], op)
    ensures op in {EQ, NE} && k in {0, 1}
  {
    assert TableOk(idx, BOOL, n) && OpOk(idx, BOOL, n, op) && Cond(BOOL, n, op, k) in idx.used;
  }

  /** No two attributes share name and type. */
  predicate DistinctNames(attrs: seq<Attribute>) {
    forall a, b :: 0 <= a < b < |attrs| ==> attrs[a].name != attrs[b].name || attrs[a].value.Type() != attrs[b].value.Type()
  }

  /** The constraints in use that one of the first `n` attributes satisfies. */
  ghost function Sat(used: map<Cond, set<TablePred>>, attrs: seq<Attribute>, n: nat, rank: int32 -> int): set<Cond>
    requires n <= |attrs|
  {
    set c | c in used && exists i :: 0 <= i < n && Satisfies(attrs[i], c, rank)
  }

  /** A message through one index. */
  method ProcessIndex(idx: ConstraintIndex, ty: ValType, rank: int32 -> int, conn: map<Cond, set<TablePred>>,
                      ghost free: set<TablePred>, ghost hits: set<Cond>, attrs: seq<Attribute>, t: Tally) returns (t': Tally)
    requires IndexOk(idx, ty) && Part(idx, conn) && TallyOk(conn, free, hits, t) && DistinctNames(attrs)
    requires forall c :: c in hits ==> c.ty != ty
    ensures TallyOk(conn, free, hits + Sat(idx.used, attrs, |attrs|, rank), t')
  {
    t' := t;
    var i := 0;
    assert hits + Sat(idx.used, attrs, 0, rank) == hits;
    while i < |attrs|
      invariant 0 <= i <= |attrs| && TallyOk(conn, free, hits + Sat(idx.used, attrs, i, rank), t')
    {
      var a := attrs[i];
      SatMore(idx, ty, attrs, i, rank);
      ghost var h := hits + Sat(idx.used, attrs, i, rank);
      if a.value.Type() == ty {
        t' := ProcessAttribute(idx, ty, conn, free, h, a.name, Key(a.value, rank), t');
        assert h + SatAttr(idx.used, a.name, Key(a.value, rank)) == hits + Sat(idx.used, attrs, i + 1, rank);
      } else {
        assert h == hits + Sat(idx.used, attrs, i + 1, rank);
      }
      i := i + 1;
    }
  }

  lemma SatMore(idx: ConstraintIndex, ty: ValType, attrs: seq<Attribute>, i: nat, rank: int32 -> int)
    requires IndexOk(idx, ty) && i < |attrs| && DistinctNames(attrs)
    ensures var a := attrs[i];
            Sat(idx.used, attrs, i + 1, rank) == Sat(idx.used, attrs, i, rank)
              + (if a.value.Type() == ty then SatAttr(idx.used, a.name, Key(a.value, rank)) else {})
    ensures attrs[i].value.Type() == ty ==> forall c :: c in Sat(idx.used, attrs, i, rank) ==> c.name != attrs[i].name
  {
    var a := attrs[i];
    var before, now := Sat(idx.used, attrs, i, rank), Sat(idx.used, attrs, i + 1, rank);
    forall c | c in idx.used ensures c in now <==> c in before || Satisfies(a, c, rank) {
      if c in now {
        var j :| 0 <= j < i + 1 && Satisfies(attrs[j], c, rank);
      }
    }
  }
}
