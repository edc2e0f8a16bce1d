/** The table of all indexes, by event type. */
module IndexingTables {
  import opened Events
  import opened Rules
  import opened Indexing

  const EmptyTable := OpsTable([], [], [], [], [], [])
  const EmptyIndex := ConstraintIndex(map[], map[])

  // ---------------------------------------------------------------- one index

  /** Insertion into a sorted table; a key already present is left alone. */
  function InsertKey(s: seq<int>, k: int): (r: seq<int>)
    requires Ascending(s)
    ensures Ascending(r) && forall x :: x in r <==> x in s || x == k
  {
    if s == [] then [k]
    else if k < s[0] then [k] + s
    else if k == s[0] then s
    else
      var t := InsertKey(s[1..], k);
      assert s == [s[0]] + s[1..];
      PrependAscending(s, k, t);
      [s[0]] + t
  }

  lemma PrependAscending(s: seq<int>, k: int, t: seq<int>)
    requires s != [] && Ascending(s) && k > s[0]
    requires Ascending(t) && forall x :: x in t <==> x in s[1..] || x == k
    ensures Ascending([s[0]] + t)
  {
    forall i | 0 <= i < |t| ensures t[i] > s[0] {
      assert t[i] in t;
      if t[i] in s[1..] {
        var j :| 0 <= j < |s[1..]| && s[1..][j] == t[i];
        assert s[j + 1] == t[i];
      }
    }
  }

  function WithTable(t: OpsTable, op: Op, keys: seq<int>): OpsTable {
    match op
    case EQ => t.(eq := keys)
    case LT => t.(lt := keys)
    case GT => t.(gt := keys)
    case LE => t.(le := keys)
    case GE => t.(ge := keys)
    case _ => t.(ne := keys)
  }

  /** Who is connected to a constraint. */
  function Users(idx: ConstraintIndex, c: Cond): set<TablePred> {
    if c in idx.used then idx.used[c] else {}
  }

  /** `idx'` is `idx` with the constraint's key in its table, and the constraint in use. */
  ghost predicate WithKey(idx: ConstraintIndex, c: Cond, t: OpsTable, idx': ConstraintIndex) {
    && t == (if c.name in idx.tables then idx.tables[c.name] else EmptyTable)
    && Ascending(Table(t, c.op))
    && idx'.tables == idx.tables[c.name := WithTable(t, c.op, InsertKey(Table(t, c.op), c.key))]
    && idx'.used == idx.used[c := Users(idx, c)]
  }

  lemma NewOpOk(idx: ConstraintIndex, ty: ValType, c: Cond, t: OpsTable, idx': ConstraintIndex, n: Name, op: Op)
    requires IndexOk(idx, ty) && c.ty == ty && Indexable(c) && WithKey(idx, c, t, idx') && n in idx'.tables && op != IN
    ensures OpOk(idx', ty, n, op)
  {
    hide Ascending, InsertKey;
    if n in idx.tables { assert TableOk(idx, ty, n) && OpOk(idx, ty, n, op); }
    assert op != c.op && n == c.name ==> Table(idx'.tables[n], op) == Table(t, op);
    NoKeys();
  }

  lemma NoKeys()
    ensures Ascending([])
  {
  }

  lemma NewUsedOk(idx: ConstraintIndex, ty: ValType, c: Cond, t: OpsTable, idx': ConstraintIndex, d: Cond)
    requires IndexOk(idx, ty) && c.ty == ty && Indexable(c) && WithKey(idx, c, t, idx') && d in idx'.used
    ensures d.ty == ty && Indexable(d) && d.name in idx'.tables && d.key in Table(idx'.tables[d.name], d.op)
  {
    hide Ascending, TableOk;
  }

  lemma NewTableOk(idx: ConstraintIndex, ty: ValType, c: Cond, t: OpsTable, idx': ConstraintIndex)
    requires IndexOk(idx, ty) && c.ty == ty && Indexable(c) && WithKey(idx, c, t, idx')
    ensures IndexOk(idx', ty)
  {
    hide InsertKey, Ascending, OpOk, WithKey;
    forall n | n in idx'.tables ensures TableOk(idx', ty, n) {
      forall op | op != IN ensures OpOk(idx', ty, n, op) { NewOpOk(idx, ty, c, t, idx', n, op); }
    }
    forall d | d in idx'.used
      ensures d.ty == ty && Indexable(d) && d.name in idx'.tables && d.key in Table(idx'.tables[d.name], d.op)
    {
      NewUsedOk(idx, ty, c, t, idx', d);
    }
  }

  /** Connects a predicate to a constraint, sharing the constraint when it is in use already. */
  method InstallConstraint(idx: ConstraintIndex, c: Cond, tp: TablePred) returns (idx': ConstraintIndex)
    requires IndexOk(idx, c.ty) && Indexable(c)
    ensures IndexOk(idx', c.ty)
    ensures forall d :: Users(idx', d) == if d == c then Users(idx, c) + {tp} else Users(idx, d)
  {
    idx' := idx;
    if c !in idx'.used {
      var t := if c.name in idx.tables then idx.tables[c.name] else EmptyTable;
      assert Ascending(Table(t, c.op)) by {
        if c.name in idx.tables { assert TableOk(idx, c.ty, c.name) && OpOk(idx, c.ty, c.name, c.op); }
      }
      idx' := ConstraintIndex(idx.used[c := {}], idx.tables[c.name := WithTable(t, c.op, InsertKey(Table(t, c.op), c.key))]);
      NewTableOk(idx, c.ty, c, t, idx');
    }
    OneMoreUser(idx', c, tp);
    idx' := idx'.(used := idx'.used[c := idx'.used[c] + {tp}]);
  }

  lemma OneMoreUser(idx: ConstraintIndex, c: Cond, tp: TablePred)
    requires IndexOk(idx, c.ty) && c in idx.used
    ensures IndexOk(idx.(used := idx.used[c := idx.used[c] + {tp}]), c.ty)
  {
    hide Ascending, Indexable;
    var idx' := idx.(used := idx.used[c := idx.used[c] + {tp}]);
    forall n | n in idx'.tables ensures TableOk(idx', c.ty, n) {
      forall op | op != IN ensures OpOk(idx', c.ty, n, op) { assert TableOk(idx, c.ty, n) && OpOk(idx, c.ty, n, op); }
    }
  }

  // ---------------------------------------------------------------- distinctness

  function SetOf<T>(s: seq<T>): set<T> {
    set x | x in s
  }

  lemma SetOfMore<T>(s: seq<T>)
    requires s != []
    ensures SetOf(s) == SetOf(s[1..]) + {s[0]} && (s[0] in SetOf(s[1..]) <==> s[0] in s[1..])
  {
    HeadTail(s);
  }

  lemma DistinctMore<T>(s: seq<T>)
    requires s != []
    ensures Distinct(s) <==> s[0] !in s[1..] && Distinct(s[1..])
  {
    var rest := s[1..];
    assert forall k :: 0 < k < |s| ==> s[k] == rest[k - 1];
    if s[0] in rest {
      var i :| 0 <= i < |rest| && rest[i] == s[0];
      assert s[i + 1] == s[0];
    }
  }

  lemma {:induction false} SetOfSize<T>(s: seq<T>)
    ensures |SetOf(s)| <= |s| && (|SetOf(s)| == |s| <==> Distinct(s))
  {
    if s != [] {
      hide SetOf, Distinct;
      SetOfSize(s[1..]);
      SetOfMore(s);
      DistinctMore(s);
      if s[0] in s[1..] { assert SetOf(s) == SetOf(s[1..]); }
    }
  }

  lemma SubsetSize<T>(a: set<T>, b: set<T>)
    requires a <= b
    ensures |a| <= |b| && (|a| == |b| ==> a == b)
  {
    assert |b - a| == |b| - |a|;
    if |a| == |b| { assert b - a == {}; }
  }

  /** Counting the satisfied ones among `n` constraints reaches `n` exactly when all are
      satisfied and no two are the same. */
  lemma CountReaches(conds: seq<Cond>, hits: set<Cond>)
    requires |conds| > 0
    ensures |SetOf(conds) * hits| >= |conds| <==> Distinct(conds) && forall k :: 0 <= k < |conds| ==> conds[k] in hits
  {
    SetOfSize(conds);
    SubsetSize(SetOf(conds) * hits, SetOf(conds));
    if forall k :: 0 <= k < |conds| ==> conds[k] in hits {
      assert SetOf(conds) * hits == SetOf(conds);
    }
    if |SetOf(conds) * hits| >= |conds| {
      forall k | 0 <= k < |conds| ensures conds[k] in hits { assert conds[k] in SetOf(conds); }
    }
  }

  // ---------------------------------------------------------------- the table

  /** What a predicate asks: an event type and constraints. */
  datatype Entry = Entry(eventType: int32, conds: seq<Cond>)

  function CondsOf(cs: seq<Constraint>, rank: int32 -> int): (conds: seq<Cond>)
    ensures |conds| == |cs| && forall k :: 0 <= k < |cs| ==> conds[k] == CondOf(cs[k], rank)
  {
    seq(|cs|, k requires 0 <= k < |cs| => CondOf(cs[k], rank))
  }

  /** The meaning the index must have: the event has the type and satisfies every constraint. */
  ghost predicate Matches(e: Entry, pkt: PubPkt, rank: int32 -> int) {
    e.eventType == pkt.eventType && forall k :: 0 <= k < |e.conds| ==> SatisfiedBy(pkt, e.conds[k], rank)
  }

  predicate SatisfiedBy(pkt: PubPkt, c: Cond, rank: int32 -> int) {
    exists i :: 0 <= i < |pkt.attributes| && Satisfies(pkt.attributes[i], c, rank)
  }

  function IndexAt(m: map<int32, ConstraintIndex>, eventType: int32): ConstraintIndex {
    if eventType in m then m[eventType] else EmptyIndex
  }

  class IndexingTable {
    const rank: int32 -> int
    var usedPreds: set<TablePred>
    var noIndex: map<int32, set<TablePred>>
    var intIndex: map<int32, ConstraintIndex>
    var floatIndex: map<int32, ConstraintIndex>
    var boolIndex: map<int32, ConstraintIndex>
    /** What has been installed. */
    ghost var installed: map<TablePred, Entry>

    function Index(ty: ValType, eventType: int32): ConstraintIndex
      reads this`intIndex, this`floatIndex, this`boolIndex
    {
      match ty
      case INT => IndexAt(intIndex, eventType)
      case FLOAT => IndexAt(floatIndex, eventType)
      case BOOL => IndexAt(boolIndex, eventType)
      case STRING => EmptyIndex
    }

    function Free(eventType: int32): set<TablePred>
      reads this`noIndex
    {
      if eventType in noIndex then noIndex[eventType] else {}
    }

    ghost predicate IndexesOk()
      reads this`intIndex, this`floatIndex, this`boolIndex
    {
      forall ty, eventType :: ty != STRING ==> IndexOk(Index(ty, eventType), ty)
    }

    ghost predicate Asks(tp: TablePred, eventType: int32, c: Cond)
      reads this`installed
    {
      tp in installed && installed[tp].eventType == eventType && c in installed[tp].conds
    }

    /** Predicates are connected to exactly the constraints they ask for. */
    ghost predicate Connected()
      reads this
    {
      forall eventType, c: Cond, tp :: tp in Users(Index(c.ty, eventType), c) <==> Asks(tp, eventType, c)
    }

    ghost predicate Freed()
      reads this
    {
      forall eventType, tp :: tp in Free(eventType) <==> tp in installed && installed[tp].eventType == eventType && tp.constraintsNum == 0
    }

    ghost predicate Valid()
      reads this
    {
      && IndexesOk() && Connected() && Freed()
      && (forall tp :: tp in installed ==> tp.constraintsNum == |installed[tp].conds| && forall k :: 0 <= k < tp.constraintsNum ==> Indexable(installed[tp].conds[k]))
    }

    constructor (rank: int32 -> int)
      ensures Valid() && installed == map[] && this.rank == rank
    {
      this.rank := rank;
      usedPreds, noIndex, intIndex, floatIndex, boolIndex, installed := {}, map[], map[], map[], map[], map[];
    }

    /** All connections of an event type. */
    function Conn(eventType: int32): map<Cond, set<TablePred>>
      reads this
    {
      Index(INT, eventType).used + Index(FLOAT, eventType).used + Index(BOOL, eventType).used
    }

    lemma ConnParts(eventType: int32)
      requires Valid()
      ensures Part(Index(INT, eventType), Conn(eventType))
      ensures Part(Index(FLOAT, eventType), Conn(eventType))
      ensures Part(Index(BOOL, eventType), Conn(eventType))
    {
      assert IndexOk(Index(INT, eventType), INT) && IndexOk(Index(FLOAT, eventType), FLOAT) && IndexOk(Index(BOOL, eventType), BOOL);
    }

    /** The constraints in use, of all types, that the event satisfies. */
    ghost function AllSat(pkt: PubPkt): set<Cond>
      reads this
    {
      var a, n := pkt.attributes, |pkt.attributes|;
      Sat(Index(INT, pkt.eventType).used, a, n, rank) + Sat(Index(FLOAT, pkt.eventType).used, a, n, rank)
      + Sat(Index(BOOL, pkt.eventType).used, a, n, rank)
    }

    /** The handler of a message, through all indexes with shared counters. */
    method ProcessMessage(pkt: PubPkt) returns (mh: MatchingHandler)
      requires Valid() && DistinctNames(pkt.attributes)
      ensures forall x :: Has(mh, x) <==>
                exists tp :: tp in installed && SlotOf(tp) == x && Matches(installed[tp], pkt, rank) && Distinct(installed[tp].conds)
    {
      hide TallyOk, Sat, Matches, Connected, Freed, Has, DistinctNames;
      var eventType, attrs := pkt.eventType, pkt.attributes;
      ghost var free := Free(eventType);
      var conn := Conn(eventType);
      var t := ProcessFree(eventType);
      ConnParts(eventType);
      assert IndexOk(Index(INT, eventType), INT) && IndexOk(Index(FLOAT, eventType), FLOAT) && IndexOk(Index(BOOL, eventType), BOOL);
      SatTyped(Index(INT, eventType), INT, attrs);
      SatTyped(Index(FLOAT, eventType), FLOAT, attrs);
      t := ProcessIndex(Index(INT, eventType), INT, rank, conn, free, {}, attrs, t);
      ghost var h1 := {} + Sat(Index(INT, eventType).used, attrs, |attrs|, rank);
      t := ProcessIndex(Index(FLOAT, eventType), FLOAT, rank, conn, free, h1, attrs, t);
      ghost var h2 := h1 + Sat(Index(FLOAT, eventType).used, attrs, |attrs|, rank);
      t := ProcessIndex(Index(BOOL, eventType), BOOL, rank, conn, free, h2, attrs, t);
      assert h2 + Sat(Index(BOOL, eventType).used, attrs, |attrs|, rank) == AllSat(pkt);
      mh := t.mh;
      HandlerOfTally(pkt, t);
    }

    lemma SatTyped(idx: ConstraintIndex, ty: ValType, attrs: seq<Attribute>)
      requires IndexOk(idx, ty)
      ensures forall c :: c in Sat(idx.used, attrs, |attrs|, rank) ==> c.ty == ty
    {
    }

    lemma HandlerOfTally(pkt: PubPkt, t: Tally)
      requires Valid() && TallyOk(Conn(pkt.eventType), Free(pkt.eventType), AllSat(pkt), t)
      ensures forall x :: Has(t.mh, x) <==>
                exists tp :: tp in installed && SlotOf(tp) == x && Matches(installed[tp], pkt, rank) && Distinct(installed[tp].conds)
    {
      hide Valid, Matches, Distinct, Has;
      forall tp
        ensures Reached(t, Free(pkt.eventType), tp) <==> tp in installed && Matches(installed[tp], pkt, rank) && Distinct(installed[tp].conds)
      {
        ReachedIsMatching(pkt, t, tp);
      }
    }

    /** The predicates without constraints. */
    method ProcessFree(eventType: int32) returns (t: Tally)
      requires Valid()
      ensures TallyOk(Conn(eventType), Free(eventType), {}, t)
    {
      var mh := MatchingHandler(map[], map[], map[]);
      var all := Free(eventType);
      var rest := all;
      while rest != {}
        invariant rest <= all && forall x :: Has(mh, x) <==> exists tp :: tp in all - rest && SlotOf(tp) == x
        decreases rest
      {
        var pred :| pred in rest;
        mh := AddToMatchingHandler(mh, pred);
        assert forall tp :: tp in all - (rest - {pred}) <==> tp in all - rest || tp == pred;
        rest := rest - {pred};
      }
      t := Tally(map[], mh);
      assert all - {} == all;
      forall x ensures Has(t.mh, x) <==> exists tp :: SlotOf(tp) == x && Reached(t, Free(eventType), tp) {
        if exists tp :: tp in all && SlotOf(tp) == x {
          var tp :| tp in all && SlotOf(tp) == x;
          assert Reached(t, all, tp);
        }
      }
    }

    /** A counter reaches its target exactly for the predicates that match. */
    lemma ReachedIsMatching(pkt: PubPkt, t: Tally, tp: TablePred)
      requires Valid() && TallyOk(Conn(pkt.eventType), Free(pkt.eventType), AllSat(pkt), t)
      ensures Reached(t, Free(pkt.eventType), tp) <==>
                tp in installed && Matches(installed[tp], pkt, rank) && Distinct(installed[tp].conds)
    {
      if tp.constraintsNum > 0 {
        if tp in installed && installed[tp].eventType == pkt.eventType {
          CountReaches(installed[tp].conds, AllSat(pkt));
          TouchingIsOwn(pkt, tp);
          MatchesByHits(pkt, tp);
        } else {
          TouchingNone(pkt, tp);
        }
      }
    }

    lemma MatchesByHits(pkt: PubPkt, tp: TablePred)
      requires Valid() && tp in installed && installed[tp].eventType == pkt.eventType
      ensures Matches(installed[tp], pkt, rank) <==> forall k :: 0 <= k < |installed[tp].conds| ==> installed[tp].conds[k] in AllSat(pkt)
    {
      hide Freed, IndexesOk, Connected, Satisfies;
      var conds := installed[tp].conds;
      forall k | 0 <= k < |conds|
        ensures conds[k] in AllSat(pkt) <==> SatisfiedBy(pkt, conds[k], rank)
      {
        InUse(pkt.eventType, tp, conds[k]);
      }
    }

    lemma TouchingNone(pkt: PubPkt, tp: TablePred)
      requires Valid() && !(tp in installed && installed[tp].eventType == pkt.eventType)
      ensures Touching(Conn(pkt.eventType), AllSat(pkt), tp) == {}
    {
      var conn := Conn(pkt.eventType);
      forall c | c in conn ensures tp !in conn[c] {
        UsersOf(pkt.eventType, c);
        assert tp in Users(Index(c.ty, pkt.eventType), c) <==> Asks(tp, pkt.eventType, c);
      }
    }

    /** A constraint's connections are those of the index of its type. */
    lemma UsersOf(eventType: int32, c: Cond)
      requires Valid() && c in Conn(eventType)
      ensures c.ty != STRING && c in Index(c.ty, eventType).used && Conn(eventType)[c] == Index(c.ty, eventType).used[c]
    {
      assert IndexOk(Index(INT, eventType), INT) && IndexOk(Index(FLOAT, eventType), FLOAT) && IndexOk(Index(BOOL, eventType), BOOL);
    }

    lemma InUse(eventType: int32, tp: TablePred, c: Cond)
      requires Valid() && Asks(tp, eventType, c)
      ensures c.ty != STRING && c in Index(c.ty, eventType).used && tp in Index(c.ty, eventType).used[c] && c in Conn(eventType)
    {
      var k :| 0 <= k < |installed[tp].conds| && installed[tp].conds[k] == c;
      assert Indexable(c);
      assert tp in Users(Index(c.ty, eventType), c);
      ConnParts(eventType);
    }

    lemma TouchingIsOwn(pkt: PubPkt, tp: TablePred)
      requires Valid() && tp in installed && installed[tp].eventType == pkt.eventType
      ensures Touching(Conn(pkt.eventType), AllSat(pkt), tp) == SetOf(installed[tp].conds) * AllSat(pkt)
    {
      var conn, hits := Conn(pkt.eventType), AllSat(pkt);
      forall c | c in hits ensures c in Touching(conn, hits, tp) <==> c in SetOf(installed[tp].conds) {
        if c in Touching(conn, hits, tp) {
          UsersOf(pkt.eventType, c);
          assert tp in Users(Index(c.ty, pkt.eventType), c);
        }
        if c in installed[tp].conds {
          InUse(pkt.eventType, tp, c);
          UsersOf(pkt.eventType, c);
        }
      }
    }

    /** Stores an index under its event type. */
    method SetIndex(ty: ValType, eventType: int32, idx: ConstraintIndex)
      requires ty != STRING
      modifies this`intIndex, this`floatIndex, this`boolIndex
      ensures forall u, e :: Index(u, e) == if u == ty && e == eventType then idx else old(Index(u, e))
    {
      match ty {
        case INT => intIndex := intIndex[eventType := idx];
        case FLOAT => floatIndex := floatIndex[eventType := idx];
        case BOOL => boolIndex := boolIndex[eventType := idx];
      }
    }

    /** The connections are those of the predicates installed, and of `tp` as far as `e` goes. */
    ghost predicate ConnectedWith(tp: TablePred, e: Entry)
      reads this`intIndex, this`floatIndex, this`boolIndex, this`installed
    {
      forall eventType, c: Cond, p ::
        p in Users(Index(c.ty, eventType), c) <==>
          Asks(p, eventType, c) || (p == tp && eventType == e.eventType && c in e.conds)
    }

    /** Installs one constraint of a predicate. */
    method InstallOne(eventType: int32, c: Cond, tp: TablePred, ghost e: Entry)
      requires IndexesOk() && ConnectedWith(tp, e) && e.eventType == eventType && Indexable(c)
      modifies this`intIndex, this`floatIndex, this`boolIndex
      ensures IndexesOk() && ConnectedWith(tp, Entry(eventType, e.conds + [c]))
    {
      assert IndexOk(Index(c.ty, eventType), c.ty);
      ghost var before := Index(c.ty, eventType);
      var idx := InstallConstraint(Index(c.ty, eventType), c, tp);
      label L:
      SetIndex(c.ty, eventType, idx);
      forall u, t | u != STRING ensures IndexOk(Index(u, t), u) { assert old@L(IndexOk(Index(u, t), u)); }
      forall t, d: Cond, p
        ensures p in Users(Index(d.ty, t), d) <==> Asks(p, t, d) || (p == tp && t == eventType && d in e.conds + [c])
      {
        assert old@L(p in Users(Index(d.ty, t), d)) <==> Asks(p, t, d) || (p == tp && t == e.eventType && d in e.conds);
      }
    }

    /** Installs a predicate under its event type. */
    method InstallTablePredicate(eventType: int32, constraints: seq<Constraint>, tp: TablePred)
      requires Valid() && tp !in installed && tp.constraintsNum == |constraints|
      requires forall k :: 0 <= k < |constraints| ==> Indexable(CondOf(constraints[k], rank))
      modifies this
      ensures Valid() && installed == old(installed)[tp := Entry(eventType, CondsOf(constraints, rank))]
    {
      hide IndexesOk, Indexable, IndexOk, Users;
      usedPreds := usedPreds + {tp};
      if |constraints| == 0 {
        noIndex := noIndex[eventType := Free(eventType) + {tp}];
      }
      ghost var conds := CondsOf(constraints, rank);
      InstallAll(eventType, constraints, tp);
      label L:
      installed := installed[tp := Entry(eventType, conds)];
      forall t, c: Cond, p ensures p in Users(Index(c.ty, t), c) <==> Asks(p, t, c) {
        assert old@L(p in Users(Index(c.ty, t), c)) <==> old@L(Asks(p, t, c)) || (p == tp && t == eventType && c in conds);
      }
      forall t, p ensures p in Free(t) <==> p in installed && installed[p].eventType == t && p.constraintsNum == 0 {
        assert old(p in Free(t) <==> p in installed && installed[p].eventType == t && p.constraintsNum == 0);
      }
    }

    /** Installs all constraints of a predicate. */
    method InstallAll(eventType: int32, constraints: seq<Constraint>, tp: TablePred)
      requires IndexesOk() && Connected()
      requires forall k :: 0 <= k < |constraints| ==> Indexable(CondOf(constraints[k], rank))
      modifies this`intIndex, this`floatIndex, this`boolIndex
      ensures IndexesOk() && ConnectedWith(tp, Entry(eventType, CondsOf(constraints, rank)))
    {
      ghost var conds := CondsOf(constraints, rank);
      assert ConnectedWith(tp, Entry(eventType, conds[..0]));
      var i := 0;
      while i < |constraints|
        invariant 0 <= i <= |constraints|
        invariant IndexesOk() && ConnectedWith(tp, Entry(eventType, conds[..i]))
      {
        InstallOne(eventType, CondOf(constraints[i], rank), tp, Entry(eventType, conds[..i]));
        assert conds[..i] + [conds[i]] == conds[..i + 1];
        i := i + 1;
      }
      assert conds[..i] == conds;
    }

    /** The table knows exactly this rule's predicates under its identifier. */
    ghost predicate Knows(ruleId: int, r: Rule)
      reads this`installed
    {
      forall tp: TablePred :: tp.ruleId == ruleId ==>
        (tp in installed <==> IsPred(r, tp)) && (tp in installed ==> installed[tp] == EntryOf(r, tp, rank))
    }

    /** Installs the predicates of one kind: states, aggregates or negations. */
    method InstallKind(ruleId: int, r: Rule, ty: StateType)
      requires Valid() && RuleIndexable(r, rank)
      requires forall tp: TablePred :: tp in installed && tp.ruleId == ruleId ==> tp.stateType != ty
      modifies this
      ensures Valid()
      ensures forall tp: TablePred :: tp in installed <==> tp in old(installed) || (tp.ruleId == ruleId && tp.stateType == ty && IsPred(r, tp))
      ensures forall tp: TablePred :: tp in installed ==> installed[tp] == if tp in old(installed) then old(installed)[tp] else EntryOf(r, tp, rank)
    {
      var state := 0;
      while state < NumOf(r, ty)
        invariant 0 <= state <= NumOf(r, ty) && Valid()
        invariant forall tp: TablePred :: tp in installed <==>
                    tp in old(installed) || (tp.ruleId == ruleId && tp.stateType == ty && IsPred(r, tp) && tp.stateId < state)
        invariant forall tp: TablePred :: tp in installed ==> installed[tp] == if tp in old(installed) then old(installed)[tp] else EntryOf(r, tp, rank)
      {
        var cs := ConstraintsOf(r, ty, state);
        var tp := TablePred(ruleId, state, |cs|, ty);
        assert forall k :: 0 <= k < |cs| ==> Indexable(CondOf(cs[k], rank));
        InstallTablePredicate(TypeOf(r, ty, state), cs, tp);
        state := state + 1;
      }
    }

    method InstallRulePkt(ruleId: int, r: Rule)
      requires Valid() && RuleIndexable(r, rank) && forall tp: TablePred :: tp in installed ==> tp.ruleId != ruleId
      modifies this
      ensures Valid() && Knows(ruleId, r)
      ensures forall other, r' :: other != ruleId && old(Knows(other, r')) ==> Knows(other, r')
    {
      InstallKind(ruleId, r, STATE);
      InstallKind(ruleId, r, AGG);
      InstallKind(ruleId, r, NEG);
    }

    /** Main result: a state, aggregate or negation of an installed rule is in a message's handler
        exactly when the message passes the naive check, and no two of its constraints agree. */
    lemma HandlerIsNaive(ruleId: int, r: Rule, pkt: PubPkt, mh: MatchingHandler, ty: StateType, id: int)
      requires Valid() && Knows(ruleId, r)
      requires forall x: Slot :: Has(mh, x) <==>
                 exists tp: TablePred :: tp in installed && SlotOf(tp) == x && Matches(installed[tp], pkt, rank) && Distinct(installed[tp].conds)
      ensures Has(mh, Slot(ty, ruleId, id)) <==>
                0 <= id < NumOf(r, ty) && Naive(r, ty, id, pkt, rank) && !Repeats(ConstraintsOf(r, ty, id), rank)
    {
      hide Matches, Naive, Repeats, Distinct, Indexable;
      if 0 <= id < NumOf(r, ty) {
        var cs := ConstraintsOf(r, ty, id);
        var tp := TablePred(ruleId, id, |cs|, ty);
        assert IsPred(r, tp) && SlotOf(tp) == Slot(ty, ruleId, id) && tp in installed;
        assert installed[tp] == EntryOf(r, tp, rank);
        assert forall k :: 0 <= k < |cs| ==> Indexable(CondOf(cs[k], rank)) by {
          assert forall k :: 0 <= k < |cs| ==> installed[tp].conds[k] == CondOf(cs[k], rank) && Indexable(installed[tp].conds[k]);
        }
        NaiveIsMatches(r, ty, id, pkt, rank);
        RepeatsIsExact(cs, rank);
      }
    }
  }

  function NumOf(r: Rule, ty: StateType): nat {
    match ty case STATE => |r.predicates| case AGG => |r.aggregates| case NEG => |r.negations|
  }

  function ConstraintsOf(r: Rule, ty: StateType, i: int): seq<Constraint>
    requires 0 <= i < NumOf(r, ty)
  {
    match ty
    case STATE => r.predicates[i].constraints
    case AGG => r.aggregates[i].constraints
    case NEG => r.negations[i].constraints
  }

  function TypeOf(r: Rule, ty: StateType, i: int): int32
    requires 0 <= i < NumOf(r, ty)
  {
    match ty
    case STATE => r.predicates[i].eventType
    case AGG => r.aggregates[i].eventType
    case NEG => r.negations[i].eventType
  }

  predicate IsPred(r: Rule, tp: TablePred) {
    0 <= tp.stateId < NumOf(r, tp.stateType) && tp.constraintsNum == |ConstraintsOf(r, tp.stateType, tp.stateId)|
  }

  function EntryOf(r: Rule, tp: TablePred, rank: int32 -> int): Entry {
    if 0 <= tp.stateId < NumOf(r, tp.stateType) then
      Entry(TypeOf(r, tp.stateType, tp.stateId), CondsOf(ConstraintsOf(r, tp.stateType, tp.stateId), rank))
    else Entry(0, [])
  }

  /** No string constraints, and only the operators each type knows. */
  predicate RuleIndexable(r: Rule, rank: int32 -> int) {
    forall ty, i :: 0 <= i < NumOf(r, ty) ==>
      forall k :: 0 <= k < |ConstraintsOf(r, ty, i)| ==> Indexable(CondOf(ConstraintsOf(r, ty, i)[k], rank))
  }

  // ---------------------------------------------------------------- what a constraint means

  predicate Contains(s: Name, part: Name) {
    part <= s || (s != [] && Contains(s[1..], part))
  }

  /** What an operator asks of a value: integers, floats by their rank, booleans and strings are
      each compared among themselves. */
  predicate Meets(v: Value, op: Op, w: Value, rank: int32 -> int) {
    match (v, w)
    case (IntVal(a), IntVal(b)) =>
      (op == EQ && a == b) || (op == LT && a < b) || (op == GT && a > b) || (op == LE && a <= b) || (op == GE && a >= b) || (op == NE && a != b)
    case (FloatVal(a), FloatVal(b)) =>
      || (op == EQ && rank(a) == rank(b)) || (op == LT && rank(a) < rank(b)) || (op == GT && rank(a) > rank(b))
      || (op == LE && rank(a) <= rank(b)) || (op == GE && rank(a) >= rank(b)) || (op == NE && rank(a) != rank(b))
    case (BoolVal(a), BoolVal(b)) => (op == EQ && a == b) || (op == NE && a != b)
    case (StringVal(a), StringVal(b)) => (op == EQ && a == b) || (op == IN && Contains(a, b))
    case _ => false
  }

  /** Some attribute of that name meets the constraint. */
  predicate MetBy(pkt: PubPkt, c: Constraint, rank: int32 -> int) {
    exists i :: 0 <= i < |pkt.attributes| && pkt.attributes[i].name == c.name && Meets(pkt.attributes[i].value, c.op, c.value, rank)
  }

  /** The naive check: the right type, and every constraint is passed. */
  predicate Naive(r: Rule, ty: StateType, i: int, pkt: PubPkt, rank: int32 -> int)
    requires 0 <= i < NumOf(r, ty)
  {
    TypeOf(r, ty, i) == pkt.eventType && forall c :: c in ConstraintsOf(r, ty, i) ==> MetBy(pkt, c, rank)
  }

  /** The same name, the same operator, an equal value. */
  predicate Alike(c: Constraint, d: Constraint, rank: int32 -> int) {
    c.name == d.name && c.op == d.op && Meets(c.value, EQ, d.value, rank)
  }

  /** Some constraint is there twice. */
  predicate Repeats(cs: seq<Constraint>, rank: int32 -> int) {
    exists a, b :: 0 <= a < b < |cs| && Alike(cs[a], cs[b], rank)
  }

  /** The index compares keys; that is what the constraint means. */
  lemma MeetsIsSatisfies(a: Attribute, c: Constraint, rank: int32 -> int)
    requires Indexable(CondOf(c, rank))
    ensures Satisfies(a, CondOf(c, rank), rank) <==> a.name == c.name && Meets(a.value, c.op, c.value, rank)
  {
  }

  lemma MetIsSatisfied(pkt: PubPkt, c: Constraint, rank: int32 -> int)
    requires Indexable(CondOf(c, rank))
    ensures SatisfiedBy(pkt, CondOf(c, rank), rank) <==> MetBy(pkt, c, rank)
  {
    hide Satisfies, CondOf, Meets, Indexable;
    forall i | 0 <= i < |pkt.attributes|
      ensures Satisfies(pkt.attributes[i], CondOf(c, rank), rank) <==> pkt.attributes[i].name == c.name && Meets(pkt.attributes[i].value, c.op, c.value, rank)
    {
      MeetsIsSatisfies(pkt.attributes[i], c, rank);
    }
  }

  lemma AlikeIsSame(c: Constraint, d: Constraint, rank: int32 -> int)
    requires Indexable(CondOf(c, rank)) && Indexable(CondOf(d, rank))
    ensures CondOf(c, rank) == CondOf(d, rank) <==> Alike(c, d, rank)
  {
  }

  lemma RepeatsIsExact(cs: seq<Constraint>, rank: int32 -> int)
    requires forall k :: 0 <= k < |cs| ==> Indexable(CondOf(cs[k], rank))
    ensures Distinct(CondsOf(cs, rank)) <==> !Repeats(cs, rank)
  {
    hide CondOf, Indexable, Alike;
    var conds := CondsOf(cs, rank);
    forall a, b | 0 <= a < b < |cs| ensures conds[a] == conds[b] <==> Alike(cs[a], cs[b], rank) {
      AlikeIsSame(cs[a], cs[b], rank);
    }
  }

  lemma NaiveIsMatches(r: Rule, ty: StateType, i: int, pkt: PubPkt, rank: int32 -> int)
    requires 0 <= i < NumOf(r, ty) && forall k :: 0 <= k < |ConstraintsOf(r, ty, i)| ==> Indexable(CondOf(ConstraintsOf(r, ty, i)[k], rank))
    ensures Naive(r, ty, i, pkt, rank) <==> Matches(Entry(TypeOf(r, ty, i), CondsOf(ConstraintsOf(r, ty, i), rank)), pkt, rank)
  {
    hide CondOf, Indexable, MetBy, SatisfiedBy;
    var cs := ConstraintsOf(r, ty, i);
    var conds := CondsOf(cs, rank);
    forall k | 0 <= k < |cs| ensures SatisfiedBy(pkt, conds[k], rank) <==> MetBy(pkt, cs[k], rank) {
      MetIsSatisfied(pkt, cs[k], rank);
    }
    forall k | 0 <= k < |conds| && Naive(r, ty, i, pkt, rank) ensures SatisfiedBy(pkt, conds[k], rank) { assert cs[k] in cs; }
    if forall k :: 0 <= k < |conds| ==> SatisfiedBy(pkt, conds[k], rank) {
      forall c | c in cs ensures MetBy(pkt, c, rank) {
        var k :| 0 <= k < |cs| && cs[k] == c;
        assert SatisfiedBy(pkt, conds[k], rank);
      }
    }
  }
}
