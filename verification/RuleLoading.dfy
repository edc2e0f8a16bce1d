/** From the tables of a rule packet to the rule the engine runs. */
module RuleLoading {
  import opened Events
  import opened Rules
  import opened RulePackets
  import opened WireFormat
  import opened WireRoundTrip
  import Marshaller
  import Unmarshaller

  // ---------------------------------------------------------------- adding one entry

  function WithPredicate(r: Rule, key: int32, p: Predicate): Rule {
    if key == 0 then
      if r.predicates == [] then r.(predicates := [Predicate(p.eventType, p.constraints, -1, 0, EACH_WITHIN)]) else r
    else if r.predicates != [] && p.refersTo < |r.predicates| then r.(predicates := r.predicates + [p])
    else r
  }

  predicate StatesOk(r: Rule, lower: int32, upper: int32) {
    lower < |r.predicates| && 0 <= upper < |r.predicates| && lower != upper
  }

  /** The states from the later to the earlier; between states the time is the clock's. */
  function Oriented(lower: int32, time: nat, upper: int32, now: nat): (int32, nat, int32) {
    if lower < 0 then (-1, time, upper)
    else if lower < upper then (upper, now, lower)
    else (lower, now, upper)
  }

  function WithAggregate(r: Rule, a: Aggregate, now: nat): Rule {
    var o := Oriented(a.lowerId, a.lowerTime, a.upperId, now);
    if StatesOk(r, o.0, o.2) then
      r.(aggregates := r.aggregates + [Aggregate(a.eventType, a.constraints, o.0, o.1, o.2, a.fun, a.name)])
    else r
  }

  function WithNegation(r: Rule, n: Negation, now: nat): Rule {
    var o := Oriented(n.lowerId, n.lowerTime, n.upperId, now);
    if StatesOk(r, o.0, o.2) then r.(negations := r.negations + [Negation(n.eventType, n.constraints, o.0, o.1, o.2)]) else r
  }

  function WithParameter(r: Rule, c: ComplexParameter): Rule {
    var index := ParamIndex(c.sType, c.left, c.right);
    if index >= 0 then r.(params := r.params + [Param(c.op, c.left, c.right, index, c.sType, c.vType)]) else r
  }

  function WithEntry(r: Rule, key: int32, e: Entry, now: nat): Rule {
    match e
    case PredicateEntry(p) => WithPredicate(r, key, p)
    case AggregateEntry(a) => WithAggregate(r, a, now)
    case NegationEntry(n) => WithNegation(r, n, now)
    case ParameterEntry(c) => WithParameter(r, c)
  }

  method AddEntry(pkt: RulePkt, key: int32, e: Entry, now: nat)
    modifies pkt
    ensures pkt.Rule() == WithEntry(old(pkt.Rule()), key, e, now)
  {
    match e {
      case PredicateEntry(p) =>
        if key == 0 {
          var ok := pkt.AddRootPredicate(p.eventType, p.constraints);
        } else {
          var ok := pkt.AddPredicate(p.eventType, p.constraints, p.refersTo, p.win, p.kind);
        }
      case AggregateEntry(a) =>
        if a.lowerId < 0 {
          var ok := pkt.AddAggregate(a.eventType, a.constraints, -1, a.lowerTime, a.upperId, a.name, a.fun);
        } else {
          var ok := pkt.AddAggregateBetweenStates(a.eventType, a.constraints, a.lowerId, a.upperId, now, a.name, a.fun);
        }
      case NegationEntry(n) =>
        if n.lowerId < 0 {
          var ok := pkt.AddNegation(n.eventType, n.constraints, -1, n.lowerTime, n.upperId);
        } else {
          var ok := pkt.AddNegationBetweenStates(n.eventType, n.constraints, n.lowerId, n.upperId, now);
        }
      case ParameterEntry(c) =>
        match c.sType {
          case STATE => var ok := pkt.AddComplexParameter(c.op, c.vType, c.left, c.right);
          case AGG => var ok := pkt.AddComplexParameterForAggregate(c.op, c.vType, c.left, c.right);
          case NEG => var ok := pkt.AddComplexParameterForNegation(c.op, c.vType, c.left, c.right);
        }
    }
  }

  // ---------------------------------------------------------------- adding a table

  ghost predicate Increasing(keys: seq<int32>) {
    forall a, b :: 0 <= a < b < |keys| ==> keys[a] < keys[b]
  }

  ghost predicate IsAscending(keys: seq<int32>, s: set<int32>) {
    Increasing(keys) && forall k :: k in s <==> k in keys
  }

  lemma IncreasingSnoc(keys: seq<int32>, key: int32)
    requires Increasing(keys) && forall k :: k in keys ==> k < key
    ensures Increasing(keys + [key])
  {
    assert forall a :: 0 <= a < |keys| ==> keys[a] in keys;
  }

  /** All entries of a table, in the order of the keys. */
  function WithEntries(r: Rule, m: map<int32, Entry>, keys: seq<int32>, now: nat): Rule
    requires forall k :: k in keys ==> k in m
  {
    if keys == [] then r
    else
      var last := keys[|keys| - 1];
      WithEntry(WithEntries(r, m, keys[..|keys| - 1], now), last, m[last], now)
  }

  method Least(s: set<int32>) returns (k: int32)
    requires s != {}
    ensures k in s && forall j :: j in s ==> k <= j
  {
    k :| k in s;
    var rest := s - {k};
    while rest != {}
      invariant k in s && rest <= s && forall j :: j in s ==> k <= j || j in rest
      decreases rest
    {
      var j: int32 :| j in rest;
      if j < k { k := j; }
      rest := rest - {j};
    }
  }

  /** `keys` are the least of `all`, ascending, and `rest` the others. */
  ghost predicate Taken(all: set<int32>, keys: seq<int32>, rest: set<int32>) {
    rest <= all && Increasing(keys) && (forall k :: k in all <==> k in keys || k in rest) && forall k, j :: k in keys && j in rest ==> k < j
  }

  lemma TakenStep(all: set<int32>, keys: seq<int32>, rest: set<int32>, key: int32)
    requires Taken(all, keys, rest) && key in rest && forall j :: j in rest ==> key <= j
    ensures Taken(all, keys + [key], rest - {key})
  {
    hide Increasing;
    IncreasingSnoc(keys, key);
  }

  lemma TakenEnds(all: set<int32>)
    ensures Taken(all, [], all)
    ensures forall keys :: Taken(all, keys, {}) ==> IsAscending(keys, all)
    ensures forall keys, rest :: Taken(all, keys, rest) ==> (forall k :: k in keys ==> k in all) && (forall k :: k in rest ==> k in all)
  {
  }

  /** Adds the entries of a table, the least key first. */
  method AddTable(pkt: RulePkt, m: map<int32, Entry>, now: nat) returns (ghost keys: seq<int32>)
    modifies pkt
    ensures IsAscending(keys, m.Keys) && pkt.Rule() == WithEntries(old(pkt.Rule()), m, keys, now)
  {
    hide WithEntry, Taken, IsAscending;
    keys := [];
    var rest := m.Keys;
    TakenEnds(m.Keys);
    while rest != {}
      invariant Taken(m.Keys, keys, rest)
      invariant pkt.Rule() == WithEntries(old(pkt.Rule()), m, keys, now)
      decreases rest
    {
      var key := Least(rest);
      AddEntry(pkt, key, m[key], now);
      TakenStep(m.Keys, keys, rest, key);
      ghost var more := keys + [key];
      assert more[..|more| - 1] == keys;
      keys, rest := more, rest - {key};
    }
  }

  // ---------------------------------------------------------------- the whole rule

  datatype TableKeys = TableKeys(predicates: seq<int32>, aggregates: seq<int32>, negations: seq<int32>, parameters: seq<int32>)

  ghost predicate AreAscending(k: TableKeys, t: RuleTables) {
    && IsAscending(k.predicates, t.predicates.Keys) && IsAscending(k.aggregates, t.aggregates.Keys)
    && IsAscending(k.negations, t.negations.Keys) && IsAscending(k.parameters, t.parameters.Keys)
  }

  /** The states that exist. */
  function Within(s: set<int32>, n: nat): set<int> {
    set c: int32 | c in s && 0 <= c < n :: c as int
  }

  lemma WithinOne(s: set<int32>, c: int32, n: nat)
    ensures Within(s + {c}, n) == Within(s, n) + if 0 <= c < n then {c as int} else {}
  {
    forall x | x in Within(s, n) || (x == c && 0 <= c < n) ensures x in Within(s + {c}, n) {
      var y: int32 := x;
      assert y in s + {c};
    }
  }

  /** What the engine makes of the tables. */
  ghost function Loaded(t: RuleTables, prims: Prims, k: TableKeys, now: nat): Rule
    requires AreAscending(k, t)
  {
    var r := WithEntries(Rule([], [], [], [], {}, prims), t.predicates, k.predicates, now);
    var r := WithEntries(r, t.aggregates, k.aggregates, now);
    var r := WithEntries(r, t.negations, k.negations, now);
    var r := WithEntries(r, t.parameters, k.parameters, now);
    r.(consuming := r.consuming + Within(t.consuming, |r.predicates|))
  }

  method BuildRulePkt(t: RuleTables, prims: Prims, now: nat) returns (pkt: RulePkt, ghost k: TableKeys)
    ensures fresh(pkt) && AreAscending(k, t) && pkt.Rule() == Loaded(t, prims, k, now)
  {
    hide IsAscending, WithEntries;
    ghost var a, b, c, d;
    pkt := new RulePkt(prims);
    a := AddTable(pkt, t.predicates, now);
    b := AddTable(pkt, t.aggregates, now);
    c := AddTable(pkt, t.negations, now);
    d := AddTable(pkt, t.parameters, now);
    k := TableKeys(a, b, c, d);
    AddAllConsuming(pkt, t);
  }

  method AddAllConsuming(pkt: RulePkt, t: RuleTables)
    modifies pkt
    ensures pkt.Rule() == old(pkt.Rule()).(consuming := old(pkt.consuming) + Within(t.consuming, |old(pkt.predicates)|))
  {
    var rest := t.consuming;
    ghost var n := |pkt.predicates|;
    assert t.consuming - rest == {};
    while rest != {}
      invariant rest <= t.consuming
      invariant pkt.Rule() == old(pkt.Rule()).(consuming := old(pkt.consuming) + Within(t.consuming - rest, n))
      decreases rest
    {
      var c: int32 :| c in rest;
      var ok := pkt.AddConsuming(c);
      WithinOne(t.consuming - rest, c, n);
      assert t.consuming - rest + {c} == t.consuming - (rest - {c});
      rest := rest - {c};
    }
    assert t.consuming - rest == t.consuming;
  }

  // ---------------------------------------------------------------- the rule that was meant

  ghost predicate IsTable(m: map<int32, Entry>, es: seq<Entry>) {
    |es| <= INT_LIMIT && forall i: int32 :: (i in m <==> 0 <= i < |es|) && (i in m ==> m[i] == es[i])
  }

  function EntriesOf(r: Rule, kind: EntryKind): seq<Entry> {
    match kind
    case PredicateKind => seq(|r.predicates|, i requires 0 <= i < |r.predicates| => PredicateEntry(r.predicates[i]))
    case AggregateKind => seq(|r.aggregates|, i requires 0 <= i < |r.aggregates| => AggregateEntry(r.aggregates[i]))
    case NegationKind => seq(|r.negations|, i requires 0 <= i < |r.negations| => NegationEntry(r.negations[i]))
    case ParameterKind => seq(|r.params|, i requires 0 <= i < |r.params| => ParameterEntry(Sent(r.params[i])))
  }

  /** A parameter without the index it is registered under, which is not sent. */
  function Sent(par: Param): ComplexParameter {
    ComplexParameter(par.op, par.sType, par.vType, par.left, par.right)
  }

  /** The tables of a rule: its parts numbered from zero. */
  ghost predicate AreTablesOf(t: RuleTables, r: Rule) {
    && IsTable(t.predicates, EntriesOf(r, PredicateKind)) && IsTable(t.aggregates, EntriesOf(r, AggregateKind))
    && IsTable(t.negations, EntriesOf(r, NegationKind)) && IsTable(t.parameters, EntriesOf(r, ParameterKind))
    && (forall c: int32 :: c in t.consuming <==> (c as int) in r.consuming) && forall c :: c in r.consuming ==> 0 <= c < |r.predicates|
  }

  predicate CanonicalTimes(lower: int32, time: nat, now: nat) {
    lower == -1 || (lower >= 0 && time == now)
  }

  /** What only the sender could have set differently: the root's window, times between
      states, negative state numbers and parameter indexes. */
  ghost predicate Canonical(r: Rule, now: nat) {
    && (r.predicates != [] ==> r.predicates[0] == Predicate(r.predicates[0].eventType, r.predicates[0].constraints, -1, 0, EACH_WITHIN))
    && (forall a :: a in r.aggregates ==> CanonicalTimes(a.lowerId, a.lowerTime, now) && a.lowerId != a.upperId && (a.lowerId >= 0 ==> a.lowerId > a.upperId))
    && (forall n :: n in r.negations ==> CanonicalTimes(n.lowerId, n.lowerTime, now) && n.lowerId != n.upperId && (n.lowerId >= 0 ==> n.lowerId > n.upperId))
    && (forall par :: par in r.params ==> par.lastIndex >= 0 && par.lastIndex == ParamIndex(par.sType, par.left, par.right))
  }

  lemma WithEntryCanonical(r: Rule, key: int32, e: Entry, now: nat)
    requires Canonical(r, now)
    ensures Canonical(WithEntry(r, key, e, now), now)
  {
    hide ParamIndex;
  }

  lemma {:induction false} WithEntriesCanonical(r: Rule, m: map<int32, Entry>, keys: seq<int32>, now: nat)
    requires Canonical(r, now) && forall k :: k in keys ==> k in m
    ensures Canonical(WithEntries(r, m, keys, now), now)
    decreases |keys|
  {
    hide Canonical, WithEntry;
    if keys != [] {
      var last := keys[|keys| - 1];
      WithEntriesCanonical(r, m, keys[..|keys| - 1], now);
      WithEntryCanonical(WithEntries(r, m, keys[..|keys| - 1], now), last, m[last], now);
    }
  }

  /** Keys that are all of 0..n-1, ascending, count up from zero. */
  lemma {:induction false} KeysCount(keys: seq<int32>, m: map<int32, Entry>, es: seq<Entry>, i: nat)
    requires IsTable(m, es) && IsAscending(keys, m.Keys) && i <= |es|
    ensures i <= |keys| && forall j :: 0 <= j < i ==> keys[j] == j
    ensures i == |es| ==> |keys| == |es|
  {
    if i > 0 {
      KeysCount(keys, m, es, i - 1);
      var k: int32 := i - 1;
      assert k in m;
      var p :| 0 <= p < |keys| && keys[p] == k;
      assert keys[i - 1] in keys;
      assert keys[i - 1] in m;
      assert i > 1 ==> keys[i - 2] < keys[i - 1];
    }
    assert |keys| > i ==> keys[i] in keys;
    assert |keys| > i ==> keys[i] in m;
    assert |keys| > i > 0 ==> keys[i - 1] < keys[i];
  }

  /** The first `i` parts of one kind, on top of `base`. */
  function Partly(base: Rule, r: Rule, kind: EntryKind, i: nat): Rule
    requires i <= |EntriesOf(r, kind)|
  {
    match kind
    case PredicateKind => base.(predicates := r.predicates[..i])
    case AggregateKind => base.(aggregates := r.aggregates[..i])
    case NegationKind => base.(negations := r.negations[..i])
    case ParameterKind => base.(params := r.params[..i])
  }

  lemma PartlyStep(base: Rule, r: Rule, kind: EntryKind, i: nat, now: nat)
    requires WellFormed(r) && Canonical(r, now) && i < |EntriesOf(r, kind)| && i < INT_LIMIT
    requires kind != PredicateKind ==> base.predicates == r.predicates
    ensures WithEntry(Partly(base, r, kind, i), i, EntriesOf(r, kind)[i], now) == Partly(base, r, kind, i + 1)
  {
    hide ParamIndex, ParamOk, WellFormed, Canonical;
    match kind
    case PredicateKind =>
      assert PredicateOk(r, i) && (i == 0 ==> r.predicates[0].win == 0) by { PartsOk(r, kind, i, now); }
      assert r.predicates[..i + 1] == r.predicates[..i] + [r.predicates[i]];
    case AggregateKind =>
      assert AggregateOk(r, r.aggregates[i]) && CanonicalTimes(r.aggregates[i].lowerId, r.aggregates[i].lowerTime, now) by { PartsOk(r, kind, i, now); }
      assert r.aggregates[..i + 1] == r.aggregates[..i] + [r.aggregates[i]];
    case NegationKind =>
      assert NegationOk(r, r.negations[i]) && CanonicalTimes(r.negations[i].lowerId, r.negations[i].lowerTime, now) by { PartsOk(r, kind, i, now); }
      assert r.negations[..i + 1] == r.negations[..i] + [r.negations[i]];
    case ParameterKind =>
      var par := r.params[i];
      assert par.lastIndex >= 0 && par.lastIndex == ParamIndex(par.sType, par.left, par.right) by { PartsOk(r, kind, i, now); }
      assert r.params[..i + 1] == r.params[..i] + [par];
  }

  lemma PartsOk(r: Rule, kind: EntryKind, i: nat, now: nat)
    requires WellFormed(r) && Canonical(r, now) && i < |EntriesOf(r, kind)|
    ensures kind.PredicateKind? ==> PredicateOk(r, i) && (i == 0 ==> r.predicates[0].win == 0)
    ensures kind.AggregateKind? ==> AggregateOk(r, r.aggregates[i]) && CanonicalTimes(r.aggregates[i].lowerId, r.aggregates[i].lowerTime, now)
    ensures kind.NegationKind? ==> NegationOk(r, r.negations[i]) && CanonicalTimes(r.negations[i].lowerId, r.negations[i].lowerTime, now)
    ensures kind.ParameterKind? ==> r.params[i].lastIndex >= 0 && r.params[i].lastIndex == ParamIndex(r.params[i].sType, r.params[i].left, r.params[i].right)
  {
    hide ParamIndex, ParamOk;
  }

  lemma {:induction false} TableLoads(base: Rule, r: Rule, kind: EntryKind, m: map<int32, Entry>, keys: seq<int32>, now: nat, i: nat)
    requires WellFormed(r) && Canonical(r, now) && IsTable(m, EntriesOf(r, kind)) && IsAscending(keys, m.Keys)
    requires i <= |EntriesOf(r, kind)| && i <= |keys| && base == Partly(base, r, kind, 0)
    requires kind != PredicateKind ==> base.predicates == r.predicates
    ensures (forall k :: k in keys[..i] ==> k in m) && WithEntries(base, m, keys[..i], now) == Partly(base, r, kind, i)
  {
    hide WellFormed, Canonical, WithEntry, Partly, EntriesOf;
    if i > 0 {
      KeysCount(keys, m, EntriesOf(r, kind), i);
      TableLoads(base, r, kind, m, keys, now, i - 1);
      assert keys[..i][..i - 1] == keys[..i - 1] && keys[..i][i - 1] == i - 1;
      PartlyStep(base, r, kind, i - 1, now);
    }
  }

  lemma WholeTableLoads(base: Rule, r: Rule, kind: EntryKind, m: map<int32, Entry>, keys: seq<int32>, now: nat)
    requires WellFormed(r) && Canonical(r, now) && IsTable(m, EntriesOf(r, kind)) && IsAscending(keys, m.Keys)
    requires base == Partly(base, r, kind, 0)
    requires kind != PredicateKind ==> base.predicates == r.predicates
    ensures WithEntries(base, m, keys, now) == Partly(base, r, kind, |EntriesOf(r, kind)|)
  {
    hide WellFormed, Canonical, WithEntries, Partly, EntriesOf;
    KeysCount(keys, m, EntriesOf(r, kind), |EntriesOf(r, kind)|);
    TableLoads(base, r, kind, m, keys, now, |keys|);
    assert keys[..|keys|] == keys;
  }

  lemma ConsumingLoads(t: RuleTables, r: Rule)
    requires AreTablesOf(t, r)
    ensures {} + Within(t.consuming, |r.predicates|) == r.consuming
  {
    forall c | c in r.consuming ensures c in Within(t.consuming, |r.predicates|) {
      var y: int32 := c;
      assert y in t.consuming;
    }
  }

  lemma CanonicalLoads(t: RuleTables, r: Rule, k: TableKeys, now: nat)
    requires WellFormed(r) && AreTablesOf(t, r) && AreAscending(k, t) && Canonical(r, now)
    ensures Loaded(t, r.prims, k, now) == r
  {
    hide WellFormed, Canonical, WithEntries, IsTable, IsAscending;
    assert r.predicates[..|r.predicates|] == r.predicates && r.aggregates[..|r.aggregates|] == r.aggregates;
    assert r.negations[..|r.negations|] == r.negations && r.params[..|r.params|] == r.params;
    var r0 := Rule([], [], [], [], {}, r.prims);
    var r1 := r0.(predicates := r.predicates);
    var r2 := r1.(aggregates := r.aggregates);
    var r3 := r2.(negations := r.negations);
    WholeTableLoads(r0, r, PredicateKind, t.predicates, k.predicates, now);
    WholeTableLoads(r1, r, AggregateKind, t.aggregates, k.aggregates, now);
    WholeTableLoads(r2, r, NegationKind, t.negations, k.negations, now);
    WholeTableLoads(r3, r, ParameterKind, t.parameters, k.parameters, now);
    ConsumingLoads(t, r);
  }

  /** Main result: the engine runs the rule that was sent exactly when the sender left the
      fields that are not taken over at their defaults. */
  lemma LoadedIsMeant(t: RuleTables, r: Rule, k: TableKeys, now: nat)
    requires WellFormed(r) && AreTablesOf(t, r) && AreAscending(k, t)
    ensures Loaded(t, r.prims, k, now) == r <==> Canonical(r, now)
  {
    hide WellFormed, AreTablesOf;
    if Canonical(r, now) { CanonicalLoads(t, r, k, now); }
    LoadedCanonical(t, r.prims, k, now);
  }

  lemma LoadedCanonical(t: RuleTables, prims: Prims, k: TableKeys, now: nat)
    requires AreAscending(k, t)
    ensures Canonical(Loaded(t, prims, k, now), now)
  {
    hide WithEntries, Within;
    var r := Rule([], [], [], [], {}, prims);
    WithEntriesCanonical(r, t.predicates, k.predicates, now);
    var r1 := WithEntries(r, t.predicates, k.predicates, now);
    WithEntriesCanonical(r1, t.aggregates, k.aggregates, now);
    var r2 := WithEntries(r1, t.aggregates, k.aggregates, now);
    WithEntriesCanonical(r2, t.negations, k.negations, now);
    var r3 := WithEntries(r2, t.negations, k.negations, now);
    WithEntriesCanonical(r3, t.parameters, k.parameters, now);
  }

  // ---------------------------------------------------------------- end to end

  /** A rule sent as a packet of bytes and read by the engine. */
  method Transfer(t: RuleTables, prims: Prims, now: nat) returns (pkt: RulePkt, ghost k: TableKeys)
    requires CleanRule(t) && forall o :: AreOrders(o, t) ==> 5 + |EncRule(t, o)| < INT_LIMIT
    ensures fresh(pkt) && AreAscending(k, t) && pkt.Rule() == Loaded(t, prims, k, now)
  {
    hide EncRule, ParseRule, CleanRule, AreOrders, AreAscending, Loaded;
    var dest := Marshaller.GetByteArrayOfRule(t);
    var source := dest[..];
    ghost var o :| AreOrders(o, t) && source == [Marshaller.RULE_PKT] + EncInt(|EncRule(t, o)|) + EncRule(t, o);
    ghost var head := [Marshaller.RULE_PKT] + EncInt(|EncRule(t, o)|);
    assert source == head + EncRule(t, o) + [];
    RuleRoundTrip(head, t, o, []);
    var tables, next := Unmarshaller.DecodeTables(source, 5);
    pkt, k := BuildRulePkt(tables, prims, now);
  }
}
