/** The bytes of rules and publications on the wire, and what reading them back yields. */
module WireFormat {
  import opened Events
  import opened Rules

  const NAME_LEN := 15
  const STRING_VAL_LEN := 15
  /** As wide as an integer and a long on the wire. */
  const INT_BYTES: seq<byte> := [0, 0, 0, 0]
  const LONG_BYTES: seq<byte> := [0, 0, 0, 0, 0, 0, 0, 0]
  const INT_LIMIT := 0x8000_0000

  // ---------------------------------------------------------------- what can be sent

  datatype ComplexParameter = ComplexParameter(op: Op, sType: StateType, vType: ValType, left: OpTree, right: OpTree)

  /** The members of collections. */
  datatype Element =
    | IntEl(i: int32)
    | ConstraintEl(c: Constraint)
    | AttrEl(a: Attribute)
    | TemplateAttrEl(name: Name, value: OpTree)
    | StaticAttrEl(attr: Attribute)
  {
    function Kind(): ElementKind {
      match this
      case IntEl(_) => IntKind
      case ConstraintEl(_) => ConstraintKind
      case AttrEl(_) => AttrKind
      case TemplateAttrEl(_, _) => TemplateAttrKind
      case StaticAttrEl(_) => StaticAttrKind
    }
  }

  datatype ElementKind = IntKind | ConstraintKind | AttrKind | TemplateAttrKind | StaticAttrKind

  /** The values of keyed tables. */
  datatype Entry =
    | PredicateEntry(p: Predicate)
    | ParameterEntry(par: ComplexParameter)
    | AggregateEntry(a: Aggregate)
    | NegationEntry(n: Negation)
  {
    function Kind(): EntryKind {
      match this
      case PredicateEntry(_) => PredicateKind
      case ParameterEntry(_) => ParameterKind
      case AggregateEntry(_) => AggregateKind
      case NegationEntry(_) => NegationKind
    }
  }

  datatype EntryKind = PredicateKind | ParameterKind | AggregateKind | NegationKind

  datatype EventTemplate = EventTemplate(eventType: int32, attributes: seq<Element>, staticAttributes: seq<Element>)

  datatype RuleTables = RuleTables(
    predicates: map<int32, Entry>,
    parameters: map<int32, Entry>,
    aggregates: map<int32, Entry>,
    negations: map<int32, Entry>,
    template: EventTemplate,
    consuming: set<int32>)

  datatype Publication = Publication(eventType: int32, ts: nat, attributes: seq<Element>)

  /** An order in which the keys of the tables and the consuming set are visited. */
  datatype Orders = Orders(predicates: seq<int32>, parameters: seq<int32>, aggregates: seq<int32>, negations: seq<int32>,
                           consuming: seq<int32>)

  ghost predicate IsOrder(keys: seq<int32>, s: set<int32>) {
    |keys| == |s| && Distinct(keys) && forall k :: k in s <==> k in keys
  }

  /** Every key has an entry. */
  predicate Keyed(m: map<int32, Entry>, keys: seq<int32>) {
    forall k :: k in keys ==> k in m
  }

  lemma OrderIsKeyed(m: map<int32, Entry>, keys: seq<int32>)
    requires IsOrder(keys, m.Keys)
    ensures Keyed(m, keys)
  {
  }

  ghost predicate AreOrders(o: Orders, t: RuleTables) {
    && IsOrder(o.predicates, t.predicates.Keys) && IsOrder(o.parameters, t.parameters.Keys)
    && IsOrder(o.aggregates, t.aggregates.Keys) && IsOrder(o.negations, t.negations.Keys)
    && IsOrder(o.consuming, t.consuming)
  }

  function ConstraintEls(cs: seq<Constraint>): (es: seq<Element>) {
    seq(|cs|, k requires 0 <= k < |cs| => ConstraintEl(cs[k]))
  }

  function ConstraintsOf(es: seq<Element>): (cs: seq<Constraint>)
    requires forall e :: e in es ==> e.ConstraintEl?
  {
    seq(|es|, k requires 0 <= k < |es| => es[k].c)
  }

  function IntEls(s: seq<int32>): (es: seq<Element>) {
    seq(|s|, k requires 0 <= k < |s| => IntEl(s[k]))
  }

  function IntsOf(es: seq<Element>): set<int32>
    requires forall e :: e in es ==> e.IntEl?
  {
    set e | e in es :: e.i
  }

  // ---------------------------------------------------------------- writing

  /** Multiples of d other than 0 lie at least d away from it. */
  lemma Spread(k: int, d: nat)
    ensures k == 0 || k * d >= d || k * d <= 0 - d
  {
  }

  /** The low `n` bytes of an integer, most significant first. */
  function Bytes(x: int, n: nat): (s: seq<byte>)
    ensures |s| == n
    decreases n
  {
    if n == 0 then [] else Bytes(x / 256, n - 1) + [x % 256]
  }

  function EncInt(x: int): (s: seq<byte>)
    ensures |s| == 4
  {
    Bytes(x, |INT_BYTES|)
  }

  function EncLong(x: int): (s: seq<byte>)
    ensures |s| == 8
  {
    Bytes(x, |LONG_BYTES|)
  }

  function EncString(s: Name): (r: seq<byte>)
    ensures |r| == 4 + |s|
  {
    EncInt(|s|) + s
  }

  function TypeCode(t: ValType): byte {
    match t case INT => 0 case FLOAT => 1 case BOOL => 2 case STRING => 3
  }

  function OpCode(op: Op): byte {
    match op case EQ => 0 case LT => 1 case GT => 2 case NE => 3 case IN => 4 case LE => 5 case GE => 6
  }

  function StateCode(t: StateType): byte {
    match t case STATE => 0 case NEG => 1 case AGG => 2
  }

  function KindCode(k: CompKind): byte {
    match k case EACH_WITHIN => 0 case FIRST_WITHIN => 1 case LAST_WITHIN => 2 case ALL_WITHIN => 3
  }

  function FunCode(f: AggregateFun): byte {
    match f case NONE => 0 case AVG => 1 case COUNT => 2 case MIN => 3 case MAX => 4 case SUM => 5
  }

  function TreeOpCode(op: TreeOp): byte {
    match op case ADD => 0 case SUB => 1 case MUL => 2 case DIV => 3 case AND => 4 case OR => 5
  }

  function EncPayload(v: Value): seq<byte> {
    match v
    case IntVal(i) => EncInt(i)
    case FloatVal(bits) => EncInt(bits)
    case BoolVal(b) => [if b then 1 else 0]
    case StringVal(s) => EncString(s)
  }

  function EncValue(v: Value): seq<byte> {
    [TypeCode(v.Type())] + EncPayload(v)
  }

  function EncRef(r: ValueRef): seq<byte> {
    match r
    case PktRef(index, sType, name) => [0] + EncInt(index) + [StateCode(sType)] + EncString(name)
    case Static(v) => [1] + EncValue(v)
  }

  function EncTree(t: OpTree): seq<byte> {
    match t
    case Leaf(vt, ref) => [0, TypeCode(vt)] + EncRef(ref)
    case Inner(vt, l, r, op) => [1, TypeCode(vt)] + EncTree(l) + EncTree(r) + [TreeOpCode(op)]
  }

  function EncAttribute(a: Attribute): seq<byte> {
    EncString(a.name) + EncValue(a.value)
  }

  function EncElement(e: Element): seq<byte> {
    match e
    case IntEl(i) => EncInt(i)
    case ConstraintEl(c) => EncString(c.name) + [OpCode(c.op)] + EncValue(c.value)
    case AttrEl(a) => EncAttribute(a)
    case TemplateAttrEl(name, value) => EncString(name) + EncTree(value)
    case StaticAttrEl(a) => EncAttribute(a)
  }

  function EncAll(es: seq<Element>): seq<byte> {
    if es == [] then [] else EncElement(es[0]) + EncAll(es[1..])
  }

  function EncCollection(es: seq<Element>): seq<byte> {
    EncInt(|es|) + EncAll(es)
  }

  function EncEntry(e: Entry): seq<byte> {
    match e
    case PredicateEntry(p) =>
      EncInt(p.eventType) + EncCollection(ConstraintEls(p.constraints)) + EncInt(p.refersTo) + EncLong(p.win) + [KindCode(p.kind)]
    case ParameterEntry(c) =>
      [OpCode(c.op), StateCode(c.sType), TypeCode(c.vType)] + EncTree(c.left) + EncTree(c.right)
    case AggregateEntry(a) =>
      EncInt(a.eventType) + EncCollection(ConstraintEls(a.constraints)) + EncInt(a.lowerId) + EncLong(a.lowerTime)
      + EncInt(a.upperId) + [FunCode(a.fun)] + EncString(a.name)
    case NegationEntry(n) =>
      EncInt(n.eventType) + EncCollection(ConstraintEls(n.constraints)) + EncInt(n.lowerId) + EncLong(n.lowerTime) + EncInt(n.upperId)
  }

  /** The entries of a table, in the given order of keys. */
  function EncEntries(m: map<int32, Entry>, keys: seq<int32>): seq<byte>
    requires Keyed(m, keys)
  {
    if keys == [] then [] else EncInt(keys[0]) + EncEntry(m[keys[0]]) + EncEntries(m, keys[1..])
  }

  function EncTable(m: map<int32, Entry>, keys: seq<int32>): seq<byte>
    requires Keyed(m, keys)
  {
    EncInt(|keys|) + EncEntries(m, keys)
  }

  function EncTemplate(t: EventTemplate): seq<byte> {
    EncInt(t.eventType) + EncCollection(t.attributes) + EncCollection(t.staticAttributes)
  }

  function EncRule(t: RuleTables, o: Orders): seq<byte>
    requires AreOrders(o, t)
  {
    EncTable(t.predicates, o.predicates) + EncTable(t.parameters, o.parameters) + EncTable(t.aggregates, o.aggregates)
    + EncTable(t.negations, o.negations) + EncTemplate(t.template) + EncCollection(IntEls(o.consuming))
  }

  function EncPub(p: Publication): seq<byte> {
    EncInt(p.eventType) + EncLong(p.ts) + EncCollection(p.attributes)
  }

  // ---------------------------------------------------------------- what survives

  /** Names end at the first NUL on the reading side, and must fit their buffers. */
  predicate NulFree(s: Name) {
    forall k :: 0 <= k < |s| ==> s[k] != 0
  }

  predicate CleanName(s: Name, limit: nat) {
    NulFree(s) && |s| <= limit
  }

  predicate CleanValue(v: Value, limit: nat) {
    v.StringVal? ==> CleanName(v.s, limit)
  }

  predicate CleanTree(t: OpTree) {
    match t
    case Leaf(_, PktRef(_, _, name)) => NulFree(name)
    case Leaf(_, Static(v)) => CleanValue(v, STRING_VAL_LEN)
    case Inner(_, l, r, _) => CleanTree(l) && CleanTree(r)
  }

  predicate CleanConstraint(c: Constraint) {
    CleanName(c.name, NAME_LEN) && CleanValue(c.value, STRING_VAL_LEN)
  }

  predicate CleanAttribute(a: Attribute) {
    CleanName(a.name, NAME_LEN - 1) && CleanValue(a.value, STRING_VAL_LEN - 1)
  }

  predicate CleanElement(e: Element) {
    match e
    case IntEl(_) => true
    case ConstraintEl(c) => CleanConstraint(c)
    case AttrEl(a) => CleanAttribute(a)
    case TemplateAttrEl(name, value) => NulFree(name) && CleanTree(value)
    case StaticAttrEl(a) => CleanAttribute(a)
  }

  predicate CleanAll(es: seq<Element>, kind: ElementKind) {
    forall k :: 0 <= k < |es| ==> es[k].Kind() == kind && CleanElement(es[k])
  }

  predicate CleanTime(t: nat) {
    t < 0x1_0000_0000_0000_0000
  }

  predicate CleanEntry(e: Entry) {
    match e
    case PredicateEntry(p) => CleanTime(p.win) && forall c :: c in p.constraints ==> CleanConstraint(c)
    case ParameterEntry(c) => CleanTree(c.left) && CleanTree(c.right)
    case AggregateEntry(a) =>
      CleanTime(a.lowerTime) && CleanName(a.name, NAME_LEN) && forall c :: c in a.constraints ==> CleanConstraint(c)
    case NegationEntry(n) => CleanTime(n.lowerTime) && forall c :: c in n.constraints ==> CleanConstraint(c)
  }

  predicate CleanTable(m: map<int32, Entry>, kind: EntryKind) {
    forall k :: k in m ==> m[k].Kind() == kind && CleanEntry(m[k])
  }

  predicate CleanTemplate(t: EventTemplate) {
    CleanAll(t.attributes, TemplateAttrKind) && CleanAll(t.staticAttributes, StaticAttrKind)
  }

  predicate CleanRule(t: RuleTables) {
    && CleanTable(t.predicates, PredicateKind) && CleanTable(t.parameters, ParameterKind)
    && CleanTable(t.aggregates, AggregateKind) && CleanTable(t.negations, NegationKind)
    && CleanTemplate(t.template)
  }

  predicate CleanPub(p: Publication) {
    CleanTime(p.ts) && CleanAll(p.attributes, AttrKind)
  }

  // ---------------------------------------------------------------- reading

  /** A value and the index after it; or a read past the end, an overfull buffer, or a
      negative array size, where the program's behaviour is not defined. */
  datatype Parsed<T> = Fail | Parsed(value: T, next: nat)
  {
    predicate IsFailure() { Fail? }
    function PropagateFailure<U>(): Parsed<U>
      requires Fail?
    {
      Fail
    }
    function Extract(): (T, nat)
      requires Parsed?
    {
      (value, next)
    }
  }

  function Unsigned(s: seq<byte>): nat {
    if s == [] then 0 else Unsigned(s[..|s| - 1]) * 256 + s[|s| - 1]
  }

  /** Two's complement of 32 bits. */
  function Signed(u: nat): int32 {
    var w := u % 0x1_0000_0000;
    if w >= INT_LIMIT then w - 0x1_0000_0000 else w
  }

  function TypeOf(b: byte): ValType {
    if b == 0 then INT else if b == 1 then FLOAT else if b == 2 then BOOL else STRING
  }

  function OpOf(b: byte): Op {
    if b == 1 then LT else if b == 2 then GT else if b == 3 then NE else if b == 4 then IN
    else if b == 5 then LE else if b == 6 then GE else EQ
  }

  function StateOf(b: byte): StateType {
    if b == 0 then STATE else if b == 1 then NEG else AGG
  }

  function KindOf(b: byte): CompKind {
    if b == 0 then EACH_WITHIN else if b == 1 then FIRST_WITHIN else if b == 2 then LAST_WITHIN else ALL_WITHIN
  }

  function FunOf(b: byte): AggregateFun {
    if b == 0 then NONE else if b == 1 then AVG else if b == 2 then COUNT else if b == 3 then MIN else if b == 4 then MAX else SUM
  }

  function TreeOpOf(b: byte): TreeOp {
    if b == 0 then ADD else if b == 1 then SUB else if b == 2 then MUL else if b == 3 then DIV else if b == 4 then AND else OR
  }

  function ParseByte(src: seq<byte>, i: nat): (r: Parsed<byte>)
    ensures r.Fail? || (i < r.next <= |src|)
  {
    if i < |src| then Parsed(src[i], i + 1) else Fail
  }

  function ParseInt(src: seq<byte>, i: nat): (r: Parsed<int32>)
    ensures r.Fail? || (i < r.next <= |src|)
  {
    if i + 4 <= |src| then Parsed(Signed(Unsigned(src[i..i + 4])), i + 4) else Fail
  }

  function ParseLong(src: seq<byte>, i: nat): (r: Parsed<nat>)
    ensures r.Fail? || (i < r.next <= |src| && CleanTime(r.value))
  {
    if i + 8 <= |src| then Parsed(Unsigned(src[i..i + 8]) % 0x1_0000_0000_0000_0000, i + 8) else Fail
  }

  /** A C string ends at its first NUL. */
  function CString(s: seq<byte>): (r: Name)
    ensures NulFree(r) && (r == s <==> NulFree(s))
  {
    if s == [] || s[0] == 0 then []
    else
      assert s == [s[0]] + s[1..];
      [s[0]] + CString(s[1..])
  }

  function ParseString(src: seq<byte>, i: nat): (r: Parsed<Name>)
    ensures r.Fail? || (i < r.next <= |src| && NulFree(r.value))
  {
    var (n, i) :- ParseInt(src, i);
    if n < 0 || i + n > |src| then Fail else Parsed(CString(src[i..i + n]), i + n)
  }

  /** A string copied to a buffer of `limit` characters and a NUL. */
  function ParseName(src: seq<byte>, i: nat, limit: nat): (r: Parsed<Name>)
    ensures r.Fail? || (i < r.next <= |src| && CleanName(r.value, limit))
  {
    var (s, i) :- ParseString(src, i);
    if |s| <= limit then Parsed(s, i) else Fail
  }

  function ParseValue(src: seq<byte>, i: nat, limit: nat): (r: Parsed<Value>)
    ensures r.Fail? || (i < r.next <= |src| && CleanValue(r.value, limit))
  {
    var (t, i) :- ParseByte(src, i);
    match TypeOf(t)
    case INT => var (v, i) :- ParseInt(src, i); Parsed(IntVal(v), i)
    case FLOAT => var (v, i) :- ParseInt(src, i); Parsed(FloatVal(v), i)
    case BOOL => var (v, i) :- ParseByte(src, i); Parsed(BoolVal(v == 1), i)
    case STRING => var (v, i) :- ParseName(src, i, limit); Parsed(StringVal(v), i)
  }

  function ParseRef(src: seq<byte>, i: nat): (r: Parsed<ValueRef>)
    ensures r.Fail? || (i < r.next <= |src| && CleanTree(Leaf(INT, r.value)))
  {
    var (t, i) :- ParseByte(src, i);
    if t == 0 then
      var (index, i) :- ParseInt(src, i);
      var (st, i) :- ParseByte(src, i);
      var (name, i) :- ParseString(src, i);
      Parsed(PktRef(index, StateOf(st), name), i)
    else
      var (v, i) :- ParseValue(src, i, STRING_VAL_LEN);
      Parsed(Static(v), i)
  }

  function ParseTree(src: seq<byte>, i: nat): (r: Parsed<OpTree>)
    ensures r.Fail? || (i < r.next <= |src| && CleanTree(r.value))
    decreases |src| - i
  {
    var (t, i) :- ParseByte(src, i);
    var (vt, i) :- ParseByte(src, i);
    if t == 0 then
      var (ref, i) :- ParseRef(src, i);
      Parsed(Leaf(TypeOf(vt), ref), i)
    else
      var (left, i) :- ParseTree(src, i);
      var (right, i) :- ParseTree(src, i);
      var (op, i) :- ParseByte(src, i);
      Parsed(Inner(TypeOf(vt), left, right, TreeOpOf(op)), i)
  }

  function ParseAttribute(src: seq<byte>, i: nat): (r: Parsed<Attribute>)
    ensures r.Fail? || (i < r.next <= |src| && CleanAttribute(r.value))
  {
    var (name, i) :- ParseName(src, i, NAME_LEN - 1);
    var (v, i) :- ParseValue(src, i, STRING_VAL_LEN - 1);
    Parsed(Attribute(name, v), i)
  }

  function ParseElement(kind: ElementKind, src: seq<byte>, i: nat): (r: Parsed<Element>)
    ensures r.Fail? || (i < r.next <= |src| && r.value.Kind() == kind && CleanElement(r.value))
  {
    match kind
    case IntKind => var (v, i) :- ParseInt(src, i); Parsed(IntEl(v), i)
    case ConstraintKind =>
      var (name, i) :- ParseName(src, i, NAME_LEN);
      var (op, i) :- ParseByte(src, i);
      var (v, i) :- ParseValue(src, i, STRING_VAL_LEN);
      Parsed(ConstraintEl(Constraint(name, OpOf(op), v)), i)
    case AttrKind => var (a, i) :- ParseAttribute(src, i); Parsed(AttrEl(a), i)
    case TemplateAttrKind =>
      var (name, i) :- ParseString(src, i);
      var (tree, i) :- ParseTree(src, i);
      Parsed(TemplateAttrEl(name, tree), i)
    case StaticAttrKind => var (a, i) :- ParseAttribute(src, i); Parsed(StaticAttrEl(a), i)
  }

  /** `n` more elements after those already read. */
  function ParseAll(kind: ElementKind, src: seq<byte>, i: nat, n: int, done: seq<Element>): (r: Parsed<seq<Element>>)
    requires i <= |src| && CleanAll(done, kind)
    ensures r.Fail? || (i <= r.next <= |src| && CleanAll(r.value, kind))
    decreases n
  {
    if n <= 0 then Parsed(done, i)
    else
      var (e, i) :- ParseElement(kind, src, i);
      ParseAll(kind, src, i, n - 1, done + [e])
  }

  /** Kinds that are read into an array allocated for the announced length. */
  predicate InArray(kind: ElementKind) {
    kind == ConstraintKind || kind == AttrKind
  }

  function ParseCollection(kind: ElementKind, src: seq<byte>, i: nat): (r: Parsed<seq<Element>>)
    ensures r.Fail? || (i < r.next <= |src| && CleanAll(r.value, kind))
  {
    var (n, i) :- ParseInt(src, i);
    if n < 0 && InArray(kind) then Fail else ParseAll(kind, src, i, n, [])
  }

  /** The event type and constraints that begin predicates, aggregates and negations. */
  function ParseHead(src: seq<byte>, i: nat): (r: Parsed<(int32, seq<Constraint>)>)
    ensures r.Fail? || (i < r.next <= |src| && forall c :: c in r.value.1 ==> CleanConstraint(c))
  {
    var (ty, i) :- ParseInt(src, i);
    var (cs, i) :- ParseCollection(ConstraintKind, src, i);
    Parsed((ty, ConstraintsOf(cs)), i)
  }

  /** The two states and the time that follow in aggregates and negations. */
  function ParseBetween(src: seq<byte>, i: nat): (r: Parsed<(int32, nat, int32)>)
    ensures r.Fail? || (i < r.next <= |src| && CleanTime(r.value.1))
  {
    var (lower, i) :- ParseInt(src, i);
    var (time, i) :- ParseLong(src, i);
    var (upper, i) :- ParseInt(src, i);
    Parsed((lower, time, upper), i)
  }

  function ParsePredicate(src: seq<byte>, i: nat): (r: Parsed<Entry>)
    ensures r.Fail? || (i < r.next <= |src| && r.value.Kind() == PredicateKind && CleanEntry(r.value))
  {
    var (h, i) :- ParseHead(src, i);
    var (ref, i) :- ParseInt(src, i);
    var (win, i) :- ParseLong(src, i);
    var (k, i) :- ParseByte(src, i);
    Parsed(PredicateEntry(Predicate(h.0, h.1, ref, win, KindOf(k))), i)
  }

  function ParseParameter(src: seq<byte>, i: nat): (r: Parsed<Entry>)
    ensures r.Fail? || (i < r.next <= |src| && r.value.Kind() == ParameterKind && CleanEntry(r.value))
  {
    var (op, i) :- ParseByte(src, i);
    var (st, i) :- ParseByte(src, i);
    var (vt, i) :- ParseByte(src, i);
    var (left, i) :- ParseTree(src, i);
    var (right, i) :- ParseTree(src, i);
    Parsed(ParameterEntry(ComplexParameter(OpOf(op), StateOf(st), TypeOf(vt), left, right)), i)
  }

  function ParseAggregate(src: seq<byte>, i: nat): (r: Parsed<Entry>)
    ensures r.Fail? || (i < r.next <= |src| && r.value.Kind() == AggregateKind && CleanEntry(r.value))
  {
    var (h, i) :- ParseHead(src, i);
    var (w, i) :- ParseBetween(src, i);
    var (f, i) :- ParseByte(src, i);
    var (name, i) :- ParseName(src, i, NAME_LEN);
    Parsed(AggregateEntry(Aggregate(h.0, h.1, w.0, w.1, w.2, FunOf(f), name)), i)
  }

  function ParseNegation(src: seq<byte>, i: nat): (r: Parsed<Entry>)
    ensures r.Fail? || (i < r.next <= |src| && r.value.Kind() == NegationKind && CleanEntry(r.value))
  {
    var (h, i) :- ParseHead(src, i);
    var (w, i) :- ParseBetween(src, i);
    Parsed(NegationEntry(Negation(h.0, h.1, w.0, w.1, w.2)), i)
  }

  function ParseEntry(kind: EntryKind, src: seq<byte>, i: nat): (r: Parsed<Entry>)
    ensures r.Fail? || (i < r.next <= |src| && r.value.Kind() == kind && CleanEntry(r.value))
  {
    match kind
    case PredicateKind => ParsePredicate(src, i)
    case ParameterKind => ParseParameter(src, i)
    case AggregateKind => ParseAggregate(src, i)
    case NegationKind => ParseNegation(src, i)
  }

  /** Insertion into a map keeps a key already there. */
  function Inserted(m: map<int32, Entry>, k: int32, e: Entry): map<int32, Entry> {
    if k in m then m else m[k := e]
  }

  function ParseEntries(kind: EntryKind, src: seq<byte>, i: nat, n: int, done: map<int32, Entry>): (r: Parsed<map<int32, Entry>>)
    requires i <= |src| && CleanTable(done, kind)
    ensures r.Fail? || (i <= r.next <= |src| && CleanTable(r.value, kind))
    decreases n
  {
    if n <= 0 then Parsed(done, i)
    else
      var (k, i) :- ParseInt(src, i);
      var (e, i) :- ParseEntry(kind, src, i);
      ParseEntries(kind, src, i, n - 1, Inserted(done, k, e))
  }

  function ParseTable(kind: EntryKind, src: seq<byte>, i: nat): (r: Parsed<map<int32, Entry>>)
    ensures r.Fail? || (i < r.next <= |src| && CleanTable(r.value, kind))
  {
    var (n, i) :- ParseInt(src, i);
    ParseEntries(kind, src, i, n, map[])
  }

  /** Two tables in a row. */
  function ParseTables(first: EntryKind, second: EntryKind, src: seq<byte>, i: nat): (r: Parsed<(map<int32, Entry>, map<int32, Entry>)>)
    ensures r.Fail? || (i < r.next <= |src| && CleanTable(r.value.0, first) && CleanTable(r.value.1, second))
  {
    var (a, i) :- ParseTable(first, src, i);
    var (b, i) :- ParseTable(second, src, i);
    Parsed((a, b), i)
  }

  function ParseTemplate(src: seq<byte>, i: nat): (r: Parsed<EventTemplate>)
    ensures r.Fail? || (i < r.next <= |src| && CleanTemplate(r.value))
  {
    var (ty, i) :- ParseInt(src, i);
    var (attrs, i) :- ParseCollection(TemplateAttrKind, src, i);
    var (statics, i) :- ParseCollection(StaticAttrKind, src, i);
    Parsed(EventTemplate(ty, attrs, statics), i)
  }

  function ParseConsuming(src: seq<byte>, i: nat): (r: Parsed<set<int32>>)
    ensures r.Fail? || (i < r.next <= |src|)
  {
    var (es, i) :- ParseCollection(IntKind, src, i);
    Parsed(IntsOf(es), i)
  }

  function ParseRule(src: seq<byte>, i: nat): (r: Parsed<RuleTables>)
    ensures r.Fail? || (i < r.next <= |src| && CleanRule(r.value))
  {
    var (pp, i) :- ParseTables(PredicateKind, ParameterKind, src, i);
    var (an, i) :- ParseTables(AggregateKind, NegationKind, src, i);
    var (template, i) :- ParseTemplate(src, i);
    var (consuming, i) :- ParseConsuming(src, i);
    Parsed(RuleTables(pp.0, pp.1, an.0, an.1, template, consuming), i)
  }

  /** A publication without a time stamp gets the current time. */
  function ParsePub(src: seq<byte>, i: nat, now: nat): (r: Parsed<Publication>)
    ensures r.Fail? || (i < r.next <= |src| && CleanAll(r.value.attributes, AttrKind))
  {
    var (ty, i) :- ParseInt(src, i);
    var (ts, i) :- ParseLong(src, i);
    var (attrs, i) :- ParseCollection(AttrKind, src, i);
    Parsed(Publication(ty, if ts > 0 then ts else now, attrs), i)
  }
}
