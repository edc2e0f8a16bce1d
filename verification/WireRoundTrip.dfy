/** Reading what was written gives it back. */
module WireRoundTrip {
  import opened Events
  import opened Rules
  import opened WireFormat

  /** The source holds these bytes at this place. Buffers are indexed by 32-bit integers. */
  ghost predicate At(src: seq<byte>, i: nat, s: seq<byte>) {
    i + |s| <= |src| < INT_LIMIT && src[i..i + |s|] == s
  }

  lemma AtSplit(src: seq<byte>, i: nat, a: seq<byte>, b: seq<byte>)
    requires At(src, i, a + b)
    ensures At(src, i, a) && At(src, i + |a|, b) && i + |a| + |b| <= |src| < INT_LIMIT
  {
    assert src[i..i + |a|] == (a + b)[..|a|];
    assert src[i + |a|..i + |a| + |b|] == (a + b)[|a|..];
  }

  // ---------------------------------------------------------------- numbers

  function Pow256(n: nat): (p: nat)
    ensures p > 0
  {
    if n == 0 then 1 else 256 * Pow256(n - 1)
  }

  lemma ModUnique(x: int, q: int, d: nat, m: nat)
    requires d > 0 && x == q * d + m && m < d
    ensures x % d == m
  {
    var k := x / d - q;
    assert k * d == m - x % d;
    assert k == 0 by {
      Spread(k, d);
    }
  }

  /** A remainder one byte wider. */
  lemma ModStep(x: int, p: nat)
    requires p > 0
    ensures x % (256 * p) == (x / 256) % p * 256 + x % 256
  {
    var q, m := x / 256 / p, x / 256 % p;
    assert x / 256 == q * p + m;
    assert q * (256 * p) == 256 * (q * p);
    ModUnique(x, q, 256 * p, m * 256 + x % 256);
  }

  /** Reading bytes back gives the integer, up to the bits cut off. */
  lemma {:induction false} BytesBack(x: int, n: nat)
    ensures Unsigned(Bytes(x, n)) == x % Pow256(n)
    decreases n
  {
    if n > 0 {
      BytesBack(x / 256, n - 1);
      var s := Bytes(x, n);
      assert s[..|s| - 1] == Bytes(x / 256, n - 1);
      ModStep(x, Pow256(n - 1));
    }
  }

  lemma IntBack(src: seq<byte>, i: nat, x: int)
    requires At(src, i, EncInt(x)) && -INT_LIMIT <= x < INT_LIMIT
    ensures ParseInt(src, i) == Parsed(x, i + 4)
  {
    hide Bytes, Unsigned;
    BytesBack(x, |INT_BYTES|);
    assert Pow256(4) == 0x1_0000_0000 by { assert Pow256(1) == 256 && Pow256(2) == 65536 && Pow256(3) == 0x100_0000; }
  }

  lemma LongBack(src: seq<byte>, i: nat, t: nat)
    requires At(src, i, EncLong(t)) && CleanTime(t)
    ensures ParseLong(src, i) == Parsed(t, i + 8)
  {
    hide Bytes, Unsigned;
    BytesBack(t, |LONG_BYTES|);
    assert Pow256(8) == 0x1_0000_0000_0000_0000 by {
      assert Pow256(1) == 256 && Pow256(2) == 65536 && Pow256(3) == 0x100_0000 && Pow256(4) == 0x1_0000_0000;
      assert Pow256(5) == 0x100_0000_0000 && Pow256(6) == 0x1_0000_0000_0000 && Pow256(7) == 0x100_0000_0000_0000;
    }
  }

  lemma ByteBack(src: seq<byte>, i: nat, b: byte)
    requires At(src, i, [b])
    ensures ParseByte(src, i) == Parsed(b, i + 1)
  {
    assert src[i..i + 1][0] == b;
  }

  // ---------------------------------------------------------------- strings and values

  /** A string comes back up to its first NUL. */
  lemma StringBack(src: seq<byte>, i: nat, s: Name)
    requires At(src, i, EncString(s))
    ensures ParseString(src, i) == Parsed(CString(s), i + |EncString(s)|)
  {
    hide Bytes, Unsigned, ParseInt, EncInt;
    AtSplit(src, i, EncInt(|s|), s);
    IntBack(src, i, |s|);
  }

  lemma ValueBack(src: seq<byte>, i: nat, v: Value, limit: nat)
    requires At(src, i, EncValue(v)) && CleanValue(v, limit)
    ensures ParseValue(src, i, limit) == Parsed(v, i + |EncValue(v)|)
  {
    hide At, ParseInt, EncInt, ParseString, EncString;
    AtSplit(src, i, [TypeCode(v.Type())], EncPayload(v));
    ByteBack(src, i, TypeCode(v.Type()));
    match v
    case IntVal(x) => IntBack(src, i + 1, x);
    case FloatVal(x) => IntBack(src, i + 1, x);
    case BoolVal(b) => ByteBack(src, i + 1, if b then 1 else 0);
    case StringVal(s) => StringBack(src, i + 1, s);
  }

  lemma RefBack(src: seq<byte>, i: nat, r: ValueRef)
    requires At(src, i, EncRef(r)) && CleanTree(Leaf(INT, r))
    ensures ParseRef(src, i) == Parsed(r, i + |EncRef(r)|)
  {
    hide At, ParseInt, EncInt, ParseString, EncString, ParseValue, EncValue;
    match r
    case PktRef(index, st, name) =>
      AtSplit(src, i, [0] + EncInt(index) + [StateCode(st)], EncString(name));
      AtSplit(src, i, [0] + EncInt(index), [StateCode(st)]);
      AtSplit(src, i, [0], EncInt(index));
      ByteBack(src, i, 0);
      IntBack(src, i + 1, index);
      ByteBack(src, i + 5, StateCode(st));
      StringBack(src, i + 6, name);
    case Static(v) =>
      AtSplit(src, i, [1], EncValue(v));
      ByteBack(src, i, 1);
      ValueBack(src, i + 1, v, STRING_VAL_LEN);
  }

  // ---------------------------------------------------------------- trees

  lemma InnerParse(src: seq<byte>, i: nat, vt: ValType, l: OpTree, r: OpTree, op: TreeOp, j: nat, k: nat)
    requires ParseByte(src, i) == Parsed(1, i + 1) && ParseByte(src, i + 1) == Parsed(TypeCode(vt), i + 2)
    requires ParseTree(src, i + 2) == Parsed(l, j) && ParseTree(src, j) == Parsed(r, k)
    requires ParseByte(src, k) == Parsed(TreeOpCode(op), k + 1)
    ensures ParseTree(src, i) == Parsed(Inner(vt, l, r, op), k + 1)
  {
    hide ParseByte, CleanTree, ParseRef;
  }

  lemma InnerBack(src: seq<byte>, i: nat, vt: ValType, l: OpTree, r: OpTree, op: TreeOp, lb: seq<byte>, rb: seq<byte>)
    requires At(src, i, [1, TypeCode(vt)] + lb + rb + [TreeOpCode(op)])
    requires ParseTree(src, i + 2) == Parsed(l, i + 2 + |lb|)
    requires ParseTree(src, i + 2 + |lb|) == Parsed(r, i + 2 + |lb| + |rb|)
    ensures ParseTree(src, i) == Parsed(Inner(vt, l, r, op), i + 3 + |lb| + |rb|)
  {
    hide At, ParseTree, ParseByte, CleanTree, TypeCode, TreeOpCode;
    AtSplit(src, i, [1, TypeCode(vt)] + lb + rb, [TreeOpCode(op)]);
    AtSplit(src, i, [1, TypeCode(vt)] + lb, rb);
    AtSplit(src, i, [1, TypeCode(vt)], lb);
    assert [1, TypeCode(vt)] == [1] + [TypeCode(vt)];
    AtSplit(src, i, [1], [TypeCode(vt)]);
    ByteBack(src, i, 1);
    ByteBack(src, i + 1, TypeCode(vt));
    ByteBack(src, i + 2 + |lb| + |rb|, TreeOpCode(op));
    InnerParse(src, i, vt, l, r, op, i + 2 + |lb|, i + 2 + |lb| + |rb|);
  }

  lemma LeafBack(src: seq<byte>, i: nat, vt: ValType, ref: ValueRef)
    requires At(src, i, [0, TypeCode(vt)] + EncRef(ref)) && CleanTree(Leaf(vt, ref))
    ensures ParseTree(src, i) == Parsed(Leaf(vt, ref), i + 2 + |EncRef(ref)|)
  {
    hide At, ParseRef, EncRef;
    AtSplit(src, i, [0, TypeCode(vt)], EncRef(ref));
    assert [0, TypeCode(vt)] == [0] + [TypeCode(vt)];
    AtSplit(src, i, [0], [TypeCode(vt)]);
    ByteBack(src, i, 0);
    ByteBack(src, i + 1, TypeCode(vt));
    RefBack(src, i + 2, ref);
  }

  lemma {:induction false} TreeBack(src: seq<byte>, i: nat, t: OpTree)
    requires At(src, i, EncTree(t)) && CleanTree(t)
    ensures ParseTree(src, i) == Parsed(t, i + |EncTree(t)|)
    decreases t
  {
    hide At, ParseTree, EncRef, TypeCode, TreeOpCode;
    match t
    case Leaf(vt, ref) => LeafBack(src, i, vt, ref);
    case Inner(vt, l, r, op) =>
      var lb, rb := EncTree(l), EncTree(r);
      AtSplit(src, i, [1, TypeCode(vt)] + lb + rb, [TreeOpCode(op)]);
      AtSplit(src, i, [1, TypeCode(vt)] + lb, rb);
      AtSplit(src, i, [1, TypeCode(vt)], lb);
      TreeBack(src, i + 2, l);
      TreeBack(src, i + 2 + |lb|, r);
      InnerBack(src, i, vt, l, r, op, lb, rb);
  }

  // ---------------------------------------------------------------- collections

  lemma AttributeBack(src: seq<byte>, i: nat, a: Attribute)
    requires At(src, i, EncAttribute(a)) && CleanAttribute(a)
    ensures ParseAttribute(src, i) == Parsed(a, i + |EncAttribute(a)|)
  {
    hide At, ParseString, EncString, ParseValue, EncValue;
    AtSplit(src, i, EncString(a.name), EncValue(a.value));
    StringBack(src, i, a.name);
    ValueBack(src, i + |EncString(a.name)|, a.value, STRING_VAL_LEN - 1);
  }

  lemma ConstraintBack(src: seq<byte>, i: nat, c: Constraint)
    requires At(src, i, EncElement(ConstraintEl(c))) && CleanElement(ConstraintEl(c))
    ensures ParseElement(ConstraintKind, src, i) == Parsed(ConstraintEl(c), i + |EncElement(ConstraintEl(c))|)
  {
    hide At, ParseString, EncString, ParseValue, EncValue;
    AtSplit(src, i, EncString(c.name) + [OpCode(c.op)], EncValue(c.value));
    AtSplit(src, i, EncString(c.name), [OpCode(c.op)]);
    StringBack(src, i, c.name);
    ByteBack(src, i + |EncString(c.name)|, OpCode(c.op));
    ValueBack(src, i + |EncString(c.name)| + 1, c.value, STRING_VAL_LEN);
  }

  lemma TemplateAttributeBack(src: seq<byte>, i: nat, name: Name, value: OpTree)
    requires At(src, i, EncElement(TemplateAttrEl(name, value))) && CleanElement(TemplateAttrEl(name, value))
    ensures ParseElement(TemplateAttrKind, src, i) == Parsed(TemplateAttrEl(name, value), i + |EncElement(TemplateAttrEl(name, value))|)
  {
    hide At, ParseString, EncString, ParseTree, EncTree;
    AtSplit(src, i, EncString(name), EncTree(value));
    StringBack(src, i, name);
    TreeBack(src, i + |EncString(name)|, value);
  }

  lemma ElementBack(src: seq<byte>, i: nat, e: Element)
    requires At(src, i, EncElement(e)) && CleanElement(e)
    ensures ParseElement(e.Kind(), src, i) == Parsed(e, i + |EncElement(e)|)
  {
    hide At, ParseInt, EncInt, ParseAttribute, EncAttribute, ParseString, EncString, ParseValue, EncValue, ParseTree, EncTree;
    match e
    case IntEl(x) => IntBack(src, i, x);
    case ConstraintEl(c) => ConstraintBack(src, i, c);
    case AttrEl(a) => AttributeBack(src, i, a);
    case TemplateAttrEl(name, value) => TemplateAttributeBack(src, i, name, value);
    case StaticAttrEl(a) => AttributeBack(src, i, a);
  }

  lemma {:induction false} AllBack(kind: ElementKind, src: seq<byte>, i: nat, es: seq<Element>, done: seq<Element>)
    requires At(src, i, EncAll(es)) && CleanAll(es, kind) && CleanAll(done, kind)
    ensures ParseAll(kind, src, i, |es|, done) == Parsed(done + es, i + |EncAll(es)|)
    decreases |es|
  {
    hide At, ParseElement, EncElement;
    if es == [] {
      assert done + es == done;
    } else {
      AtSplit(src, i, EncElement(es[0]), EncAll(es[1..]));
      ElementBack(src, i, es[0]);
      AllBack(kind, src, i + |EncElement(es[0])|, es[1..], done + [es[0]]);
      assert done + [es[0]] + es[1..] == done + es;
    }
  }

  lemma {:induction false} AllLong(es: seq<Element>)
    ensures |es| <= |EncAll(es)|
  {
    if es != [] { AllLong(es[1..]); }
  }

  lemma CollectionBack(kind: ElementKind, src: seq<byte>, i: nat, es: seq<Element>)
    requires At(src, i, EncCollection(es)) && CleanAll(es, kind)
    ensures ParseCollection(kind, src, i) == Parsed(es, i + |EncCollection(es)|)
  {
    hide At, ParseInt, EncInt, ParseAll, EncAll;
    AtSplit(src, i, EncInt(|es|), EncAll(es));
    AllLong(es);
    IntBack(src, i, |es|);
    AllBack(kind, src, i + 4, es, []);
    assert [] + es == es;
  }

  // ---------------------------------------------------------------- tables

  lemma HeadBack(src: seq<byte>, i: nat, ty: int32, cs: seq<Constraint>)
    requires At(src, i, EncInt(ty) + EncCollection(ConstraintEls(cs))) && forall c :: c in cs ==> CleanConstraint(c)
    ensures ParseHead(src, i) == Parsed((ty, cs), i + 4 + |EncCollection(ConstraintEls(cs))|)
  {
    hide At, ParseInt, EncInt, ParseCollection, EncCollection;
    AtSplit(src, i, EncInt(ty), EncCollection(ConstraintEls(cs)));
    IntBack(src, i, ty);
    CollectionBack(ConstraintKind, src, i + 4, ConstraintEls(cs));
    assert ConstraintsOf(ConstraintEls(cs)) == cs;
  }

  lemma BetweenBack(src: seq<byte>, i: nat, lower: int32, time: nat, upper: int32)
    requires At(src, i, EncInt(lower)) && At(src, i + 4, EncLong(time)) && At(src, i + 12, EncInt(upper)) && CleanTime(time)
    ensures ParseBetween(src, i) == Parsed((lower, time, upper), i + 16)
  {
    hide At, ParseInt, EncInt, EncLong, ParseLong;
    IntBack(src, i, lower);
    LongBack(src, i + 4, time);
    IntBack(src, i + 12, upper);
  }

  lemma PredicateBack(src: seq<byte>, i: nat, p: Predicate)
    requires At(src, i, EncEntry(PredicateEntry(p))) && CleanEntry(PredicateEntry(p))
    ensures ParsePredicate(src, i) == Parsed(PredicateEntry(p), i + |EncEntry(PredicateEntry(p))|)
  {
    hide At, ParseInt, EncInt, EncLong, ParseLong, ParseHead, EncCollection;
    var head := EncInt(p.eventType) + EncCollection(ConstraintEls(p.constraints));
    AtSplit(src, i, head + EncInt(p.refersTo) + EncLong(p.win), [KindCode(p.kind)]);
    AtSplit(src, i, head + EncInt(p.refersTo), EncLong(p.win));
    AtSplit(src, i, head, EncInt(p.refersTo));
    HeadBack(src, i, p.eventType, p.constraints);
    var j := i + |head|;
    IntBack(src, j, p.refersTo);
    LongBack(src, j + 4, p.win);
    ByteBack(src, j + 12, KindCode(p.kind));
  }

  lemma ParameterBack(src: seq<byte>, i: nat, c: ComplexParameter)
    requires At(src, i, EncEntry(ParameterEntry(c))) && CleanEntry(ParameterEntry(c))
    ensures ParseParameter(src, i) == Parsed(ParameterEntry(c), i + |EncEntry(ParameterEntry(c))|)
  {
    hide At, ParseTree, EncTree, CleanTree;
    var head := [OpCode(c.op), StateCode(c.sType), TypeCode(c.vType)];
    AtSplit(src, i, head + EncTree(c.left), EncTree(c.right));
    AtSplit(src, i, head, EncTree(c.left));
    ThreeBytesBack(src, i, OpCode(c.op), StateCode(c.sType), TypeCode(c.vType));
    TreeBack(src, i + 3, c.left);
    TreeBack(src, i + 3 + |EncTree(c.left)|, c.right);
  }

  lemma ThreeBytesBack(src: seq<byte>, i: nat, a: byte, b: byte, c: byte)
    requires At(src, i, [a, b, c])
    ensures ParseByte(src, i) == Parsed(a, i + 1) && ParseByte(src, i + 1) == Parsed(b, i + 2) && ParseByte(src, i + 2) == Parsed(c, i + 3)
  {
    var s := src[i..i + 3];
    assert s[0] == a && s[1] == b && s[2] == c;
  }

  lemma AggregateBack(src: seq<byte>, i: nat, a: Aggregate)
    requires At(src, i, EncEntry(AggregateEntry(a))) && CleanEntry(AggregateEntry(a))
    ensures ParseAggregate(src, i) == Parsed(AggregateEntry(a), i + |EncEntry(AggregateEntry(a))|)
  {
    hide At, ParseInt, EncInt, EncLong, ParseBetween, ParseHead, EncCollection, ParseString, EncString;
    var head := EncInt(a.eventType) + EncCollection(ConstraintEls(a.constraints));
    var lower, time, upper := EncInt(a.lowerId), EncLong(a.lowerTime), EncInt(a.upperId);
    AtSplit(src, i, head + lower + time + upper + [FunCode(a.fun)], EncString(a.name));
    AtSplit(src, i, head + lower + time + upper, [FunCode(a.fun)]);
    AtSplit(src, i, head + lower + time, upper);
    AtSplit(src, i, head + lower, time);
    AtSplit(src, i, head, lower);
    HeadBack(src, i, a.eventType, a.constraints);
    var j := i + |head|;
    BetweenBack(src, j, a.lowerId, a.lowerTime, a.upperId);
    ByteBack(src, j + 16, FunCode(a.fun));
    StringBack(src, j + 17, a.name);
  }

  lemma NegationBack(src: seq<byte>, i: nat, n: Negation)
    requires At(src, i, EncEntry(NegationEntry(n))) && CleanEntry(NegationEntry(n))
    ensures ParseNegation(src, i) == Parsed(NegationEntry(n), i + |EncEntry(NegationEntry(n))|)
  {
    hide At, EncInt, EncLong, ParseBetween, ParseHead, EncCollection;
    var head := EncInt(n.eventType) + EncCollection(ConstraintEls(n.constraints));
    var lower, time, upper := EncInt(n.lowerId), EncLong(n.lowerTime), EncInt(n.upperId);
    AtSplit(src, i, head + lower + time, upper);
    AtSplit(src, i, head + lower, time);
    AtSplit(src, i, head, lower);
    HeadBack(src, i, n.eventType, n.constraints);
    BetweenBack(src, i + |head|, n.lowerId, n.lowerTime, n.upperId);
  }

  lemma EntryBack(src: seq<byte>, i: nat, e: Entry)
    requires At(src, i, EncEntry(e)) && CleanEntry(e)
    ensures ParseEntry(e.Kind(), src, i) == Parsed(e, i + |EncEntry(e)|)
  {
    hide At, EncEntry, ParsePredicate, ParseParameter, ParseAggregate, ParseNegation, CleanEntry;
    match e
    case PredicateEntry(p) => PredicateBack(src, i, p);
    case ParameterEntry(c) => ParameterBack(src, i, c);
    case AggregateEntry(a) => AggregateBack(src, i, a);
    case NegationEntry(n) => NegationBack(src, i, n);
  }

  function Restricted<V>(m: map<int32, V>, keys: seq<int32>): map<int32, V> {
    map k | k in m && k in keys :: m[k]
  }

  lemma DistinctTail(keys: seq<int32>)
    requires keys != [] && Distinct(keys)
    ensures Distinct(keys[1..]) && keys[0] !in keys[1..]
  {
    assert forall a :: 0 <= a < |keys[1..]| ==> keys[1..][a] == keys[a + 1];
  }

  lemma RestrictedStep<V>(m: map<int32, V>, keys: seq<int32>, done: map<int32, V>)
    requires keys != [] && keys[0] in m && keys[0] !in keys[1..]
    ensures done[keys[0] := m[keys[0]]] + Restricted(m, keys[1..]) == done + Restricted(m, keys)
  {
    assert keys == [keys[0]] + keys[1..];
  }

  /** Whatever order the keys were written in, each is read once and nothing is lost. */
  lemma KeyedBack(src: seq<byte>, i: nat, k: int32, e: Entry)
    requires At(src, i, EncInt(k) + EncEntry(e)) && CleanEntry(e)
    ensures ParseInt(src, i) == Parsed(k, i + 4)
    ensures ParseEntry(e.Kind(), src, i + 4) == Parsed(e, i + |EncInt(k) + EncEntry(e)|)
  {
    hide At, EncInt, EncEntry, ParseInt, ParseEntry, CleanEntry;
    AtSplit(src, i, EncInt(k), EncEntry(e));
    IntBack(src, i, k);
    EntryBack(src, i + 4, e);
  }

  lemma {:induction false} EntriesBack(kind: EntryKind, src: seq<byte>, i: nat, m: map<int32, Entry>, keys: seq<int32>, done: map<int32, Entry>)
    requires (forall k :: k in keys ==> k in m && k !in done) && Distinct(keys)
    requires At(src, i, EncEntries(m, keys)) && CleanTable(m, kind) && CleanTable(done, kind)
    ensures ParseEntries(kind, src, i, |keys|, done) == Parsed(done + Restricted(m, keys), i + |EncEntries(m, keys)|)
    decreases |keys|
  {
    hide At, EncInt, EncEntry, ParseInt, ParseEntry, CleanEntry, Restricted, Distinct;
    if keys == [] {
      NothingRestricted(m, done);
    } else {
      var k, more := keys[0], keys[1..];
      AtSplit(src, i, EncInt(k) + EncEntry(m[k]), EncEntries(m, more));
      KeyedBack(src, i, k, m[k]);
      DistinctTail(keys);
      RestrictedStep(m, keys, done);
      EntriesBack(kind, src, i + 4 + |EncEntry(m[k])|, m, more, done[k := m[k]]);
    }
  }

  lemma NothingRestricted(m: map<int32, Entry>, done: map<int32, Entry>)
    ensures done + Restricted(m, []) == done
  {
    assert Restricted(m, []) == map[];
  }

  lemma AllRestricted(m: map<int32, Entry>, keys: seq<int32>)
    requires IsOrder(keys, m.Keys)
    ensures map[] + Restricted(m, keys) == m
  {
    assert Restricted(m, keys) == m;
  }

  lemma {:induction false} EntriesLong(m: map<int32, Entry>, keys: seq<int32>)
    requires forall k :: k in keys ==> k in m
    ensures |keys| <= |EncEntries(m, keys)|
  {
    if keys != [] { EntriesLong(m, keys[1..]); }
  }

  lemma TableBack(kind: EntryKind, src: seq<byte>, i: nat, m: map<int32, Entry>, keys: seq<int32>)
    requires IsOrder(keys, m.Keys) && At(src, i, EncTable(m, keys)) && CleanTable(m, kind)
    ensures ParseTable(kind, src, i) == Parsed(m, i + |EncTable(m, keys)|)
  {
    hide At, EncInt, EncEntries, ParseInt, ParseEntries, CleanEntry, Restricted, Distinct;
    AtSplit(src, i, EncInt(|keys|), EncEntries(m, keys));
    EntriesLong(m, keys);
    IntBack(src, i, |keys|);
    EntriesBack(kind, src, i + 4, m, keys, map[]);
    AllRestricted(m, keys);
  }

  // ---------------------------------------------------------------- packets

  lemma TemplateBack(src: seq<byte>, i: nat, t: EventTemplate)
    requires At(src, i, EncTemplate(t)) && CleanTemplate(t)
    ensures ParseTemplate(src, i) == Parsed(t, i + |EncTemplate(t)|)
  {
    hide At, EncInt, EncCollection, ParseInt, ParseCollection;
    AtSplit(src, i, EncInt(t.eventType) + EncCollection(t.attributes), EncCollection(t.staticAttributes));
    AtSplit(src, i, EncInt(t.eventType), EncCollection(t.attributes));
    IntBack(src, i, t.eventType);
    CollectionBack(TemplateAttrKind, src, i + 4, t.attributes);
    CollectionBack(StaticAttrKind, src, i + 4 + |EncCollection(t.attributes)|, t.staticAttributes);
  }

  lemma ConsumingBack(src: seq<byte>, i: nat, s: set<int32>, order: seq<int32>)
    requires IsOrder(order, s) && At(src, i, EncCollection(IntEls(order)))
    ensures ParseConsuming(src, i) == Parsed(s, i + |EncCollection(IntEls(order))|)
  {
    hide At, EncCollection, ParseCollection;
    CollectionBack(IntKind, src, i, IntEls(order));
    forall k | k in s ensures k in IntsOf(IntEls(order)) {
      var j :| 0 <= j < |order| && order[j] == k;
      assert IntEls(order)[j] == IntEl(k);
    }
    assert IntsOf(IntEls(order)) == s;
  }

  lemma AtMiddle(pre: seq<byte>, s: seq<byte>, suf: seq<byte>)
    requires |pre + s + suf| < INT_LIMIT
    ensures At(pre + s + suf, |pre|, s)
  {
  }

  /** Main result: a rule written in any order of its keys, with anything before and after it,
      is read back to itself and up to its last byte, exactly when no name is cut short or
      overflows its buffer on the reading side. */
  lemma RuleRoundTrip(pre: seq<byte>, t: RuleTables, o: Orders, suf: seq<byte>)
    requires AreOrders(o, t) && |pre + EncRule(t, o) + suf| < INT_LIMIT
    ensures ParseRule(pre + EncRule(t, o) + suf, |pre|) == Parsed(t, |pre + EncRule(t, o)|) <==> CleanRule(t)
  {
    hide EncRule, ParseRule, CleanRule, AreOrders;
    AtMiddle(pre, EncRule(t, o), suf);
    if CleanRule(t) { CleanRuleBack(pre + EncRule(t, o) + suf, |pre|, t, o); }
  }

  lemma TablesBack(kind: EntryKind, kind': EntryKind, src: seq<byte>, i: nat, m: map<int32, Entry>, keys: seq<int32>,
                   m': map<int32, Entry>, keys': seq<int32>)
    requires IsOrder(keys, m.Keys) && IsOrder(keys', m'.Keys) && CleanTable(m, kind) && CleanTable(m', kind')
    requires At(src, i, EncTable(m, keys) + EncTable(m', keys'))
    ensures ParseTables(kind, kind', src, i) == Parsed((m, m'), i + |EncTable(m, keys) + EncTable(m', keys')|)
  {
    hide At, EncTable, ParseTable, CleanTable, IsOrder, Keyed;
    OrderIsKeyed(m, keys);
    OrderIsKeyed(m', keys');
    AtSplit(src, i, EncTable(m, keys), EncTable(m', keys'));
    TableBack(kind, src, i, m, keys);
    TableBack(kind', src, i + |EncTable(m, keys)|, m', keys');
  }

  /** The parts of a rule, one after the other. */
  lemma PartsAt(src: seq<byte>, i: nat, ab: seq<byte>, c: seq<byte>, d: seq<byte>, e: seq<byte>, f: seq<byte>)
    requires At(src, i, ab + c + d + e + f)
    ensures At(src, i, ab) && At(src, i + |ab|, c + d) && At(src, i + |ab| + |c + d|, e) && At(src, i + |ab| + |c + d| + |e|, f)
    ensures |ab + c + d + e + f| == |ab| + |c + d| + |e| + |f|
  {
    hide At;
    Cat(ab, c, d);
    AtSplit(src, i, ab + (c + d) + e, f);
    AtSplit(src, i, ab + (c + d), e);
    AtSplit(src, i, ab, c + d);
  }

  lemma CleanRuleBack(src: seq<byte>, i: nat, t: RuleTables, o: Orders)
    requires AreOrders(o, t) && At(src, i, EncRule(t, o)) && CleanRule(t)
    ensures ParseRule(src, i) == Parsed(t, i + |EncRule(t, o)|)
  {
    hide At, EncTable, EncTemplate, EncCollection, ParseTables, ParseTemplate, ParseConsuming, CleanTable, CleanTemplate, IsOrder, Keyed;
    OrderIsKeyed(t.predicates, o.predicates);
    OrderIsKeyed(t.parameters, o.parameters);
    OrderIsKeyed(t.aggregates, o.aggregates);
    OrderIsKeyed(t.negations, o.negations);
    var ab := EncTable(t.predicates, o.predicates) + EncTable(t.parameters, o.parameters);
    var c, d := EncTable(t.aggregates, o.aggregates), EncTable(t.negations, o.negations);
    var e := EncTemplate(t.template);
    PartsAt(src, i, ab, c, d, e, EncCollection(IntEls(o.consuming)));
    TablesBack(PredicateKind, ParameterKind, src, i, t.predicates, o.predicates, t.parameters, o.parameters);
    TablesBack(AggregateKind, NegationKind, src, i + |ab|, t.aggregates, o.aggregates, t.negations, o.negations);
    TemplateBack(src, i + |ab| + |c + d|, t.template);
    ConsumingBack(src, i + |ab| + |c + d| + |e|, t.consuming, o.consuming);
  }

  /** Main result: a publication comes back with its time, or with the current time when it had
      none, exactly when no name is cut short or too long for the reading side. */
  lemma PubRoundTrip(pre: seq<byte>, p: Publication, suf: seq<byte>, now: nat)
    requires CleanTime(p.ts) && |pre + EncPub(p) + suf| < INT_LIMIT
    ensures ParsePub(pre + EncPub(p) + suf, |pre|, now) == Parsed(if p.ts > 0 then p else p.(ts := now), |pre + EncPub(p)|)
            <==> CleanPub(p)
  {
    hide EncPub, ParsePub, CleanTime;
    AtMiddle(pre, EncPub(p), suf);
    if CleanPub(p) { CleanPubBack(pre + EncPub(p) + suf, |pre|, p, now); }
  }

  lemma CleanPubBack(src: seq<byte>, i: nat, p: Publication, now: nat)
    requires At(src, i, EncPub(p)) && CleanPub(p)
    ensures ParsePub(src, i, now) == Parsed(if p.ts > 0 then p else p.(ts := now), i + |EncPub(p)|)
  {
    hide At, EncInt, EncLong, EncCollection, ParseInt, ParseLong, ParseCollection, CleanTime;
    AtSplit(src, i, EncInt(p.eventType) + EncLong(p.ts), EncCollection(p.attributes));
    AtSplit(src, i, EncInt(p.eventType), EncLong(p.ts));
    IntBack(src, i, p.eventType);
    LongBack(src, i + 4, p.ts);
    CollectionBack(AttrKind, src, i + 12, p.attributes);
  }
}
