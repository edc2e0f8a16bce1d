/** Writing rules and publications into byte arrays of exactly the right size. */
module Marshaller {
  import opened Events
  import opened Rules
  import opened WireFormat

  const PUB_PKT: byte := 0
  const RULE_PKT: byte := 1

  lemma FourBytes(x: int)
    ensures EncInt(x) == [x / 0x100_0000 % 256, x / 0x1_0000 % 256, x / 0x100 % 256, x % 256]
  {
    var a, b, c := x / 256, x / 256 / 256, x / 256 / 256 / 256;
    assert b == x / 0x1_0000 && c == x / 0x100_0000;
    assert Bytes(c, 1) == Bytes(c / 256, 0) + [c % 256];
    assert Bytes(b, 2) == Bytes(c, 1) + [b % 256];
    assert Bytes(a, 3) == Bytes(b, 2) + [a % 256];
    assert Bytes(x, 4) == Bytes(a, 3) + [x % 256];
  }

  lemma TwoInts(x: int)
    ensures EncLong(x) == EncInt(x / 0x1_0000_0000) + EncInt(x)
  {
    var a, b, c, d := x / 0x100, x / 0x1_0000, x / 0x100_0000, x / 0x1_0000_0000;
    assert b == a / 256 && c == b / 256 && d == c / 256;
    FourBytes(x);
    assert Bytes(c, 5) == Bytes(d, 4) + [c % 256];
    assert Bytes(b, 6) == Bytes(c, 5) + [b % 256];
    assert Bytes(a, 7) == Bytes(b, 6) + [a % 256];
    assert Bytes(x, 8) == Bytes(a, 7) + [x % 256];
  }

  lemma EightBytes(x: int)
    ensures EncLong(x) == [x / 0x100_0000_0000_0000 % 256, x / 0x1_0000_0000_0000 % 256, x / 0x100_0000_0000 % 256,
                            x / 0x1_0000_0000 % 256, x / 0x100_0000 % 256, x / 0x1_0000 % 256, x / 0x100 % 256, x % 256]
  {
    hide Bytes, EncInt;
    TwoInts(x);
    FourBytes(x);
    FourBytes(x / 0x1_0000_0000);
    DivDiv(x, 0x100_0000);
    DivDiv(x, 0x1_0000);
    DivDiv(x, 0x100);
  }

  lemma DivDiv(x: int, p: nat)
    requires p > 0
    ensures x / 0x1_0000_0000 / p == x / (0x1_0000_0000 * p)
  {
    var y := x / 0x1_0000_0000;
    var m := y % p * 0x1_0000_0000 + x % 0x1_0000_0000;
    var k := x / (0x1_0000_0000 * p) - y / p;
    assert y == (y / p) * p + y % p;
    assert (y / p) * (0x1_0000_0000 * p) == 0x1_0000_0000 * ((y / p) * p);
    assert k * (0x1_0000_0000 * p) == m - x % (0x1_0000_0000 * p);
    Spread(k, 0x1_0000_0000 * p);
  }

  // ---------------------------------------------------------------- primitives

  method EncodeByte(source: byte, dest: array<byte>, startIndex: nat) returns (next: nat)
    requires startIndex + 1 <= dest.Length
    modifies dest
    ensures next == startIndex + 1 && dest[..next] == old(dest[..startIndex]) + [source]
  {
    dest[startIndex] := source;
    next := startIndex + 1;
  }

  method EncodeInt(source: int, dest: array<byte>, startIndex: nat) returns (next: nat)
    requires startIndex + 4 <= dest.Length
    modifies dest
    ensures next == startIndex + 4 && dest[..next] == old(dest[..startIndex]) + EncInt(source)
  {
    hide EncInt;
    FourBytes(source);
    dest[startIndex] := source / 0x100_0000 % 256;
    dest[startIndex + 1] := source / 0x1_0000 % 256;
    dest[startIndex + 2] := source / 0x100 % 256;
    dest[startIndex + 3] := source % 256;
    next := startIndex + 4;
  }

  method EncodeLong(source: int, dest: array<byte>, startIndex: nat) returns (next: nat)
    requires startIndex + 8 <= dest.Length
    modifies dest
    ensures next == startIndex + 8 && dest[..next] == old(dest[..startIndex]) + EncLong(source)
  {
    hide EncLong;
    EightBytes(source);
    dest[startIndex] := source / 0x100_0000_0000_0000 % 256;
    dest[startIndex + 1] := source / 0x1_0000_0000_0000 % 256;
    dest[startIndex + 2] := source / 0x100_0000_0000 % 256;
    dest[startIndex + 3] := source / 0x1_0000_0000 % 256;
    dest[startIndex + 4] := source / 0x100_0000 % 256;
    dest[startIndex + 5] := source / 0x1_0000 % 256;
    dest[startIndex + 6] := source / 0x100 % 256;
    dest[startIndex + 7] := source % 256;
    next := startIndex + 8;
  }

  method EncodeString(source: Name, dest: array<byte>, startIndex: nat) returns (next: nat)
    requires startIndex + |EncString(source)| <= dest.Length
    modifies dest
    ensures next == startIndex + |EncString(source)| && dest[..next] == old(dest[..startIndex]) + EncString(source)
  {
    hide EncInt;
    var length := |source|;
    next := EncodeInt(length, dest, startIndex);
    var i := 0;
    while i < length
      invariant 0 <= i <= length
      invariant dest[..next + i] == old(dest[..startIndex]) + EncInt(length) + source[..i]
    {
      dest[next + i] := source[i];
      assert source[..i + 1] == source[..i] + [source[i]];
      i := i + 1;
    }
    assert source[..i] == source;
    assert old(dest[..startIndex]) + EncInt(length) + source == old(dest[..startIndex]) + EncString(source);
    next := next + length;
  }

  // ---------------------------------------------------------------- values and trees

  method NumBytesValue(v: Value) returns (size: nat)
    ensures size == |EncValue(v)|
  {
    hide EncInt;
    size := 1;
    match v {
      case IntVal(_) => size := size + 4;
      case FloatVal(_) => size := size + 4;
      case BoolVal(_) => size := size + 1;
      case StringVal(s) => size := size + |s| + 4;
    }
  }

  method EncodeValue(v: Value, dest: array<byte>, startIndex: nat) returns (next: nat)
    requires startIndex + |EncValue(v)| <= dest.Length
    modifies dest
    ensures next == startIndex + |EncValue(v)| && dest[..next] == old(dest[..startIndex]) + EncValue(v)
  {
    hide EncInt, EncString, TypeCode;
    ghost var base := dest[..startIndex];
    next := EncodeByte(TypeCode(v.Type()), dest, startIndex);
    match v {
      case IntVal(x) => next := EncodeInt(x, dest, next);
      case FloatVal(x) => next := EncodeInt(x, dest, next);
      case BoolVal(b) => next := EncodeByte(if b then 1 else 0, dest, next);
      case StringVal(s) => next := EncodeString(s, dest, next);
    }
    Cat(base, [TypeCode(v.Type())], EncPayload(v));
  }

  method NumBytesRef(r: ValueRef) returns (size: nat)
    ensures size == |EncRef(r)|
  {
    hide EncInt, EncString, EncValue;
    size := 1;
    match r {
      case PktRef(_, _, name) =>
        size := size + 4;
        size := size + 1;
        size := size + |name| + 4;
      case Static(v) =>
        var n := NumBytesValue(v);
        size := size + n;
    }
  }

  method EncodeRef(r: ValueRef, dest: array<byte>, startIndex: nat) returns (next: nat)
    requires startIndex + |EncRef(r)| <= dest.Length
    modifies dest
    ensures next == startIndex + |EncRef(r)| && dest[..next] == old(dest[..startIndex]) + EncRef(r)
  {
    hide EncInt, EncString, EncValue, StateCode;
    ghost var base := dest[..startIndex];
    match r {
      case PktRef(index, sType, name) =>
        next := EncodeByte(0, dest, startIndex);
        next := EncodeInt(index, dest, next);
        next := EncodeByte(StateCode(sType), dest, next);
        next := EncodeString(name, dest, next);
        Cat(base, [0], EncInt(index));
        Cat(base, [0] + EncInt(index), [StateCode(sType)]);
        Cat(base, [0] + EncInt(index) + [StateCode(sType)], EncString(name));
      case Static(v) =>
        next := EncodeByte(1, dest, startIndex);
        next := EncodeValue(v, dest, next);
        Cat(base, [1], EncValue(v));
    }
  }

  method NumBytesTree(t: OpTree) returns (size: nat)
    ensures size == |EncTree(t)|
    decreases t
  {
    hide EncRef;
    size := 1;
    size := size + 1;
    match t {
      case Leaf(_, ref) =>
        var n := NumBytesRef(ref);
        size := size + n;
      case Inner(_, left, right, _) =>
        var n := NumBytesTree(left);
        size := size + n;
        n := NumBytesTree(right);
        size := size + n;
        size := size + 1;
    }
  }

  method EncodeTree(t: OpTree, dest: array<byte>, startIndex: nat) returns (next: nat)
    requires startIndex + |EncTree(t)| <= dest.Length
    modifies dest
    ensures next == startIndex + |EncTree(t)| && dest[..next] == old(dest[..startIndex]) + EncTree(t)
    decreases t
  {
    hide EncRef, TypeCode, TreeOpCode;
    ghost var base := dest[..startIndex];
    next := EncodeByte(if t.Inner? then 1 else 0, dest, startIndex);
    next := EncodeByte(TypeCode(t.valType), dest, next);
    ghost var head := [if t.Inner? then 1 else 0, TypeCode(t.valType)];
    assert dest[..next] == base + head;
    match t {
      case Leaf(_, ref) =>
        next := EncodeRef(ref, dest, next);
        Cat(base, head, EncRef(ref));
      case Inner(_, left, right, op) =>
        next := EncodeTree(left, dest, next);
        Cat(base, head, EncTree(left));
        next := EncodeTree(right, dest, next);
        Cat(base, head + EncTree(left), EncTree(right));
        next := EncodeByte(TreeOpCode(op), dest, next);
        Cat(base, head + EncTree(left) + EncTree(right), [TreeOpCode(op)]);
    }
  }

  // ---------------------------------------------------------------- collections

  method NumBytesElement(e: Element) returns (size: nat)
    ensures size == |EncElement(e)|
  {
    hide EncInt, EncString, EncValue, EncTree;
    match e {
      case IntEl(_) => size := 4;
      case ConstraintEl(c) =>
        size := |c.name| + 4;
        size := size + 1;
        var n := NumBytesValue(c.value);
        size := size + n;
      case AttrEl(a) => size := NumBytesAttribute(a);
      case TemplateAttrEl(name, value) =>
        size := |name| + 4;
        var n := NumBytesTree(value);
        size := size + n;
      case StaticAttrEl(a) => size := NumBytesAttribute(a);
    }
  }

  method NumBytesAttribute(a: Attribute) returns (size: nat)
    ensures size == |EncAttribute(a)|
  {
    hide EncString, EncValue;
    size := |a.name| + 4;
    var n := NumBytesValue(a.value);
    size := size + n;
  }

  method EncodeAttribute(a: Attribute, dest: array<byte>, startIndex: nat) returns (next: nat)
    requires startIndex + |EncAttribute(a)| <= dest.Length
    modifies dest
    ensures next == startIndex + |EncAttribute(a)| && dest[..next] == old(dest[..startIndex]) + EncAttribute(a)
  {
    hide EncString, EncValue;
    ghost var base := dest[..startIndex];
    next := EncodeString(a.name, dest, startIndex);
    next := EncodeValue(a.value, dest, next);
    Cat(base, EncString(a.name), EncValue(a.value));
  }

  method EncodeConstraint(c: Constraint, dest: array<byte>, startIndex: nat) returns (next: nat)
    requires startIndex + |EncElement(ConstraintEl(c))| <= dest.Length
    modifies dest
    ensures next == startIndex + |EncElement(ConstraintEl(c))|
    ensures dest[..next] == old(dest[..startIndex]) + EncElement(ConstraintEl(c))
  {
    hide EncString, EncValue, OpCode;
    ghost var base := dest[..startIndex];
    next := EncodeString(c.name, dest, startIndex);
    next := EncodeByte(OpCode(c.op), dest, next);
    next := EncodeValue(c.value, dest, next);
    Cat(base, EncString(c.name), [OpCode(c.op)]);
    Cat(base, EncString(c.name) + [OpCode(c.op)], EncValue(c.value));
  }

  method EncodeElement(e: Element, dest: array<byte>, startIndex: nat) returns (next: nat)
    requires startIndex + |EncElement(e)| <= dest.Length
    modifies dest
    ensures next == startIndex + |EncElement(e)| && dest[..next] == old(dest[..startIndex]) + EncElement(e)
  {
    hide EncInt, EncString, EncTree, EncAttribute;
    match e {
      case IntEl(x) => next := EncodeInt(x, dest, startIndex);
      case ConstraintEl(c) => next := EncodeConstraint(c, dest, startIndex);
      case AttrEl(a) => next := EncodeAttribute(a, dest, startIndex);
      case TemplateAttrEl(name, value) =>
        ghost var base := dest[..startIndex];
        next := EncodeString(name, dest, startIndex);
        next := EncodeTree(value, dest, next);
        Cat(base, EncString(name), EncTree(value));
      case StaticAttrEl(a) => next := EncodeAttribute(a, dest, startIndex);
    }
  }

  method NumBytesCollection(collection: seq<Element>) returns (size: nat)
    ensures size == |EncCollection(collection)|
  {
    hide EncElement, EncInt;
    size := 4;
    var k := 0;
    while k < |collection|
      invariant 0 <= k <= |collection|
      invariant size + |EncAll(collection[k..])| == |EncCollection(collection)|
    {
      assert collection[k..][1..] == collection[k + 1..];
      var n := NumBytesElement(collection[k]);
      size := size + n;
      k := k + 1;
    }
  }

  method EncodeCollection(source: seq<Element>, dest: array<byte>, startIndex: nat) returns (next: nat)
    requires startIndex + |EncCollection(source)| <= dest.Length
    modifies dest
    ensures next == startIndex + |EncCollection(source)| && dest[..next] == old(dest[..startIndex]) + EncCollection(source)
  {
    hide EncElement, EncInt;
    ghost var goal := dest[..startIndex] + EncCollection(source);
    next := EncodeInt(|source|, dest, startIndex);
    Cat(old(dest[..startIndex]), EncInt(|source|), EncAll(source));
    var k := 0;
    assert source[0..] == source;
    while k < |source|
      invariant 0 <= k <= |source| && next + |EncAll(source[k..])| == |goal|
      invariant dest[..next] + EncAll(source[k..]) == goal
    {
      assert source[k..][1..] == source[k + 1..];
      ghost var base := dest[..next];
      next := EncodeElement(source[k], dest, next);
      Cat(base, EncElement(source[k]), EncAll(source[k + 1..]));
      k := k + 1;
    }
    assert dest[..next] + [] == dest[..next];
  }

  // ---------------------------------------------------------------- keyed tables

  method NumBytesEntry(e: Entry) returns (size: nat)
    ensures size == |EncEntry(e)|
  {
    hide EncInt, EncString, EncTree, EncCollection;
    match e {
      case PredicateEntry(p) =>
        size := 4;
        var n := NumBytesCollection(ConstraintEls(p.constraints));
        size := size + n + 4 + 8 + 1;
      case ParameterEntry(c) =>
        size := 1 + 1 + 1;
        var n := NumBytesTree(c.right);
        size := size + n;
        n := NumBytesTree(c.left);
        size := size + n;
      case AggregateEntry(a) =>
        size := 4;
        var n := NumBytesCollection(ConstraintEls(a.constraints));
        size := size + n + 4 + 8 + 4 + 1 + (|a.name| + 4);
      case NegationEntry(g) =>
        size := 4;
        var n := NumBytesCollection(ConstraintEls(g.constraints));
        size := size + n + 4 + 8 + 4;
    }
  }

  method EncodePredicate(p: Predicate, dest: array<byte>, startIndex: nat) returns (next: nat)
    requires startIndex + |EncEntry(PredicateEntry(p))| <= dest.Length
    modifies dest
    ensures next == startIndex + |EncEntry(PredicateEntry(p))|
    ensures dest[..next] == old(dest[..startIndex]) + EncEntry(PredicateEntry(p))
  {
    hide EncInt, EncLong, EncCollection, KindCode;
    ghost var base := dest[..startIndex];
    next := EncodeInt(p.eventType, dest, startIndex);
    next := EncodeCollection(ConstraintEls(p.constraints), dest, next);
    ghost var head := EncInt(p.eventType) + EncCollection(ConstraintEls(p.constraints));
    Cat(base, EncInt(p.eventType), EncCollection(ConstraintEls(p.constraints)));
    next := EncodeInt(p.refersTo, dest, next);
    Cat(base, head, EncInt(p.refersTo));
    next := EncodeLong(p.win, dest, next);
    Cat(base, head + EncInt(p.refersTo), EncLong(p.win));
    next := EncodeByte(KindCode(p.kind), dest, next);
    Cat(base, head + EncInt(p.refersTo) + EncLong(p.win), [KindCode(p.kind)]);
  }

  method EncodeComplexParameter(c: ComplexParameter, dest: array<byte>, startIndex: nat) returns (next: nat)
    requires startIndex + |EncEntry(ParameterEntry(c))| <= dest.Length
    modifies dest
    ensures next == startIndex + |EncEntry(ParameterEntry(c))|
    ensures dest[..next] == old(dest[..startIndex]) + EncEntry(ParameterEntry(c))
  {
    hide EncTree, OpCode, StateCode, TypeCode;
    ghost var base := dest[..startIndex];
    next := EncodeByte(OpCode(c.op), dest, startIndex);
    next := EncodeByte(StateCode(c.sType), dest, next);
    next := EncodeByte(TypeCode(c.vType), dest, next);
    ghost var head := [OpCode(c.op), StateCode(c.sType), TypeCode(c.vType)];
    assert dest[..next] == base + head;
    next := EncodeTree(c.left, dest, next);
    Cat(base, head, EncTree(c.left));
    next := EncodeTree(c.right, dest, next);
    Cat(base, head + EncTree(c.left), EncTree(c.right));
  }

  /** The event type, constraints, states and time that aggregates and negations share. */
  method EncodeBetween(ty: int32, cs: seq<Constraint>, lower: int32, time: nat, upper: int32, dest: array<byte>, startIndex: nat)
    returns (next: nat)
    requires startIndex + |EncBetween(ty, cs, lower, time, upper)| <= dest.Length
    modifies dest
    ensures next == startIndex + |EncBetween(ty, cs, lower, time, upper)|
    ensures dest[..next] == old(dest[..startIndex]) + EncBetween(ty, cs, lower, time, upper)
  {
    hide EncInt, EncLong, EncCollection;
    ghost var base := dest[..startIndex];
    next := EncodeInt(ty, dest, startIndex);
    next := EncodeCollection(ConstraintEls(cs), dest, next);
    ghost var head := EncInt(ty) + EncCollection(ConstraintEls(cs));
    Cat(base, EncInt(ty), EncCollection(ConstraintEls(cs)));
    next := EncodeInt(lower, dest, next);
    Cat(base, head, EncInt(lower));
    next := EncodeLong(time, dest, next);
    Cat(base, head + EncInt(lower), EncLong(time));
    next := EncodeInt(upper, dest, next);
    Cat(base, head + EncInt(lower) + EncLong(time), EncInt(upper));
  }

  function EncBetween(ty: int32, cs: seq<Constraint>, lower: int32, time: nat, upper: int32): seq<byte> {
    EncInt(ty) + EncCollection(ConstraintEls(cs)) + EncInt(lower) + EncLong(time) + EncInt(upper)
  }

  method EncodeAggregate(a: Aggregate, dest: array<byte>, startIndex: nat) returns (next: nat)
    requires startIndex + |EncEntry(AggregateEntry(a))| <= dest.Length
    modifies dest
    ensures next == startIndex + |EncEntry(AggregateEntry(a))|
    ensures dest[..next] == old(dest[..startIndex]) + EncEntry(AggregateEntry(a))
  {
    hide EncInt, EncLong, EncCollection, EncString, FunCode;
    ghost var base := dest[..startIndex];
    ghost var head := EncBetween(a.eventType, a.constraints, a.lowerId, a.lowerTime, a.upperId);
    next := EncodeBetween(a.eventType, a.constraints, a.lowerId, a.lowerTime, a.upperId, dest, startIndex);
    next := EncodeByte(FunCode(a.fun), dest, next);
    Cat(base, head, [FunCode(a.fun)]);
    next := EncodeString(a.name, dest, next);
    Cat(base, head + [FunCode(a.fun)], EncString(a.name));
  }

  method EncodeEntry(e: Entry, dest: array<byte>, startIndex: nat) returns (next: nat)
    requires startIndex + |EncEntry(e)| <= dest.Length
    modifies dest
    ensures next == startIndex + |EncEntry(e)| && dest[..next] == old(dest[..startIndex]) + EncEntry(e)
  {
    match e {
      case PredicateEntry(p) => hide EncEntry; next := EncodePredicate(p, dest, startIndex);
      case ParameterEntry(c) => hide EncEntry; next := EncodeComplexParameter(c, dest, startIndex);
      case AggregateEntry(a) => hide EncEntry; next := EncodeAggregate(a, dest, startIndex);
      case NegationEntry(n) =>
        hide EncInt, EncLong, EncCollection;
        next := EncodeBetween(n.eventType, n.constraints, n.lowerId, n.lowerTime, n.upperId, dest, startIndex);
    }
  }

  /** Some of the keys, each once. */
  ghost predicate SomeKeys(keys: seq<int32>, s: set<int32>) {
    Distinct(keys) && forall k :: k in keys ==> k in s
  }

  lemma {:induction false} EntriesSnoc(m: map<int32, Entry>, keys: seq<int32>, k: int32)
    requires k in m && forall j :: j in keys ==> j in m
    ensures EncEntries(m, keys + [k]) == EncEntries(m, keys) + (EncInt(k) + EncEntry(m[k]))
  {
    hide EncInt, EncEntry;
    if keys != [] {
      EntriesSnoc(m, keys[1..], k);
      assert (keys + [k])[1..] == keys[1..] + [k];
    } else {
      assert keys + [k] == [k] && [k][1..] == [];
    }
  }

  function Without(keys: seq<int32>, j: nat): seq<int32>
    requires j < |keys|
  {
    keys[..j] + keys[j + 1..]
  }

  lemma {:induction false} EntriesWithout(m: map<int32, Entry>, keys: seq<int32>, j: nat)
    requires j < |keys| && forall k :: k in keys ==> k in m
    ensures |EncEntries(m, keys)| == |EncEntries(m, Without(keys, j))| + 4 + |EncEntry(m[keys[j]])|
    decreases keys
  {
    hide EncInt, EncEntry;
    if j == 0 {
      assert Without(keys, 0) == keys[1..];
    } else {
      EntriesWithout(m, keys[1..], j - 1);
      assert Without(keys, j)[1..] == Without(keys[1..], j - 1) && Without(keys, j)[0] == keys[0];
    }
  }

  lemma WithoutKeys(keys: seq<int32>, j: nat)
    requires j < |keys| && Distinct(keys)
    ensures Distinct(Without(keys, j)) && forall k :: k in Without(keys, j) <==> k in keys && k != keys[j]
  {
    var w := Without(keys, j);
    forall k | k in keys && k != keys[j] ensures k in w {
      var a :| 0 <= a < |keys| && keys[a] == k;
      assert w[if a < j then a else a - 1] == k;
    }
  }

  /** The size does not depend on the order, and a part is not larger than the whole. */
  lemma {:induction false} SomeEntries(m: map<int32, Entry>, part: seq<int32>, all: seq<int32>)
    requires SomeKeys(part, m.Keys) && SomeKeys(all, m.Keys) && forall k :: k in part ==> k in all
    ensures |part| <= |all| && |EncEntries(m, part)| <= |EncEntries(m, all)|
    ensures |part| == |all| ==> |EncEntries(m, part)| == |EncEntries(m, all)|
    decreases part
  {
    hide EncEntry, EncInt;
    if part != [] {
      assert part[0] in all;
      var j :| 0 <= j < |all| && all[j] == part[0];
      EntriesWithout(m, all, j);
      EntriesWithout(m, part, 0);
      WithoutKeys(all, j);
      WithoutKeys(part, 0);
      assert Without(part, 0) == part[1..];
      SomeEntries(m, part[1..], Without(all, j));
    }
  }

  lemma SameEntries(m: map<int32, Entry>, a: seq<int32>, b: seq<int32>)
    requires IsOrder(a, m.Keys) && IsOrder(b, m.Keys)
    ensures |EncEntries(m, a)| == |EncEntries(m, b)|
  {
    SomeEntries(m, a, b);
  }

  /** The size of a table, the same for every order of its keys. */
  method NumBytesTable(m: map<int32, Entry>) returns (size: nat)
    ensures forall keys :: IsOrder(keys, m.Keys) ==> size == |EncTable(m, keys)|
  {
    hide EncEntry, EncInt, EncEntries, Distinct;
    size := 4;
    var rest := m.Keys;
    ghost var keys: seq<int32> := [];
    assert Distinct(keys) by { Nil(m); }
    assert |EncEntries(m, keys)| == 0 by { Nil(m); }
    while rest != {}
      invariant rest <= m.Keys && |keys| + |rest| == |m| && Distinct(keys)
      invariant (forall k :: k in keys ==> k in m) && forall k :: k in m <==> k in keys || k in rest
      invariant forall k :: k in keys ==> k !in rest
      invariant size == 4 + |EncEntries(m, keys)|
      decreases rest
    {
      var key: int32 :| key in rest;
      size := size + 4;
      var n := NumBytesEntry(m[key]);
      size := size + n;
      EntriesSnoc(m, keys, key);
      DistinctSnoc(keys, key);
      keys, rest := keys + [key], rest - {key};
    }
    forall other | IsOrder(other, m.Keys) ensures size == |EncTable(m, other)| {
      SameEntries(m, keys, other);
    }
  }

  lemma Nil(m: map<int32, Entry>)
    ensures Distinct<int32>([]) && EncEntries(m, []) == []
  {
  }

  lemma DistinctSnoc(keys: seq<int32>, k: int32)
    requires Distinct(keys) && k !in keys
    ensures Distinct(keys + [k])
  {
  }

  /** Writes a table in some order of its keys. */
  method EncodeTable(m: map<int32, Entry>, dest: array<byte>, startIndex: nat, ghost plan: seq<int32>) returns (next: nat, ghost keys: seq<int32>)
    requires IsOrder(plan, m.Keys) && startIndex + |EncTable(m, plan)| <= dest.Length
    modifies dest
    ensures IsOrder(keys, m.Keys) && next == startIndex + |EncTable(m, keys)| == startIndex + |EncTable(m, plan)|
    ensures dest[..next] == old(dest[..startIndex]) + EncTable(m, keys)
  {
    hide EncEntry, EncInt, EncEntries, Distinct;
    ghost var base := dest[..startIndex];
    next := EncodeInt(|m|, dest, startIndex);
    var rest := m.Keys;
    keys := [];
    assert Distinct(keys) by { Nil(m); }
    assert EncEntries(m, keys) == [] by { Nil(m); }
    while rest != {}
      invariant rest <= m.Keys && |keys| + |rest| == |m| && Distinct(keys)
      invariant (forall k :: k in keys ==> k in m) && forall k :: k in m <==> k in keys || k in rest
      invariant forall k :: k in keys ==> k !in rest
      invariant next == startIndex + 4 + |EncEntries(m, keys)| <= dest.Length
      invariant dest[..next] == base + EncInt(|m|) + EncEntries(m, keys)
      decreases rest
    {
      var key: int32 :| key in rest;
      EntriesSnoc(m, keys, key);
      DistinctSnoc(keys, key);
      SomeEntries(m, keys + [key], plan);
      ghost var mid := dest[..next];
      next := EncodeInt(key, dest, next);
      next := EncodeEntry(m[key], dest, next);
      Cat(mid, EncInt(key), EncEntry(m[key]));
      Cat(base + EncInt(|m|), EncEntries(m, keys), EncInt(key) + EncEntry(m[key]));
      keys, rest := keys + [key], rest - {key};
    }
    SameEntries(m, keys, plan);
    Cat(base, EncInt(|m|), EncEntries(m, keys));
  }

  /** A set's elements in the order an iteration yields them. */
  method Iterate(s: set<int32>) returns (order: seq<int32>)
    ensures IsOrder(order, s)
  {
    hide Distinct;
    order := [];
    var rest := s;
    assert Distinct(order) by { Nil(map[]); }
    while rest != {}
      invariant rest <= s && |order| + |rest| == |s| && Distinct(order)
      invariant (forall k :: k in s <==> k in order || k in rest) && forall k :: k in order ==> k !in rest
      decreases rest
    {
      var key: int32 :| key in rest;
      DistinctSnoc(order, key);
      order, rest := order + [key], rest - {key};
    }
  }

  lemma {:induction false} IntsSize(s: seq<int32>)
    ensures |EncAll(IntEls(s))| == 4 * |s|
  {
    hide EncInt;
    if s != [] {
      IntsSize(s[1..]);
      assert IntEls(s)[1..] == IntEls(s[1..]);
    }
  }

  // ---------------------------------------------------------------- packets

  method NumBytesTemplate(t: EventTemplate) returns (size: nat)
    ensures size == |EncTemplate(t)|
  {
    hide EncInt, EncCollection;
    size := 4;
    var n := NumBytesCollection(t.attributes);
    size := size + n;
    n := NumBytesCollection(t.staticAttributes);
    size := size + n;
  }

  method EncodeTemplate(t: EventTemplate, dest: array<byte>, startIndex: nat) returns (next: nat)
    requires startIndex + |EncTemplate(t)| <= dest.Length
    modifies dest
    ensures next == startIndex + |EncTemplate(t)| && dest[..next] == old(dest[..startIndex]) + EncTemplate(t)
  {
    hide EncInt, EncCollection;
    ghost var base := dest[..startIndex];
    next := EncodeInt(t.eventType, dest, startIndex);
    next := EncodeCollection(t.attributes, dest, next);
    Cat(base, EncInt(t.eventType), EncCollection(t.attributes));
    next := EncodeCollection(t.staticAttributes, dest, next);
    Cat(base, EncInt(t.eventType) + EncCollection(t.attributes), EncCollection(t.staticAttributes));
  }

  lemma RuleSize(t: RuleTables, o: Orders)
    requires AreOrders(o, t)
    ensures |EncRule(t, o)| == |EncTable(t.predicates, o.predicates)| + |EncTable(t.parameters, o.parameters)|
              + |EncTable(t.aggregates, o.aggregates)| + |EncTable(t.negations, o.negations)| + |EncTemplate(t.template)|
              + 4 + 4 * |t.consuming|
  {
    hide EncTable, EncTemplate, EncInt, Distinct;
    IntsSize(o.consuming);
  }

  method NumBytesRule(t: RuleTables) returns (size: nat)
    ensures forall o :: AreOrders(o, t) ==> size == |EncRule(t, o)|
  {
    hide EncTable, EncTemplate, EncRule, EncCollection, IsOrder;
    size := 0;
    var p := NumBytesTable(t.predicates);
    var q := NumBytesTable(t.parameters);
    var a := NumBytesTable(t.aggregates);
    var g := NumBytesTable(t.negations);
    var e := NumBytesTemplate(t.template);
    var order := Iterate(t.consuming);
    var c := NumBytesCollection(IntEls(order));
    size := p + q + a + g + e + c;
    forall o | AreOrders(o, t) ensures size == |EncRule(t, o)| {
      RuleSize(t, o);
      ConsumingSize(t.consuming, order);
    }
  }

  lemma ConsumingSize(s: set<int32>, order: seq<int32>)
    requires IsOrder(order, s)
    ensures |EncCollection(IntEls(order))| == 4 + 4 * |s|
  {
    hide EncInt;
    IntsSize(order);
  }

  /** The four tables, in whatever orders their iterations take. */
  method EncodeTables(t: RuleTables, dest: array<byte>, startIndex: nat, ghost plan: Orders) returns (next: nat, ghost o: Orders)
    requires AreOrders(plan, t) && startIndex + |EncRule(t, plan)| <= dest.Length
    modifies dest
    ensures AreOrders(o, t) && |EncRule(t, o)| == |EncRule(t, plan)|
    ensures next == startIndex + |FourTables(t, o)| && dest[..next] == old(dest[..startIndex]) + FourTables(t, o)
  {
    hide EncTable, EncTemplate, EncRule, EncCollection, Distinct;
    RuleSize(t, plan);
    ghost var base := dest[..startIndex];
    ghost var kp, kq, ka, kg;
    next, kp := EncodeTable(t.predicates, dest, startIndex, plan.predicates);
    next, kq := EncodeTable(t.parameters, dest, next, plan.parameters);
    ghost var p, q := EncTable(t.predicates, kp), EncTable(t.parameters, kq);
    Cat(base, p, q);
    next, ka := EncodeTable(t.aggregates, dest, next, plan.aggregates);
    ghost var a := EncTable(t.aggregates, ka);
    Cat(base, p + q, a);
    next, kg := EncodeTable(t.negations, dest, next, plan.negations);
    Cat(base, p + q + a, EncTable(t.negations, kg));
    o := Orders(kp, kq, ka, kg, plan.consuming);
    RuleSize(t, o);
  }

  function FourTables(t: RuleTables, o: Orders): seq<byte>
    requires AreOrders(o, t)
  {
    EncTable(t.predicates, o.predicates) + EncTable(t.parameters, o.parameters) + EncTable(t.aggregates, o.aggregates)
    + EncTable(t.negations, o.negations)
  }

  method EncodeRuleBody(t: RuleTables, dest: array<byte>, startIndex: nat, ghost plan: Orders) returns (next: nat, ghost o: Orders)
    requires AreOrders(plan, t) && startIndex + |EncRule(t, plan)| <= dest.Length
    modifies dest
    ensures AreOrders(o, t) && next == startIndex + |EncRule(t, o)| == startIndex + |EncRule(t, plan)|
    ensures dest[..next] == old(dest[..startIndex]) + EncRule(t, o)
  {
    hide EncTable, EncTemplate, EncCollection, IsOrder;
    ghost var base := dest[..startIndex];
    next, o := EncodeTables(t, dest, startIndex, plan);
    RuleSize(t, o);
    ghost var four := FourTables(t, o);
    next := EncodeTemplate(t.template, dest, next);
    Cat(base, four, EncTemplate(t.template));
    var order := Iterate(t.consuming);
    ConsumingSize(t.consuming, order);
    next := EncodeCollection(IntEls(order), dest, next);
    Cat(base, four + EncTemplate(t.template), EncCollection(IntEls(order)));
    o := o.(consuming := order);
  }

  /** A whole rule packet, written in some order: type, length of the body, body, filling the
      array to its end. */
  method GetByteArrayOfRule(t: RuleTables) returns (dest: array<byte>)
    ensures exists o :: AreOrders(o, t) && dest[..] == [RULE_PKT] + EncInt(|EncRule(t, o)|) + EncRule(t, o)
  {
    hide EncRule, EncInt, IsOrder;
    var size := NumBytesRule(t);
    ghost var plan := SomeOrders(t);
    assert size == |EncRule(t, plan)|;
    dest := new byte[4 + 1 + size];
    var next := EncodeByte(RULE_PKT, dest, 0);
    next := EncodeInt(size, dest, next);
    ghost var o;
    next, o := EncodeRuleBody(t, dest, next, plan);
    assert dest[..] == dest[..next];
  }

  lemma SomeOrder(s: set<int32>) returns (order: seq<int32>)
    ensures IsOrder(order, s)
    decreases s
  {
    if s == {} {
      order := [];
    } else {
      var k: int32 :| k in s;
      order := SomeOrder(s - {k});
      order := order + [k];
    }
  }

  lemma SomeOrders(t: RuleTables) returns (o: Orders)
    ensures AreOrders(o, t)
  {
    hide IsOrder;
    var p := SomeOrder(t.predicates.Keys);
    var q := SomeOrder(t.parameters.Keys);
    var a := SomeOrder(t.aggregates.Keys);
    var g := SomeOrder(t.negations.Keys);
    var c := SomeOrder(t.consuming);
    o := Orders(p, q, a, g, c);
  }

  method NumBytesPub(p: Publication) returns (size: nat)
    ensures size == |EncPub(p)|
  {
    hide EncInt, EncCollection, EncLong;
    size := 4;
    size := size + 8;
    var n := NumBytesCollection(p.attributes);
    size := size + n;
  }

  /** A whole publication packet, as both the Java and the C++ side write it. */
  method GetByteArrayOfPub(p: Publication) returns (dest: array<byte>)
    ensures dest[..] == [PUB_PKT] + EncInt(|EncPub(p)|) + EncPub(p)
  {
    hide EncInt, EncCollection, EncLong;
    var size := NumBytesPub(p);
    dest := new byte[4 + 1 + size];
    var next := EncodeByte(PUB_PKT, dest, 0);
    next := EncodeInt(size, dest, next);
    ghost var base := dest[..next];
    next := EncodeInt(p.eventType, dest, next);
    next := EncodeLong(p.ts, dest, next);
    Cat(base, EncInt(p.eventType), EncLong(p.ts));
    next := EncodeCollection(p.attributes, dest, next);
    Cat(base, EncInt(p.eventType) + EncLong(p.ts), EncCollection(p.attributes));
    assert dest[..] == dest[..next];
  }
}
