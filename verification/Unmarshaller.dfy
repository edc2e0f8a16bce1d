/** Reading rules and publications: each decoder advances the index past what it read.
    A decoder may be called where the bytes it needs are there and fit their buffers. */
module Unmarshaller {
  import opened Events
  import opened Rules
  import opened WireFormat

  lemma {:induction false} UnsignedSnoc(s: seq<byte>, b: byte)
    ensures Unsigned(s + [b]) == Unsigned(s) * 256 + b
  {
    assert (s + [b])[..|s|] == s;
  }

  lemma UnsignedFour(s: seq<byte>)
    requires |s| == 4
    ensures Unsigned(s) == (((s[0] as int) * 256 + s[1]) * 256 + s[2]) * 256 + s[3]
  {
    hide Unsigned;
    assert s == [] + [s[0]] + [s[1]] + [s[2]] + [s[3]];
    Empty();
    UnsignedSnoc([], s[0]);
    UnsignedSnoc([] + [s[0]], s[1]);
    UnsignedSnoc([] + [s[0]] + [s[1]], s[2]);
    UnsignedSnoc([] + [s[0]] + [s[1]] + [s[2]], s[3]);
  }

  lemma Empty()
    ensures Unsigned([]) == 0
  {
  }

  lemma UnsignedEight(s: seq<byte>)
    requires |s| == 8
    ensures Unsigned(s) == Unsigned(s[..4]) * 0x1_0000_0000 + Unsigned(s[4..])
  {
    hide Unsigned;
    var h := s[..4];
    UnsignedFour(s[4..]);
    assert s == h + [s[4]] + [s[5]] + [s[6]] + [s[7]];
    UnsignedSnoc(h, s[4]);
    UnsignedSnoc(h + [s[4]], s[5]);
    UnsignedSnoc(h + [s[4]] + [s[5]], s[6]);
    UnsignedSnoc(h + [s[4]] + [s[5]] + [s[6]], s[7]);
  }

  method DecodeByte(source: seq<byte>, index: nat) returns (b: byte, next: nat)
    requires ParseByte(source, index).Parsed?
    ensures Parsed(b, next) == ParseByte(source, index)
  {
    b, next := source[index], index + 1;
  }

  method DecodeInt(source: seq<byte>, index: nat) returns (v: int32, next: nat)
    requires ParseInt(source, index).Parsed?
    ensures Parsed(v, next) == ParseInt(source, index)
  {
    hide Unsigned;
    UnsignedFour(source[index..index + 4]);
    var u := (source[index] as int) * 0x100_0000 + (source[index + 1] as int) * 0x1_0000 + (source[index + 2] as int) * 0x100 + source[index + 3];
    v := if u >= INT_LIMIT then u - 0x1_0000_0000 else u;
    next := index + 4;
  }

  method DecodeLong(source: seq<byte>, index: nat) returns (v: nat, next: nat)
    requires ParseLong(source, index).Parsed?
    ensures Parsed(v, next) == ParseLong(source, index)
  {
    hide Unsigned;
    var s := source[index..index + 8];
    UnsignedEight(s);
    UnsignedFour(s[..4]);
    UnsignedFour(s[4..]);
    v := (source[index] as int) * 0x100_0000_0000_0000 + (source[index + 1] as int) * 0x1_0000_0000_0000
      + (source[index + 2] as int) * 0x100_0000_0000 + (source[index + 3] as int) * 0x1_0000_0000
      + (source[index + 4] as int) * 0x100_0000 + (source[index + 5] as int) * 0x1_0000 + (source[index + 6] as int) * 0x100 + source[index + 7];
    next := index + 8;
  }

  /** Copies the characters; a C string ends at the first NUL among them. */
  method DecodeString(source: seq<byte>, index: nat) returns (s: Name, next: nat)
    requires ParseString(source, index).Parsed?
    ensures Parsed(s, next) == ParseString(source, index)
  {
    hide ParseInt;
    var length, j := DecodeInt(source, index);
    var charArray: seq<byte> := [];
    var i := 0;
    while i < length
      invariant 0 <= i <= length && charArray == source[j..j + i]
    {
      charArray := charArray + [source[j + i]];
      i := i + 1;
    }
    s, next := CString(charArray), j + length;
  }

  method DecodeName(source: seq<byte>, index: nat, limit: nat) returns (s: Name, next: nat)
    requires ParseName(source, index, limit).Parsed?
    ensures Parsed(s, next) == ParseName(source, index, limit)
  {
    hide ParseString;
    s, next := DecodeString(source, index);
  }

  method DecodeValue(source: seq<byte>, index: nat, limit: nat) returns (v: Value, next: nat)
    requires ParseValue(source, index, limit).Parsed?
    ensures Parsed(v, next) == ParseValue(source, index, limit)
  {
    hide ParseByte, ParseInt, ParseName, TypeOf;
    var t, i := DecodeByte(source, index);
    match TypeOf(t) {
      case INT =>
        var x, j := DecodeInt(source, i);
        v, next := IntVal(x), j;
      case FLOAT =>
        var x, j := DecodeInt(source, i);
        v, next := FloatVal(x), j;
      case BOOL =>
        var b, j := DecodeByte(source, i);
        v, next := BoolVal(b == 1), j;
      case STRING =>
        var s, j := DecodeName(source, i, limit);
        v, next := StringVal(s), j;
    }
  }

  /** A nameless aggregate reference and one with the empty name are the same reference. */
  method DecodeRef(source: seq<byte>, index: nat) returns (r: ValueRef, next: nat)
    requires ParseRef(source, index).Parsed?
    ensures Parsed(r, next) == ParseRef(source, index)
  {
    hide ParseByte, ParseInt, ParseString, ParseValue, StateOf, CleanTree;
    var t, i := DecodeByte(source, index);
    if t == 0 {
      var x, st, name;
      x, i := DecodeInt(source, i);
      st, i := DecodeByte(source, i);
      name, i := DecodeString(source, i);
      if StateOf(st) == AGG && |name| == 0 {
        r := PktRef(x, AGG, []);
      } else {
        r := PktRef(x, StateOf(st), name);
      }
      next := i;
    } else {
      var v;
      v, i := DecodeValue(source, i, STRING_VAL_LEN);
      r, next := Static(v), i;
    }
  }

  method DecodeTree(source: seq<byte>, index: nat) returns (t: OpTree, next: nat)
    requires ParseTree(source, index).Parsed?
    ensures Parsed(t, next) == ParseTree(source, index)
    decreases |source| - index
  {
    hide ParseByte, ParseRef, TypeOf, TreeOpOf, CleanTree;
    var kind, i := DecodeByte(source, index);
    var vt;
    vt, i := DecodeByte(source, i);
    if kind == 0 {
      var ref;
      ref, i := DecodeRef(source, i);
      t, next := Leaf(TypeOf(vt), ref), i;
    } else {
      var left, right, op;
      left, i := DecodeTree(source, i);
      right, i := DecodeTree(source, i);
      op, i := DecodeByte(source, i);
      t, next := Inner(TypeOf(vt), left, right, TreeOpOf(op)), i;
    }
  }

  method DecodeAttribute(source: seq<byte>, index: nat) returns (a: Attribute, next: nat)
    requires ParseAttribute(source, index).Parsed?
    ensures Parsed(a, next) == ParseAttribute(source, index)
  {
    hide ParseName, ParseValue;
    var name, i := DecodeName(source, index, NAME_LEN - 1);
    var v, j := DecodeValue(source, i, STRING_VAL_LEN - 1);
    a, next := Attribute(name, v), j;
  }

  method DecodeElement(kind: ElementKind, source: seq<byte>, index: nat) returns (e: Element, next: nat)
    requires ParseElement(kind, source, index).Parsed?
    ensures Parsed(e, next) == ParseElement(kind, source, index)
  {
    hide ParseByte, ParseInt, ParseName, ParseValue, ParseString, ParseTree, ParseAttribute, OpOf, CleanTree;
    var i;
    match kind {
      case IntKind =>
        var x;
        x, next := DecodeInt(source, index);
        e := IntEl(x);
      case ConstraintKind =>
        var name, op, v;
        name, i := DecodeName(source, index, NAME_LEN);
        op, i := DecodeByte(source, i);
        v, next := DecodeValue(source, i, STRING_VAL_LEN);
        e := ConstraintEl(Constraint(name, OpOf(op), v));
      case AttrKind =>
        var a;
        a, next := DecodeAttribute(source, index);
        e := AttrEl(a);
      case TemplateAttrKind =>
        var name, tree;
        name, i := DecodeString(source, index);
        tree, next := DecodeTree(source, i);
        e := TemplateAttrEl(name, tree);
      case StaticAttrKind =>
        var a;
        a, next := DecodeAttribute(source, index);
        e := StaticAttrEl(a);
    }
  }

  method DecodeCollection(kind: ElementKind, source: seq<byte>, index: nat) returns (es: seq<Element>, next: nat)
    requires ParseCollection(kind, source, index).Parsed?
    ensures Parsed(es, next) == ParseCollection(kind, source, index)
  {
    hide ParseInt, ParseElement, CleanElement;
    var n: int, i: nat := DecodeInt(source, index);
    es := [];
    ghost var start := i;
    var k: int := 0;
    while k < n
      invariant 0 <= k && (n >= 0 ==> k <= n) && i <= |source| && CleanAll(es, kind)
      invariant ParseAll(kind, source, i, n - k, es) == ParseAll(kind, source, start, n, [])
    {
      var e;
      e, i := DecodeElement(kind, source, i);
      es := es + [e];
      k := k + 1;
    }
    next := i;
  }

  method DecodeHead(source: seq<byte>, index: nat) returns (ty: int32, cs: seq<Constraint>, next: nat)
    requires ParseHead(source, index).Parsed?
    ensures Parsed((ty, cs), next) == ParseHead(source, index)
  {
    hide ParseInt, ParseCollection;
    var i, es;
    ty, i := DecodeInt(source, index);
    es, next := DecodeCollection(ConstraintKind, source, i);
    cs := ConstraintsOf(es);
  }

  method DecodeBetween(source: seq<byte>, index: nat) returns (lower: int32, time: nat, upper: int32, next: nat)
    requires ParseBetween(source, index).Parsed?
    ensures Parsed((lower, time, upper), next) == ParseBetween(source, index)
  {
    hide ParseInt, ParseLong;
    var i;
    lower, i := DecodeInt(source, index);
    time, i := DecodeLong(source, i);
    upper, next := DecodeInt(source, i);
  }

  method DecodePredicate(source: seq<byte>, index: nat) returns (e: Entry, next: nat)
    requires ParsePredicate(source, index).Parsed?
    ensures Parsed(e, next) == ParsePredicate(source, index)
  {
    hide ParseInt, ParseLong, ParseHead, ParseByte, KindOf;
    var ty, cs, i := DecodeHead(source, index);
    var refersTo, win, kind;
    refersTo, i := DecodeInt(source, i);
    win, i := DecodeLong(source, i);
    kind, next := DecodeByte(source, i);
    e := PredicateEntry(Predicate(ty, cs, refersTo, win, KindOf(kind)));
  }

  method DecodeParameter(source: seq<byte>, index: nat) returns (e: Entry, next: nat)
    requires ParseParameter(source, index).Parsed?
    ensures Parsed(e, next) == ParseParameter(source, index)
  {
    hide ParseByte, ParseTree, OpOf, StateOf, TypeOf, CleanTree;
    var op, st, vt, left, right;
    var i := index;
    op, i := DecodeByte(source, i);
    st, i := DecodeByte(source, i);
    vt, i := DecodeByte(source, i);
    left, i := DecodeTree(source, i);
    right, next := DecodeTree(source, i);
    e := ParameterEntry(ComplexParameter(OpOf(op), StateOf(st), TypeOf(vt), left, right));
  }

  method DecodeAggregate(source: seq<byte>, index: nat) returns (e: Entry, next: nat)
    requires ParseAggregate(source, index).Parsed?
    ensures Parsed(e, next) == ParseAggregate(source, index)
  {
    hide ParseHead, ParseBetween, ParseByte, ParseName, FunOf;
    var ty, cs, i := DecodeHead(source, index);
    var lower, time, upper, f, name;
    lower, time, upper, i := DecodeBetween(source, i);
    f, i := DecodeByte(source, i);
    name, next := DecodeName(source, i, NAME_LEN);
    e := AggregateEntry(Aggregate(ty, cs, lower, time, upper, FunOf(f), name));
  }

  method DecodeNegation(source: seq<byte>, index: nat) returns (e: Entry, next: nat)
    requires ParseNegation(source, index).Parsed?
    ensures Parsed(e, next) == ParseNegation(source, index)
  {
    hide ParseHead, ParseBetween;
    var ty, cs, i := DecodeHead(source, index);
    var lower, time, upper;
    lower, time, upper, next := DecodeBetween(source, i);
    e := NegationEntry(Negation(ty, cs, lower, time, upper));
  }

  method DecodeEntry(kind: EntryKind, source: seq<byte>, index: nat) returns (e: Entry, next: nat)
    requires ParseEntry(kind, source, index).Parsed?
    ensures Parsed(e, next) == ParseEntry(kind, source, index)
  {
    hide ParsePredicate, ParseParameter, ParseAggregate, ParseNegation, CleanEntry;
    match kind {
      case PredicateKind => e, next := DecodePredicate(source, index);
      case ParameterKind => e, next := DecodeParameter(source, index);
      case AggregateKind => e, next := DecodeAggregate(source, index);
      case NegationKind => e, next := DecodeNegation(source, index);
    }
  }

  /** A keyed table: the key and value of each entry, inserted in a map. */
  method DecodeTable(kind: EntryKind, source: seq<byte>, index: nat) returns (m: map<int32, Entry>, next: nat)
    requires ParseTable(kind, source, index).Parsed?
    ensures Parsed(m, next) == ParseTable(kind, source, index)
  {
    hide ParseInt, ParseEntry, CleanEntry;
    var n: int, i: nat := DecodeInt(source, index);
    m := map[];
    ghost var start := i;
    var k: int := 0;
    while k < n
      invariant 0 <= k && (n >= 0 ==> k <= n) && i <= |source| && CleanTable(m, kind)
      invariant ParseEntries(kind, source, i, n - k, m) == ParseEntries(kind, source, start, n, map[])
    {
      var key, value;
      key, i := DecodeInt(source, i);
      value, i := DecodeEntry(kind, source, i);
      m := if key in m then m else m[key := value];
      k := k + 1;
    }
    next := i;
  }

  method DecodeTemplate(source: seq<byte>, index: nat) returns (t: EventTemplate, next: nat)
    requires ParseTemplate(source, index).Parsed?
    ensures Parsed(t, next) == ParseTemplate(source, index)
  {
    hide ParseInt, ParseCollection, CleanAll;
    var ty, i := DecodeInt(source, index);
    var attrs, statics;
    attrs, i := DecodeCollection(TemplateAttrKind, source, i);
    statics, next := DecodeCollection(StaticAttrKind, source, i);
    t := EventTemplate(ty, attrs, statics);
  }

  method DecodeConsuming(source: seq<byte>, index: nat) returns (s: set<int32>, next: nat)
    requires ParseConsuming(source, index).Parsed?
    ensures Parsed(s, next) == ParseConsuming(source, index)
  {
    hide ParseCollection;
    var es;
    es, next := DecodeCollection(IntKind, source, index);
    s := {};
    var k := 0;
    while k < |es|
      invariant 0 <= k <= |es| && forall e :: e in es ==> e.IntEl?
      invariant s == set e | e in es[..k] :: e.i
    {
      assert es[..k + 1] == es[..k] + [es[k]];
      s := s + {es[k].i};
      k := k + 1;
    }
    assert es[..k] == es;
  }

  /** The tables of a rule packet. */
  method DecodeTables(source: seq<byte>, index: nat) returns (t: RuleTables, next: nat)
    requires ParseRule(source, index).Parsed?
    ensures Parsed(t, next) == ParseRule(source, index)
  {
    hide ParseTable, ParseTemplate, ParseConsuming, CleanTable, CleanTemplate;
    var predicates, parameters, aggregates, negations, template, consuming;
    var i := index;
    predicates, i := DecodeTable(PredicateKind, source, i);
    parameters, i := DecodeTable(ParameterKind, source, i);
    aggregates, i := DecodeTable(AggregateKind, source, i);
    negations, i := DecodeTable(NegationKind, source, i);
    template, i := DecodeTemplate(source, i);
    consuming, next := DecodeConsuming(source, i);
    t := RuleTables(predicates, parameters, aggregates, negations, template, consuming);
  }

  method DecodePubPkt(source: seq<byte>, index: nat, now: nat) returns (p: Publication, next: nat)
    requires ParsePub(source, index, now).Parsed?
    ensures Parsed(p, next) == ParsePub(source, index, now)
  {
    hide ParseInt, ParseLong, ParseCollection, CleanAll;
    var ty, i := DecodeInt(source, index);
    var ts, attrs;
    ts, i := DecodeLong(source, i);
    attrs, next := DecodeCollection(AttrKind, source, i);
    p := Publication(ty, ts, attrs);
    if ts == 0 { p := p.(ts := now); }
  }
}
