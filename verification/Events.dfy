/** Values shared by every component: time, typed values, events and operation trees. */
module Events {
  type byte = x: int | 0 <= x < 256
  type int32 = x: int | -0x8000_0000 <= x < 0x8000_0000
  type Name = seq<byte>

  datatype ValType = INT | FLOAT | BOOL | STRING

  /** A typed value; a float is its raw 32-bit pattern. */
  datatype Value =
    | IntVal(i: int32)
    | FloatVal(bits: int32)
    | BoolVal(b: bool)
    | StringVal(s: Name)
  {
    function Type(): ValType {
      match this
      case IntVal(_) => INT
      case FloatVal(_) => FLOAT
      case BoolVal(_) => BOOL
      case StringVal(_) => STRING
    }
  }

  datatype Attribute = Attribute(name: Name, value: Value)

  /** The first attribute carrying the name. */
  function Lookup(attrs: seq<Attribute>, name: Name): (k: int)
    ensures -1 <= k < |attrs|
    ensures k == -1 <==> forall j :: 0 <= j < |attrs| ==> attrs[j].name != name
    ensures k >= 0 ==> attrs[k].name == name && forall j :: 0 <= j < k ==> attrs[j].name != name
  {
    if attrs == [] then -1
    else if attrs[0].name == name then 0
    else
      var k := Lookup(attrs[1..], name);
      assert forall j :: 0 < j < |attrs| ==> attrs[j] == attrs[1..][j - 1];
      if k == -1 then -1 else k + 1
  }

  /** What a packet holds under a name. */
  datatype Reading = Missing | Found(value: Value)

  function ReadAttribute(attrs: seq<Attribute>, name: Name): Reading {
    var k := Lookup(attrs, name);
    if k == -1 then Missing else Found(attrs[k].value)
  }

  /** A publication. The identifier stands for the packet's address. */
  datatype PubPkt = PubPkt(id: nat, eventType: int32, ts: nat, attributes: seq<Attribute>)

  /** Subtraction of time stamps stops at zero. */
  function Minus(a: nat, b: nat): nat {
    if a > b then a - b else 0
  }

  function Max(a: int, b: int): int {
    if a < b then b else a
  }

  datatype StateType = STATE | NEG | AGG
  datatype TreeOp = ADD | SUB | MUL | DIV | AND | OR

  datatype ValueRef =
    | PktRef(index: int32, sType: StateType, name: Name)
    | Static(value: Value)

  datatype OpTree =
    | Leaf(valType: ValType, ref: ValueRef)
    | Inner(valType: ValType, left: OpTree, right: OpTree, op: TreeOp)

  predicate Sorted(col: seq<PubPkt>) {
    forall a, b :: 0 <= a < b < |col| ==> col[a].ts <= col[b].ts
  }

  predicate Distinct<T(==)>(col: seq<T>) {
    forall a, b :: 0 <= a < b < |col| ==> col[a] != col[b]
  }

  // ---------------------------------------------------------------- sequences

  lemma Cat<T>(a: seq<T>, b: seq<T>, c: seq<T>)
    ensures a + b + c == a + (b + c)
  {
  }

  lemma TailOfSum<T>(a: seq<T>, b: seq<T>)
    requires a != []
    ensures (a + b)[0] == a[0] && (a + b)[1..] == a[1..] + b
  {
  }

  lemma NoneBefore<T>(s: seq<T>)
    ensures [] + s == s && s + [] == s
  {
  }

  lemma HeadTail<T>(s: seq<T>)
    requires s != []
    ensures s == [s[0]] + s[1..]
  {
  }

  lemma Halves<T>(s: seq<T>, n: nat)
    requires n <= |s|
    ensures s == s[..n] + s[n..]
  {
  }

  lemma Middle<T>(s: seq<T>, a: nat, b: nat)
    requires a <= b <= |s|
    ensures s[a..] == s[a..b] + s[b..]
  {
  }
}
