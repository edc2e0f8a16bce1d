/** Operation trees written into fixed arrays, root first. */
module GpuTrees {
  import opened Events
  import opened WireFormat

  const MAX_DEPTH := 5
  const TREE_SIZE := 31

  /** A cell of the array: cleared, an operation, a constant or a reference. Only the numbers
      are stored of constants, and no name of aggregates. */
  datatype Node =
    | Empty
    | OpNode(op: TreeOp)
    | ConstNode(valueType: ValType, bits: int32)
    | RefNode(sType: StateType, refersTo: int, attrName: Name)

  function FindDepth(t: OpTree, depth: int): int {
    match t
    case Leaf(_, _) => depth
    case Inner(_, l, r, _) => Max(FindDepth(l, depth + 1), FindDepth(r, depth + 1))
  }

  function Count(t: OpTree): nat {
    match t
    case Leaf(_, _) => 1
    case Inner(_, l, r, _) => 1 + Count(l) + Count(r)
  }

  function Pow2(n: nat): (p: nat)
    ensures p > 0
  {
    if n == 0 then 1 else 2 * Pow2(n - 1)
  }

  lemma {:induction false} Pow2Grows(a: nat, b: nat)
    requires a <= b
    ensures Pow2(a) <= Pow2(b)
  {
    if a < b { Pow2Grows(a, b - 1); }
  }

  lemma {:induction false} DepthGrows(t: OpTree, depth: int)
    ensures depth <= FindDepth(t, depth)
  {
    if t.Inner? { DepthGrows(t.left, depth + 1); }
  }

  /** A tree that reaches `FindDepth` from `depth` has no more nodes than a full one. */
  lemma {:induction false} CountBound(t: OpTree, depth: int)
    ensures depth <= FindDepth(t, depth) && Count(t) <= Pow2(FindDepth(t, depth) - depth + 1) - 1
    decreases t
  {
    DepthGrows(t, depth);
    match t
    case Leaf(_, _) => assert Pow2(1) == 2 * Pow2(0);
    case Inner(_, l, r, _) =>
      CountBound(l, depth + 1);
      CountBound(r, depth + 1);
      Pow2Grows(FindDepth(l, depth + 1) - depth, FindDepth(t, depth) - depth);
      Pow2Grows(FindDepth(r, depth + 1) - depth, FindDepth(t, depth) - depth);
  }

  /** States are numbered from the other end. */
  function Inverted(n: nat, sType: StateType, index: int): int {
    if sType == STATE then n - index - 1 else index
  }

  function NodeOf(ref: ValueRef, n: nat): Node {
    match ref
    case PktRef(index, sType, name) => RefNode(sType, Inverted(n, sType, index), if sType == AGG then [] else name)
    case Static(IntVal(i)) => ConstNode(INT, i)
    case Static(FloatVal(bits)) => ConstNode(FLOAT, bits)
    case Static(v) => ConstNode(v.Type(), -1)
  }

  function Preorder(t: OpTree, n: nat): (nodes: seq<Node>)
    ensures |nodes| == Count(t)
  {
    match t
    case Leaf(_, ref) => [NodeOf(ref, n)]
    case Inner(_, l, r, op) => [OpNode(op)] + Preorder(l, n) + Preorder(r, n)
  }

  /** The subtree met as number k when the root comes first, then the left and the right subtree. */
  function Subtree(t: OpTree, k: nat): OpTree
    requires k < Count(t)
  {
    if k == 0 then t
    else if k - 1 < Count(t.left) then Subtree(t.left, k - 1)
    else Subtree(t.right, k - 1 - Count(t.left))
  }

  /** A cell shows the root of a tree of a rule with `n` states: states count from the last one. */
  predicate Shows(cell: Node, t: OpTree, n: nat) {
    match t
    case Inner(_, _, _, op) => cell == OpNode(op)
    case Leaf(_, PktRef(i, sType, name)) =>
      && cell.RefNode? && cell.sType == sType && (sType == STATE ==> cell.refersTo + i + 1 == n)
      && (sType != STATE ==> cell.refersTo == i) && (sType != AGG ==> cell.attrName == name)
    case Leaf(_, Static(v)) =>
      && cell.ConstNode? && cell.valueType == v.Type() && (v.IntVal? ==> cell.bits == v.i) && (v.FloatVal? ==> cell.bits == v.bits)
  }

  /** Every cell shows the root of its subtree. */
  lemma {:induction false} CellShows(t: OpTree, n: nat, k: nat)
    requires k < Count(t)
    ensures Shows(Preorder(t, n)[k], Subtree(t, k), n)
  {
    if k > 0 {
      hide Shows;
      var l, r := Preorder(t.left, n), Preorder(t.right, n);
      assert Preorder(t, n) == [OpNode(t.op)] + l + r;
      if k - 1 < Count(t.left) { CellShows(t.left, n, k - 1); } else { CellShows(t.right, n, k - 1 - Count(t.left)); }
    }
  }

  method SerializeNode(tree: OpTree, n: nat, idx: nat, serialized: array<Node>) returns (next: nat)
    requires idx + Count(tree) <= serialized.Length
    modifies serialized
    ensures next == idx + Count(tree)
    ensures serialized[..next] == old(serialized[..idx]) + Preorder(tree, n) && serialized[next..] == old(serialized[next..])
    decreases tree
  {
    hide NodeOf;
    ghost var before, all := serialized[..idx], serialized[..];
    match tree {
      case Leaf(_, ref) =>
        serialized[idx] := NodeOf(ref, n);
        next := idx + 1;
      case Inner(_, left, right, op) =>
        serialized[idx] := OpNode(op);
        ghost var cleared := serialized[idx + 1..];
        assert cleared == all[idx + 1..];
        assert serialized[..idx + 1] == before + [OpNode(op)];
        next := SerializeNode(left, n, idx + 1, serialized);
        Cat(before, [OpNode(op)], Preorder(left, n));
        DropDrop(all, idx + 1, Count(left));
        DropDrop(serialized[..], idx + 1, Count(left));
        assert serialized[next..] == all[next..];
        next := SerializeNode(right, n, next, serialized);
        Cat(before, [OpNode(op)] + Preorder(left, n), Preorder(right, n));
        DropDrop(all, idx + 1 + Count(left), Count(right));
    }
  }

  lemma DropDrop<T>(s: seq<T>, a: nat, b: nat)
    requires a + b <= |s|
    ensures s[a..][b..] == s[a + b..]
  {
  }

  /** The size of a full tree of this depth. */
  function Full(depth: nat): nat {
    Pow2(depth) - 1
  }

  /** The cells cleared for a depth lie inside the arrays exactly when it is within the limit. */
  lemma FullFits(depth: nat)
    ensures Full(depth) <= TREE_SIZE <==> depth <= MAX_DEPTH
  {
    assert Pow2(3) == 8 && Pow2(MAX_DEPTH) == 32 && Pow2(MAX_DEPTH + 1) == 64;
    if depth <= MAX_DEPTH { Pow2Grows(depth, MAX_DEPTH); } else { Pow2Grows(MAX_DEPTH + 1, depth); }
  }

  /** The tree's cells, cleared ones up to those of a full tree, and what was there before. */
  function Serialized(tree: OpTree, n: nat, depth: nat, before: seq<Node>): (cells: seq<Node>)
    requires Count(tree) <= Full(depth) <= |before|
    ensures |cells| == |before|
  {
    Preorder(tree, n) + seq(Full(depth) - Count(tree), _ => Empty) + before[Full(depth)..]
  }

  lemma TreeFits(tree: OpTree, depth: nat)
    requires FindDepth(tree, 2) <= depth
    ensures Count(tree) <= Full(depth)
  {
    CountBound(tree, 2);
    Pow2Grows(FindDepth(tree, 2) - 1, depth);
  }

  /** Both trees of a parameter: clears the cells a full tree of this depth could need and
      writes each tree over them. Trees no deeper than the limit fit. */
  method SerializeTrees(ltree: OpTree, rtree: OpTree, n: nat, depth: nat, leftTree: array<Node>, rightTree: array<Node>)
    returns (lSize: nat, rSize: nat)
    requires FindDepth(ltree, 2) <= depth <= MAX_DEPTH && FindDepth(rtree, 2) <= depth
    requires leftTree.Length == rightTree.Length == TREE_SIZE && leftTree != rightTree
    modifies leftTree, rightTree
    ensures Count(ltree) <= Full(depth) <= TREE_SIZE && Count(rtree) <= Full(depth)
    ensures lSize == Count(ltree) && leftTree[..] == Serialized(ltree, n, depth, old(leftTree[..]))
    ensures rSize == Count(rtree) && rightTree[..] == Serialized(rtree, n, depth, old(rightTree[..]))
  {
    hide Preorder, Serialized, Cleared, Full, Count, FindDepth;
    TreeFits(ltree, depth);
    TreeFits(rtree, depth);
    FullFits(depth);
    ghost var l, r := leftTree[..], rightTree[..];
    ClearTrees(Full(depth), leftTree, rightTree);
    ghost var before := rightTree[..];
    lSize := SerializeNode(ltree, n, 0, leftTree);
    WrittenOver(ltree, n, depth, l, leftTree[..]);
    assert rightTree[..] == before;
    rSize := SerializeNode(rtree, n, 0, rightTree);
    WrittenOver(rtree, n, depth, r, rightTree[..]);
  }

  method ClearTrees(size: nat, leftTree: array<Node>, rightTree: array<Node>)
    requires leftTree.Length == rightTree.Length && size <= leftTree.Length && leftTree != rightTree
    modifies leftTree, rightTree
    ensures leftTree[..] == Cleared(old(leftTree[..]), size) && rightTree[..] == Cleared(old(rightTree[..]), size)
  {
    hide Cleared;
    for i := 0 to size
      invariant forall k :: 0 <= k < i ==> leftTree[k] == rightTree[k] == Empty
      invariant forall k :: i <= k < leftTree.Length ==> leftTree[k] == old(leftTree[k]) && rightTree[k] == old(rightTree[k])
    {
      leftTree[i], rightTree[i] := Empty, Empty;
    }
    ClearedIs(old(leftTree[..]), size, leftTree[..]);
    ClearedIs(old(rightTree[..]), size, rightTree[..]);
  }

  lemma ClearedIs(before: seq<Node>, size: nat, after: seq<Node>)
    requires size <= |before| == |after|
    requires forall k :: 0 <= k < |after| ==> after[k] == if k < size then Empty else before[k]
    ensures after == Cleared(before, size)
  {
  }

  function Cleared(cells: seq<Node>, i: nat): seq<Node>
    requires i <= |cells|
  {
    seq(i, _ => Empty) + cells[i..]
  }

  lemma ClearedFrom(before: seq<Node>, size: nat, k: nat)
    requires k <= size <= |before|
    ensures Cleared(before, size)[k..] == seq(size - k, _ => Empty) + before[size..]
  {
  }

  lemma WrittenOver(tree: OpTree, n: nat, depth: nat, before: seq<Node>, after: seq<Node>)
    requires Count(tree) <= Full(depth) <= |before| == |after|
    requires after[..Count(tree)] == Preorder(tree, n) && after[Count(tree)..] == Cleared(before, Full(depth))[Count(tree)..]
    ensures after == Serialized(tree, n, depth, before)
  {
    hide Preorder, Full, Count;
    ClearedFrom(before, Full(depth), Count(tree));
    Cat(Preorder(tree, n), seq(Full(depth) - Count(tree), _ => Empty), before[Full(depth)..]);
    assert after == after[..Count(tree)] + after[Count(tree)..];
  }

  // ---------------------------------------------------------------- reading the array back

  /** A tree without what the cells do not hold. */
  function Plain(t: OpTree): OpTree {
    match t
    case Leaf(_, PktRef(index, AGG, _)) => Leaf(INT, PktRef(index, AGG, []))
    case Leaf(_, Static(BoolVal(_))) => Leaf(INT, Static(BoolVal(true)))
    case Leaf(_, Static(StringVal(_))) => Leaf(INT, Static(StringVal([])))
    case Leaf(_, ref) => Leaf(INT, ref)
    case Inner(_, l, r, op) => Inner(INT, Plain(l), Plain(r), op)
  }

  function RefOf(node: Node, n: nat): Parsed<ValueRef> {
    match node
    case RefNode(sType, refersTo, name) =>
      var index := Inverted(n, sType, refersTo);
      if -INT_LIMIT <= index < INT_LIMIT then Parsed(PktRef(index, sType, name), 0) else Fail
    case ConstNode(INT, bits) => Parsed(Static(IntVal(bits)), 0)
    case ConstNode(FLOAT, bits) => Parsed(Static(FloatVal(bits)), 0)
    case ConstNode(BOOL, _) => Parsed(Static(BoolVal(true)), 0)
    case ConstNode(STRING, _) => Parsed(Static(StringVal([])), 0)
    case _ => Fail
  }

  function Read(nodes: seq<Node>, n: nat, i: nat): (r: Parsed<OpTree>)
    ensures r.Fail? || (i < r.next <= |nodes|)
    decreases |nodes| - i
  {
    if i >= |nodes| then Fail
    else if nodes[i].OpNode? then
      var (l, j) :- Read(nodes, n, i + 1);
      var (r, j) :- Read(nodes, n, j);
      Parsed(Inner(INT, l, r, nodes[i].op), j)
    else
      var (ref, _) :- RefOf(nodes[i], n);
      Parsed(Leaf(INT, ref), i + 1)
  }

  /** The inversion undoes itself. */
  lemma LeafBack(ref: ValueRef, n: nat)
    ensures RefOf(NodeOf(ref, n), n) == Parsed(Plain(Leaf(INT, ref)).ref, 0) && !NodeOf(ref, n).OpNode?
  {
  }

  lemma Parts<T>(nodes: seq<T>, i: nat, x: T, a: seq<T>, b: seq<T>)
    requires i + 1 + |a| + |b| <= |nodes| && nodes[i..i + 1 + |a| + |b|] == [x] + a + b
    ensures nodes[i] == x && nodes[i + 1..i + 1 + |a|] == a && nodes[i + 1 + |a|..i + 1 + |a| + |b|] == b
  {
    var p := [x] + a + b;
    assert forall k :: 0 <= k < |p| ==> nodes[i + k] == nodes[i..i + |p|][k] == p[k];
    assert a == p[1..1 + |a|] && b == p[1 + |a|..];
    assert nodes[i + 1..i + 1 + |a|] == p[1..1 + |a|];
    assert nodes[i + 1 + |a|..i + 1 + |a| + |b|] == p[1 + |a|..];
  }

  lemma ReadInner(nodes: seq<Node>, n: nat, i: nat, op: TreeOp, l: OpTree, r: OpTree, j: nat, k: nat)
    requires i < |nodes| && nodes[i] == OpNode(op)
    requires Read(nodes, n, i + 1) == Parsed(l, j) && Read(nodes, n, j) == Parsed(r, k)
    ensures Read(nodes, n, i) == Parsed(Inner(INT, l, r, op), k)
  {
  }

  lemma ReadLeaf(nodes: seq<Node>, n: nat, i: nat, ref: ValueRef)
    requires i < |nodes| && nodes[i..i + 1] == [NodeOf(ref, n)]
    ensures Read(nodes, n, i) == Parsed(Plain(Leaf(INT, ref)), i + 1)
  {
    hide NodeOf, RefOf;
    LeafBack(ref, n);
    assert nodes[i] == nodes[i..i + 1][0];
  }

  lemma {:induction false} ReadBack(t: OpTree, nodes: seq<Node>, n: nat, i: nat)
    requires i + Count(t) <= |nodes| && nodes[i..i + Count(t)] == Preorder(t, n)
    ensures Read(nodes, n, i) == Parsed(Plain(t), i + Count(t))
    decreases t
  {
    hide Read, NodeOf;
    match t
    case Leaf(_, ref) => ReadLeaf(nodes, n, i, ref);
    case Inner(_, l, r, op) =>
      Parts(nodes, i, OpNode(op), Preorder(l, n), Preorder(r, n));
      ReadBack(l, nodes, n, i + 1);
      ReadBack(r, nodes, n, i + 1 + Count(l));
      ReadInner(nodes, n, i, op, Plain(l), Plain(r), i + 1 + Count(l), i + Count(t));
  }

  lemma {:induction false} PreorderOfPlain(t: OpTree, n: nat)
    ensures Preorder(Plain(t), n) == Preorder(t, n)
  {
    if t.Inner? {
      PreorderOfPlain(t.left, n);
      PreorderOfPlain(t.right, n);
    }
  }

  /** Main result: two trees fill the array with the same cells exactly when they differ in
      nothing but what the cells do not hold. */
  lemma PreorderIsFaithful(t: OpTree, u: OpTree, n: nat)
    ensures Preorder(t, n) == Preorder(u, n) <==> Plain(t) == Plain(u)
  {
    assert Preorder(t, n)[0..Count(t)] == Preorder(t, n) && Preorder(u, n)[0..Count(u)] == Preorder(u, n);
    ReadBack(t, Preorder(t, n), n, 0);
    ReadBack(u, Preorder(u, n), n, 0);
    PreorderOfPlain(t, n);
    PreorderOfPlain(u, n);
  }
}
