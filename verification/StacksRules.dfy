/** The detector as it runs: stacks updated in place, packets reference counted. */
module StacksRules {
  import opened Events
  import opened Rules
  import opened Search
  import opened Detection
  import opened Aggregates
  import opened Runs
  import Purging
  import opened Expiry
  import opened MatchMeaning

  /** The reference counts of all packets. A packet is born with one reference, and is
      deleted by whoever drops the last one. */
  class PacketPool {
    var born: set<PubPkt>
    var refs: multiset<PubPkt>
    var freed: set<PubPkt>

    /** Every packet ever born is either referenced or deleted, and never both. */
    ghost predicate Sound()
      reads this
    {
      SoundBut({})
    }

    ghost predicate SoundBut(pending: set<PubPkt>)
      reads this
    {
      forall p :: (p in born <==> p in refs || p in freed || p in pending) && (p in freed ==> p !in refs && p !in pending)
    }

    constructor ()
      ensures born == {} && refs == multiset{} && Sound()
    {
      born, refs, freed := {}, multiset{}, {};
    }

    method Create(p: PubPkt)
      requires Sound() && p !in born
      modifies this`refs, this`born
      ensures Sound() && refs == old(refs) + multiset{p} && born == old(born) + {p}
    {
      born, refs := born + {p}, refs + multiset{p};
    }

    method IncRefCount(p: PubPkt)
      requires Sound() && p in refs
      modifies this`refs
      ensures Sound() && refs == old(refs) + multiset{p}
    {
      refs := refs + multiset{p};
    }

    /** Drops one reference; whoever drops the last one must delete the packet. */
    method DecRefCount(p: PubPkt) returns (last: bool)
      requires Sound() && p in refs
      modifies this`refs
      ensures refs == old(refs) - multiset{p} && last == (p !in refs)
      ensures SoundBut(if last then {p} else {})
    {
      refs := refs - multiset{p};
      last := p !in refs;
    }

    method Delete(p: PubPkt)
      requires p !in refs && SoundBut({p})
      modifies this`freed
      ensures Sound() && freed == old(freed) + {p}
    {
      freed := freed + {p};
    }

    /** Drops one reference and deletes the packet when it was the last one. */
    method Release(p: PubPkt)
      requires Sound() && p in refs
      modifies this`refs, this`freed
      ensures Sound() && refs == old(refs) - multiset{p}
    {
      var last := DecRefCount(p);
      if last { Delete(p); }
    }
  }

  function BagOf(cols: seq<seq<PubPkt>>): multiset<PubPkt> {
    if cols == [] then multiset{} else multiset(cols[0]) + BagOf(cols[1..])
  }

  /** What changed in the counts is what changed in the stored packets. */
  ghost predicate Balanced(refs: multiset<PubPkt>, held: multiset<PubPkt>, refs': multiset<PubPkt>, held': multiset<PubPkt>) {
    refs' + held == refs + held'
  }

  lemma BalancedSelf(refs: multiset<PubPkt>, held: multiset<PubPkt>)
    ensures Balanced(refs, held, refs, held)
  {
  }

  lemma BalancedAt(refs: multiset<PubPkt>, held: multiset<PubPkt>, refs': multiset<PubPkt>, held': multiset<PubPkt>)
    requires Balanced(refs, held, refs', held')
    ensures forall p :: refs'[p] + held[p] == refs[p] + held'[p]
  {
    forall p ensures refs'[p] + held[p] == refs[p] + held'[p] {
      assert (refs' + held)[p] == (refs + held')[p];
    }
  }

  lemma {:induction false} BagUpdate(cols: seq<seq<PubPkt>>, i: nat, c: seq<PubPkt>)
    requires i < |cols|
    ensures Balanced(BagOf(cols[i := c]), multiset(c), BagOf(cols), multiset(cols[i]))
    ensures multiset(cols[i]) <= BagOf(cols)
  {
    if i == 0 {
      assert cols[0 := c][1..] == cols[1..];
    } else {
      BagUpdate(cols[1..], i - 1, c);
      BalancedAt(BagOf(cols[1..][i - 1 := c]), multiset(c), BagOf(cols[1..]), multiset(cols[1..][i - 1]));
      var cs := cols[i := c];
      assert cs[1..] == cols[1..][i - 1 := c] && cs[0] == cols[0] && cols[1..][i - 1] == cols[i];
    }
  }

  /** Replacing one stack keeps counts and stored packets in balance. */
  lemma StackChange(cols: seq<seq<PubPkt>>, i: nat, c: seq<PubPkt>, refs: multiset<PubPkt>, refs': multiset<PubPkt>)
    requires i < |cols| && BagOf(cols) <= refs && Balanced(refs, multiset(cols[i]), refs', multiset(c))
    ensures Balanced(refs, BagOf(cols), refs', BagOf(cols[i := c])) && BagOf(cols[i := c]) <= refs'
  {
    BagUpdate(cols, i, c);
    BalancedAt(refs, multiset(cols[i]), refs', multiset(c));
    BalancedAt(BagOf(cols[i := c]), multiset(c), BagOf(cols), multiset(cols[i]));
  }

  ghost predicate AllSorted(cols: seq<seq<PubPkt>>) {
    forall i :: 0 <= i < |cols| ==> Sorted(cols[i])
  }

  /** The size counters are in step with the vectors. */
  ghost predicate InStep(sizes: seq<int>, cols: seq<seq<PubPkt>>) {
    |sizes| == |cols| && forall i :: 0 <= i < |cols| ==> sizes[i] == |cols[i]|
  }

  lemma AllReplaced(a: seq<seq<PubPkt>>, b: seq<seq<PubPkt>>, c: seq<seq<PubPkt>>, i: nat, x: seq<PubPkt>)
    ensures i < |a| ==> a[i := x] + b + c == (a + b + c)[i := x]
    ensures i < |b| ==> a + b[i := x] + c == (a + b + c)[|a| + i := x]
    ensures i < |c| ==> a + b + c[i := x] == (a + b + c)[|a| + |b| + i := x]
  {
  }

  /** The first `i` stacks of one list, the others of another. */
  function Splice(goal: seq<seq<PubPkt>>, cols: seq<seq<PubPkt>>, i: nat): (s: seq<seq<PubPkt>>)
    requires i <= |goal| == |cols|
    ensures |s| == |cols| && (i == |cols| ==> s == goal)
  {
    goal[..i] + cols[i..]
  }

  lemma SpliceStep(goal: seq<seq<PubPkt>>, cols: seq<seq<PubPkt>>, i: nat)
    requires i < |goal| == |cols|
    ensures Splice(goal, cols, i)[i] == cols[i] && Splice(goal, cols, i + 1) == Splice(goal, cols, i)[i := goal[i]]
    ensures goal[i] == cols[i] ==> Splice(goal, cols, i + 1) == Splice(goal, cols, i)
  {
  }

  lemma SpliceFrom(goal: seq<seq<PubPkt>>, cols: seq<seq<PubPkt>>, i: nat)
    requires i <= |goal| == |cols| && forall k :: 0 <= k < i ==> goal[k] == cols[k]
    ensures Splice(goal, cols, i) == cols
  {
  }

  lemma Replaced(sizes: seq<int>, cols: seq<seq<PubPkt>>, i: nat, size: int, c: seq<PubPkt>)
    requires InStep(sizes, cols) && AllSorted(cols) && i < |cols| && size == |c| && Sorted(c)
    ensures InStep(sizes[i := size], cols[i := c]) && AllSorted(cols[i := c])
  {
  }

  /** `e` has been placed after everything that is not later, and before the rest. */
  ghost predicate Placed(col: seq<PubPkt>, e: PubPkt, col': seq<PubPkt>) {
    exists k: nat :: k <= |col| && PlacedAt(col, e, k) && col' == col[..k] + [e] + col[k..]
  }

  ghost predicate PlacedAt(col: seq<PubPkt>, e: PubPkt, k: nat)
    requires k <= |col|
  {
    (forall j :: 0 <= j < k ==> col[j].ts <= e.ts) && forall j :: k <= j < |col| ==> col[j].ts > e.ts
  }

  lemma InsertPlaced(col: seq<PubPkt>, e: PubPkt)
    requires Sorted(col)
    ensures Placed(col, e, Insert(col, e))
  {
    hide Insert;
    var cut := AfterIsSuffix(col, e.ts);
    InsertIsAt(col, e, cut);
    assert PlacedAt(col, e, cut);
  }

  lemma InsertBag(col: seq<PubPkt>, e: PubPkt)
    ensures multiset(Insert(col, e)) == multiset(col) + multiset{e}
  {
    var at := |col| - AfterLength(col, e.ts);
    Halves(col, at);
  }

  /** Dropping one reference keeps the balance between counts and stored packets. */
  lemma DropBalance(refs: multiset<PubPkt>, held: multiset<PubPkt>, refs': multiset<PubPkt>, held': multiset<PubPkt>,
                    p: PubPkt, rest: multiset<PubPkt>)
    requires Balanced(refs, held, refs', held') && held <= refs && held' == rest + multiset{p}
    ensures p in refs' && Balanced(refs, held, refs' - multiset{p}, rest)
  {
    BalancedAt(refs, held, refs', held');
  }

  lemma RemoveAt(s: seq<PubPkt>, k: nat)
    requires k < |s|
    ensures multiset(s) == multiset(s[..k] + s[k + 1..]) + multiset{s[k]}
  {
    Halves(s, k);
    HeadTail(s[k..]);
  }

  lemma ColumnOk(sizes: seq<int>, cols: seq<seq<PubPkt>>, i: nat)
    requires InStep(sizes, cols) && AllSorted(cols) && i < |cols|
    ensures |sizes| == |cols| && sizes[i] == |cols[i]| && Sorted(cols[i])
  {
  }

  method ParametricAddToStack(pkt: PubPkt, parStacksSize: int, parReceived: seq<PubPkt>, pool: PacketPool)
    returns (size: int, received: seq<PubPkt>)
    requires parStacksSize == |parReceived| && Sorted(parReceived) && pool.Sound() && pkt in pool.refs
    modifies pool`refs
    ensures received == Insert(parReceived, pkt) && size == |received| && Sorted(received)
    ensures Placed(parReceived, pkt, received)
    ensures pool.Sound() && Balanced(old(pool.refs), multiset(parReceived), pool.refs, multiset(received))
    ensures pool.refs == old(pool.refs) + multiset{pkt}
  {
    hide Placed, Insert, Sorted;
    assert parReceived[..parStacksSize] == parReceived;
    var i := GetFirstValidElement(parReceived, parStacksSize, pkt.ts);
    InsertSorted(parReceived, pkt);
    InsertPlaced(parReceived, pkt);
    InsertBag(parReceived, pkt);
    if i == -1 {
      InsertIsAt(parReceived, pkt, |parReceived|);
      size, received := parStacksSize + 1, parReceived + [pkt];
      assert received == parReceived[..|parReceived|] + [pkt] + parReceived[|parReceived|..];
    } else {
      InsertIsAt(parReceived, pkt, i);
      size, received := parStacksSize + 1, parReceived[..i] + [pkt] + parReceived[i..];
    }
    pool.IncRefCount(pkt);
  }

  method RemoveOldPacketsFromStack(minTS: nat, parStacksSize: int, parReceived: seq<PubPkt>, pool: PacketPool)
    returns (size: int, received: seq<PubPkt>)
    requires parStacksSize == |parReceived| && Sorted(parReceived) && pool.Sound() && multiset(parReceived) <= pool.refs
    modifies pool`refs, pool`freed
    ensures received == Unexpired(parReceived, minTS) && size == |received| && Sorted(received)
    ensures pool.Sound() && Balanced(old(pool.refs), multiset(parReceived), pool.refs, multiset(received))
  {
    hide Balanced, Sorted, Unexpired;
    size, received := parStacksSize, parReceived;
    BalancedSelf(pool.refs, multiset(parReceived));
    UnexpiredSorted(parReceived, minTS);
    if parStacksSize == 0 {
      NothingExpires(minTS);
      return;
    }
    var newSize := DeleteInvalidElements(parReceived, parStacksSize, minTS);
    if newSize == parStacksSize {
      assert parReceived[0..] == parReceived;
      return;
    }
    var count := 0;
    assert received == parReceived[count..];
    while count < parStacksSize - newSize
      invariant 0 <= count <= parStacksSize - newSize
      invariant received == parReceived[count..]
      invariant pool.Sound() && Balanced(old(pool.refs), multiset(parReceived), pool.refs, multiset(received))
    {
      var pkt := received[0];
      RemoveAt(received, 0);
      assert received[..0] + received[1..] == received[1..];
      DropBalance(old(pool.refs), multiset(parReceived), pool.refs, multiset(received), pkt, multiset(received[1..]));
      pool.Release(pkt);
      received := received[1..];
      count := count + 1;
    }
    size := newSize;
  }

  lemma NothingExpires(min: nat)
    ensures Unexpired([], min) == []
  {
  }

  lemma UnexpiredSorted(col: seq<PubPkt>, min: nat)
    requires Sorted(col)
    ensures Sorted(Unexpired(col, min))
  {
    var cut := UnexpiredIsSuffix(col, min);
  }

  /** Erases, one by one, the packets of a vector that are in a set. */
  method EraseAll(col: seq<PubPkt>, size: int, gone: set<PubPkt>, pool: PacketPool) returns (received: seq<PubPkt>, newSize: int)
    requires size == |col| && Sorted(col) && pool.Sound() && multiset(col) <= pool.refs
    modifies pool`refs, pool`freed
    ensures received == Without(col, gone) && newSize == |received| && Sorted(received)
    ensures pool.Sound() && Balanced(old(pool.refs), multiset(col), pool.refs, multiset(received))
  {
    hide Balanced, Sorted;
    BalancedSelf(pool.refs, multiset(col));
    received, newSize := col, size;
    var k := 0;
    ghost var j := 0;
    while k < |received|
      invariant 0 <= j <= |col| && k == |Without(col[..j], gone)| && newSize == |received|
      invariant received == Without(col[..j], gone) + col[j..]
      invariant pool.Sound() && Balanced(old(pool.refs), multiset(col), pool.refs, multiset(received))
      decreases |col| - j
    {
      var pkt := received[k];
      ErasePoint(col, gone, j);
      if pkt in gone {
        var rest := received[..k] + received[k + 1..];
        RemoveAt(received, k);
        DropBalance(old(pool.refs), multiset(col), pool.refs, multiset(received), pkt, multiset(rest));
        pool.Release(pkt);
        received := rest;
        newSize := newSize - 1;
      } else {
        k := k + 1;
      }
      j := j + 1;
    }
    assert col[..j] == col;
    Purging.WithoutSorted(col, gone);
  }

  /** Erasing, or stepping over, the element between the filtered prefix and the rest. */
  lemma ErasePoint(col: seq<PubPkt>, gone: set<PubPkt>, j: nat)
    requires j <= |col| && |Without(col[..j], gone) + col[j..]| > |Without(col[..j], gone)|
    ensures var f := Without(col[..j], gone); var s := f + col[j..];
            j < |col| && s[|f|] == col[j]
            && (col[j] in gone ==> s[..|f|] + s[|f| + 1..] == Without(col[..j + 1], gone) + col[j + 1..] && Without(col[..j + 1], gone) == f)
            && (col[j] !in gone ==> s == Without(col[..j + 1], gone) + col[j + 1..] && |Without(col[..j + 1], gone)| == |f| + 1)
  {
    var f, e, t := Without(col[..j], gone), col[j], col[j + 1..];
    HeadTail(col[j..]);
    WithoutOneMore(col, gone, j);
    hide Without;
    if e in gone {
      ErasedAt(f, e, t);
      NoneBefore(f);
    } else {
      Cat(f, [e], t);
    }
  }

  lemma WithoutOneMore(col: seq<PubPkt>, gone: set<PubPkt>, j: nat)
    requires j < |col|
    ensures Without(col[..j + 1], gone) == Without(col[..j], gone) + if col[j] in gone then [] else [col[j]]
  {
    assert col[..j + 1] == col[..j] + [col[j]];
    Purging.WithoutAppend(col[..j], [col[j]], gone);
    assert Without([col[j]], gone) == if col[j] in gone then [] else [col[j]] by { assert [col[j]][1..] == []; }
  }

  lemma ErasedAt<T>(f: seq<T>, e: T, t: seq<T>)
    ensures var s := f + ([e] + t); s[..|f|] + s[|f| + 1..] == f + t
  {
  }

  // ---------------------------------------------------------------- windows

  /** Only the slice between the two binary searches can fit. */
  lemma FittingSlice(r: Rule, negs: seq<seq<PubPkt>>, p: Partial, col: seq<PubPkt>, a: nat, b: nat, lo: nat, hi: nat)
    requires WellFormed(r) && |negs| == |r.negations| && 1 <= |p| < |r.predicates| && a <= b <= |col| && PredicateOk(r, |p|)
    requires var q := r.predicates[|p|]; hi == p[q.refersTo].ts && lo == Minus(hi, q.win)
    requires forall k :: 0 <= k < a ==> col[k].ts <= lo
    requires forall k :: b <= k < |col| ==> col[k].ts >= hi
    ensures Fitting(r, negs, p, col) == Fitting(r, negs, p, col[a..b])
  {
    var x, y, z := col[..a], col[a..b], col[b..];
    hide ParamsHold, Blocked, Fitting;
    Halves(col, a);
    Middle(col, a, b);
    Purging.FittingAppend(r, negs, p, x, y + z);
    Purging.FittingAppend(r, negs, p, y, z);
    Purging.FittingNone(r, negs, p, x);
    Purging.FittingNone(r, negs, p, z);
    NoneBefore(Fitting(r, negs, p, y));
  }

  lemma FittingOne(r: Rule, negs: seq<seq<PubPkt>>, p: Partial, e: PubPkt)
    requires WellFormed(r) && |negs| == |r.negations| && 1 <= |p| < |r.predicates|
    ensures Fitting(r, negs, p, [e]) == if Fits(r, negs, p, e) then [e] else []
  {
    hide Fits, WellFormed;
    assert [e][1..] == [];
  }

  /** One more element at either end of the scanned part. */
  lemma FittingGrow(r: Rule, negs: seq<seq<PubPkt>>, p: Partial, w: seq<PubPkt>, k: nat)
    requires WellFormed(r) && |negs| == |r.negations| && 1 <= |p| < |r.predicates| && k < |w|
    ensures var one := if Fits(r, negs, p, w[k]) then [w[k]] else [];
            Fitting(r, negs, p, w[..k + 1]) == Fitting(r, negs, p, w[..k]) + one
            && Fitting(r, negs, p, w[k..]) == one + Fitting(r, negs, p, w[k + 1..])
            && Fitting(r, negs, p, w) == Fitting(r, negs, p, w[..k]) + (one + Fitting(r, negs, p, w[k + 1..]))
            && Fitting(r, negs, p, w) == (Fitting(r, negs, p, w[..k]) + one) + Fitting(r, negs, p, w[k + 1..])
  {
    hide Fits, Fitting, WellFormed;
    var e := w[k];
    FittingOne(r, negs, p, e);
    Snoc(w, k);
    Purging.FittingAppend(r, negs, p, w[..k], [e]);
    HeadTail(w[k..]);
    Purging.FittingAppend(r, negs, p, [e], w[k + 1..]);
    Halves(w, k);
    Purging.FittingAppend(r, negs, p, w[..k], w[k..]);
    Cat(Fitting(r, negs, p, w[..k]), Fitting(r, negs, p, [e]), Fitting(r, negs, p, w[k + 1..]));
  }

  lemma Snoc<T>(s: seq<T>, k: nat)
    requires k < |s|
    ensures s[..k + 1] == s[..k] + [s[k]] && s[k..][0] == s[k] && s[k..][1..] == s[k + 1..]
  {
  }

  lemma AppendAppend(p: Partial, a: seq<PubPkt>, b: seq<PubPkt>)
    ensures Append(p, a + b) == Append(p, a) + Append(p, b)
  {
    forall k | 0 <= k < |a| + |b| ensures Append(p, a + b)[k] == (Append(p, a) + Append(p, b))[k] {
    }
  }

  lemma SliceAt<T>(s: seq<T>, a: nat, b: nat, k: nat)
    requires a + k < b <= |s|
    ensures s[a..b][k] == s[a + k]
  {
  }

  predicate Single(mode: CompKind) {
    mode == FIRST_WITHIN || mode == LAST_WITHIN
  }

  /** The results after a scan that has met the fitting packets `f`. */
  ghost predicate Found(p: Partial, mode: CompKind, f: seq<PubPkt>, results: seq<Partial>, out: seq<Partial>) {
    if Single(mode) then f == [] && out == results else out == results + Append(p, f)
  }

  lemma FoundMore(p: Partial, mode: CompKind, f: seq<PubPkt>, e: PubPkt, results: seq<Partial>, out: seq<Partial>)
    requires Found(p, mode, f, results, out) && !Single(mode)
    ensures Found(p, mode, f + [e], results, out + [p + [e]])
  {
    AppendAppend(p, f, [e]);
    assert Append(p, [e]) == [p + [e]];
  }

  lemma FoundOne(p: Partial, mode: CompKind, f: seq<PubPkt>, e: PubPkt, g: seq<PubPkt>, results: seq<Partial>, out: seq<Partial>)
    requires Single(mode) && Found(p, mode, if mode == FIRST_WITHIN then f else g, results, out)
    ensures out + [p + [e]] == results + Append(p, Pick(mode, f + ([e] + g)))
  {
    var all := f + ([e] + g);
    assert all[if mode == FIRST_WITHIN then 0 else |all| - 1] == e;
    assert Append(p, [e]) == [p + [e]];
  }

  lemma FoundAll(p: Partial, mode: CompKind, f: seq<PubPkt>, results: seq<Partial>, out: seq<Partial>)
    requires Found(p, mode, f, results, out)
    ensures out == results + Append(p, Pick(mode, f))
  {
    assert Append(p, []) == [];
  }

  /** The part of the window already scanned when `w[count]` is next. */
  function ScannedPart(w: seq<PubPkt>, mode: CompKind, count: int): seq<PubPkt>
    requires if mode == LAST_WITHIN then -1 <= count < |w| else 0 <= count <= |w|
  {
    if mode == LAST_WITHIN then w[count + 1..] else w[..count]
  }

  ghost predicate Scanned(r: Rule, negs: seq<seq<PubPkt>>, p: Partial, w: seq<PubPkt>, mode: CompKind, count: int,
                          results: seq<Partial>, out: seq<Partial>)
    requires WellFormed(r) && |negs| == |r.negations| && 1 <= |p| < |r.predicates|
    requires if mode == LAST_WITHIN then -1 <= count < |w| else 0 <= count <= |w|
  {
    Found(p, mode, Fitting(r, negs, p, ScannedPart(w, mode, count)), results, out)
  }

  lemma ScanStart(r: Rule, negs: seq<seq<PubPkt>>, p: Partial, w: seq<PubPkt>, mode: CompKind, results: seq<Partial>)
    requires WellFormed(r) && |negs| == |r.negations| && 1 <= |p| < |r.predicates| && w != []
    ensures Scanned(r, negs, p, w, mode, if mode == LAST_WITHIN then |w| - 1 else 0, results, results)
  {
    assert w[..0] == [] && w[|w|..] == [];
  }

  /** A fitting element ends the scan for FIRST and LAST and is collected otherwise; any other
      element is skipped; and past the last element the extension is complete. */
  lemma ScanStep(r: Rule, negs: seq<seq<PubPkt>>, p: Partial, w: seq<PubPkt>, mode: CompKind, count: nat,
                 results: seq<Partial>, out: seq<Partial>, fits: bool)
    requires WellFormed(r) && |negs| == |r.negations| && 1 <= |p| < |r.predicates| && count < |w|
    requires Scanned(r, negs, p, w, mode, count, results, out) && fits == Fits(r, negs, p, w[count])
    ensures var next := if mode == LAST_WITHIN then count - 1 else count + 1;
            var out' := if fits then out + [p + [w[count]]] else out;
            var whole := results + Append(p, Pick(mode, Fitting(r, negs, p, w)));
            if fits && Single(mode) then out' == whole
            else Scanned(r, negs, p, w, mode, next, results, out') && (next == -1 || next == |w| ==> out' == whole)
  {
    hide Fitting, Fits, Found, Append, Pick, WellFormed;
    FittingGrow(r, negs, p, w, count);
    var next := if mode == LAST_WITHIN then count - 1 else count + 1;
    var f, g := Fitting(r, negs, p, w[..count]), Fitting(r, negs, p, w[count + 1..]);
    if fits && Single(mode) {
      FoundOne(p, mode, f, w[count], g, results, out);
    } else {
      if fits {
        FoundMore(p, mode, f, w[count], results, out);
      } else {
        assert f + [] == f && [] + g == g;
      }
      var out' := if fits then out + [p + [w[count]]] else out;
      FoundAll(p, mode, Fitting(r, negs, p, ScannedPart(w, mode, next)), results, out');
      if next == -1 || next == |w| { assert ScannedPart(w, mode, next) == w; }
    }
  }

  // ---------------------------------------------------------------- the rule

  /** The size counters kept beside the vectors. */
  datatype Counters = Counters(states: seq<int>, negs: seq<int>, aggs: seq<int>)

  ghost predicate ShapeOf(r: Rule, st: Stacks, z: Counters) {
    && Shaped(r, st)
    && InStep(z.states, st.states) && InStep(z.negs, st.negs) && InStep(z.aggs, st.aggs)
    && AllSorted(st.states) && AllSorted(st.negs) && AllSorted(st.aggs)
  }

  function HeldIn(st: Stacks): multiset<PubPkt> {
    BagOf(st.states + st.negs + st.aggs)
  }

  function SetState(st: Stacks, i: nat, c: seq<PubPkt>): Stacks
    requires i < |st.states|
  {
    st.(states := st.states[i := c])
  }

  function SetNeg(st: Stacks, i: nat, c: seq<PubPkt>): Stacks
    requires i < |st.negs|
  {
    st.(negs := st.negs[i := c])
  }

  function SetAgg(st: Stacks, i: nat, c: seq<PubPkt>): Stacks
    requires i < |st.aggs|
  {
    st.(aggs := st.aggs[i := c])
  }

  /** Counts and stored packets move together. */
  ghost predicate Accounted(refs: multiset<PubPkt>, st: Stacks, refs': multiset<PubPkt>, st': Stacks) {
    Balanced(refs, HeldIn(st), refs', HeldIn(st')) && HeldIn(st') <= refs'
  }

  /** Who is referenced from here only, and no longer from here, is not referenced. */
  lemma LastDropped(refs: multiset<PubPkt>, st: Stacks, refs': multiset<PubPkt>, st': Stacks)
    requires Accounted(refs, st, refs', st')
    ensures forall p :: refs[p] == HeldIn(st)[p] && p !in HeldIn(st') ==> p !in refs'
  {
    hide HeldIn;
    BalancedAt(refs, HeldIn(st), refs', HeldIn(st'));
  }

  lemma AccountedSelf(refs: multiset<PubPkt>, st: Stacks)
    requires HeldIn(st) <= refs
    ensures Accounted(refs, st, refs, st)
  {
  }

  lemma AccountedHeld(refs: multiset<PubPkt>, st: Stacks, refs': multiset<PubPkt>, st': Stacks)
    requires Accounted(refs, st, refs', st')
    ensures HeldIn(st') <= refs'
  {
  }

  lemma StateChange(st: Stacks, i: nat, c: seq<PubPkt>, refs: multiset<PubPkt>, refs': multiset<PubPkt>)
    requires i < |st.states| && HeldIn(st) <= refs
    ensures multiset(st.states[i]) <= refs
    ensures Balanced(refs, multiset(st.states[i]), refs', multiset(c)) ==> Accounted(refs, st, refs', SetState(st, i, c))
  {
    hide BagOf;
    AllReplaced(st.states, st.negs, st.aggs, i, c);
    BagUpdate(st.states + st.negs + st.aggs, i, c);
    if Balanced(refs, multiset(st.states[i]), refs', multiset(c)) {
      StackChange(st.states + st.negs + st.aggs, i, c, refs, refs');
    }
  }

  lemma NegChange(st: Stacks, i: nat, c: seq<PubPkt>, refs: multiset<PubPkt>, refs': multiset<PubPkt>)
    requires i < |st.negs| && HeldIn(st) <= refs
    ensures multiset(st.negs[i]) <= refs
    ensures Balanced(refs, multiset(st.negs[i]), refs', multiset(c)) ==> Accounted(refs, st, refs', SetNeg(st, i, c))
  {
    hide BagOf;
    AllReplaced(st.states, st.negs, st.aggs, i, c);
    BagUpdate(st.states + st.negs + st.aggs, |st.states| + i, c);
    if Balanced(refs, multiset(st.negs[i]), refs', multiset(c)) {
      StackChange(st.states + st.negs + st.aggs, |st.states| + i, c, refs, refs');
    }
  }

  lemma AggChange(st: Stacks, i: nat, c: seq<PubPkt>, refs: multiset<PubPkt>, refs': multiset<PubPkt>)
    requires i < |st.aggs| && HeldIn(st) <= refs
    ensures multiset(st.aggs[i]) <= refs
    ensures Balanced(refs, multiset(st.aggs[i]), refs', multiset(c)) ==> Accounted(refs, st, refs', SetAgg(st, i, c))
  {
    hide BagOf;
    AllReplaced(st.states, st.negs, st.aggs, i, c);
    BagUpdate(st.states + st.negs + st.aggs, |st.states| + |st.negs| + i, c);
    if Balanced(refs, multiset(st.aggs[i]), refs', multiset(c)) {
      StackChange(st.states + st.negs + st.aggs, |st.states| + |st.negs| + i, c, refs, refs');
    }
  }

  /** The stacks once `e` has been stored for the first `i` negations. */
  function NegsStored(st: Stacks, keys: set<int>, e: PubPkt, i: nat): Stacks
    requires i <= |st.negs|
  {
    st.(negs := Splice(AddAll(st.negs, keys, e), st.negs, i))
  }

  lemma NegsStoredStep(st: Stacks, keys: set<int>, e: PubPkt, i: nat)
    requires i < |st.negs|
    ensures var s := NegsStored(st, keys, e, i);
            s.negs[i] == st.negs[i]
            && NegsStored(st, keys, e, i + 1) == if i in keys then SetNeg(s, i, Insert(s.negs[i], e)) else s
  {
    SpliceStep(AddAll(st.negs, keys, e), st.negs, i);
  }

  lemma NegsStoredEnds(st: Stacks, keys: set<int>, e: PubPkt)
    ensures NegsStored(st, keys, e, 0) == st && NegsStored(st, keys, e, |st.negs|) == st.(negs := AddAll(st.negs, keys, e))
  {
    assert Splice(AddAll(st.negs, keys, e), st.negs, 0) == st.negs;
  }

  /** The stacks once `e` has been stored for the first `i` aggregates. */
  function AggsStored(st: Stacks, keys: set<int>, e: PubPkt, i: nat): Stacks
    requires i <= |st.aggs|
  {
    st.(aggs := Splice(AddAll(st.aggs, keys, e), st.aggs, i))
  }

  lemma AggsStoredStep(st: Stacks, keys: set<int>, e: PubPkt, i: nat)
    requires i < |st.aggs|
    ensures var s := AggsStored(st, keys, e, i);
            s.aggs[i] == st.aggs[i]
            && AggsStored(st, keys, e, i + 1) == if i in keys then SetAgg(s, i, Insert(s.aggs[i], e)) else s
  {
    SpliceStep(AddAll(st.aggs, keys, e), st.aggs, i);
  }

  lemma AggsStoredEnds(st: Stacks, keys: set<int>, e: PubPkt)
    ensures AggsStored(st, keys, e, 0) == st && AggsStored(st, keys, e, |st.aggs|) == st.(aggs := AddAll(st.aggs, keys, e))
  {
    assert Splice(AddAll(st.aggs, keys, e), st.aggs, 0) == st.aggs;
  }

  /** The stacks once `e` has been stored for the first `i` states. */
  function StatesStored(st: Stacks, keys: set<int>, e: PubPkt, i: nat): Stacks
    requires i <= |st.states|
  {
    st.(states := Splice(AddAll(st.states, keys - {0}, e), st.states, i))
  }

  lemma StatesStoredStep(st: Stacks, keys: set<int>, e: PubPkt, i: nat)
    requires i < |st.states|
    ensures var s := StatesStored(st, keys, e, i);
            s.states[i] == st.states[i]
            && StatesStored(st, keys, e, i + 1) == if i in keys - {0} then SetState(s, i, Insert(s.states[i], e)) else s
  {
    SpliceStep(AddAll(st.states, keys - {0}, e), st.states, i);
  }

  lemma StatesStoredEnds(st: Stacks, keys: set<int>, e: PubPkt)
    ensures StatesStored(st, keys, e, 0) == st && StatesStored(st, keys, e, |st.states|) == st.(states := AddAll(st.states, keys - {0}, e))
  {
    assert Splice(AddAll(st.states, keys - {0}, e), st.states, 0) == st.states;
  }

  class StacksRule {
    const r: Rule
    const pool: PacketPool
    var receivedPkts: seq<seq<PubPkt>>
    var receivedNegs: seq<seq<PubPkt>>
    var receivedAggs: seq<seq<PubPkt>>
    var stacksSize: seq<int>
    var negsSize: seq<int>
    var aggsSize: seq<int>

    function St(): Stacks
      reads this
    {
      Stacks(receivedPkts, receivedNegs, receivedAggs)
    }

    function Sizes(): Counters
      reads this
    {
      Counters(stacksSize, negsSize, aggsSize)
    }

    /** Every stored occurrence of a packet is one reference to it. */
    function Held(): multiset<PubPkt>
      reads this
    {
      HeldIn(St())
    }

    ghost predicate Shape()
      reads this
    {
      WellFormed(r) && ShapeOf(r, St(), Sizes())
    }

    ghost predicate Valid()
      reads this, pool
    {
      Shape() && pool.Sound() && Held() <= pool.refs
    }

    constructor (r: Rule, pool: PacketPool)
      requires WellFormed(r) && pool.Sound()
      ensures Valid() && this.r == r && this.pool == pool && St() == Empty(r) && Held() == multiset{}
    {
      this.r, this.pool := r, pool;
      receivedPkts := seq(|r.predicates|, _ => []);
      receivedNegs := seq(|r.negations|, _ => []);
      receivedAggs := seq(|r.aggregates|, _ => []);
      stacksSize := seq(|r.predicates|, _ => 0);
      negsSize := seq(|r.negations|, _ => 0);
      aggsSize := seq(|r.aggregates|, _ => 0);
      new;
      BagOfNone(receivedPkts + receivedNegs + receivedAggs);
    }

    /** Adds the packet to a state's stack, in time order. */
    method AddToStack(pkt: PubPkt, index: int)
      requires Valid() && 1 <= index < |r.predicates| && pkt in pool.refs
      modifies this`receivedPkts, this`stacksSize, pool`refs
      ensures Valid() && St() == SetState(old(St()), index, Insert(old(receivedPkts[index]), pkt)) && pkt in pool.refs
      ensures Accounted(old(pool.refs), old(St()), pool.refs, St())
    {
      hide HeldIn, Accounted, ParamOk, InStep, AllSorted, Sorted, Balanced, Insert;
      ColumnOk(stacksSize, receivedPkts, index);
      ghost var st, refs := St(), pool.refs;
      var size, col := ParametricAddToStack(pkt, stacksSize[index], receivedPkts[index], pool);
      StateChange(st, index, col, refs, pool.refs);
      AccountedHeld(refs, st, pool.refs, SetState(st, index, col));
      Replaced(stacksSize, receivedPkts, index, size, col);
      stacksSize, receivedPkts := stacksSize[index := size], receivedPkts[index := col];
    }

    method AddToNegationStack(pkt: PubPkt, index: int)
      requires Valid() && 0 <= index < |r.negations| && pkt in pool.refs
      modifies this`receivedNegs, this`negsSize, pool`refs
      ensures Valid() && St() == SetNeg(old(St()), index, Insert(old(receivedNegs[index]), pkt)) && pkt in pool.refs
      ensures Accounted(old(pool.refs), old(St()), pool.refs, St())
    {
      hide HeldIn, Accounted, ParamOk, InStep, AllSorted, Sorted, Balanced, Insert;
      ColumnOk(negsSize, receivedNegs, index);
      ghost var st, refs := St(), pool.refs;
      var size, col := ParametricAddToStack(pkt, negsSize[index], receivedNegs[index], pool);
      NegChange(st, index, col, refs, pool.refs);
      AccountedHeld(refs, st, pool.refs, SetNeg(st, index, col));
      Replaced(negsSize, receivedNegs, index, size, col);
      negsSize, receivedNegs := negsSize[index := size], receivedNegs[index := col];
    }

    method AddToAggregateStack(pkt: PubPkt, index: int)
      requires Valid() && 0 <= index < |r.aggregates| && pkt in pool.refs
      modifies this`receivedAggs, this`aggsSize, pool`refs
      ensures Valid() && St() == SetAgg(old(St()), index, Insert(old(receivedAggs[index]), pkt)) && pkt in pool.refs
      ensures Accounted(old(pool.refs), old(St()), pool.refs, St())
    {
      hide HeldIn, Accounted, ParamOk, InStep, AllSorted, Sorted, Balanced, Insert;
      ColumnOk(aggsSize, receivedAggs, index);
      ghost var st, refs := St(), pool.refs;
      var size, col := ParametricAddToStack(pkt, aggsSize[index], receivedAggs[index], pool);
      AggChange(st, index, col, refs, pool.refs);
      AccountedHeld(refs, st, pool.refs, SetAgg(st, index, col));
      Replaced(aggsSize, receivedAggs, index, size, col);
      aggsSize, receivedAggs := aggsSize[index := size], receivedAggs[index := col];
    }

    /** Whether a received packet invalidates the partial event by negation `negIndex`. */
    method CheckNegation(negIndex: int, p: Partial) returns (hit: bool)
      requires Shape() && 0 <= negIndex < |r.negations| && |p| == Link(r.negations[negIndex]) + 1
      ensures hit == NegHit(r, negIndex, receivedNegs[negIndex], p)
      ensures hit <==> exists k :: 0 <= k < |receivedNegs[negIndex]| && Forbids(r, negIndex, receivedNegs[negIndex][k], p)
    {
      hide Forbids, ParamOk, ParamsHold, AllSorted, InStep;
      ColumnOk(negsSize, receivedNegs, negIndex);
      NegHitIsForbids(r, negIndex, receivedNegs[negIndex], p);
      var neg, col, size := r.negations[negIndex], receivedNegs[negIndex], negsSize[negIndex];
      assert NegationOk(r, neg) && col[..size] == col;
      if size == 0 { return false; }
      var maxTS := p[neg.upperId].ts;
      var minTS := if neg.lowerId < 0 then Minus(maxTS, neg.lowerTime) else p[neg.lowerId].ts;
      var index1 := GetFirstValidElement(col, size, minTS);
      if index1 < 0 { return false; }
      if col[index1].ts >= maxTS { return false; }
      var index2 := GetLastValidElement(col, size, maxTS, index1);
      if index2 < 0 { index2 := index1; }
      var count := 0;
      while count <= index2 - index1
        invariant 0 <= count <= index2 - index1 + 1
        invariant forall k :: 0 <= k < index1 + count ==> !Negates(r, negIndex, col[k], p)
      {
        var tmpPkt := col[index1 + count];
        if ParamsHold(r, NEG, negIndex, tmpPkt, p) {
          assert Negates(r, negIndex, tmpPkt, p);
          return true;
        }
        count := count + 1;
      }
      return false;
    }

    /** Whether some negation linked to the last bound state invalidates the partial event. */
    method InvalidatedByNegations(p: Partial) returns (hit: bool)
      requires Shape() && 1 <= |p| <= |r.predicates|
      ensures hit == Blocked(r, receivedNegs, p)
    {
      var neg := 0;
      while neg < |r.negations|
        invariant 0 <= neg <= |r.negations|
        invariant forall j :: 0 <= j < neg && Link(r.negations[j]) + 1 == |p| ==> !NegHit(r, j, receivedNegs[j], p)
      {
        if Link(r.negations[neg]) + 1 == |p| {
          hit := CheckNegation(neg, p);
          if hit { return; }
        }
        neg := neg + 1;
      }
      return false;
    }

    /** Whether a packet inside the window may be bound: parameters first, then negations. */
    method Binds(tmpPkt: PubPkt, p: Partial) returns (usable: bool)
      requires Shape() && 1 <= |p| < |r.predicates| && PredicateOk(r, |p|)
      requires var q := r.predicates[|p|]; Within(Minus(p[q.refersTo].ts, q.win), tmpPkt, p[q.refersTo].ts)
      ensures usable == Fits(r, receivedNegs, p, tmpPkt)
    {
      usable := ParamsHold(r, STATE, |p|, tmpPkt, p);
      if usable {
        var invalidatedByNegations := InvalidatedByNegations(p + [tmpPkt]);
        usable := !invalidatedByNegations;
      }
    }

    /** Appends the extensions of `p` by one state, in order, to the results. */
    method GetWinEvents(results: seq<Partial>, index: int, tsUp: nat, mode: CompKind, p: Partial) returns (out: seq<Partial>)
      requires Shape() && 1 <= index == |p| < |r.predicates| && PredicateOk(r, index)
      requires tsUp == p[r.predicates[index].refersTo].ts && mode == r.predicates[index].kind
      ensures out == results + Extend(r, St(), p)
    {
      hide Fits, ParamOk;
      out := results;
      var col, size := receivedPkts[index], stacksSize[index];
      assert col[..size] == col && results + [] == results;
      if size == 0 { return; }
      var minTimeStamp := Minus(tsUp, r.predicates[index].win);
      var index1 := GetFirstValidElement(col, size, minTimeStamp);
      if index1 < 0 {
        FittingSlice(r, receivedNegs, p, col, |col|, |col|, minTimeStamp, tsUp);
        return;
      }
      if col[index1].ts >= tsUp {
        FittingSlice(r, receivedNegs, p, col, index1, index1, minTimeStamp, tsUp);
        return;
      }
      var index2 := GetLastValidElement(col, size, tsUp, index1);
      if index2 < 0 { index2 := index1; }
      FittingSlice(r, receivedNegs, p, col, index1, index2 + 1, minTimeStamp, tsUp);
      out := ScanWindow(results, col, index1, index2, mode, p);
    }

    /** The scan of a window, forwards or, for LAST, backwards. */
    method ScanWindow(results: seq<Partial>, col: seq<PubPkt>, index1: nat, index2: nat, mode: CompKind, p: Partial) returns (out: seq<Partial>)
      requires Shape() && 1 <= |p| < |r.predicates| && PredicateOk(r, |p|) && index1 <= index2 < |col|
      requires var q := r.predicates[|p|];
               forall k :: index1 <= k <= index2 ==> Within(Minus(p[q.refersTo].ts, q.win), col[k], p[q.refersTo].ts)
      ensures out == results + Append(p, Pick(mode, Fitting(r, receivedNegs, p, col[index1..index2 + 1])))
    {
      hide Scanned, Append, Pick, Fitting, Fits, Within, AllSorted, InStep, WellFormed, PredicateOk, Single;
      out := results;
      ghost var w := col[index1..index2 + 1];
      var count, endCount := 0, index2 - index1;
      if mode == LAST_WITHIN { count, endCount := index2 - index1, 0; }
      ScanStart(r, receivedNegs, p, w, mode, results);
      while true
        invariant 0 <= count < |w| && Scanned(r, receivedNegs, p, w, mode, count, results, out)
        decreases if mode == LAST_WITHIN then count else |w| - count
      {
        var tmpPkt := col[index1 + count];
        var usable := Binds(tmpPkt, p);
        SliceAt(col, index1, index2 + 1, count);
        ScanStep(r, receivedNegs, p, w, mode, count, results, out, usable);
        if usable {
          out := out + [p + [tmpPkt]];
          if Single(mode) { break; }
        }
        if mode == LAST_WITHIN {
          count := count - 1;
          if count < endCount { return; }
        } else {
          count := count + 1;
          if count > endCount { return; }
        }
      }
    }
  
    /** All matches of a terminator, state by state. */
    method GetPartialResults(pkt: PubPkt) returns (prevEvents: seq<Partial>)
      requires Shape()
      ensures prevEvents == Detect(r, St(), pkt)
    {
      hide ExtendAll, Blocked, AllSorted, InStep, ParamOk;
      prevEvents := [[pkt]];
      var hit := InvalidatedByNegations([pkt]);
      if hit { return []; }
      var state := 1;
      while state < |r.predicates|
        invariant 1 <= state <= |r.predicates| && AllBound(prevEvents, state)
        invariant Join(r, St(), prevEvents, state) == Join(r, St(), [[pkt]], 1)
      {
        prevEvents := NextState(prevEvents, state);
        state := state + 1;
        if prevEvents == [] {
          JoinNone(r, St(), state);
          break;
        }
      }
    }

    /** One round of the state loop: every partial event is extended. */
    method NextState(prevEvents: seq<Partial>, state: nat) returns (currentEvents: seq<Partial>)
      requires Shape() && 1 <= state < |r.predicates| && AllBound(prevEvents, state)
      ensures currentEvents == ExtendAll(r, St(), prevEvents, state)
    {
      hide Extend, AllSorted, InStep, ParamOk;
      assert PredicateOk(r, state) && Shaped(r, St());
      currentEvents := [];
      var k := 0;
      while k < |prevEvents|
        invariant 0 <= k <= |prevEvents|
        invariant currentEvents + ExtendAll(r, St(), prevEvents[k..], state) == ExtendAll(r, St(), prevEvents, state)
      {
        var event := prevEvents[k];
        var maxTimeStamp := event[r.predicates[state].refersTo].ts;
        ghost var done := currentEvents;
        Snoc(prevEvents, k);
        currentEvents := GetWinEvents(currentEvents, state, maxTimeStamp, r.predicates[state].kind, event);
        Cat(done, Extend(r, St(), event), ExtendAll(r, St(), prevEvents[k + 1..], state));
        k := k + 1;
      }
    }

    /** Expiry of one state's stack. */
    method ClearState(i: nat)
      requires Valid() && 1 <= i < |r.predicates| && PredicateOk(r, i)
      modifies this`receivedPkts, this`stacksSize, pool`refs, pool`freed
      ensures var q := r.predicates[i];
              St() == SetState(old(St()), i, Expire(old(receivedPkts), q.refersTo, q.win, old(receivedPkts[i])))
      ensures Valid() && Accounted(old(pool.refs), old(St()), pool.refs, St())
    {
      hide HeldIn, ParamOk, InStep, AllSorted, Sorted, Balanced, Unexpired;
      ColumnOk(stacksSize, receivedPkts, r.predicates[i].refersTo);
      ColumnOk(stacksSize, receivedPkts, i);
      var refersToStack := r.predicates[i].refersTo;
      ghost var st, refs := St(), pool.refs;
      if stacksSize[refersToStack] == 0 {
        assert receivedPkts[i := receivedPkts[i]] == receivedPkts;
        AccountedSelf(refs, st);
        return;
      }
      var minTS := Minus(receivedPkts[refersToStack][0].ts, r.predicates[i].win);
      StateChange(st, i, [], refs, refs);
      var size, col := RemoveOldPacketsFromStack(minTS, stacksSize[i], receivedPkts[i], pool);
      StateChange(st, i, col, refs, pool.refs);
      Replaced(stacksSize, receivedPkts, i, size, col);
      stacksSize, receivedPkts := stacksSize[i := size], receivedPkts[i := col];
    }

    method ClearNegation(i: nat)
      requires Valid() && i < |r.negations| && NegationOk(r, r.negations[i])
      modifies this`receivedNegs, this`negsSize, pool`refs, pool`freed
      ensures var g := r.negations[i];
              St() == SetNeg(old(St()), i, Expire(receivedPkts, g.upperId, NegPurgeWindow(r, g), old(receivedNegs[i])))
      ensures Valid() && Accounted(old(pool.refs), old(St()), pool.refs, St())
    {
      hide HeldIn, ParamOk, InStep, AllSorted, Sorted, Balanced, Unexpired;
      ColumnOk(stacksSize, receivedPkts, r.negations[i].upperId);
      ColumnOk(negsSize, receivedNegs, i);
      var neg := r.negations[i];
      var refersToStack := neg.upperId;
      ghost var st, refs := St(), pool.refs;
      if stacksSize[refersToStack] == 0 {
        assert receivedNegs[i := receivedNegs[i]] == receivedNegs;
        AccountedSelf(refs, st);
        return;
      }
      var win := if neg.lowerId < 0 then neg.lowerTime else r.predicates[neg.lowerId].win;
      var minTS := Minus(receivedPkts[refersToStack][0].ts, win);
      NegChange(st, i, [], refs, refs);
      var size, col := RemoveOldPacketsFromStack(minTS, negsSize[i], receivedNegs[i], pool);
      NegChange(st, i, col, refs, pool.refs);
      Replaced(negsSize, receivedNegs, i, size, col);
      negsSize, receivedNegs := negsSize[i := size], receivedNegs[i := col];
    }

    method ClearAggregate(i: nat)
      requires Valid() && i < |r.aggregates| && AggregateOk(r, r.aggregates[i])
      modifies this`receivedAggs, this`aggsSize, pool`refs, pool`freed
      ensures var a := r.aggregates[i];
              St() == SetAgg(old(St()), i, Expire(receivedPkts, a.upperId, a.lowerTime, old(receivedAggs[i])))
      ensures Valid() && Accounted(old(pool.refs), old(St()), pool.refs, St())
    {
      hide HeldIn, ParamOk, InStep, AllSorted, Sorted, Balanced, Unexpired;
      ColumnOk(stacksSize, receivedPkts, r.aggregates[i].upperId);
      ColumnOk(aggsSize, receivedAggs, i);
      var agg := r.aggregates[i];
      var refersToStack := agg.upperId;
      ghost var st, refs := St(), pool.refs;
      if stacksSize[refersToStack] == 0 {
        assert receivedAggs[i := receivedAggs[i]] == receivedAggs;
        AccountedSelf(refs, st);
        return;
      }
      var minTS := Minus(receivedPkts[refersToStack][0].ts, agg.lowerTime);
      AggChange(st, i, [], refs, refs);
      var size, col := RemoveOldPacketsFromStack(minTS, aggsSize[i], receivedAggs[i], pool);
      AggChange(st, i, col, refs, pool.refs);
      Replaced(aggsSize, receivedAggs, i, size, col);
      aggsSize, receivedAggs := aggsSize[i := size], receivedAggs[i := col];
    }

    method ClearStates()
      requires Valid()
      modifies this`receivedPkts, this`stacksSize, pool`refs, pool`freed
      ensures Valid() && St() == old(St()).(states := PurgeStates(r, old(receivedPkts), 1))
      ensures Accounted(old(pool.refs), old(St()), pool.refs, St())
    {
      hide Accounted, HeldIn, Insert, AddAll, Splice, Sorted, InStep, AllSorted, ParamOk;
      ghost var st0, refs0 := St(), pool.refs;
      AccountedSelf(refs0, st0);
      var stack := 1;
      while stack < |r.predicates|
        invariant 1 <= stack <= |r.predicates| && Valid() && Accounted(refs0, st0, pool.refs, St())
        invariant PurgeStates(r, receivedPkts, stack) == PurgeStates(r, st0.states, 1)
      {
        assert PredicateOk(r, stack);
        ghost var st, refs := St(), pool.refs;
        ClearState(stack);
        AccountedTrans(refs0, st0, refs, st, pool.refs, St());
        stack := stack + 1;
      }
    }

    method ClearNegations()
      requires Valid()
      modifies this`receivedNegs, this`negsSize, pool`refs, pool`freed
      ensures Valid() && St() == old(St()).(negs := PurgeNegs(r, receivedPkts, old(receivedNegs)))
      ensures Accounted(old(pool.refs), old(St()), pool.refs, St())
    {
      hide Accounted, HeldIn, Insert, AddAll, Splice, Sorted, InStep, AllSorted, ParamOk;
      ghost var st0, refs0 := St(), pool.refs;
      AccountedSelf(refs0, st0);
      var negIndex := 0;
      while negIndex < |r.negations|
        invariant 0 <= negIndex <= |r.negations| && Valid() && Accounted(refs0, st0, pool.refs, St())
        invariant forall j :: 0 <= j < |r.negations| ==>
                    receivedNegs[j] == if j < negIndex then PurgeNegs(r, receivedPkts, st0.negs)[j] else st0.negs[j]
      {
        assert NegationOk(r, r.negations[negIndex]);
        ghost var st, refs := St(), pool.refs;
        ClearNegation(negIndex);
        AccountedTrans(refs0, st0, refs, st, pool.refs, St());
        negIndex := negIndex + 1;
      }
      assert receivedNegs == PurgeNegs(r, receivedPkts, st0.negs);
    }

    method ClearAggregates()
      requires Valid()
      modifies this`receivedAggs, this`aggsSize, pool`refs, pool`freed
      ensures Valid() && St() == old(St()).(aggs := PurgeAggs(r, receivedPkts, old(receivedAggs)))
      ensures Accounted(old(pool.refs), old(St()), pool.refs, St())
    {
      hide Accounted, HeldIn, Insert, AddAll, Splice, Sorted, InStep, AllSorted, ParamOk;
      ghost var st0, refs0 := St(), pool.refs;
      AccountedSelf(refs0, st0);
      var aggIndex := 0;
      while aggIndex < |r.aggregates|
        invariant 0 <= aggIndex <= |r.aggregates| && Valid() && Accounted(refs0, st0, pool.refs, St())
        invariant forall j :: 0 <= j < |r.aggregates| ==>
                    receivedAggs[j] == if j < aggIndex then PurgeAggs(r, receivedPkts, st0.aggs)[j] else st0.aggs[j]
      {
        assert AggregateOk(r, r.aggregates[aggIndex]);
        ghost var st, refs := St(), pool.refs;
        ClearAggregate(aggIndex);
        AccountedTrans(refs0, st0, refs, st, pool.refs, St());
        aggIndex := aggIndex + 1;
      }
      assert receivedAggs == PurgeAggs(r, receivedPkts, st0.aggs);
    }

    /** Removes expired packets from all stacks, and deletes those that nobody else holds. */
    method ClearStacks()
      requires Valid()
      modifies this, pool`refs, pool`freed
      ensures Valid() && St() == Purge(r, old(St()))
      ensures Cleared(r, old(St()), St())
      ensures Accounted(old(pool.refs), old(St()), pool.refs, St())
      ensures forall p :: p in old(Held()) && old(pool.refs)[p] == old(Held())[p] && p !in Held() ==> p in pool.freed
    {
      ghost var st0, refs0 := St(), pool.refs;
      PurgeClears(r, st0);
      ClearStates();
      ghost var st1, refs1 := St(), pool.refs;
      ClearNegations();
      ghost var st2, refs2 := St(), pool.refs;
      AccountedTrans(refs0, st0, refs1, st1, refs2, st2);
      ClearAggregates();
      AccountedTrans(refs0, st0, refs2, st2, pool.refs, St());
      LastDropped(refs0, st0, pool.refs, St());
    }

    /** Removes from one state's stack the packets bound to it by a match. */
    method ConsumeState(partialEvents: seq<Partial>, i: nat)
      requires Valid() && AllBound(partialEvents, |r.predicates|) && i < |r.predicates|
      modifies this`receivedPkts, this`stacksSize, pool`refs, pool`freed
      ensures Valid() && St() == SetState(old(St()), i, Without(old(receivedPkts[i]), Used(partialEvents, i)))
      ensures Accounted(old(pool.refs), old(St()), pool.refs, St())
    {
      hide HeldIn, ParamOk, Without, Used, InStep, AllSorted, Sorted, Balanced;
      ColumnOk(stacksSize, receivedPkts, i);
      var pktsToRemove := CollectBound(partialEvents, i);
      ghost var st, refs := St(), pool.refs;
      StateChange(st, i, [], refs, refs);
      var col, size := EraseAll(receivedPkts[i], stacksSize[i], pktsToRemove, pool);
      StateChange(st, i, col, refs, pool.refs);
      Replaced(stacksSize, receivedPkts, i, size, col);
      receivedPkts, stacksSize := receivedPkts[i := col], stacksSize[i := size];
    }

    /** Removes from the consuming states the packets bound to them by a match. */
    method RemoveConsumedEvent(partialEvents: seq<Partial>)
      requires Valid() && AllBound(partialEvents, |r.predicates|)
      modifies this`receivedPkts, this`stacksSize, pool`refs, pool`freed
      ensures Valid() && St() == old(St()).(states := Consume(r, old(receivedPkts), partialEvents))
      ensures Accounted(old(pool.refs), old(St()), pool.refs, St())
    {
      hide Accounted, HeldIn, Insert, AddAll, Splice, Sorted, InStep, AllSorted, ParamOk;
      ghost var st0, refs0 := St(), pool.refs;
      AccountedSelf(refs0, st0);
      ghost var goal := Consume(r, st0.states, partialEvents);
      if r.consuming == {} {
        assert receivedPkts == goal;
        return;
      }
      var i := 1;
      SpliceFrom(goal, st0.states, 1);
      while i < |r.predicates|
        invariant 1 <= i <= |r.predicates| && Valid() && Accounted(refs0, st0, pool.refs, St())
        invariant receivedPkts == Splice(goal, st0.states, i)
      {
        ghost var st, refs := St(), pool.refs;
        SpliceStep(goal, st0.states, i);
        if i in r.consuming {
          ConsumeState(partialEvents, i);
          AccountedTrans(refs0, st0, refs, st, pool.refs, St());
        }
        i := i + 1;
      }
    }

    method CollectBound(partialEvents: seq<Partial>, i: nat) returns (pktsToRemove: set<PubPkt>)
      requires i < |r.predicates| && AllBound(partialEvents, |r.predicates|)
      ensures pktsToRemove == Used(partialEvents, i)
    {
      pktsToRemove := {};
      var k := 0;
      while k < |partialEvents|
        invariant 0 <= k <= |partialEvents|
        invariant pktsToRemove == set j | 0 <= j < k :: partialEvents[j][i]
      {
        pktsToRemove := pktsToRemove + {partialEvents[k][i]};
        k := k + 1;
      }
    }

    method GenerateCompositeEvent(partialEvent: Partial) returns (result: Composite)
      requires Shape() && |partialEvent| == |r.predicates|
      ensures IsComposite(r, receivedAggs, partialEvent, result)
      ensures forall j :: 0 <= j < |r.aggregates| ==>
                AggregateOk(r, r.aggregates[j]) && SpelledAggregate(r, j, receivedAggs[j], partialEvent, result.values[j])
    {
      hide AggregateIs, SpelledAggregate, ParamOk;
      var values: seq<Number> := [];
      var j := 0;
      while j < |r.aggregates|
        invariant 0 <= j <= |r.aggregates| && |values| == j
        invariant forall i :: 0 <= i < j ==> AggregateIs(r, i, receivedAggs[i], partialEvent, values[i])
      {
        var value := ComputeAggregate(r, j, receivedAggs[j], partialEvent);
        values := values + [value];
        j := j + 1;
      }
      result := Composite(partialEvent[0].ts, values);
      forall i | 0 <= i < |r.aggregates|
        ensures AggregateOk(r, r.aggregates[i]) && SpelledAggregate(r, i, receivedAggs[i], partialEvent, values[i])
      {
        AggregateIsSpelled(r, i, receivedAggs[i], partialEvent, values[i]);
      }
    }

    /** A composite event for every match, stamped with the terminator's time. */
    method CreateComplexEvents(partialEvents: seq<Partial>) returns (results: seq<Composite>)
      requires Shape() && AllBound(partialEvents, |r.predicates|)
      ensures |results| == |partialEvents|
      ensures forall k :: 0 <= k < |results| ==> IsComposite(r, receivedAggs, partialEvents[k], results[k])
    {
      results := [];
      var k := 0;
      while k < |partialEvents|
        invariant 0 <= k <= |partialEvents| && |results| == k
        invariant forall i :: 0 <= i < k ==> IsComposite(r, receivedAggs, partialEvents[i], results[i])
      {
        var genPkt := GenerateCompositeEvent(partialEvents[k]);
        results := results + [genPkt];
        k := k + 1;
      }
    }

    method PushTerminator(pkt: PubPkt)
      requires Valid() && pkt in pool.refs && receivedPkts[0] == []
      modifies this`receivedPkts, this`stacksSize, pool`refs
      ensures Valid() && St() == SetState(old(St()), 0, [pkt])
      ensures Accounted(old(pool.refs), old(St()), pool.refs, St())
    {
      ghost var st, refs := St(), pool.refs;
      pool.IncRefCount(pkt);
      assert receivedPkts[0] + [pkt] == [pkt];
      StateChange(st, 0, [pkt], refs, pool.refs);
      Replaced(stacksSize, receivedPkts, 0, 1, [pkt]);
      receivedPkts, stacksSize := receivedPkts[0 := receivedPkts[0] + [pkt]], stacksSize[0 := 1];
    }

    method PopTerminator(pkt: PubPkt)
      requires Valid() && receivedPkts[0] == [pkt]
      modifies this`receivedPkts, this`stacksSize, pool`refs, pool`freed
      ensures Valid() && St() == SetState(old(St()), 0, [])
      ensures Accounted(old(pool.refs), old(St()), pool.refs, St())
    {
      ghost var st, refs := St(), pool.refs;
      StateChange(st, 0, [], refs, refs - multiset{pkt});
      assert pkt in multiset(receivedPkts[0]);
      Replaced(stacksSize, receivedPkts, 0, 0, []);
      receivedPkts, stacksSize := receivedPkts[0 := []], stacksSize[0 := 0];
      pool.Release(pkt);
    }

    /** Detection at a terminator, from its arrival to its removal. */
    method StartComputation(pkt: PubPkt) returns (matches: seq<Partial>, results: seq<Composite>)
      requires Valid() && pkt in pool.refs && receivedPkts[0] == []
      modifies this, pool`refs, pool`freed
      ensures Valid() && receivedPkts[0] == []
      ensures (Emission(matches, Terminate(r, old(St()), pkt, true).0.aggs), St()) == Terminate(r, old(St()), pkt, true)
      ensures Accounted(old(pool.refs), old(St()), pool.refs, St())
      ensures |results| == |matches|
      ensures forall k :: 0 <= k < |matches| ==>
                IsComposite(r, Terminate(r, old(St()), pkt, true).0.aggs, matches[k], results[k])
      ensures forall p :: p in old(Held()) && old(pool.refs)[p] == old(Held())[p] && p !in Held() ==> p in pool.freed
    {
      hide Accounted, HeldIn, ParamOk, Detect;
      ghost var st0, refs0 := St(), pool.refs;
      PushTerminator(pkt);
      ghost var st1, refs1 := St(), pool.refs;
      ClearStacks();
      ghost var st2, refs2 := St(), pool.refs;
      AccountedTrans(refs0, st0, refs1, st1, refs2, st2);
      matches := GetPartialResults(pkt);
      results := CreateComplexEvents(matches);
      RemoveConsumedEvent(matches);
      ghost var st3, refs3 := St(), pool.refs;
      AccountedTrans(refs0, st0, refs2, st2, refs3, st3);
      PopTerminator(pkt);
      AccountedTrans(refs0, st0, refs3, st3, pool.refs, St());
      LastDropped(refs0, st0, pool.refs, St());
    }

    method AddToNegations(pkt: PubPkt, keys: set<int>)
      requires Valid() && pkt in pool.refs
      modifies this`receivedNegs, this`negsSize, pool`refs
      ensures Valid() && pkt in pool.refs && St() == old(St()).(negs := AddAll(old(receivedNegs), keys, pkt))
      ensures Accounted(old(pool.refs), old(St()), pool.refs, St())
    {
      hide Accounted, HeldIn, Insert, AddAll, Splice, Sorted, InStep, AllSorted, ParamOk;
      ghost var st0, refs0 := St(), pool.refs;
      AccountedSelf(refs0, st0);
      NegsStoredEnds(st0, keys, pkt);
      var i := 0;
      while i < |r.negations|
        invariant 0 <= i <= |r.negations| && Valid() && Accounted(refs0, st0, pool.refs, St()) && pkt in pool.refs
        invariant St() == NegsStored(st0, keys, pkt, i)
      {
        ghost var st, refs := St(), pool.refs;
        NegsStoredStep(st0, keys, pkt, i);
        if i in keys {
          AddToNegationStack(pkt, i);
          AccountedTrans(refs0, st0, refs, st, pool.refs, St());
        }
        i := i + 1;
      }
    }

    method AddToAggregates(pkt: PubPkt, keys: set<int>)
      requires Valid() && pkt in pool.refs
      modifies this`receivedAggs, this`aggsSize, pool`refs
      ensures Valid() && pkt in pool.refs && St() == old(St()).(aggs := AddAll(old(receivedAggs), keys, pkt))
      ensures Accounted(old(pool.refs), old(St()), pool.refs, St())
    {
      hide Accounted, HeldIn, Insert, AddAll, Splice, Sorted, InStep, AllSorted, ParamOk;
      ghost var st0, refs0 := St(), pool.refs;
      AccountedSelf(refs0, st0);
      AggsStoredEnds(st0, keys, pkt);
      var i := 0;
      while i < |r.aggregates|
        invariant 0 <= i <= |r.aggregates| && Valid() && Accounted(refs0, st0, pool.refs, St()) && pkt in pool.refs
        invariant St() == AggsStored(st0, keys, pkt, i)
      {
        ghost var st, refs := St(), pool.refs;
        AggsStoredStep(st0, keys, pkt, i);
        if i in keys {
          AddToAggregateStack(pkt, i);
          AccountedTrans(refs0, st0, refs, st, pool.refs, St());
        }
        i := i + 1;
      }
    }

    method AddToStates(pkt: PubPkt, keys: set<int>)
      requires Valid() && pkt in pool.refs
      modifies this`receivedPkts, this`stacksSize, pool`refs
      ensures Valid() && pkt in pool.refs && St() == old(St()).(states := AddAll(old(receivedPkts), keys - {0}, pkt))
      ensures Accounted(old(pool.refs), old(St()), pool.refs, St())
    {
      hide Accounted, HeldIn, Insert, AddAll, Splice, Sorted, InStep, AllSorted, ParamOk;
      ghost var st0, refs0 := St(), pool.refs;
      AccountedSelf(refs0, st0);
      StatesStoredEnds(st0, keys, pkt);
      var i := 0;
      while i < |r.predicates|
        invariant 0 <= i <= |r.predicates| && Valid() && Accounted(refs0, st0, pool.refs, St()) && pkt in pool.refs
        invariant St() == StatesStored(st0, keys, pkt, i)
      {
        ghost var st, refs := St(), pool.refs;
        StatesStoredStep(st0, keys, pkt, i);
        if i in keys && i != 0 {
          AddToStack(pkt, i);
          AccountedTrans(refs0, st0, refs, st, pool.refs, St());
        }
        i := i + 1;
      }
    }

    /** One publication through the rule: negations, aggregates, states, then the terminator. */
    method ProcessPkt(pkt: PubPkt, states: set<int>, negs: set<int>, aggs: set<int>)
      returns (matches: seq<Partial>, results: seq<Composite>)
      requires Valid() && pkt in pool.refs && receivedPkts[0] == []
      modifies this, pool`refs, pool`freed
      ensures Valid() && receivedPkts[0] == []
      ensures var step := Step(r, old(St()), Input(pkt, states, negs, aggs), true);
              St() == step.1 && matches == step.0.matches && |results| == |matches|
              && forall k :: 0 <= k < |matches| ==> IsComposite(r, step.0.aggs, matches[k], results[k])
      ensures Accounted(old(pool.refs), old(St()), pool.refs, St())
    {
      hide Accounted, HeldIn, ParamOk, Terminate, Insert;
      ghost var st0, refs0 := St(), pool.refs;
      AddToNegations(pkt, negs);
      ghost var st1, refs1 := St(), pool.refs;
      AddToAggregates(pkt, aggs);
      ghost var st2, refs2 := St(), pool.refs;
      AccountedTrans(refs0, st0, refs1, st1, refs2, st2);
      AddToStates(pkt, states);
      ghost var st3, refs3 := St(), pool.refs;
      AccountedTrans(refs0, st0, refs2, st2, refs3, st3);
      assert st3 == Receive(st0, Input(pkt, states, negs, aggs));
      matches, results := [], [];
      if 0 in states {
        matches, results := StartComputation(pkt);
        AccountedTrans(refs0, st0, refs3, st3, pool.refs, St());
      }
    }
  }

  /** A composite event: its time stamp, and the value of each aggregate of the rule. */
  datatype Composite = Composite(ts: nat, values: seq<Number>)

  ghost predicate IsComposite(r: Rule, aggs: seq<seq<PubPkt>>, m: Partial, c: Composite)
    requires WellFormed(r) && |m| == |r.predicates| && |aggs| == |r.aggregates|
  {
    c.ts == m[0].ts && |c.values| == |r.aggregates|
    && forall j :: 0 <= j < |r.aggregates| ==> AggregateIs(r, j, aggs[j], m, c.values[j])
  }

  lemma AccountedTrans(refs: multiset<PubPkt>, st: Stacks, refs': multiset<PubPkt>, st': Stacks, refs'': multiset<PubPkt>, st'': Stacks)
    requires Accounted(refs, st, refs', st') && Accounted(refs', st', refs'', st'')
    ensures Accounted(refs, st, refs'', st'')
  {
    BalancedAt(refs, HeldIn(st), refs', HeldIn(st'));
    BalancedAt(refs', HeldIn(st'), refs'', HeldIn(st''));
    forall p ensures (refs'' + HeldIn(st))[p] == (refs + HeldIn(st''))[p] {
    }
  }

  lemma {:induction false} JoinNone(r: Rule, st: Stacks, i: nat)
    requires WellFormed(r) && Shaped(r, st) && 1 <= i <= |r.predicates|
    ensures Join(r, st, [], i) == []
    decreases |r.predicates| - i
  {
    if i < |r.predicates| { JoinNone(r, st, i + 1); }
  }

  lemma {:induction false} BagOfNone(cols: seq<seq<PubPkt>>)
    requires forall i :: 0 <= i < |cols| ==> cols[i] == []
    ensures BagOf(cols) == multiset{}
  {
    if cols != [] { BagOfNone(cols[1..]); }
  }
}
