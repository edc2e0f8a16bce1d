/** Aggregate values: a fold over the packets received inside a window. */
module Aggregates {
  import opened Events
  import opened Rules
  import opened Search
  import opened Detection

  /** A computed aggregate, or not-a-number. */
  datatype Number = NaN | Num(v: real)

  /** The number an event contributes: strings, booleans and missing attributes count 0. */
  function Contribution(r: Rule, e: PubPkt, name: Name): real {
    var k := Lookup(e.attributes, name);
    if k == -1 then 0.0
    else match e.attributes[k].value
      case IntVal(i) => i as real
      case FloatVal(bits) => r.prims.float(bits)
      case _ => 0.0
  }

  function AggLow(a: Aggregate, m: Partial): nat
    requires 0 <= a.upperId < |m| && a.lowerId < |m|
  {
    if a.lowerId < 0 then Minus(m[a.upperId].ts, a.lowerTime) else m[a.lowerId].ts
  }

  /** The packets of a stack strictly inside an interval. */
  function Window(col: seq<PubPkt>, lo: nat, hi: nat): seq<PubPkt> {
    if col == [] then []
    else (if Within(lo, col[0], hi) then [col[0]] else []) + Window(col[1..], lo, hi)
  }

  /** The contributions of those packets that pass aggregate j's parameters. */
  function Contributions(r: Rule, j: int, w: seq<PubPkt>, m: Partial): seq<real>
    requires WellFormed(r) && 0 <= j < |r.aggregates| && |m| == |r.predicates|
  {
    if w == [] then []
    else
      var e := w[|w| - 1];
      Contributions(r, j, w[..|w| - 1], m)
      + (if ParamsHold(r, AGG, j, e, m) then [Contribution(r, e, r.aggregates[j].name)] else [])
  }

  function Sum(vs: seq<real>): real {
    if vs == [] then 0.0 else Sum(vs[..|vs| - 1]) + vs[|vs| - 1]
  }

  ghost predicate Least(vs: seq<real>, x: real) {
    x in vs && forall k :: 0 <= k < |vs| ==> x <= vs[k]
  }

  ghost predicate Greatest(vs: seq<real>, x: real) {
    x in vs && forall k :: 0 <= k < |vs| ==> vs[k] <= x
  }

  /** `x` is the value of an aggregate function over a window: the meaning of the functions. */
  ghost predicate IsAggregate(fun: AggregateFun, windowEmpty: bool, vs: seq<real>, x: Number) {
    if windowEmpty then x == (if fun == COUNT then Num(0.0) else NaN)
    else match fun
      case SUM => x == Num(Sum(vs))
      case COUNT => x == Num(|vs| as real)
      case AVG => if vs == [] then x == NaN else x == Num(Sum(vs) / (|vs| as real))
      case MIN => x.Num? && if vs == [] then x.v == 0.0 else Least(vs, x.v)
      case MAX => x.Num? && if vs == [] then x.v == 0.0 else Greatest(vs, x.v)
      case NONE => x == Num(0.0)
  }

  /** `x` is the value of aggregate j for a match, given everything received for it. */
  ghost predicate AggregateIs(r: Rule, j: int, col: seq<PubPkt>, m: Partial, x: Number)
    requires WellFormed(r) && 0 <= j < |r.aggregates| && |m| == |r.predicates|
  {
    var a := r.aggregates[j];
    assert AggregateOk(r, a);
    var w := Window(col, AggLow(a, m), m[a.upperId].ts);
    IsAggregate(a.fun, w == [], Contributions(r, j, w, m), x)
  }

  lemma AggregateUnique(fun: AggregateFun, windowEmpty: bool, vs: seq<real>, x: Number, y: Number)
    requires IsAggregate(fun, windowEmpty, vs, x) && IsAggregate(fun, windowEmpty, vs, y)
    ensures x == y
  {
  }

  lemma {:induction false} WindowAppend(a: seq<PubPkt>, b: seq<PubPkt>, lo: nat, hi: nat)
    ensures Window(a + b, lo, hi) == Window(a, lo, hi) + Window(b, lo, hi)
  {
    hide Within;
    if a == [] {
      NoneBefore(b);
      NoneBefore(Window(b, lo, hi));
    } else {
      WindowAppend(a[1..], b, lo, hi);
      TailOfSum(a, b);
      Cat(if Within(lo, a[0], hi) then [a[0]] else [], Window(a[1..], lo, hi), Window(b, lo, hi));
    }
  }

  lemma {:induction false} WindowNone(col: seq<PubPkt>, lo: nat, hi: nat)
    requires forall k :: 0 <= k < |col| ==> !Within(lo, col[k], hi)
    ensures Window(col, lo, hi) == []
  {
    if col != [] { WindowNone(col[1..], lo, hi); }
  }

  lemma {:induction false} WindowAll(col: seq<PubPkt>, lo: nat, hi: nat)
    requires forall k :: 0 <= k < |col| ==> Within(lo, col[k], hi)
    ensures Window(col, lo, hi) == col
  {
    if col != [] {
      WindowAll(col[1..], lo, hi);
      assert col == [col[0]] + col[1..];
    }
  }

  /** On a sorted stack the window is the slice between its two bounds. */
  lemma WindowIsSlice(col: seq<PubPkt>, lo: nat, hi: nat, a: nat, b: nat)
    requires a <= b <= |col|
    requires forall k :: 0 <= k < a ==> col[k].ts <= lo
    requires forall k :: a <= k < b ==> Within(lo, col[k], hi)
    requires forall k :: b <= k < |col| ==> col[k].ts >= hi
    ensures Window(col, lo, hi) == col[a..b]
  {
    var x, y, z := col[..a], col[a..b], col[b..];
    Halves(col, a);
    Middle(col, a, b);
    WindowAppend(x, y + z, lo, hi);
    WindowAppend(y, z, lo, hi);
    WindowNone(x, lo, hi);
    WindowAll(y, lo, hi);
    WindowNone(z, lo, hi);
  }

  /** What the accumulators hold after the contributions `vs`. */
  ghost predicate Running(vs: seq<real>, sum: real, count: int, min: real, max: real, firstValue: bool) {
    && sum == Sum(vs) && count == |vs| && firstValue == (vs == [])
    && if vs == [] then min == max == 0.0 else Least(vs, min) && Greatest(vs, max)
  }

  lemma RunningNone()
    ensures Running([], 0.0, 0, 0.0, 0.0, true)
  {
  }

  lemma RunningStep(vs: seq<real>, sum: real, count: int, min: real, max: real, firstValue: bool, val: real)
    requires Running(vs, sum, count, min, max, firstValue)
    ensures Running(vs + [val], sum + val, count + 1,
                    if firstValue || val < min then val else min,
                    if firstValue then val else if val < min then max else if val > max then val else max, false)
  {
    var ws := vs + [val];
    assert ws[..|vs|] == vs;
    assert ws[|vs|] == val && forall k :: 0 <= k < |vs| ==> ws[k] == vs[k];
    if vs != [] {
      var a, b :| 0 <= a < |vs| && 0 <= b < |vs| && vs[a] == min && vs[b] == max;
      assert ws[a] == min && ws[b] == max;
    }
  }

  /** The value of aggregate j for a complete match. */
  method ComputeAggregate(r: Rule, j: int, col: seq<PubPkt>, m: Partial) returns (x: Number)
    requires WellFormed(r) && 0 <= j < |r.aggregates| && |m| == |r.predicates| && Sorted(col)
    ensures AggregateIs(r, j, col, m, x)
  {
    hide Contributions, ParamOk, Window, Sum;
    var agg := r.aggregates[j];
    assert AggregateOk(r, agg);
    var maxTS := m[agg.upperId].ts;
    var minTS := if agg.lowerId < 0 then Minus(maxTS, agg.lowerTime) else m[agg.lowerId].ts;
    assert col[..|col|] == col;
    var index1 := GetFirstValidElement(col, |col|, minTS);
    if index1 < 0 {
      WindowNone(col, minTS, maxTS);
      return if agg.fun == COUNT then Num(0.0) else NaN;
    }
    var index2 := GetLastValidElement(col, |col|, maxTS, index1);
    if index2 < 0 {
      WindowIsSlice(col, minTS, maxTS, index1, index1);
      return if agg.fun == COUNT then Num(0.0) else NaN;
    }
    WindowIsSlice(col, minTS, maxTS, index1, index2 + 1);
    var sum, count, min, max := FoldWindow(r, j, col, index1, index2, m);
    match agg.fun {
      case SUM => return Num(sum);
      case MAX => return Num(max);
      case MIN => return Num(min);
      case COUNT => return Num(count as real);
      case AVG => return if count == 0 then NaN else Num(sum / (count as real));
      case NONE => return Num(0.0);
    }
  }

  lemma OneMore(r: Rule, j: int, col: seq<PubPkt>, a: nat, i: nat, m: Partial)
    requires WellFormed(r) && 0 <= j < |r.aggregates| && |m| == |r.predicates| && a <= i < |col|
    ensures Contributions(r, j, col[a..i + 1], m) == Contributions(r, j, col[a..i], m)
              + if ParamsHold(r, AGG, j, col[i], m) then [Contribution(r, col[i], r.aggregates[j].name)] else []
  {
    hide Contribution, ParamsHold, WellFormed;
    assert col[a..i + 1][..i - a] == col[a..i];
  }

  lemma NoneYet(r: Rule, j: int, col: seq<PubPkt>, a: nat, m: Partial)
    requires WellFormed(r) && 0 <= j < |r.aggregates| && |m| == |r.predicates| && a <= |col|
    ensures Contributions(r, j, col[a..a], m) == []
  {
  }

  /** The accumulating loop over the packets of the window. */
  method FoldWindow(r: Rule, j: int, col: seq<PubPkt>, index1: nat, index2: nat, m: Partial)
    returns (sum: real, count: int, min: real, max: real)
    requires WellFormed(r) && 0 <= j < |r.aggregates| && |m| == |r.predicates| && index1 <= index2 < |col|
    ensures var vs := Contributions(r, j, col[index1..index2 + 1], m); Running(vs, sum, count, min, max, vs == [])
  {
    hide Running, Contribution, Contributions, ParamsHold, WellFormed;
    var firstValue := true;
    sum, count, min, max := 0.0, 0, 0.0, 0.0;
    ghost var vs: seq<real> := [];
    RunningNone();
    NoneYet(r, j, col, index1, m);
    var i := index1;
    while i <= index2
      invariant index1 <= i <= index2 + 1
      invariant vs == Contributions(r, j, col[index1..i], m)
      invariant Running(vs, sum, count, min, max, firstValue) && firstValue == (vs == [])
    {
      var pkt := col[i];
      OneMore(r, j, col, index1, i, m);
      i := i + 1;
      if !ParamsHold(r, AGG, j, pkt, m) {
        assert vs + [] == vs;
        continue;
      }
      var val := Contribution(r, pkt, r.aggregates[j].name);
      RunningStep(vs, sum, count, min, max, firstValue, val);
      vs := vs + [val];
      count := count + 1;
      sum := sum + val;
      if firstValue {
        min, max, firstValue := val, val, false;
        continue;
      }
      if val < min {
        min := val;
      } else if val > max {
        max := val;
      }
    }
  }
}
