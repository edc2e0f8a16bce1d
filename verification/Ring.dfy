/** Time stamps in a ring of fixed size, and the searches over its window. */
module Ring {
  import opened Events

  const ALLOC_SIZE := 65536

  /** The window from `low` up to, not including, `high`; equal bounds are an empty window. */
  function Size(low: int, high: int): int {
    if high >= low then high - low else ALLOC_SIZE + high - low
  }

  predicate Bounds(low: int, high: int) {
    0 <= low < ALLOC_SIZE && 0 <= high < ALLOC_SIZE
  }

  function Slot(low: int, k: int): int {
    (low + k) % ALLOC_SIZE
  }

  /** The window laid out in a line. */
  function Unrolled(ring: seq<nat>, low: int, high: int): (w: seq<nat>)
    requires |ring| == ALLOC_SIZE && Bounds(low, high)
    ensures |w| == Size(low, high)
  {
    seq(Size(low, high), k requires 0 <= k < Size(low, high) => ring[Slot(low, k)])
  }

  lemma UnrolledAt(ring: seq<nat>, low: int, high: int, k: int)
    requires |ring| == ALLOC_SIZE && Bounds(low, high) && 0 <= k < Size(low, high)
    ensures 0 <= Slot(low, k) < ALLOC_SIZE && Unrolled(ring, low, high)[k] == ring[Slot(low, k)]
  {
  }

  lemma SlotIs(low: int, k: int)
    ensures Slot(low, k) == (low + k) % ALLOC_SIZE == (k + low) % ALLOC_SIZE
  {
  }

  lemma EndSlots(low: int, high: int)
    requires Bounds(low, high) && low != high
    ensures Size(low, high) > 0 && Slot(low, 0) == low
    ensures Slot(low, Size(low, high) - 1) == if high == 0 then ALLOC_SIZE - 1 else high - 1
  {
  }

  predicate Ascending(w: seq<nat>) {
    forall a, b :: 0 <= a < b < |w| ==> w[a] <= w[b]
  }

  /** How many leading time stamps are not later than `min`. */
  function Expired(w: seq<nat>, min: nat): (n: nat)
    ensures n <= |w|
  {
    if w == [] || w[0] > min then 0 else 1 + Expired(w[1..], min)
  }

  lemma {:induction false} ExpiredAt(w: seq<nat>, min: nat, n: nat)
    requires n <= |w| && Ascending(w) && (n > 0 ==> w[n - 1] <= min) && (n < |w| ==> w[n] > min)
    ensures Expired(w, min) == n
  {
    if n > 0 {
      assert forall k :: 0 <= k < |w| - 1 ==> w[1..][k] == w[k + 1];
      ExpiredAt(w[1..], min, n - 1);
    }
  }

  /** The expired ones of a sorted window are exactly those not later than `min`. */
  lemma {:induction false} ExpiredIsExact(w: seq<nat>, min: nat)
    requires Ascending(w)
    ensures forall k :: 0 <= k < |w| ==> (w[k] <= min <==> k < Expired(w, min))
  {
    if w != [] {
      assert forall k :: 0 <= k < |w| - 1 ==> w[1..][k] == w[k + 1];
      ExpiredIsExact(w[1..], min);
      forall k | 0 < k < |w| ensures w[k] <= min <==> k < Expired(w, min) {
        assert w[1..][k - 1] == w[k] && w[0] <= w[k];
      }
    }
  }

  /** The slot of the first element later than `min`, or -1: where the search along the
      unrolled window ends. */
  method GetFirstValidElementCircular(column: array<nat>, lowIndex: int, highIndex: int, min: nat) returns (r: int)
    requires column.Length == ALLOC_SIZE && Bounds(lowIndex, highIndex) && lowIndex != highIndex
    requires Ascending(Unrolled(column[..], lowIndex, highIndex))
    ensures var w := Unrolled(column[..], lowIndex, highIndex);
            r == if Expired(w, min) == |w| then -1 else Slot(lowIndex, Expired(w, min))
  {
    hide Unrolled, Slot, Ascending, Expired;
    ghost var w := Unrolled(column[..], lowIndex, highIndex);
    EndSlots(lowIndex, highIndex);
    var size;
    if highIndex >= lowIndex { size := highIndex - lowIndex; } else { size := ALLOC_SIZE + highIndex - lowIndex; }
    var relativeMin, relativeMax := 0, size - 1;
    var minValue, maxValue := lowIndex, highIndex - 1;
    if maxValue < 0 { maxValue := ALLOC_SIZE + maxValue; }
    UnrolledAt(column[..], lowIndex, highIndex, relativeMax);
    if column[maxValue] <= min {
      ExpiredAt(w, min, |w|);
      return -1;
    }
    while relativeMax - relativeMin > 1
      invariant 0 <= relativeMin <= relativeMax < size
      invariant minValue == Slot(lowIndex, relativeMin) && maxValue == Slot(lowIndex, relativeMax)
      invariant w[relativeMax] > min && (relativeMin > 0 ==> w[relativeMin] <= min)
    {
      var relativeMidPoint := relativeMin + (relativeMax - relativeMin) / 2;
      var midPoint := (relativeMidPoint + lowIndex) % ALLOC_SIZE;
      UnrolledAt(column[..], lowIndex, highIndex, relativeMidPoint);
      assert midPoint == Slot(lowIndex, relativeMidPoint) by { SlotIs(lowIndex, relativeMidPoint); }
      if column[midPoint] <= min {
        relativeMin, minValue := relativeMidPoint, midPoint;
      } else {
        relativeMax, maxValue := relativeMidPoint, midPoint;
      }
    }
    UnrolledAt(column[..], lowIndex, highIndex, relativeMin);
    if relativeMax - relativeMin == 0 {
      ExpiredAt(w, min, relativeMin);
      return minValue;
    }
    if column[minValue] > min {
      ExpiredAt(w, min, relativeMin);
      return minValue;
    }
    ExpiredAt(w, min, relativeMax);
    return maxValue;
  }

  /** Moves the low bound past the expired elements; the size of what is left. */
  method DeleteInvalidElementsCircular(column: array<nat>, lowIndex: int, highIndex: int, min: nat) returns (newSize: int, newLow: int)
    requires column.Length == ALLOC_SIZE && Bounds(lowIndex, highIndex) && lowIndex != highIndex
    requires Ascending(Unrolled(column[..], lowIndex, highIndex))
    ensures Bounds(newLow, highIndex) && newSize == Size(newLow, highIndex)
    ensures var w := Unrolled(column[..], lowIndex, highIndex);
            Unrolled(column[..], newLow, highIndex) == w[Expired(w, min)..]
  {
    ghost var w := Unrolled(column[..], lowIndex, highIndex);
    var columnSize;
    if highIndex - lowIndex >= 0 { columnSize := highIndex - lowIndex; } else { columnSize := ALLOC_SIZE + highIndex - lowIndex; }
    var firstValidElement := GetFirstValidElementCircular(column, lowIndex, highIndex, min);
    DropLow(column[..], lowIndex, highIndex, Expired(w, min));
    if firstValidElement < 0 { return 0, highIndex; }
    if firstValidElement == lowIndex { return columnSize, lowIndex; }
    newLow := firstValidElement;
    if highIndex >= newLow { newSize := highIndex - newLow; } else { newSize := ALLOC_SIZE + highIndex - newLow; }
  }

  lemma DropLow(ring: seq<nat>, low: int, high: int, n: nat)
    requires |ring| == ALLOC_SIZE && Bounds(low, high) && n <= Size(low, high)
    ensures Bounds(Slot(low, n), high) && Unrolled(ring, Slot(low, n), high) == Unrolled(ring, low, high)[n..]
    ensures n == Size(low, high) ==> Slot(low, n) == high
  {
    assert Size(Slot(low, n), high) == Size(low, high) - n;
    assert forall k :: 0 <= k < Size(low, high) - n ==> Slot(Slot(low, n), k) == Slot(low, n + k);
  }

  /** A ring that receives events at its high bound. One slot always stays free. */
  class Stack {
    var timestamps: array<nat>
    var lowIndex: int
    var highIndex: int

    ghost predicate Valid()
      reads this, timestamps
    {
      timestamps.Length == ALLOC_SIZE && Bounds(lowIndex, highIndex)
    }

    ghost function Contents(): seq<nat>
      requires Valid()
      reads this, timestamps
    {
      Unrolled(timestamps[..], lowIndex, highIndex)
    }

    constructor ()
      ensures Valid() && fresh(timestamps) && Contents() == []
    {
      timestamps := new nat[ALLOC_SIZE];
      lowIndex, highIndex := 0, 0;
    }

    /** A ring of 65535 events is full and drops the event; events that arrive in time order keep the window sorted. */
    method AddEventToStack(ts: nat)
      requires Valid()
      modifies this`highIndex, timestamps
      ensures timestamps == old(timestamps) && Valid()
      ensures Contents() == if |old(Contents())| == 65535 then old(Contents()) else old(Contents()) + [ts]
      ensures old(Ascending(Contents())) && (forall k :: 0 <= k < |old(Contents())| ==> old(Contents())[k] <= ts) ==> Ascending(Contents())
    {
      var index := highIndex;
      if (index + 1) % ALLOC_SIZE == lowIndex { return; }
      ghost var before := timestamps[..];
      timestamps[index] := ts;
      highIndex := (index + 1) % ALLOC_SIZE;
      AddHigh(before, timestamps[..], lowIndex, index, ts);
    }

    /** As the callers for state stacks do, an empty stack is left alone. */
    method DeleteExpired(min: nat)
      requires Valid() && Ascending(Contents())
      modifies this`lowIndex
      ensures timestamps == old(timestamps) && Valid()
      ensures Contents() == old(Contents())[Expired(old(Contents()), min)..] && Ascending(Contents())
    {
      if highIndex - lowIndex == 0 { return; }
      var size, low := DeleteInvalidElementsCircular(timestamps, lowIndex, highIndex, min);
      lowIndex := low;
    }
  }

  lemma AddHigh(ring: seq<nat>, ring': seq<nat>, low: int, high: int, ts: nat)
    requires |ring| == ALLOC_SIZE && Bounds(low, high) && Slot(high, 1) != low && ring' == ring[high := ts]
    ensures Bounds(low, Slot(high, 1)) && Size(low, high) < ALLOC_SIZE - 1
    ensures Unrolled(ring', low, Slot(high, 1)) == Unrolled(ring, low, high) + [ts]
  {
    assert Size(low, Slot(high, 1)) == Size(low, high) + 1;
    assert Slot(low, Size(low, high)) == high;
    assert forall k :: 0 <= k < Size(low, high) ==> Slot(low, k) != high;
  }
}
