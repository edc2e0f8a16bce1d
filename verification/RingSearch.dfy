/** The search for the last element of a ring's window, and the windows on which it is right. */
module RingSearch {
  import opened Events
  import opened Ring

  /** A slot or -1, or a read outside the ring. */
  datatype Hit = Hit(slot: int) | Outside

  /** The search for the last element as the code computes it, on any window. */
  function LastSlot(ring: seq<nat>, low: int, high: int, max: nat, minIndex: int): Hit
    requires |ring| == ALLOC_SIZE && Bounds(low, high) && minIndex < ALLOC_SIZE
  {
    if minIndex < 0 then Hit(-1)
    else if ring[minIndex] >= max then Hit(-1)
    else
      var size := if high >= low then high - low else ALLOC_SIZE + high - minIndex;
      Narrow(ring, low, max, 0, size - 1, low, if high - 1 < 0 then ALLOC_SIZE - (high - 1) else high - 1)
  }

  /** The halving loop and the choice between the two slots it leaves. */
  function Narrow(ring: seq<nat>, low: int, max: nat, relMin: int, relMax: int, minSlot: int, maxSlot: int): Hit
    requires |ring| == ALLOC_SIZE && 0 <= low && 0 <= relMin
    decreases relMax - relMin
  {
    if relMax - relMin > 1 then
      var mid := relMin + (relMax - relMin) / 2;
      var slot := (mid + low) % ALLOC_SIZE;
      if ring[slot] >= max then Narrow(ring, low, max, relMin, mid, minSlot, slot)
      else Narrow(ring, low, max, mid, relMax, slot, maxSlot)
    else if relMax == relMin then Hit(minSlot)
    else if !(0 <= maxSlot < ALLOC_SIZE) then Outside
    else Hit(if ring[maxSlot] < max then maxSlot else minSlot)
  }

  lemma NarrowStep(ring: seq<nat>, low: int, max: nat, a: int, b: int, minSlot: int, maxSlot: int)
    requires |ring| == ALLOC_SIZE && 0 <= low && 0 <= a < b - 1
    ensures var mid := a + (b - a) / 2;
            var slot := (mid + low) % ALLOC_SIZE;
            Narrow(ring, low, max, a, b, minSlot, maxSlot)
            == if ring[slot] >= max then Narrow(ring, low, max, a, mid, minSlot, slot) else Narrow(ring, low, max, mid, b, slot, maxSlot)
  {
  }

  lemma NarrowEnd(ring: seq<nat>, low: int, max: nat, a: int, b: int, minSlot: int, maxSlot: int)
    requires |ring| == ALLOC_SIZE && 0 <= low && 0 <= a && b - a <= 1
    ensures Narrow(ring, low, max, a, b, minSlot, maxSlot)
         == if a == b then Hit(minSlot)
            else if !(0 <= maxSlot < ALLOC_SIZE) then Outside
            else Hit(if ring[maxSlot] < max then maxSlot else minSlot)
  {
  }

  /** The slot of the last element earlier than `max`, or -1 when the one at `minIndex` is not. */
  method GetLastValidElementCircular(column: array<nat>, lowIndex: int, highIndex: int, max: nat, minIndex: int) returns (r: Hit)
    requires column.Length == ALLOC_SIZE && Bounds(lowIndex, highIndex) && minIndex < ALLOC_SIZE
    ensures r == LastSlot(column[..], lowIndex, highIndex, max, minIndex)
    ensures minIndex < 0 || column[minIndex] >= max ==> r == Hit(-1)
    ensures minIndex >= 0 && column[minIndex] < max && Inside(lowIndex, highIndex, minIndex)
            && Searchable(lowIndex, highIndex, minIndex) && Ascending(Unrolled(column[..], lowIndex, highIndex)) ==>
              r == Hit(Slot(lowIndex, Before(Unrolled(column[..], lowIndex, highIndex), max) - 1))
  {
    hide Unrolled, Slot, Ascending, Before, Searchable, Inside, Narrow;
    if minIndex < 0 { return Hit(-1); }
    var size;
    if highIndex >= lowIndex { size := highIndex - lowIndex; } else { size := ALLOC_SIZE + highIndex - minIndex; }
    var relativeMin, relativeMax := 0, size - 1;
    var minValue, maxValue := lowIndex, highIndex - 1;
    if maxValue < 0 { maxValue := ALLOC_SIZE - maxValue; }
    if column[minIndex] >= max { return Hit(-1); }
    ghost var ring := column[..];
    ghost var found := LastSlot(ring, lowIndex, highIndex, max, minIndex);
    if Inside(lowIndex, highIndex, minIndex) && Searchable(lowIndex, highIndex, minIndex) && Ascending(Unrolled(ring, lowIndex, highIndex)) {
      SearchableIsRight(ring, lowIndex, highIndex, max, minIndex);
    }
    while relativeMax - relativeMin > 1
      invariant 0 <= relativeMin
      invariant Narrow(ring, lowIndex, max, relativeMin, relativeMax, minValue, maxValue) == found
    {
      var relativeMidPoint := relativeMin + (relativeMax - relativeMin) / 2;
      var midPoint := (relativeMidPoint + lowIndex) % ALLOC_SIZE;
      NarrowStep(ring, lowIndex, max, relativeMin, relativeMax, minValue, maxValue);
      if column[midPoint] >= max {
        relativeMax, maxValue := relativeMidPoint, midPoint;
      } else {
        relativeMin, minValue := relativeMidPoint, midPoint;
      }
    }
    NarrowEnd(ring, lowIndex, max, relativeMin, relativeMax, minValue, maxValue);
    if relativeMax == relativeMin { return Hit(minValue); }
    if !(0 <= maxValue < ALLOC_SIZE) { return Outside; }
    if column[maxValue] < max { return Hit(maxValue); }
    return Hit(minValue);
  }

  // ---- What is looked for.

  /** How many leading time stamps are earlier than `max`. */
  function Before(w: seq<nat>, max: nat): (n: nat)
    ensures n <= |w|
  {
    if w == [] || w[0] >= max then 0 else 1 + Before(w[1..], max)
  }

  /** Those of a sorted window that are not earlier are exactly the ones after them. */
  lemma {:induction false} BeforeIsExact(w: seq<nat>, max: nat)
    requires Ascending(w)
    ensures forall k :: 0 <= k < |w| ==> (w[k] >= max <==> k >= Before(w, max))
  {
    if w != [] {
      assert forall k :: 0 <= k < |w| - 1 ==> w[1..][k] == w[k + 1];
      BeforeIsExact(w[1..], max);
      forall k | 0 < k < |w| ensures w[k] >= max <==> k >= Before(w, max) {
        assert w[1..][k - 1] == w[k] && w[0] <= w[k];
      }
    }
  }

  /** Where a slot lies, counted from the low bound. */
  function Position(low: int, slot: int): int {
    if slot >= low then slot - low else slot - low + ALLOC_SIZE
  }

  predicate Inside(low: int, high: int, minIndex: int) {
    low != high && 0 <= minIndex < ALLOC_SIZE && Position(low, minIndex) < Size(low, high)
  }

  /** Whether the search finds the last element earlier than `max` whatever the ring holds. */
  ghost predicate Right(low: int, high: int, minIndex: int)
    requires Bounds(low, high) && 0 <= minIndex < ALLOC_SIZE
  {
    forall ring: seq<nat>, max: nat ::
      |ring| == ALLOC_SIZE && Ascending(Unrolled(ring, low, high)) && ring[minIndex] < max ==>
        LastSlot(ring, low, high, max, minIndex) == Hit(Slot(low, Before(Unrolled(ring, low, high), max) - 1))
  }

  /** Halving a distance, rounded up, comes past `y`. */
  predicate HalvesTo(d: int, y: int)
    requires y >= 1
    decreases d
  {
    d == y || (d > y && HalvesTo(d - d / 2, y))
  }

  /** The windows on which the search is right. One that is not wrapped always is. One searched
      from between its low bound and the ring's end has to be searched from the low bound itself,
      and must not end at slot 0 unless it is that one slot. One searched from below its high
      bound is taken to be longer than it is, by the `g` free slots and the `d` elements it is
      searched from; the halving then has to come past the last element, and from there over
      the free slots. */
  predicate Searchable(low: int, high: int, minIndex: int) {
    if low < high then true
    else if minIndex >= low then minIndex == low && (high > 0 || low == ALLOC_SIZE - 1)
    else minIndex < high < low && Halved(low - high, high - minIndex)
  }

  predicate Halved(g: int, d: int)
    requires g >= 1 && d >= 1
  {
    HalvesTo(ALLOC_SIZE + d - 1, g + d) && (d >= g + 2 || (g == 1 && d <= 2))
  }

  // ---- The halving on any ring.

  predicate Late(ring: seq<nat>, low: int, max: nat, q: int)
    requires |ring| == ALLOC_SIZE
  {
    ring[Slot(low, q)] >= max
  }

  lemma SlotWraps(low: int, a: int)
    ensures Slot(low, ALLOC_SIZE + a) == Slot(low, a)
  {
  }

  lemma SlotPosition(low: int, slot: int)
    requires 0 <= low < ALLOC_SIZE && 0 <= slot < ALLOC_SIZE
    ensures 0 <= Position(low, slot) < ALLOC_SIZE && Slot(low, Position(low, slot)) == slot
  {
  }

  /** A stretch whose first positions are not late and whose others are: the halving ends at the
      boundary, or at the end when none is late, where the slot given for it decides. */
  lemma {:induction false} NarrowSplits(ring: seq<nat>, low: int, max: nat, a: int, b: int, x: int, maxSlot: int)
    requires |ring| == ALLOC_SIZE && 0 <= low && 0 <= a <= x < b
    requires forall q :: a <= q < b ==> (Late(ring, low, max, q) <==> q > x)
    ensures Narrow(ring, low, max, a, b, Slot(low, a), maxSlot)
         == if x < b - 1 then Hit(Slot(low, x))
            else if !(0 <= maxSlot < ALLOC_SIZE) then Outside
            else Hit(if ring[maxSlot] < max then maxSlot else Slot(low, x))
    decreases b - a
  {
    hide Slot;
    if b - a > 1 {
      var mid := a + (b - a) / 2;
      SlotIs(low, mid);
      if Late(ring, low, max, mid) { NarrowSplits(ring, low, max, a, mid, x, Slot(low, mid)); } else { NarrowSplits(ring, low, max, mid, b, x, maxSlot); }
    }
  }

  /** Inside a sorted window the late positions are those from `Before` on. */
  lemma WindowLate(ring: seq<nat>, low: int, high: int, max: nat)
    requires |ring| == ALLOC_SIZE && Bounds(low, high) && Ascending(Unrolled(ring, low, high))
    ensures forall q :: 0 <= q < Size(low, high) ==> (Late(ring, low, max, q) <==> q >= Before(Unrolled(ring, low, high), max))
  {
    hide Ascending, Before, Slot, Unrolled;
    var w := Unrolled(ring, low, high);
    BeforeIsExact(w, max);
    forall q | 0 <= q < Size(low, high) ensures Late(ring, low, max, q) <==> q >= Before(w, max) {
      UnrolledAt(ring, low, high, q);
    }
  }

  /** Between a position that is not late and a late one, or the last, of the window. */
  lemma NarrowIsLast(ring: seq<nat>, low: int, high: int, max: nat, relMin: int, relMax: int)
    requires |ring| == ALLOC_SIZE && Bounds(low, high) && Ascending(Unrolled(ring, low, high))
    requires 0 <= relMin <= relMax < Size(low, high) && !Late(ring, low, max, relMin)
    requires relMax < Size(low, high) - 1 ==> Late(ring, low, max, relMax)
    ensures Narrow(ring, low, max, relMin, relMax, Slot(low, relMin), Slot(low, relMax))
         == Hit(Slot(low, Before(Unrolled(ring, low, high), max) - 1))
  {
    hide Unrolled, Ascending, Before, Slot, Size;
    WindowLate(ring, low, high, max);
    var p := Before(Unrolled(ring, low, high), max);
    UnrolledAt(ring, low, high, relMax);
    assert relMin < p <= Size(low, high) && (Late(ring, low, max, relMax) <==> relMax >= p);
    if relMin == relMax {
      assert p == relMax + 1;
    } else if p <= relMax {
      NarrowSplits(ring, low, max, relMin, relMax, p - 1, Slot(low, relMax));
    } else {
      NarrowSplits(ring, low, max, relMin, relMax, relMax - 1, Slot(low, relMax));
      assert p == relMax + 1;
    }
  }

  // ---- Searchable windows.

  lemma SearchableIsRight(ring: seq<nat>, low: int, high: int, max: nat, minIndex: int)
    requires |ring| == ALLOC_SIZE && Bounds(low, high) && Inside(low, high, minIndex) && Searchable(low, high, minIndex)
    requires Ascending(Unrolled(ring, low, high)) && ring[minIndex] < max
    ensures LastSlot(ring, low, high, max, minIndex) == Hit(Slot(low, Before(Unrolled(ring, low, high), max) - 1))
  {
    hide Unrolled, Ascending, Before, Narrow, HalvesTo, Slot;
    WindowLate(ring, low, high, max);
    SlotPosition(low, minIndex);
    EndSlots(low, high);
    assert !Late(ring, low, max, Position(low, minIndex));
    assert !Late(ring, low, max, 0);
    if low < high || (minIndex >= low && high > 0) {
      NarrowIsLast(ring, low, high, max, 0, Size(low, high) - 1);
    } else if minIndex >= low {
      NarrowIsLast(ring, low, high, max, 0, 0);
      assert LastSlot(ring, low, high, max, minIndex) == Narrow(ring, low, max, 0, 0, low, ALLOC_SIZE + 1);
      NarrowEnd(ring, low, max, 0, 0, low, ALLOC_SIZE + 1);
      NarrowEnd(ring, low, max, 0, 0, low, low);
    } else {
      PastTheEnd(ring, low, high, max, minIndex, 0);
    }
  }

  /** Searched from below the high bound, with the last element on the way. */
  lemma {:induction false} PastTheEnd(ring: seq<nat>, low: int, high: int, max: nat, minIndex: int, a: int)
    requires |ring| == ALLOC_SIZE && 0 <= minIndex < high < low < ALLOC_SIZE && Ascending(Unrolled(ring, low, high))
    requires !Late(ring, low, max, Size(low, high) - (high - minIndex))
    requires 0 <= a < Size(low, high) && !Late(ring, low, max, a)
    requires var g, d := low - high, high - minIndex;
             HalvesTo(ALLOC_SIZE + d - 1 - a, g + d) && (d >= g + 2 || (g == 1 && d <= 2))
    ensures Narrow(ring, low, max, a, ALLOC_SIZE + (high - minIndex) - 1, Slot(low, a), high - 1)
         == Hit(Slot(low, Before(Unrolled(ring, low, high), max) - 1))
    decreases ALLOC_SIZE - a
  {
    hide Unrolled, Ascending, Before, Slot;
    var n, d := Size(low, high), high - minIndex;
    var end := ALLOC_SIZE + d - 1;
    var mid := a + (end - a) / 2;
    SlotIs(low, mid);
    if a == n - 1 {
      AtTheEnd(ring, low, high, max, minIndex);
    } else if Late(ring, low, max, mid) {
      NarrowIsLast(ring, low, high, max, a, mid);
    } else {
      PastTheEnd(ring, low, high, max, minIndex, mid);
    }
  }

  /** From the last element on nothing is late but, possibly, the one free slot next to it. */
  lemma AtTheEnd(ring: seq<nat>, low: int, high: int, max: nat, minIndex: int)
    requires |ring| == ALLOC_SIZE && 0 <= minIndex < high < low < ALLOC_SIZE && Ascending(Unrolled(ring, low, high))
    requires !Late(ring, low, max, Size(low, high) - 1)
    requires var g, d := low - high, high - minIndex; d >= g + 2 || (g == 1 && d <= 2)
    ensures Narrow(ring, low, max, Size(low, high) - 1, ALLOC_SIZE + (high - minIndex) - 1, Slot(low, Size(low, high) - 1), high - 1)
         == Hit(Slot(low, Before(Unrolled(ring, low, high), max) - 1))
  {
    hide Unrolled, Ascending, Before, Slot, Narrow;
    var n, d := Size(low, high), high - minIndex;
    var end := ALLOC_SIZE + d - 1;
    WindowLate(ring, low, high, max);
    EndSlots(low, high);
    var mid := n - 1 + (end - (n - 1)) / 2;
    SlotIs(low, mid);
    NarrowStep(ring, low, max, n - 1, end, Slot(low, n - 1), high - 1);
    if mid >= ALLOC_SIZE {
      SlotWraps(low, mid - ALLOC_SIZE);
      assert !Late(ring, low, max, mid - ALLOC_SIZE);
    }
    if !Late(ring, low, max, mid) {
      forall q | mid <= q < end ensures !Late(ring, low, max, q) {
        if q > mid || mid >= ALLOC_SIZE {
          SlotWraps(low, q - ALLOC_SIZE);
          assert !Late(ring, low, max, q - ALLOC_SIZE);
        }
      }
      NarrowSplits(ring, low, max, mid, end, end - 1, high - 1);
    } else {
      assert mid == n;
      NarrowSplits(ring, low, max, n - 1, n, n - 1, Slot(low, n));
    }
  }

  // ---- Every other window.

  /** A ring that holds 1 at the positions from `from` up to `to` and 0 elsewhere. */
  function Marked(low: int, from: int, to: int): (ring: seq<nat>)
    ensures |ring| == ALLOC_SIZE
  {
    seq(ALLOC_SIZE, slot => if from <= Position(low, slot) < to then 1 else 0)
  }

  lemma MarkedLate(low: int, from: int, to: int, q: int)
    requires 0 <= low < ALLOC_SIZE && 0 <= q < 2 * ALLOC_SIZE
    ensures Late(Marked(low, from, to), low, 1, q) <==> from <= (if q < ALLOC_SIZE then q else q - ALLOC_SIZE) < to
  {
    hide Slot;
    var p := if q < ALLOC_SIZE then q else q - ALLOC_SIZE;
    if q >= ALLOC_SIZE { SlotWraps(low, p); }
    assert 0 <= Slot(low, p) < ALLOC_SIZE && Position(low, Slot(low, p)) == p by { SlotIsAt(low, p); }
  }

  lemma SlotIsAt(low: int, p: int)
    requires 0 <= low < ALLOC_SIZE && 0 <= p < ALLOC_SIZE
    ensures 0 <= Slot(low, p) < ALLOC_SIZE && Position(low, Slot(low, p)) == p
  {
  }

  /** Marked to the end of the window, or beyond it, the window is sorted. */
  lemma MarkedWindow(low: int, high: int, from: int, to: int)
    requires Bounds(low, high) && 0 <= from && (from < to ==> to >= Size(low, high))
    ensures Ascending(Unrolled(Marked(low, from, to), low, high))
    ensures Before(Unrolled(Marked(low, from, to), low, high), 1) == if from < to && from < Size(low, high) then from else Size(low, high)
  {
    hide Slot, Unrolled, Before, Marked;
    var ring := Marked(low, from, to);
    var w := Unrolled(ring, low, high);
    forall q | 0 <= q < |w| ensures w[q] >= 1 <==> from <= q < to {
      UnrolledAt(ring, low, high, q);
      MarkedLate(low, from, to, q);
    }
    forall q | 0 <= q < |w| ensures w[q] <= 1 {
      UnrolledAt(ring, low, high, q);
      MarkedSmall(low, from, to, Slot(low, q));
    }
    BeforeAt(w, 1, if from < to && from < |w| then from else |w|);
  }

  lemma MarkedSmall(low: int, from: int, to: int, slot: int)
    requires 0 <= slot < ALLOC_SIZE
    ensures Marked(low, from, to)[slot] <= 1
  {
  }

  lemma {:induction false} BeforeAt(w: seq<nat>, max: nat, n: nat)
    requires n <= |w| && Ascending(w) && (n > 0 ==> w[n - 1] < max) && (n < |w| ==> w[n] >= max)
    ensures Before(w, max) == n
  {
    if n > 0 {
      assert forall k :: 0 <= k < |w| - 1 ==> w[1..][k] == w[k + 1];
      BeforeAt(w[1..], max, n - 1);
    }
  }

  /** The search on a marked ring, as the halving it comes to. */
  predicate Found(low: int, high: int, minIndex: int, from: int, to: int, hit: Hit)
    requires Bounds(low, high) && 0 <= minIndex < ALLOC_SIZE
  {
    var size := if high >= low then high - low else ALLOC_SIZE + high - minIndex;
    Narrow(Marked(low, from, to), low, 1, 0, size - 1, low, if high == 0 then ALLOC_SIZE + 1 else high - 1) == hit
  }

  lemma Refuted(low: int, high: int, minIndex: int, from: int, to: int, hit: Hit)
    requires Bounds(low, high) && Inside(low, high, minIndex)
    requires 0 <= from && (from < to ==> to >= Size(low, high)) && !(from <= Position(low, minIndex) < to)
    requires Found(low, high, minIndex, from, to, hit)
    requires hit != Hit(Slot(low, (if from < to && from < Size(low, high) then from else Size(low, high)) - 1))
    ensures !Right(low, high, minIndex)
  {
    hide Slot, Unrolled, Before, Marked, Narrow, Ascending;
    var ring := Marked(low, from, to);
    MarkedWindow(low, high, from, to);
    SlotPosition(low, minIndex);
    MarkedLate(low, from, to, Position(low, minIndex));
    assert LastSlot(ring, low, high, 1, minIndex) == hit;
  }

  /** Searched from between the low bound and the ring's end, but not as it has to be. */
  lemma FromInsideFails(low: int, high: int, minIndex: int)
    requires Bounds(low, high) && Inside(low, high, minIndex) && high < low <= minIndex
    requires minIndex > low || (high == 0 && low < ALLOC_SIZE - 1)
    ensures !Right(low, high, minIndex)
  {
    hide Slot, Marked, Narrow, Unrolled, Before, Ascending, Right;
    var n := Size(low, high);
    var end := ALLOC_SIZE + high - minIndex - 1;
    var from := if high == 0 then n else n - 1;
    var ring := Marked(low, from, n);
    EndSlots(low, high);
    if end == 0 {
      NarrowEnd(ring, low, 1, 0, 0, low, ALLOC_SIZE + 1);
      SlotDiffers(low, 0, n - 1);
      Refuted(low, high, minIndex, from, n, Hit(low));
    } else {
      forall q | 0 <= q < end ensures !Late(ring, low, 1, q) { MarkedLate(low, from, n, q); }
      NarrowSplits(ring, low, 1, 0, end, end - 1, if high == 0 then ALLOC_SIZE + 1 else high - 1);
      if high == 0 {
        Refuted(low, high, minIndex, from, n, Outside);
      } else {
        MarkedLate(low, from, n, n - 1);
        SlotDiffers(low, end - 1, n - 2);
        Refuted(low, high, minIndex, from, n, Hit(Slot(low, end - 1)));
      }
    }
  }

  lemma SlotDiffers(low: int, a: int, b: int)
    requires 0 <= low < ALLOC_SIZE && 0 <= a < ALLOC_SIZE && 0 <= b < ALLOC_SIZE && a != b
    ensures Slot(low, a) != Slot(low, b)
  {
  }

  /** Searched from below the high bound, with the halving never on the last element: only that
      one is marked, and the search ends where it does when nothing is. */
  lemma NeverOnLastFails(low: int, high: int, minIndex: int)
    requires 0 <= minIndex < high < low < ALLOC_SIZE && high - minIndex >= 2
    requires !HalvesTo(ALLOC_SIZE + (high - minIndex) - 1, (low - high) + (high - minIndex))
    ensures !Right(low, high, minIndex)
  {
    hide Slot, Marked, Narrow, Unrolled, Before, Ascending, Right, HalvesTo;
    var n, d := Size(low, high), high - minIndex;
    EndSlots(low, high);
    MarkedLate(low, n - 1, n, n - 1);
    NeverOnLast(low, high, minIndex, 0);
    SlotWraps(low, d - 2);
    SlotDiffers(low, d - 2, n - 2);
    Refuted(low, high, minIndex, n - 1, n, Hit(Slot(low, d - 2)));
  }

  lemma {:induction false} NeverOnLast(low: int, high: int, minIndex: int, a: int)
    requires 0 <= minIndex < high < low < ALLOC_SIZE && high - minIndex >= 2
    requires 0 <= a < ALLOC_SIZE + (high - minIndex) - 1
    requires !HalvesTo(ALLOC_SIZE + (high - minIndex) - 1 - a, (low - high) + (high - minIndex))
    requires Marked(low, Size(low, high) - 1, Size(low, high))[high - 1] >= 1
    ensures Narrow(Marked(low, Size(low, high) - 1, Size(low, high)), low, 1, a, ALLOC_SIZE + (high - minIndex) - 1, Slot(low, a), high - 1)
         == Hit(Slot(low, ALLOC_SIZE + (high - minIndex) - 2))
    decreases ALLOC_SIZE + (high - minIndex) - a
  {
    hide Slot, Marked;
    var n, end := Size(low, high), ALLOC_SIZE + (high - minIndex) - 1;
    if end - a > 1 {
      var mid := a + (end - a) / 2;
      SlotIs(low, mid);
      MarkedLate(low, n - 1, n, mid);
      NeverOnLast(low, high, minIndex, mid);
    }
  }

  /** Searched from below the high bound, with more than one free slot and the halving coming to
      the others of them: these are marked, and the search ends on the first. */
  lemma OntoFreeSlotsFails(low: int, high: int, minIndex: int, y: int)
    requires 0 <= minIndex < high < low < ALLOC_SIZE && y >= 1
    requires HalvesTo(ALLOC_SIZE + (high - minIndex) - 1, y)
    requires Size(low, high) + 1 <= ALLOC_SIZE + (high - minIndex) - 1 - y < ALLOC_SIZE
    ensures !Right(low, high, minIndex)
  {
    hide Slot, Marked, Narrow, Unrolled, Before, Ascending, Right, HalvesTo;
    var n := Size(low, high);
    EndSlots(low, high);
    OntoFreeSlots(low, high, minIndex, y, 0);
    SlotDiffers(low, n, n - 1);
    Refuted(low, high, minIndex, n + 1, ALLOC_SIZE, Hit(Slot(low, n)));
  }

  lemma {:induction false} OntoFreeSlots(low: int, high: int, minIndex: int, y: int, a: int)
    requires 0 <= minIndex < high < low < ALLOC_SIZE && y >= 1 && 0 <= a <= Size(low, high)
    requires HalvesTo(ALLOC_SIZE + (high - minIndex) - 1 - a, y)
    requires Size(low, high) + 1 <= ALLOC_SIZE + (high - minIndex) - 1 - y < ALLOC_SIZE
    ensures Narrow(Marked(low, Size(low, high) + 1, ALLOC_SIZE), low, 1, a, ALLOC_SIZE + (high - minIndex) - 1, Slot(low, a), high - 1)
         == Hit(Slot(low, Size(low, high)))
    decreases ALLOC_SIZE - a
  {
    hide Slot, Marked, Narrow;
    var n, end := Size(low, high), ALLOC_SIZE + (high - minIndex) - 1;
    var ring := Marked(low, n + 1, ALLOC_SIZE);
    var mid := a + (end - a) / 2;
    SlotIs(low, mid);
    NarrowStep(ring, low, 1, a, end, Slot(low, a), high - 1);
    MarkedLate(low, n + 1, ALLOC_SIZE, mid);
    if Late(ring, low, 1, mid) {
      forall q | a <= q < mid ensures Late(ring, low, 1, q) <==> q > n { MarkedLate(low, n + 1, ALLOC_SIZE, q); }
      NarrowSplits(ring, low, 1, a, mid, n, Slot(low, mid));
    } else {
      OntoFreeSlots(low, high, minIndex, y, mid);
    }
  }

  lemma {:induction false} HalvesToOne(d: int)
    requires d >= 1
    ensures HalvesTo(d, 1)
  {
    if d > 1 { HalvesToOne(d - d / 2); }
  }

  lemma {:induction false} HalvesOn(d: int, y: int)
    requires y >= 2 && HalvesTo(d, y)
    ensures HalvesTo(d, y - y / 2)
  {
    if d > y { HalvesOn(d - d / 2, y); } else { assert HalvesTo(y - y / 2, y - y / 2); }
  }

  /** From a slot of the window the search for the last element is right on every sorted content
      and for every bound exactly when the window is searchable. */
  lemma SearchIsExact(low: int, high: int, minIndex: int)
    requires Bounds(low, high) && Inside(low, high, minIndex)
    ensures Right(low, high, minIndex) <==> Searchable(low, high, minIndex)
  {
    hide Slot, Unrolled, Before, Ascending, HalvesTo, LastSlot;
    if Searchable(low, high, minIndex) {
      forall ring: seq<nat>, max: nat | |ring| == ALLOC_SIZE && Ascending(Unrolled(ring, low, high)) && ring[minIndex] < max
        ensures LastSlot(ring, low, high, max, minIndex) == Hit(Slot(low, Before(Unrolled(ring, low, high), max) - 1))
      {
        SearchableIsRight(ring, low, high, max, minIndex);
      }
    } else if minIndex >= low {
      FromInsideFails(low, high, minIndex);
    } else {
      NotHalvedFails(low, high, minIndex);
    }
  }

  lemma NotHalvedFails(low: int, high: int, minIndex: int)
    requires 0 <= minIndex < high < low < ALLOC_SIZE && !Halved(low - high, high - minIndex)
    ensures !Right(low, high, minIndex)
  {
    hide Right, HalvesTo;
    var g, d := low - high, high - minIndex;
    if d == 1 {
      HalvesToOne(ALLOC_SIZE);
      HalvesToTwo(ALLOC_SIZE);
      OntoFreeSlotsFails(low, high, minIndex, 1);
    } else if !HalvesTo(ALLOC_SIZE + d - 1, g + d) {
      NeverOnLastFails(low, high, minIndex);
    } else {
      HalvesOn(ALLOC_SIZE + d - 1, g + d);
      OntoFreeSlotsFails(low, high, minIndex, g + d - (g + d) / 2);
    }
  }

  lemma {:induction false} HalvesToTwo(d: int)
    requires d >= 2
    ensures HalvesTo(d, 2)
  {
    if d > 2 { HalvesToTwo(d - d / 2); }
  }

  // ---- Two of the windows on which it is not.

  /** A wrapped window of three, searched from its second element: the size is taken from there,
      the last slot is tried with the first, and the second, which is the answer, is missed. */
  lemma SearchedFromInside(ring: seq<nat>)
    requires |ring| == ALLOC_SIZE && ring[ALLOC_SIZE - 2] == 1 && ring[ALLOC_SIZE - 1] == 2 && ring[0] == 3
    ensures Ascending(Unrolled(ring, ALLOC_SIZE - 2, 1)) && Slot(ALLOC_SIZE - 2, Before(Unrolled(ring, ALLOC_SIZE - 2, 1), 3) - 1) == ALLOC_SIZE - 1
    ensures LastSlot(ring, ALLOC_SIZE - 2, 1, 3, ALLOC_SIZE - 1) == Hit(ALLOC_SIZE - 2)
  {
    hide Narrow;
    var w := Unrolled(ring, ALLOC_SIZE - 2, 1);
    assert w == [1, 2, 3];
    BeforeAt(w, 3, 2);
    NarrowEnd(ring, ALLOC_SIZE - 2, 3, 0, 1, ALLOC_SIZE - 2, 0);
  }

  /** A window of two that ends at slot 0: the slot before it is computed past the ring. */
  lemma EndsAtZero(ring: seq<nat>)
    requires |ring| == ALLOC_SIZE && ring[ALLOC_SIZE - 2] == 1 && ring[ALLOC_SIZE - 1] == 2
    ensures LastSlot(ring, ALLOC_SIZE - 2, 0, 2, ALLOC_SIZE - 2) == Outside
  {
    hide Narrow;
    NarrowEnd(ring, ALLOC_SIZE - 2, 2, 0, 1, ALLOC_SIZE - 2, ALLOC_SIZE + 1);
  }
}
