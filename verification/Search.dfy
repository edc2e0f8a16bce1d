/** The binary searches over a time-sorted stack. */
module Search {
  import opened Events

  /** The first element strictly later than `min` among the first `columnSize`, or -1. */
  method GetFirstValidElement(column: seq<PubPkt>, columnSize: int, min: nat) returns (r: int)
    requires columnSize <= |column|
    requires columnSize > 0 ==> Sorted(column[..columnSize])
    ensures -1 <= r < Max(columnSize, 0)
    ensures r == -1 ==> forall k :: 0 <= k < columnSize ==> column[k].ts <= min
    ensures r >= 0 ==> column[r].ts > min && forall k :: 0 <= k < r ==> column[k].ts <= min
  {
    if columnSize <= 0 { return -1; }
    ghost var c := column[..columnSize];
    assert forall k :: 0 <= k < columnSize ==> c[k] == column[k];
    var minValue, maxValue := 0, columnSize - 1;
    if column[maxValue].ts <= min { return -1; }
    while maxValue - minValue > 1
      invariant 0 <= minValue <= maxValue < columnSize
      invariant column[maxValue].ts > min
      invariant forall k :: 0 <= k < minValue ==> column[k].ts <= min
      invariant minValue > 0 ==> column[minValue].ts <= min
    {
      var midPoint := minValue + (maxValue - minValue) / 2;
      if column[midPoint].ts <= min {
        minValue := midPoint;
      } else {
        maxValue := midPoint;
      }
    }
    if maxValue - minValue == 0 { return minValue; }
    if column[minValue].ts > min { return minValue; }
    return maxValue;
  }

  /** The last element strictly earlier than `max` from `minIndex` on, or -1. */
  method GetLastValidElement(column: seq<PubPkt>, columnSize: int, max: nat, minIndex: int) returns (r: int)
    requires columnSize <= |column| && -1 <= minIndex < columnSize
    requires Sorted(column[..columnSize])
    ensures -1 <= r < columnSize
    ensures r == -1 <==> minIndex == -1 || column[minIndex].ts >= max
    ensures r >= 0 ==> minIndex <= r && column[r].ts < max && forall k :: r < k < columnSize ==> column[k].ts >= max
  {
    ghost var c := column[..columnSize];
    assert forall k :: 0 <= k < columnSize ==> c[k] == column[k];
    var minValue, maxValue := minIndex, columnSize - 1;
    if minIndex == -1 { return -1; }
    if column[minIndex].ts >= max { return -1; }
    while maxValue - minValue > 1
      invariant minIndex <= minValue <= maxValue < columnSize
      invariant column[minValue].ts < max
      invariant forall k :: maxValue < k < columnSize ==> column[k].ts >= max
      invariant maxValue < columnSize - 1 ==> column[maxValue].ts >= max
    {
      var midPoint := minValue + (maxValue - minValue) / 2;
      if column[midPoint].ts >= max {
        maxValue := midPoint;
      } else {
        minValue := midPoint;
      }
    }
    if maxValue - minValue == 0 { return minValue; }
    if column[maxValue].ts < max { return maxValue; }
    return minValue;
  }

  /** What an expiry at `min` leaves of a stack. When the newest element sits exactly on
      the bound it is kept although it has expired. */
  function Unexpired(col: seq<PubPkt>, min: nat): seq<PubPkt> {
    if col == [] then []
    else if col[|col| - 1].ts == min then [col[|col| - 1]]
    else After(col, min)
  }

  /** The suffix that starts at the first element later than `min`. */
  function After(col: seq<PubPkt>, min: nat): seq<PubPkt> {
    if col == [] then [] else if col[0].ts > min then col else After(col[1..], min)
  }

  /** How many of the newest elements an expiry keeps. */
  method DeleteInvalidElements(column: seq<PubPkt>, columnSize: int, min: nat) returns (size: int)
    requires columnSize == |column| && Sorted(column)
    ensures 0 <= size <= columnSize
    ensures column[columnSize - size..] == Unexpired(column, min)
  {
    if columnSize == 0 { return columnSize; }
    assert column[..columnSize] == column;
    if column[columnSize - 1].ts == min { return 1; }
    var firstValidElement := GetFirstValidElement(column, columnSize, min);
    if firstValidElement < 0 {
      AfterAt(column, min, columnSize);
      return 0;
    } else {
      AfterAt(column, min, firstValidElement);
      return columnSize - firstValidElement;
    }
  }

  lemma {:induction false} AfterAt(col: seq<PubPkt>, min: nat, k: nat)
    requires k <= |col| && (k < |col| ==> col[k].ts > min)
    requires forall j :: 0 <= j < k ==> col[j].ts <= min
    ensures After(col, min) == col[k..]
  {
    if k > 0 {
      AfterAt(col[1..], min, k - 1);
      assert col[1..][k - 1..] == col[k..];
    }
  }

  /** An expiry removes a prefix of expired elements, keeps every live one, and keeps at
      most one expired element, whose time stamp is exactly the bound. */
  lemma {:induction false} UnexpiredIsSuffix(col: seq<PubPkt>, min: nat) returns (cut: nat)
    requires Sorted(col)
    ensures cut <= |col| && Unexpired(col, min) == col[cut..]
    ensures forall k :: 0 <= k < cut ==> col[k].ts <= min
    ensures forall k :: cut <= k < |col| ==> col[k].ts > min || (k == |col| - 1 && col[k].ts == min)
    ensures Unexpired(col, min) == After(col, min) <==> col == [] || col[|col| - 1].ts != min
  {
    if col != [] && col[|col| - 1].ts == min {
      cut := AfterIsSuffix(col, min);
      cut := |col| - 1;
    } else {
      cut := AfterIsSuffix(col, min);
    }
  }

  lemma {:induction false} AfterIsSuffix(col: seq<PubPkt>, min: nat) returns (cut: nat)
    requires Sorted(col)
    ensures cut <= |col| && After(col, min) == col[cut..]
    ensures forall k :: 0 <= k < cut ==> col[k].ts <= min
    ensures forall k :: cut <= k < |col| ==> col[k].ts > min
  {
    if col == [] || col[0].ts > min {
      cut := 0;
    } else {
      var c := AfterIsSuffix(col[1..], min);
      cut := c + 1;
      assert forall k :: 0 < k < |col| ==> col[k] == col[1..][k - 1];
    }
  }
}
