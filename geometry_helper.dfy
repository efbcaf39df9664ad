/**
 * `DigitGeometryHelper` of js/BufferGeometryUtils.js: a table of seven booleans per digit,
 * one per segment a..g, and `createDigitGeometry`, which adds one box per lit segment. A box
 * records its segment index and whether it got the wide (horizontal) dimensions.
 */
module GeometryHelper {
  import opened Common

  /** `digitSegments[value]`: the lit segments a..g of digit `value`. */
  function DigitSegments(value: int): seq<bool>
    requires 0 <= value <= 9
  {
    match value
    case 0 => [true, true, true, true, true, true, false]
    case 1 => [false, true, true, false, false, false, false]
    case 2 => [true, true, false, true, true, false, true]
    case 3 => [true, true, true, true, false, false, true]
    case 4 => [false, true, true, false, false, true, true]
    case 5 => [true, false, true, true, false, true, true]
    case 6 => [true, false, true, true, true, true, true]
    case 7 => [true, true, true, false, false, false, false]
    case 8 => [true, true, true, true, true, true, true]
    case 9 => [true, true, true, true, false, true, true]
  }

  /** One segment box: its index i and whether `i % 3 === 0` gave it the wide dimensions. */
  datatype SegmentBox = SegmentBox(index: nat, wide: bool)

  /** The boxes the loop adds for indices 0..n-1 of `row`. */
  function Boxes(row: seq<bool>, n: nat): seq<SegmentBox>
    requires n <= |row|
  {
    if n == 0 then []
    else Boxes(row, n - 1) + (if row[n - 1] then [SegmentBox(n - 1, (n - 1) % 3 == 0)] else [])
  }

  /** `createDigitGeometry(value)`: null outside 0..9, otherwise the boxes of the lit segments. */
  method CreateDigitGeometry(value: int) returns (group: Option<seq<SegmentBox>>)
    ensures group == if value < 0 || value > 9 then None else Some(Boxes(DigitSegments(value), 7))
  {
    if value < 0 || value > 9 {
      return None;
    }
    var row := DigitSegments(value);
    var boxes: seq<SegmentBox> := [];
    for i := 0 to 7
      invariant boxes == Boxes(row, i)
    {
      if row[i] {
        boxes := boxes + [SegmentBox(i, i % 3 == 0)];
      }
    }
    group := Some(boxes);
  }
}

/** What the boolean table and the boxes built from it satisfy. */
module GeometryHelperLemmas {
  import opened Common
  import opened Segments
  import opened Constants
  import opened Digits
  import opened GeometryHelper

  /** The number of lit entries among the first n of `row`. */
  function CountLit(row: seq<bool>, n: nat): nat
    requires n <= |row|
  {
    if n == 0 then 0 else CountLit(row, n - 1) + (if row[n - 1] then 1 else 0)
  }

  /** Every row has exactly seven entries. */
  lemma RowsHaveSeven(value: int)
    requires 0 <= value <= 9
    ensures |DigitSegments(value)| == 7
  {
  }

  /** The table is the transpose of digitManager's `show` table: `digitSegments[v][i]` iff v shows segment i. */
  lemma RowsTransposeShow(value: int, i: nat)
    requires 0 <= value <= 9 && i < 7
    ensures DigitSegments(value)[i] <==> value in Show(Order[i])
  {
  }

  /** Digit 8 lights every segment; digit 1 only b and c. */
  lemma EightAndOne(i: nat)
    requires i < 7
    ensures DigitSegments(8)[i]
    ensures DigitSegments(1)[i] <==> Order[i] == B || Order[i] == C
  {
  }

  /** `i % 3 === 0` picks exactly a, d and g. */
  lemma WideIffADG(i: nat)
    requires i < 7
    ensures i % 3 == 0 <==> Order[i] in {A, D, G}
  {
  }

  /**
   * The boxes over the first n entries: one per lit entry, in index order, each wide exactly
   * when its index is a multiple of 3.
   */
  lemma {:induction false} BoxesOfRow(row: seq<bool>, n: nat)
    requires n <= |row|
    ensures |Boxes(row, n)| == CountLit(row, n)
    ensures forall b :: b in Boxes(row, n) ==> b.index < n && row[b.index] && (b.wide <==> b.index % 3 == 0)
    ensures forall i :: 0 <= i < n && row[i] ==> SegmentBox(i, i % 3 == 0) in Boxes(row, n)
    ensures forall j, k :: 0 <= j < k < |Boxes(row, n)| ==> Boxes(row, n)[j].index < Boxes(row, n)[k].index
  {
    if n > 0 {
      BoxesOfRow(row, n - 1);
      var prev := Boxes(row, n - 1);
      var cur := Boxes(row, n);
      if row[n - 1] {
        var last := SegmentBox(n - 1, (n - 1) % 3 == 0);
        assert cur == prev + [last];
        forall j, k | 0 <= j < k < |cur|
          ensures cur[j].index < cur[k].index
        {
          if k == |cur| - 1 {
            assert cur[j] == prev[j] && prev[j] in prev;
          } else {
            assert cur[j] == prev[j] && cur[k] == prev[k];
          }
        }
      } else {
        assert cur == prev;
      }
    }
  }

  /**
   * A digit of 0..9 gets as many boxes as its row has lit entries, one for each segment
   * digitManager shows for it, wide exactly for a, d and g.
   */
  lemma DigitBoxes(value: int, s: Segment)
    requires 0 <= value <= 9
    ensures var boxes := Boxes(DigitSegments(value), 7);
      && |boxes| == CountLit(DigitSegments(value), 7)
      && (SegmentBox(IndexOf(s), s in {A, D, G}) in boxes <==> value in Show(s))
      && (forall b :: b in boxes ==> b.index < 7 && (b.wide <==> Order[b.index] in {A, D, G}))
  {
    var row := DigitSegments(value);
    BoxesOfRow(row, 7);
    RowsTransposeShow(value, IndexOf(s));
    WideIffADG(IndexOf(s));
    forall b | b in Boxes(row, 7)
      ensures b.wide <==> Order[b.index] in {A, D, G}
    {
      WideIffADG(b.index);
    }
  }
}
