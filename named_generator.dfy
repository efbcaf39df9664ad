/**
 * The digit builder of js/octagonal-digit-generator.js: segment tables keyed by segment names
 * (Top, TopRight, ...), the base colour map, and the digit groups it assembles from them.
 * Meshes are records: a base octagon with its colour, then one box per segment naming the
 * segment and the geometry it was given.
 */
module NamedGenerator {
  import opened Common
  import opened Segments
  import opened Digits

  /** The segment names of the named tables (`'top'`, `'topRight'`, ...). */
  datatype Part = Top | TopRight | BottomRight | Bottom | BottomLeft | TopLeft | Middle

  /** The name the named tables give segment `s`. */
  function PartOf(s: Segment): Part {
    match s
    case A => Top
    case B => TopRight
    case C => BottomRight
    case D => Bottom
    case E => BottomLeft
    case F => TopLeft
    case G => Middle
  }

  /** `getSegmentsForDigit(value)`: the row of the table, or `[]` for a value the table lacks. */
  function SegmentsForDigit(value: int): seq<Part> {
    match value
    case 0 => [Top, TopRight, BottomRight, Bottom, BottomLeft, TopLeft]
    case 1 => [TopRight, BottomRight]
    case 2 => [Top, TopRight, Middle, BottomLeft, Bottom]
    case 3 => [Top, TopRight, Middle, BottomRight, Bottom]
    case 4 => [TopLeft, TopRight, Middle, BottomRight]
    case 5 => [Top, TopLeft, Middle, BottomRight, Bottom]
    case 6 => [Top, TopLeft, Middle, BottomLeft, BottomRight, Bottom]
    case 7 => [Top, TopRight, BottomRight]
    case 8 => [Top, TopRight, BottomRight, Bottom, BottomLeft, TopLeft, Middle]
    case 9 => [Top, TopRight, BottomRight, Bottom, TopLeft, Middle]
    case _ => []
  }

  /** `colorMap`: the base colour of each digit, undefined outside 0..9. */
  function ColorMap(value: int): Option<int> {
    match value
    case 0 => Some(0xf4c542)
    case 1 => Some(0xd13b3b)
    case 2 => Some(0x4caf50)
    case 3 => Some(0x3f51b5)
    case 4 => Some(0xaaaaaa)
    case 5 => Some(0xf4c542)
    case 6 => Some(0xd13b3b)
    case 7 => Some(0x4caf50)
    case 8 => Some(0x3f51b5)
    case 9 => Some(0xaaaaaa)
    case _ => None
  }

  /** The two box shapes of `addDigitSegments`. */
  datatype Geometry = Horizontal | Vertical

  /** The `switch` of `addDigitSegments`: top, bottom and middle are horizontal, the rest vertical. */
  function GeometryFor(part: Part): Geometry {
    match part
    case Top | Bottom | Middle => Horizontal
    case TopRight | BottomRight | TopLeft | BottomLeft => Vertical
  }

  /** A child of a digit group: the octagonal base, or one segment box. */
  datatype Child = Base(color: Option<int>) | SegmentBox(part: Part, geometry: Geometry)

  /** The boxes `addDigitSegments` adds for `parts`, in order. */
  function Boxes(parts: seq<Part>): seq<Child>
    decreases |parts|
  {
    if parts == [] then []
    else
      var last := parts[|parts| - 1];
      Boxes(parts[..|parts| - 1]) + [SegmentBox(last, GeometryFor(last))]
  }

  /** A digit group with its `userData` and the x rotation `rotateX` gave it. */
  datatype NamedDigit = NamedDigit(
    value: int,
    initialXRotation: real,
    rotation: real,
    flipped: bool,
    placed: bool,
    rotationX: real,
    children: seq<Child>)

  /** The group `createDigit(value)` returns. */
  function Built(value: int): NamedDigit {
    NamedDigit(value, 0.5, 0.0, false, false, 0.5, [Base(ColorMap(value))] + Boxes(SegmentsForDigit(value)))
  }

  /** `addDigitSegments(group, value)`: the boxes it adds to the group. */
  method AddDigitSegments(value: int) returns (boxes: seq<Child>)
    ensures boxes == Boxes(SegmentsForDigit(value))
  {
    var parts := SegmentsForDigit(value);
    boxes := [];
    var k := 0;
    while k < |parts|
      invariant 0 <= k <= |parts|
      invariant boxes == Boxes(parts[..k])
    {
      assert parts[..k + 1][..k] == parts[..k];
      var geometry := match parts[k]
        case Top | Bottom | Middle => Horizontal
        case TopRight | BottomRight | TopLeft | BottomLeft => Vertical;
      boxes := boxes + [SegmentBox(parts[k], geometry)];
      k := k + 1;
    }
    assert parts[..k] == parts;
  }

  /** `createDigit(value)`. */
  method CreateDigit(value: int) returns (d: NamedDigit)
    ensures d == Built(value)
  {
    var base := Base(ColorMap(value));
    var boxes := AddDigitSegments(value);
    d := NamedDigit(value, 0.5, 0.0, false, false, 0.0, [base] + boxes);
    d := d.(rotationX := d.rotationX + d.initialXRotation);
  }

  /** `createAllDigits()`: the digits 0..9 in order. */
  method CreateAllDigits() returns (digits: seq<NamedDigit>)
    ensures |digits| == 10
    ensures forall i :: 0 <= i < 10 ==> digits[i] == Built(i)
  {
    digits := [];
    var i := 0;
    while i < 10
      invariant 0 <= i <= 10
      invariant |digits| == i
      invariant forall j :: 0 <= j < i ==> digits[j] == Built(j)
    {
      var digit := CreateDigit(i);
      digits := digits + [digit];
      i := i + 1;
    }
  }
}

/** What the named tables and the groups built from them satisfy. */
module NamedGeneratorLemmas {
  import opened Common
  import opened Segments
  import opened Constants
  import opened Digits
  import opened NamedGenerator

  /** One box per name, in order, each with its name's geometry. */
  lemma {:induction false} BoxesOfParts(parts: seq<Part>)
    ensures |Boxes(parts)| == |parts|
    ensures forall k :: 0 <= k < |parts| ==> Boxes(parts)[k] == SegmentBox(parts[k], GeometryFor(parts[k]))
    decreases |parts|
  {
    if parts != [] {
      var front := parts[..|parts| - 1];
      BoxesOfParts(front);
      var boxes := Boxes(parts);
      forall k | 0 <= k < |parts|
        ensures boxes[k] == SegmentBox(parts[k], GeometryFor(parts[k]))
      {
        if k < |front| {
          assert boxes[k] == Boxes(front)[k] && front[k] == parts[k];
        }
      }
    }
  }

  /**
   * The named table agrees with digitManager's `show` table: segment `s` is listed for a
   * digit exactly when digitManager shows it.
   */
  lemma TableMatchesShow(value: int, s: Segment)
    requires 0 <= value < DigitCount
    ensures PartOf(s) in SegmentsForDigit(value) <==> value in Show(s)
  {
  }

  /** Each name stands for exactly one segment. */
  lemma PartsAreSegments(part: Part)
    ensures exists s :: PartOf(s) == part
    ensures forall s, t :: PartOf(s) == PartOf(t) ==> s == t
  {
    match part
    case Top => assert PartOf(A) == part;
    case TopRight => assert PartOf(B) == part;
    case BottomRight => assert PartOf(C) == part;
    case Bottom => assert PartOf(D) == part;
    case BottomLeft => assert PartOf(E) == part;
    case TopLeft => assert PartOf(F) == part;
    case Middle => assert PartOf(G) == part;
  }

  /** The row lengths: 6, 2, 5, 5, 4, 5, 6, 3, 7 and 6 segments. */
  lemma SegmentCounts(value: int)
    requires 0 <= value < DigitCount
    ensures |SegmentsForDigit(value)| == [6, 2, 5, 5, 4, 5, 6, 3, 7, 6][value]
  {
  }

  /** A value outside the table has no segments and no colour. */
  lemma UnknownValueHasNone(value: int)
    requires value < 0 || value >= DigitCount
    ensures SegmentsForDigit(value) == []
    ensures ColorMap(value).None?
  {
  }

  /** Digits five apart share a colour. */
  lemma ColorsRepeat(value: int)
    requires 0 <= value < 5
    ensures ColorMap(value) == ColorMap(value + 5) && ColorMap(value).Some?
  {
  }

  /** top, bottom and middle get the horizontal box; the other four segments the vertical one. */
  lemma GeometryBySegment(s: Segment)
    ensures GeometryFor(PartOf(s)) == if s == A || s == D || s == G then Horizontal else Vertical
  {
  }

  /**
   * A new digit: its value, tilt +pi/2, rotation 0, not flipped and not placed; the base
   * first and then one box per listed segment, in the table's order, each with the
   * geometry of its segment.
   */
  lemma NewDigitShape(value: int)
    ensures var d := Built(value);
      && d.value == value && d.initialXRotation == 0.5 && d.rotationX == d.initialXRotation
      && d.rotation == 0.0 && !d.flipped && !d.placed
      && |d.children| == 1 + |SegmentsForDigit(value)|
      && d.children[0] == Base(ColorMap(value))
      && (forall k :: 1 <= k < |d.children| ==>
            d.children[k] == SegmentBox(SegmentsForDigit(value)[k - 1], GeometryFor(SegmentsForDigit(value)[k - 1])))
  {
    BoxesOfParts(SegmentsForDigit(value));
  }
}
