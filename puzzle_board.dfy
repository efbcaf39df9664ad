/**
 * The stand-alone board of js/OctagonalDigitsBoard.js: a 4 x 4 grid of square holes in a
 * 16 x 16 board, fourteen digits set into the holes from a fixed list, and that file's own
 * copy of the named segment table. Holes and digits are records of what is added to the
 * scene: a hole's centre, and a digit's value, colour, position and segment boxes.
 */
module PuzzleBoard {
  import opened Common
  import NamedGenerator

  const Width: real := 16.0
  const Height: real := 16.0
  const Depth: real := 1.0
  const CellSize: real := 3.5
  const GridSize: nat := 4
  const Gap: real := 0.5

  /** The depth of a hole. */
  const HoleDepth: real := 0.6

  const Yellow: int := 0xf4c542
  const Red: int := 0xd13b3b
  const Green: int := 0x4caf50
  const Blue: int := 0x3f51b5
  const Grey: int := 0xaaaaaa

  /** `startOffset` of `createGridCells` and `createDigitPlacements`. */
  const StartOffset: real := -((GridSize as real) * CellSize + ((GridSize - 1) as real) * Gap) / 2.0 + CellSize / 2.0

  /** The x of column i, or the z of row i. */
  function Coord(i: int): real {
    StartOffset + (i as real) * (CellSize + Gap)
  }

  /** The centre of the hole created k-th: row k / 4, column k % 4. */
  function HoleAt(k: nat): Vec3 {
    Vec3(Coord(k % GridSize), Depth / 2.0 - HoleDepth / 2.0, Coord(k / GridSize))
  }

  /** `createGridCells()`: the hole centres in the order the holes are added. */
  method CreateGridCells() returns (holes: seq<Vec3>)
    ensures |holes| == GridSize * GridSize
    ensures forall k :: 0 <= k < |holes| ==> holes[k] == HoleAt(k)
  {
    holes := [];
    var row := 0;
    while row < GridSize
      invariant 0 <= row <= GridSize
      invariant |holes| == row * GridSize
      invariant forall k :: 0 <= k < |holes| ==> holes[k] == HoleAt(k)
    {
      var col := 0;
      while col < GridSize
        invariant 0 <= col <= GridSize
        invariant |holes| == row * GridSize + col
        invariant forall k :: 0 <= k < |holes| ==> holes[k] == HoleAt(k)
      {
        var x := StartOffset + (col as real) * (CellSize + Gap);
        var z := StartOffset + (row as real) * (CellSize + Gap);
        assert (row * GridSize + col) / GridSize == row && (row * GridSize + col) % GridSize == col;
        holes := holes + [Vec3(x, Depth / 2.0 - HoleDepth / 2.0, z)];
        col := col + 1;
      }
      row := row + 1;
    }
  }

  /** One entry of the `createDigits` list. */
  datatype Placement = Placement(value: int, row: int, col: int, color: int)

  /** The list `createDigits` passes to `createDigitPlacements`. */
  const Placements: seq<Placement> := [
    Placement(6, 0, 0, Red), Placement(5, 0, 1, Green), Placement(5, 0, 2, Yellow), Placement(6, 0, 3, Red),
    Placement(7, 1, 0, Green), Placement(0, 1, 2, Yellow), Placement(0, 1, 3, Yellow),
    Placement(8, 2, 0, Blue), Placement(0, 2, 1, Yellow), Placement(9, 2, 3, Grey),
    Placement(8, 3, 0, Blue), Placement(8, 3, 1, Blue), Placement(9, 3, 2, Grey), Placement(3, 3, 3, Blue)]

  /** This file's `getSegmentsForDigit`. */
  function BoardSegmentsForDigit(value: int): seq<NamedGenerator.Part> {
    match value
    case 0 => [NamedGenerator.Top, NamedGenerator.TopRight, NamedGenerator.BottomRight, NamedGenerator.Bottom, NamedGenerator.BottomLeft, NamedGenerator.TopLeft]
    case 1 => [NamedGenerator.TopRight, NamedGenerator.BottomRight]
    case 2 => [NamedGenerator.Top, NamedGenerator.TopRight, NamedGenerator.Middle, NamedGenerator.BottomLeft, NamedGenerator.Bottom]
    case 3 => [NamedGenerator.Top, NamedGenerator.TopRight, NamedGenerator.Middle, NamedGenerator.BottomRight, NamedGenerator.Bottom]
    case 4 => [NamedGenerator.TopLeft, NamedGenerator.TopRight, NamedGenerator.Middle, NamedGenerator.BottomRight]
    case 5 => [NamedGenerator.Top, NamedGenerator.TopLeft, NamedGenerator.Middle, NamedGenerator.BottomRight, NamedGenerator.Bottom]
    case 6 => [NamedGenerator.Top, NamedGenerator.TopLeft, NamedGenerator.Middle, NamedGenerator.BottomLeft, NamedGenerator.BottomRight, NamedGenerator.Bottom]
    case 7 => [NamedGenerator.Top, NamedGenerator.TopRight, NamedGenerator.BottomRight]
    case 8 => [NamedGenerator.Top, NamedGenerator.TopRight, NamedGenerator.BottomRight, NamedGenerator.Bottom, NamedGenerator.BottomLeft, NamedGenerator.TopLeft, NamedGenerator.Middle]
    case 9 => [NamedGenerator.Top, NamedGenerator.TopRight, NamedGenerator.BottomRight, NamedGenerator.Bottom, NamedGenerator.TopLeft, NamedGenerator.Middle]
    case _ => []
  }

  /** A digit set into the board. */
  datatype Piece = Piece(value: int, color: int, position: Vec3, segments: seq<NamedGenerator.Child>)

  /** The digit `createDigitPlacements` adds for placement `p`. */
  function PieceFor(p: Placement): Piece {
    Piece(p.value, p.color, Vec3(Coord(p.col), Depth / 2.0 + 0.1, Coord(p.row)),
          NamedGenerator.Boxes(BoardSegmentsForDigit(p.value)))
  }

  /** `createDigitPlacements(placements)`: one digit per placement, in list order. */
  method CreateDigitPlacements(placements: seq<Placement>) returns (pieces: seq<Piece>)
    ensures |pieces| == |placements|
    ensures forall k :: 0 <= k < |pieces| ==> pieces[k] == PieceFor(placements[k])
  {
    pieces := [];
    for k := 0 to |placements|
      invariant |pieces| == k
      invariant forall j :: 0 <= j < k ==> pieces[j] == PieceFor(placements[j])
    {
      var p := placements[k];
      var x := StartOffset + (p.col as real) * (CellSize + Gap);
      var z := StartOffset + (p.row as real) * (CellSize + Gap);
      var y := Depth / 2.0 + 0.1;
      pieces := pieces + [Piece(p.value, p.color, Vec3(x, y, z), NamedGenerator.Boxes(BoardSegmentsForDigit(p.value)))];
    }
  }
}

/** What the board's grid and its scripted digits satisfy. */
module PuzzleBoardLemmas {
  import opened Common
  import NamedGenerator
  import opened PuzzleBoard

  /** With four cells of 3.5 and gaps of 0.5, the centres lie at -6, -2, 2 and 6. */
  lemma CentreValues()
    ensures Coord(0) == -6.0 && Coord(1) == -2.0 && Coord(2) == 2.0 && Coord(3) == 6.0
  {
  }

  /** Every hole, centre plus or minus half a cell, fits inside the board's +-8; its centre sits at y 0.2. */
  lemma HolesInsideBoard(k: nat)
    requires k < GridSize * GridSize
    ensures Abs(HoleAt(k).x) + CellSize / 2.0 <= Width / 2.0
    ensures Abs(HoleAt(k).z) + CellSize / 2.0 <= Height / 2.0
    ensures HoleAt(k).y == 0.2
  {
    CentreValues();
    assert k % GridSize in {0, 1, 2, 3} && k / GridSize in {0, 1, 2, 3};
  }

  /** The fourteen placements use pairwise distinct cells. */
  lemma PlacementCellsDistinct(j: nat, k: nat)
    requires j < k < |Placements|
    ensures (Placements[j].row, Placements[j].col) != (Placements[k].row, Placements[k].col)
  {
  }

  /** A cell of the grid holds a digit exactly when it is not (1, 1) or (2, 2). */
  lemma UsedCells(row: int, col: int)
    requires 0 <= row < GridSize && 0 <= col < GridSize
    ensures (exists k :: 0 <= k < |Placements| && Placements[k].row == row && Placements[k].col == col)
      <==> !(row == col && (row == 1 || row == 2))
  {
    var ps := Placements;
    if row == col && (row == 1 || row == 2) {
      forall k | 0 <= k < |ps|
        ensures !(ps[k].row == row && ps[k].col == col)
      {
      }
    } else {
      var k := if row == 0 then col
        else if row == 1 then (if col == 0 then 4 else col + 3)
        else if row == 2 then (if col == 3 then 9 else 7 + col)
        else 10 + col;
      assert ps[k].row == row && ps[k].col == col;
    }
  }

  /** A digit sits over the hole of its cell, at BOARD_DEPTH/2 + 0.1 = 0.6, lit as the named table says. */
  lemma PieceOverHole(p: Placement)
    requires 0 <= p.row < GridSize && 0 <= p.col < GridSize
    ensures var piece := PieceFor(p); var hole := HoleAt(p.row * GridSize + p.col);
      && piece.position.x == hole.x && piece.position.z == hole.z
      && piece.position.y == 0.6
      && piece.segments == NamedGenerator.Boxes(NamedGenerator.SegmentsForDigit(p.value))
  {
    var k := p.row * GridSize + p.col;
    assert k / GridSize == p.row && k % GridSize == p.col;
    SegmentTablesAgree(p.value);
  }

  /** This file's segment table is the one of js/octagonal-digit-generator.js. */
  lemma SegmentTablesAgree(value: int)
    ensures BoardSegmentsForDigit(value) == NamedGenerator.SegmentsForDigit(value)
  {
  }

  /**
   * Every digit but one has the colour the generator's colour map gives its value; the 5 at
   * (0, 1) is green, while the map (and the board's palette notes) give 5 yellow.
   */
  lemma ColoursFollowMap(k: nat)
    requires k < |Placements|
    ensures k != 1 ==> NamedGenerator.ColorMap(Placements[k].value) == Some(Placements[k].color)
    ensures k == 1 ==>
      Placements[k].value == 5 && Placements[k].color == Green && NamedGenerator.ColorMap(5) == Some(Yellow)
  {
  }
}
