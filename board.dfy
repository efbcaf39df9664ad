/**
 * The board grid of js/boardManager.js: a row-major list of cell centres computed from
 * `GRID_SIZE`, the cell size and the gap between cells, a lookup by (row, col) and a
 * highlight overlay per cell that is created once and toggled afterwards.
 */
module Board {
  import opened Common
  import opened Constants

  /** `gap` of `createGridCells`: the space between neighbouring holes. */
  const Gap: real := 0.5

  /** The highlight overlay of a cell: not yet created, or created and shown or hidden. */
  datatype Highlight = NoOverlay | Overlay(visible: bool)

  /** An entry of `cells`: its row, its column, the stored position and its overlay. */
  datatype Cell = Cell(row: int, col: int, position: Vec3, highlight: Highlight)

  /** `startOffset`: the centre of the first row or column. */
  function StartOffset(cellSize: real): real {
    var totalSize := (GridSize as real) * cellSize + ((GridSize - 1) as real) * Gap;
    -totalSize / 2.0 + cellSize / 2.0
  }

  /** The x of column `k`, which is also the z of row `k`. */
  function Coord(cellSize: real, k: nat): real {
    StartOffset(cellSize) + (k as real) * (cellSize + Gap)
  }

  /** The k-th cell `createGridCells` pushes. */
  function GridCell(cellSize: real, k: nat): Cell {
    var row := k / GridSize;
    var col := k % GridSize;
    Cell(row, col, Vec3(Coord(cellSize, col), BoardDepth / 2.0, Coord(cellSize, row)), NoOverlay)
  }

  /** The cells `createGridCells` pushes, in order. */
  function GridCells(cellSize: real): seq<Cell> {
    seq(GridSize * GridSize, k requires 0 <= k => GridCell(cellSize, k))
  }

  predicate Matches(c: Cell, row: int, col: int) {
    c.row == row && c.col == col
  }

  /** `cells.find(c => c.row === row && c.col === col)`, as the index of the first match. */
  function Find(cells: seq<Cell>, row: int, col: int): (r: Option<nat>)
    ensures r.Some? ==> r.value < |cells| && Matches(cells[r.value], row, col)
    ensures r.Some? ==> forall k :: 0 <= k < r.value ==> !Matches(cells[k], row, col)
    ensures r.None? <==> forall k :: 0 <= k < |cells| ==> !Matches(cells[k], row, col)
  {
    if cells == [] then None
    else if Matches(cells[0], row, col) then Some(0)
    else match Find(cells[1..], row, col)
      case None => None
      case Some(k) => Some(k + 1)
  }

  /** The position `getCellPosition` returns: a copy of the found cell's position, or null. */
  function CellPosition(cells: seq<Cell>, row: int, col: int): Option<Vec3> {
    match Find(cells, row, col)
    case None => None
    case Some(k) => Some(cells[k].position)
  }

  /** The cells after `highlightCell(row, col, highlight)`. */
  function Highlighted(cells: seq<Cell>, row: int, col: int, highlight: bool): (r: seq<Cell>)
    ensures |r| == |cells|
  {
    match Find(cells, row, col)
    case None => cells
    case Some(k) =>
      if cells[k].highlight.Overlay? then cells[k := cells[k].(highlight := Overlay(highlight))]
      else if highlight then cells[k := cells[k].(highlight := Overlay(true))]
      else cells
  }

  /** Whether `highlightCell(row, col, highlight)` creates a new overlay mesh. */
  predicate CreatesOverlay(cells: seq<Cell>, row: int, col: int, highlight: bool) {
    match Find(cells, row, col)
    case None => false
    case Some(k) => cells[k].highlight.NoOverlay? && highlight
  }

  /** `BoardManager`: the cell list and the overlay meshes added to the board. */
  class BoardManager {
    const cellSize: real    // CELL_SIZE
    var cells: seq<Cell>
    var overlays: nat       // highlight meshes added to the board

    constructor (cellSize: real)
      requires cellSize > 0.0
      ensures this.cellSize == cellSize && cells == [] && overlays == 0
    {
      this.cellSize := cellSize;
      cells := [];
      overlays := 0;
    }

    /** `createGridCells()`: pushes the grid cells, rows outer and columns inner. */
    method CreateGridCells()
      modifies this
      ensures cells == old(cells) + GridCells(cellSize)
      ensures overlays == old(overlays)
    {
      var row := 0;
      while row < GridSize
        invariant 0 <= row <= GridSize
        invariant cells == old(cells) + GridCells(cellSize)[..row * GridSize]
        invariant overlays == old(overlays)
      {
        var col := 0;
        while col < GridSize
          invariant 0 <= col <= GridSize
          invariant cells == old(cells) + GridCells(cellSize)[..row * GridSize + col]
          invariant overlays == old(overlays)
        {
          var x := StartOffset(cellSize) + (col as real) * (cellSize + Gap);
          var z := StartOffset(cellSize) + (row as real) * (cellSize + Gap);
          var k := row * GridSize + col;
          assert k / GridSize == row && k % GridSize == col;
          assert GridCell(cellSize, k) == Cell(row, col, Vec3(x, BoardDepth / 2.0, z), NoOverlay);
          assert GridCells(cellSize)[..k + 1] == GridCells(cellSize)[..k] + [GridCell(cellSize, k)];
          cells := cells + [Cell(row, col, Vec3(x, BoardDepth / 2.0, z), NoOverlay)];
          col := col + 1;
        }
        row := row + 1;
      }
      assert GridCells(cellSize)[..GridSize * GridSize] == GridCells(cellSize);
    }

    /** `getCellPosition(row, col)`: the loop of `find`, then a copy of the position. */
    method GetCellPosition(row: int, col: int) returns (p: Option<Vec3>)
      ensures p == CellPosition(cells, row, col)
    {
      var k := 0;
      while k < |cells|
        invariant 0 <= k <= |cells|
        invariant forall j :: 0 <= j < k ==> !Matches(cells[j], row, col)
      {
        if cells[k].row == row && cells[k].col == col {
          return Some(cells[k].position);
        }
        k := k + 1;
      }
      p := None;
    }

    /** `highlightCell(row, col, highlight)`. */
    method HighlightCell(row: int, col: int, highlight: bool)
      modifies this
      ensures cells == Highlighted(old(cells), row, col, highlight)
      ensures overlays == old(overlays) + (if CreatesOverlay(old(cells), row, col, highlight) then 1 else 0)
    {
      var k := Find(cells, row, col);
      if k.Some? && cells[k.value].highlight.Overlay? {
        cells := cells[k.value := cells[k.value].(highlight := Overlay(highlight))];
      } else if k.Some? && highlight {
        overlays := overlays + 1;
        cells := cells[k.value := cells[k.value].(highlight := Overlay(true))];
      }
    }
  }
}

/** What the grid, the lookup and the highlight toggle guarantee. */
module BoardLemmas {
  import opened Common
  import opened Constants
  import opened Board

  /** The grid has `GRID_SIZE`^2 cells in row-major order, starting without overlays. */
  lemma GridRowMajor(cellSize: real, k: nat)
    requires k < GridSize * GridSize
    ensures |GridCells(cellSize)| == GridSize * GridSize
    ensures GridCells(cellSize)[k].row == k / GridSize && GridCells(cellSize)[k].col == k % GridSize
    ensures GridCells(cellSize)[k].highlight == NoOverlay
  {
  }

  /** Each in-range (row, col) pair is the cell at index row * GRID_SIZE + col, and only there. */
  lemma GridPairsOnce(cellSize: real, row: int, col: int, k: nat)
    requires k < GridSize * GridSize
    ensures Matches(GridCells(cellSize)[k], row, col) <==>
      0 <= row < GridSize && 0 <= col < GridSize && k == row * GridSize + col
  {
  }

  /** The lookup finds exactly the in-range pairs, at their row-major index. */
  lemma FindInGrid(cellSize: real, row: int, col: int)
    ensures Find(GridCells(cellSize), row, col) ==
      if 0 <= row < GridSize && 0 <= col < GridSize then Some(row * GridSize + col) else None
  {
    var cells := GridCells(cellSize);
    forall k | 0 <= k < |cells|
      ensures Matches(cells[k], row, col) <==> 0 <= row < GridSize && 0 <= col < GridSize && k == row * GridSize + col
    {
      GridPairsOnce(cellSize, row, col, k);
    }
    if 0 <= row < GridSize && 0 <= col < GridSize {
      var r := Find(cells, row, col);
      assert r.Some? by {
        assert Matches(cells[row * GridSize + col], row, col);
      }
    }
  }

  /** `getCellPosition` on the built grid: the centre for an in-range pair, null otherwise. */
  lemma CellPositionInGrid(cellSize: real, row: int, col: int)
    ensures CellPosition(GridCells(cellSize), row, col) ==
      if 0 <= row < GridSize && 0 <= col < GridSize
      then Some(Vec3(Coord(cellSize, col), BoardDepth / 2.0, Coord(cellSize, row)))
      else None
  {
    FindInGrid(cellSize, row, col);
  }

  /** The grid is symmetric about the board centre: x(k) + x(G - 1 - k) = 0. */
  lemma GridSymmetric(cellSize: real, k: nat)
    requires k < GridSize
    ensures Coord(cellSize, k) + Coord(cellSize, GridSize - 1 - k) == 0.0
  {
  }

  /** Every stored cell position lies at the top of the board. */
  lemma CellsOnBoardTop(cellSize: real, k: nat)
    requires k < |GridCells(cellSize)|
    ensures GridCells(cellSize)[k].position.y == BoardDepth / 2.0
  {
  }

  /** With a positive cell size, centres step by cell size plus gap, so distinct cells never share a centre. */
  lemma CentresDistinct(cellSize: real, i: nat, j: nat)
    requires cellSize > 0.0
    requires i < |GridCells(cellSize)| && j < |GridCells(cellSize)| && i != j
    ensures GridCells(cellSize)[i].position != GridCells(cellSize)[j].position
  {
    var a, b := GridCells(cellSize)[i], GridCells(cellSize)[j];
    if a.col != b.col {
      assert a.col < b.col ==> Coord(cellSize, a.col) < Coord(cellSize, b.col);
      assert b.col < a.col ==> Coord(cellSize, b.col) < Coord(cellSize, a.col);
    } else {
      assert a.row != b.row;
      assert a.row < b.row ==> Coord(cellSize, a.row) < Coord(cellSize, b.row);
      assert b.row < a.row ==> Coord(cellSize, b.row) < Coord(cellSize, a.row);
    }
  }

  /** Highlighting an unknown cell changes nothing and creates no overlay. */
  lemma HighlightUnknownNoop(cells: seq<Cell>, row: int, col: int, highlight: bool)
    requires forall k :: 0 <= k < |cells| ==> !Matches(cells[k], row, col)
    ensures Highlighted(cells, row, col, highlight) == cells
    ensures !CreatesOverlay(cells, row, col, highlight)
  {
  }

  /** Un-highlighting a cell that was never highlighted changes nothing. */
  lemma UnhighlightFreshNoop(cellSize: real, row: int, col: int)
    ensures Highlighted(GridCells(cellSize), row, col, false) == GridCells(cellSize)
    ensures !CreatesOverlay(GridCells(cellSize), row, col, false)
  {
    FindInGrid(cellSize, row, col);
  }

  /** Only the first call on a cell creates its overlay; later calls only set its visibility. */
  lemma OverlayCreatedOnce(cells: seq<Cell>, row: int, col: int, h1: bool, h2: bool)
    ensures var after := Highlighted(cells, row, col, h1);
      && Find(after, row, col) == Find(cells, row, col)
      && (CreatesOverlay(cells, row, col, h1) ==> !CreatesOverlay(after, row, col, h2))
      && (Find(cells, row, col).Some? && (h1 || cells[Find(cells, row, col).value].highlight.Overlay?) ==>
            after[Find(cells, row, col).value].highlight == Overlay(h1))
  {
    var after := Highlighted(cells, row, col, h1);
    FindAfterHighlight(cells, row, col, h1);
  }

  /** Highlighting changes no row or column, so the lookup still finds the same cell. */
  lemma FindAfterHighlight(cells: seq<Cell>, row: int, col: int, highlight: bool)
    ensures Find(Highlighted(cells, row, col, highlight), row, col) == Find(cells, row, col)
  {
    var after := Highlighted(cells, row, col, highlight);
    assert forall k :: 0 <= k < |cells| ==> (Matches(after[k], row, col) <==> Matches(cells[k], row, col));
    FindSameMatches(cells, after, row, col);
  }

  lemma {:induction false} FindSameMatches(a: seq<Cell>, b: seq<Cell>, row: int, col: int)
    requires |a| == |b|
    requires forall k :: 0 <= k < |a| ==> (Matches(a[k], row, col) <==> Matches(b[k], row, col))
    ensures Find(a, row, col) == Find(b, row, col)
  {
    if a != [] {
      FindSameMatches(a[1..], b[1..], row, col);
    }
  }

  /** The highlight state of every other cell is untouched. */
  lemma HighlightTouchesOneCell(cells: seq<Cell>, row: int, col: int, highlight: bool, k: nat)
    requires k < |cells| && !Matches(cells[k], row, col)
    ensures Highlighted(cells, row, col, highlight)[k] == cells[k]
  {
  }
}
