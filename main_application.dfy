/**
 * `placePredefinedDigits` of js/main-application.js: a fixed list of (value, row, col)
 * placements replayed in order through `selectDigit`, `getCellPosition` and `placeDigit`.
 */
module MainApplication {
  import opened Common
  import opened Constants
  import opened Digits
  import opened Board

  datatype Placement = Placement(value: nat, row: int, col: int)

  /** The placement list of `placePredefinedDigits`. */
  const Placements: seq<Placement> := [
    Placement(6, 0, 0), Placement(5, 0, 1), Placement(5, 0, 2), Placement(6, 0, 3),
    Placement(7, 1, 0), Placement(0, 1, 2), Placement(0, 1, 3),
    Placement(8, 2, 0), Placement(0, 2, 1), Placement(9, 2, 3),
    Placement(8, 3, 0), Placement(8, 3, 1), Placement(9, 3, 2), Placement(3, 3, 3)]

  predicate ValuesInRange(ps: seq<Placement>) {
    forall k :: 0 <= k < |ps| ==> ps[k].value < DigitCount
  }

  /**
   * One placement: the value is selected whether or not its cell exists, and placed at the
   * cell's position only when the selection returned a digit and the lookup a position.
   */
  function Step(r: Registry, cells: seq<Cell>, p: Placement): (res: Registry)
    requires Inv(r) && p.value < DigitCount
    ensures Inv(res)
  {
    var (r1, selectedDigit) := Select(r, p.value);
    var position := CellPosition(cells, p.row, p.col);
    if selectedDigit.Some? && position.Some? then Place(r1, selectedDigit.value, position.value).0 else r1
  }

  /** The registry after the placements `ps`, one after the other. */
  function Replay(r: Registry, cells: seq<Cell>, ps: seq<Placement>): (res: Registry)
    requires Inv(r) && ValuesInRange(ps)
    ensures Inv(res)
    decreases |ps|
  {
    if ps == [] then r
    else Step(Replay(r, cells, ps[..|ps| - 1]), cells, ps[|ps| - 1])
  }

  /** The cell position of the first placement of `v` whose cell exists, if any. */
  function FirstCell(cells: seq<Cell>, ps: seq<Placement>, v: nat): Option<Vec3>
    decreases |ps|
  {
    if ps == [] then None
    else
      var earlier := FirstCell(cells, ps[..|ps| - 1], v);
      var last := ps[|ps| - 1];
      if earlier.Some? then earlier
      else if last.value == v then CellPosition(cells, last.row, last.col)
      else None
  }

  /** Every listed value is a digit. */
  lemma PlacementsInRange()
    ensures ValuesInRange(Placements)
  {
    forall k | 0 <= k < |Placements|
      ensures Placements[k].value < DigitCount
    {
      assert Placements[k] in Placements;
    }
  }

  /** Replaying one more placement is one more `Step`. */
  lemma ReplayPrefix(r: Registry, cells: seq<Cell>, ps: seq<Placement>, k: nat)
    requires Inv(r) && ValuesInRange(ps) && k < |ps|
    ensures ValuesInRange(ps[..k]) && ValuesInRange(ps[..k + 1])
    ensures Replay(r, cells, ps[..k + 1]) == Step(Replay(r, cells, ps[..k]), cells, ps[k])
  {
    var next := ps[..k + 1];
    assert next[..|next| - 1] == ps[..k] && next[|next| - 1] == ps[k];
  }

  /** `placePredefinedDigits()` over the board's cells. */
  method PlacePredefinedDigits(dm: DigitManager, bm: BoardManager)
    requires dm.Valid()
    modifies dm
    ensures dm.Valid()
    ensures dm.View() == Replay(old(dm.View()), bm.cells, Placements)
  {
    PlacementsInRange();
    PlaceEach(dm, bm, Placements);
  }

  /** The `forEach` callback of `placePredefinedDigits` for one placement. */
  method PlaceOne(dm: DigitManager, bm: BoardManager, placement: Placement)
    requires dm.Valid() && placement.value < DigitCount
    modifies dm
    ensures dm.Valid()
    ensures dm.View() == Step(old(dm.View()), bm.cells, placement)
  {
    ghost var selection := Select(dm.View(), placement.value);
    var selectedDigit := dm.SelectDigit(placement.value);
    var position := bm.GetCellPosition(placement.row, placement.col);
    if selectedDigit.Some? && position.Some? {
      var _ := dm.PlaceDigit(selectedDigit.value, position.value);
      assert dm.View() == Place(selection.0, selectedDigit.value, position.value).0;
    } else {
      assert dm.View() == selection.0;
    }
  }

  /** The `forEach` of `placePredefinedDigits` over a placement list `ps`. */
  method PlaceEach(dm: DigitManager, bm: BoardManager, ps: seq<Placement>)
    requires dm.Valid() && ValuesInRange(ps)
    modifies dm
    ensures dm.Valid()
    ensures dm.View() == Replay(old(dm.View()), bm.cells, ps)
  {
    ghost var start := dm.View();
    assert Replay(start, bm.cells, ps[..0]) == start by {
      assert ps[..0] == [];
    }
    var k := 0;
    while k < |ps|
      invariant 0 <= k <= |ps|
      invariant Inv(start) && ValuesInRange(ps[..k])
      invariant dm.Valid()
      invariant dm.View() == Replay(start, bm.cells, ps[..k])
    {
      PlaceOne(dm, bm, ps[k]);
      ReplayPrefix(start, bm.cells, ps, k);
      k := k + 1;
    }
    assert ps[..k] == ps;
  }
}

/** What the scripted placement leads to. */
module MainApplicationLemmas {
  import opened Common
  import opened Constants
  import opened Digits
  import opened Board
  import opened BoardLemmas
  import opened MainApplication

  /**
   * One placement leaves every other digit's `placed` flag and position alone, and a digit
   * placed before it too; an unplaced listed digit is placed exactly when its cell exists,
   * at that cell's x and z. The selection ends empty after a placement and on the listed
   * digit after a failed lookup.
   */
  lemma StepFacts(r: Registry, cells: seq<Cell>, p: Placement, u: nat)
    requires Inv(r) && p.value < DigitCount && u < DigitCount
    ensures var res := Step(r, cells, p);
      var position := CellPosition(cells, p.row, p.col);
      && ((u != p.value || r.digits[u].placed) ==>
            res.digits[u].placed == r.digits[u].placed && res.digits[u].position == r.digits[u].position)
      && ((u == p.value && !r.digits[u].placed) ==>
            && (res.digits[u].placed <==> position.Some?)
            && (position.Some? ==> res.digits[u].position == Vec3(position.value.x, PlaceHeight, position.value.z)))
      && res.selected ==
           (if r.digits[p.value].placed then r.selected
            else if position.Some? then None
            else Some(p.value))
  {
    var v := p.value;
    if !r.digits[v].placed {
      var r1 := Select(r, v).0;
      assert r1.digits[u].(look := NormalLook) == r.digits[u].(look := NormalLook);
      var position := CellPosition(cells, p.row, p.col);
      if position.Some? {
        PlaceRecordsDigit(r1, v, position.value);
      }
    }
  }

  /**
   * After replaying `ps`, a digit unplaced before is placed exactly when some placement of
   * its value has an existing cell, and then it sits at the first such cell.
   */
  lemma {:induction false} ReplayPlacesAtFirstCell(r: Registry, cells: seq<Cell>, ps: seq<Placement>, v: nat)
    requires Inv(r) && ValuesInRange(ps) && v < DigitCount && !r.digits[v].placed
    ensures var res := Replay(r, cells, ps);
      var first := FirstCell(cells, ps, v);
      && (res.digits[v].placed <==> first.Some?)
      && (first.Some? ==> res.digits[v].position == Vec3(first.value.x, PlaceHeight, first.value.z))
    decreases |ps|
  {
    if ps != [] {
      var front := ps[..|ps| - 1];
      assert ValuesInRange(front);
      ReplayPlacesAtFirstCell(r, cells, front, v);
      StepFacts(Replay(r, cells, front), cells, ps[|ps| - 1], v);
    }
  }

  /** A digit already placed, or one whose value the placements never list, keeps its flag and position. */
  lemma {:induction false} ReplayKeepsOthers(r: Registry, cells: seq<Cell>, ps: seq<Placement>, v: nat)
    requires Inv(r) && ValuesInRange(ps) && v < DigitCount
    requires r.digits[v].placed || forall p :: p in ps ==> p.value != v
    ensures Replay(r, cells, ps).digits[v].placed == r.digits[v].placed
    ensures Replay(r, cells, ps).digits[v].position == r.digits[v].position
    decreases |ps|
  {
    if ps != [] {
      var front := ps[..|ps| - 1];
      assert ValuesInRange(front);
      assert forall p :: p in front ==> p in ps;
      assert ps[|ps| - 1] in ps;
      ReplayKeepsOthers(r, cells, front, v);
      StepFacts(Replay(r, cells, front), cells, ps[|ps| - 1], v);
    }
  }

  /** No placement of `v` has an existing cell: `v` has no first cell. */
  lemma {:induction false} FirstCellNone(cells: seq<Cell>, ps: seq<Placement>, v: nat)
    requires forall p :: p in ps && p.value == v ==> CellPosition(cells, p.row, p.col).None?
    ensures FirstCell(cells, ps, v).None?
    decreases |ps|
  {
    if ps != [] {
      var front := ps[..|ps| - 1];
      assert forall p :: p in front ==> p in ps;
      assert ps[|ps| - 1] in ps;
      FirstCellNone(cells, front, v);
    }
  }

  /** The placement at index k has an existing cell and no earlier placement of `v` has one. */
  lemma {:induction false} FirstCellAt(cells: seq<Cell>, ps: seq<Placement>, v: nat, k: nat)
    requires k < |ps| && ps[k].value == v && CellPosition(cells, ps[k].row, ps[k].col).Some?
    requires forall j :: 0 <= j < k && ps[j].value == v ==> CellPosition(cells, ps[j].row, ps[j].col).None?
    ensures FirstCell(cells, ps, v) == CellPosition(cells, ps[k].row, ps[k].col)
    decreases |ps|
  {
    var front := ps[..|ps| - 1];
    if k == |ps| - 1 {
      forall p | p in front && p.value == v
        ensures CellPosition(cells, p.row, p.col).None?
      {
        var j :| 0 <= j < |front| && front[j] == p;
        assert ps[j] == p;
      }
      FirstCellNone(cells, front, v);
    } else {
      FirstCellAt(cells, front, v, k);
    }
  }

  /** The values the list names. */
  lemma ListedValues(p: Placement)
    requires p in Placements
    ensures p.value in {0, 3, 5, 6, 7, 8, 9}
  {
  }

  /** Digits 1, 2 and 4 are not in the list, so the script never places them. */
  lemma UnlistedNeverPlaced(cells: seq<Cell>, v: nat)
    requires v == 1 || v == 2 || v == 4
    ensures !Scripted(cells).digits[v].placed
  {
    InitialInv();
    PlacementsInRange();
    forall p | p in Placements
      ensures p.value != v
    {
      ListedValues(p);
    }
    ReplayKeepsOthers(Initial(), cells, Placements, v);
  }

  /** Which placements find a cell on the grid of `GRID_SIZE` 2: those in rows and columns 0 and 1. */
  lemma PlacementCells(cellSize: real, p: Placement)
    requires p in Placements
    ensures CellPosition(GridCells(cellSize), p.row, p.col) ==
      if p.row < GridSize && p.col < GridSize
      then Some(Vec3(Coord(cellSize, p.col), BoardDepth / 2.0, Coord(cellSize, p.row)))
      else None
  {
    CellPositionInGrid(cellSize, p.row, p.col);
  }

  /** The placements of values other than 5, 6 and 7 all lie in a row or column past 1. */
  lemma ListedOffGrid(p: Placement)
    requires p in Placements && p.value != 5 && p.value != 6 && p.value != 7
    ensures p.row >= GridSize || p.col >= GridSize
  {
  }

  /** The first existing cell of each value on the grid of `GRID_SIZE` 2. */
  lemma FirstCellsOnTwoByTwoGrid(cellSize: real, v: nat)
    ensures var first := FirstCell(GridCells(cellSize), Placements, v);
      && (v == 6 ==> first == Some(Vec3(Coord(cellSize, 0), BoardDepth / 2.0, Coord(cellSize, 0))))
      && (v == 5 ==> first == Some(Vec3(Coord(cellSize, 1), BoardDepth / 2.0, Coord(cellSize, 0))))
      && (v == 7 ==> first == Some(Vec3(Coord(cellSize, 0), BoardDepth / 2.0, Coord(cellSize, 1))))
      && (v != 5 && v != 6 && v != 7 ==> first.None?)
  {
    if v == 6 {
      FirstCellOnGrid(cellSize, 0);
    } else if v == 5 {
      FirstCellOnGrid(cellSize, 1);
    } else if v == 7 {
      FirstCellOnGrid(cellSize, 4);
    } else {
      NoFirstCellOffGrid(cellSize, v);
    }
  }

  /** The first listed entry of its value that lies on the grid of `GRID_SIZE` 2 gives that value's first cell. */
  lemma FirstCellOnGrid(cellSize: real, k: nat)
    requires k < |Placements|
    requires Placements[k].row < GridSize && Placements[k].col < GridSize
    requires forall j :: 0 <= j < k ==> Placements[j].value != Placements[k].value
    ensures FirstCell(GridCells(cellSize), Placements, Placements[k].value)
      == Some(Vec3(Coord(cellSize, Placements[k].col), BoardDepth / 2.0, Coord(cellSize, Placements[k].row)))
  {
    assert Placements[k] in Placements;
    PlacementCells(cellSize, Placements[k]);
    FirstCellAt(GridCells(cellSize), Placements, Placements[k].value, k);
  }

  /** A value other than 5, 6 and 7 finds no cell on the grid of `GRID_SIZE` 2. */
  lemma NoFirstCellOffGrid(cellSize: real, v: nat)
    requires v != 5 && v != 6 && v != 7
    ensures FirstCell(GridCells(cellSize), Placements, v).None?
  {
    var cells := GridCells(cellSize);
    forall p | p in Placements && p.value == v
      ensures CellPosition(cells, p.row, p.col).None?
    {
      ListedOffGrid(p);
      PlacementCells(cellSize, p);
    }
    FirstCellNone(cells, Placements, v);
  }

  /** The registry the script leaves behind when it starts from the initial one. */
  function Scripted(cells: seq<Cell>): (res: Registry)
    ensures Inv(res)
  {
    InitialInv();
    PlacementsInRange();
    Replay(Initial(), cells, Placements)
  }

  /**
   * The script's last entry selects 3, which no earlier entry lists, and its cell (3, 3) is
   * off the grid of `GRID_SIZE` 2: the script ends with 3 selected.
   */
  lemma ScriptEndsOnThree(cellSize: real)
    ensures Scripted(GridCells(cellSize)).selected == Some(3)
  {
    InitialInv();
    PlacementsInRange();
    var cells := GridCells(cellSize);
    var front := Placements[..13];
    var last := Placements[13];
    assert Placements[..|Placements| - 1] == front;
    assert ValuesInRange(front);
    assert forall p :: p in front ==> p.value != 3 by {
      forall p | p in front
        ensures p.value != 3
      {
        var k :| 0 <= k < |front| && front[k] == p;
        assert front[k] == Placements[k];
      }
    }
    ReplayKeepsOthers(Initial(), cells, front, 3);
    PlacementCells(cellSize, last);
    StepFacts(Replay(Initial(), cells, front), cells, last, 3);
  }

  /**
   * On the grid of `GRID_SIZE` 2 only rows and columns 0 and 1 exist: the script places 6 at
   * (0, 0), 5 at (0, 1) and 7 at (1, 0), leaves everything else unplaced, and ends with 3
   * selected.
   */
  lemma ScriptOnTwoByTwoGrid(cellSize: real, v: nat)
    requires v < DigitCount
    ensures var res := Scripted(GridCells(cellSize));
      && (res.digits[v].placed <==> v == 5 || v == 6 || v == 7)
      && res.selected == Some(3)
      && (v == 6 ==> res.digits[v].position == Vec3(Coord(cellSize, 0), PlaceHeight, Coord(cellSize, 0)))
      && (v == 5 ==> res.digits[v].position == Vec3(Coord(cellSize, 1), PlaceHeight, Coord(cellSize, 0)))
      && (v == 7 ==> res.digits[v].position == Vec3(Coord(cellSize, 0), PlaceHeight, Coord(cellSize, 1)))
  {
    InitialInv();
    PlacementsInRange();
    assert !Initial().digits[v].placed;
    ReplayPlacesAtFirstCell(Initial(), GridCells(cellSize), Placements, v);
    FirstCellsOnTwoByTwoGrid(cellSize, v);
    ScriptEndsOnThree(cellSize);
  }
}
