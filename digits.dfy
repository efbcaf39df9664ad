/**
 * The digit registry of js/digitManager.js: ten digits 0..9, one selection and the
 * `placedDigits` record, with the operations select, place, rotate, flip and reset.
 *
 * The digit groups are records held in `DigitManager.digits`; a reference to a digit
 * (`selectedDigit`, the values of `placedDigits`, the `digit` argument of `placeDigit`) is
 * its index, which is also its value. Angles are real multiples of pi radians. The
 * material colour of a digit's segments is its `Look`.
 */
module Digits {
  import opened Common
  import opened Segments
  import opened Constants

  /** The `show` arrays of `createDigitMesh`, as sets: the values whose digit has segment `s`. */
  function Show(s: Segment): set<nat> {
    match s
    case A => {0, 2, 3, 5, 6, 7, 8, 9}
    case B => {0, 1, 2, 3, 4, 7, 8, 9}
    case C => {0, 1, 3, 4, 5, 6, 7, 8, 9}
    case D => {0, 2, 3, 5, 6, 8, 9}
    case E => {0, 2, 6, 8}
    case F => {0, 4, 5, 6, 8, 9}
    case G => {2, 3, 4, 5, 6, 8, 9}
  }

  /** Key `k` if it shows `value`, else nothing: one step of `Lit`. */
  function Pick(k: Segment, value: int): seq<Segment> {
    if value in Show(k) then [k] else []
  }

  /** The keys, in their order, whose `show` list includes `value`. */
  function Lit(keys: seq<Segment>, value: int): seq<Segment> {
    if keys == [] then [] else Pick(keys[0], value) + Lit(keys[1..], value)
  }

  /** `Lit` keeps exactly the keys whose `show` list holds `value`, and no more of them. */
  lemma {:induction false} LitMembers(keys: seq<Segment>, value: int)
    ensures forall s :: s in Lit(keys, value) <==> s in keys && value in Show(s)
    ensures |Lit(keys, value)| <= |keys|
  {
    if keys != [] {
      LitMembers(keys[1..], value);
      assert forall s :: s in keys <==> s == keys[0] || s in keys[1..];
    }
  }

  /**
   * The segments `createDigitMesh` gives each digit 0..9, written out. The registry invariant
   * refers to this table rather than to `Lit`, which keeps the filter's recursion out of every
   * proof about the registry; `SegmentTableIsLit` shows the two agree.
   */
  const SegmentTable: seq<seq<Segment>> := [
    [A, B, C, D, E, F], [B, C], [A, B, D, E, G], [A, B, C, D, G], [B, C, F, G],
    [A, C, D, F, G], [A, C, D, E, F, G], [A, B, C], [A, B, C, D, E, F, G], [A, B, C, D, F, G]]

  /** The filter over a..g, one key at a time. */
  function Unrolled(value: int): seq<Segment> {
    Pick(A, value) + (Pick(B, value) + (Pick(C, value) + (Pick(D, value) + (Pick(E, value) + (Pick(F, value) + Pick(G, value))))))
  }

  /** `Lit` of a key followed by more keys. */
  lemma LitCons(k: Segment, ks: seq<Segment>, value: int)
    ensures Lit([k] + ks, value) == Pick(k, value) + Lit(ks, value)
  {
    assert ([k] + ks)[1..] == ks;
  }

  /** The table is what filtering the keys a..g by the `show` lists gives. */
  lemma SegmentTableIsLit(value: nat)
    requires value < |SegmentTable|
    ensures SegmentTable[value] == Lit(Order, value)
  {
    LitUnrolls(value);
    TableRowUnrolls(value);
  }

  /** Each row of the table is the a..g filter for its value. */
  lemma TableRowUnrolls(value: nat)
    requires value < |SegmentTable|
    ensures SegmentTable[value] == Unrolled(value)
  {
    if value < 5 { LowRowsUnroll(value); } else { HighRowsUnroll(value); }
  }

  lemma LowRowsUnroll(value: nat)
    requires value < 5
    ensures SegmentTable[value] == Unrolled(value)
  {
    if value == 0 { assert Unrolled(0) == [A, B, C, D, E, F]; }
    else if value == 1 { assert Unrolled(1) == [B, C]; }
    else if value == 2 { assert Unrolled(2) == [A, B, D, E, G]; }
    else if value == 3 { assert Unrolled(3) == [A, B, C, D, G]; }
    else { assert Unrolled(4) == [B, C, F, G]; }
  }

  lemma HighRowsUnroll(value: nat)
    requires 5 <= value < 10
    ensures SegmentTable[value] == Unrolled(value)
  {
    if value == 5 { assert Unrolled(5) == [A, C, D, F, G]; }
    else if value == 6 { assert Unrolled(6) == [A, C, D, E, F, G]; }
    else if value == 7 { assert Unrolled(7) == [A, B, C]; }
    else if value == 8 { assert Unrolled(8) == [A, B, C, D, E, F, G]; }
    else { assert Unrolled(9) == [A, B, C, D, F, G]; }
  }

  lemma LitUnrolls(value: int)
    ensures Unrolled(value) == Lit(Order, value)
  {
    assert Lit(Order, value) == Pick(A, value) + Lit([B, C, D, E, F, G], value) by {
      assert Order == [A] + [B, C, D, E, F, G];
      LitCons(A, [B, C, D, E, F, G], value);
    }
    assert Lit([B, C, D, E, F, G], value) == Pick(B, value) + Lit([C, D, E, F, G], value) by {
      LitCons(B, [C, D, E, F, G], value);
    }
    assert Lit([C, D, E, F, G], value) == Pick(C, value) + Lit([D, E, F, G], value) by {
      LitCons(C, [D, E, F, G], value);
    }
    assert Lit([D, E, F, G], value) == Pick(D, value) + Lit([E, F, G], value) by {
      LitCons(D, [E, F, G], value);
    }
    assert Lit([E, F, G], value) == Pick(E, value) + Lit([F, G], value) by {
      LitCons(E, [F, G], value);
    }
    assert Lit([F, G], value) == Pick(F, value) + Lit([G], value) by {
      LitCons(F, [G], value);
    }
    assert Lit([G], value) == Pick(G, value) by {
      LitCons(G, [], value);
    }
  }

  /** Filtering one more key at the end adds that key at the end when it shows. */
  lemma {:induction false} LitSnoc(keys: seq<Segment>, key: Segment, value: int)
    ensures Lit(keys + [key], value) == Lit(keys, value) + (if value in Show(key) then [key] else [])
  {
    if keys == [] {
      assert [key][1..] == [];
    } else {
      assert (keys + [key])[1..] == keys[1..] + [key];
      LitSnoc(keys[1..], key, value);
    }
  }

  /** The segment material colour: COLORS.DIGIT, COLORS.SELECTED_DIGIT or COLORS.PLACED_DIGIT. */
  datatype Look = NormalLook | SelectedLook | PlacedLook

  /** A group's `rotation` (x, y, z), in multiples of pi. */
  datatype Euler = Euler(x: real, y: real, z: real)

  /** A digit group: its `userData`, its segment children, its position and its rotation. */
  datatype Digit = Digit(
    value: nat,
    segments: seq<Segment>,
    home: Vec3,              // userData.originalPosition
    position: Vec3,
    placed: bool,
    rotation: real,          // userData.rotation
    flipped: bool,
    initialXRotation: real,
    euler: Euler,
    look: Look)

  /** The registry state: `digits`, `selectedDigit` and `placedDigits`. */
  datatype Registry = Registry(digits: seq<Digit>, selected: Option<nat>, placedDigits: map<nat, nat>)

  /** `boardOffset` of `createDigits`: distance of the home columns from the board edge. */
  const BoardOffset: real := 3.0

  /** `-Math.PI / 2`: the x tilt that lays a digit flat. */
  const FlatTilt: real := -0.5

  function HomePosition(i: nat): Vec3
    requires i < DigitCount
  {
    if i < 5 then
      Vec3(-BoardWidth / 2.0 - BoardOffset, 1.0, -BoardHeight / 2.0 + (i as real) * (BoardHeight / 4.0))
    else
      Vec3(BoardWidth / 2.0 + BoardOffset, 1.0, -BoardHeight / 2.0 + ((i - 5) as real) * (BoardHeight / 4.0))
  }

  /** The z rotation of a digit: pi when flipped, 0 otherwise. */
  function FlipAngle(flipped: bool): real {
    if flipped then 1.0 else 0.0
  }

  /** Digit `i` as `createDigits` leaves it. */
  function NewDigit(i: nat): Digit
    requires i < DigitCount
  {
    var home := HomePosition(i);
    Digit(i, SegmentTable[i], home, home, false, 0.0, false, FlatTilt, Euler(FlatTilt, 0.0, 0.0), NormalLook)
  }

  /** The registry as `createDigits` leaves a new manager. */
  function Initial(): Registry {
    Registry(seq(DigitCount, i requires 0 <= i < DigitCount => NewDigit(i)), None, map[])
  }

  /** The colour the operations give digit `i`. */
  function ExpectedLook(r: Registry, i: nat): Look
    requires i < |r.digits|
  {
    if r.digits[i].placed then PlacedLook
    else if r.selected == Some(i) then SelectedLook
    else NormalLook
  }

  /** What every operation keeps true of digit `i`. */
  predicate DigitOk(d: Digit, i: nat) {
    && d.value == i
    && i < DigitCount
    && d.segments == SegmentTable[i]
    && d.home == HomePosition(i)
    && d.initialXRotation == FlatTilt
    && d.euler == Euler(d.initialXRotation, d.rotation, FlipAngle(d.flipped))
    && (d.placed ==> d.position.y == PlaceHeight)
  }

  /**
   * The registry invariant: ten digits with value i at index i; the selection is absent or an
   * unplaced digit; `placedDigits` has exactly the values of the placed digits as keys, each
   * recorded under its own value; and each digit's colour is determined by its state.
   */
  predicate Inv(r: Registry) {
    && |r.digits| == DigitCount
    && (forall i :: 0 <= i < DigitCount ==> DigitOk(r.digits[i], i))
    && (r.selected.Some? ==> r.selected.value < DigitCount && !r.digits[r.selected.value].placed)
    && (forall v :: v in r.placedDigits ==> v < DigitCount && r.digits[v].placed)
    && (forall i :: 0 <= i < DigitCount && r.digits[i].placed ==> i in r.placedDigits)
    && (forall v :: v in r.placedDigits ==> r.placedDigits[v] == v)
    && (forall i :: 0 <= i < DigitCount ==> r.digits[i].look == ExpectedLook(r, i))
  }

  /** Two registries that differ at most in the colours of their digits. */
  predicate SameButLooks(r: Registry, s: Registry) {
    && |r.digits| == |s.digits|
    && r.placedDigits == s.placedDigits
    && forall i :: 0 <= i < |r.digits| ==> r.digits[i].(look := NormalLook) == s.digits[i].(look := NormalLook)
  }

  /** A registry that differs from a valid one only in colours and selection is valid once those agree. */
  lemma RecolourKeepsInv(r: Registry, s: Registry)
    requires Inv(r) && SameButLooks(r, s)
    requires s.selected.Some? ==> s.selected.value < DigitCount && !s.digits[s.selected.value].placed
    requires forall i :: 0 <= i < DigitCount ==> s.digits[i].look == ExpectedLook(s, i)
    ensures Inv(s)
  {
    forall i | 0 <= i < DigitCount
      ensures DigitOk(s.digits[i], i) && s.digits[i].placed == r.digits[i].placed
    {
      assert r.digits[i].(look := NormalLook) == s.digits[i].(look := NormalLook);
    }
  }

  lemma InitialInv()
    ensures Inv(Initial())
  {
    var r := Initial();
    forall i | 0 <= i < DigitCount
      ensures DigitOk(r.digits[i], i) && r.digits[i].look == ExpectedLook(r, i)
    {
      assert r.digits[i] == NewDigit(i);
    }
  }

  /**
   * `selectDigit(value)`: a placed digit changes nothing and yields no digit; otherwise the
   * previous selection returns to the normal colour and `value` becomes the one selection.
   */
  function Select(r: Registry, value: nat): (res: (Registry, Option<nat>))
    requires Inv(r) && value < DigitCount
    ensures Inv(res.0)
    ensures r.digits[value].placed ==> res == (r, None)
    ensures !r.digits[value].placed ==>
      res.1 == Some(value) && res.0.selected == Some(value) && SameButLooks(r, res.0)
  {
    if r.digits[value].placed then (r, None)
    else
      var s := Recolour(r, value);
      RecolourFacts(r, value);
      RecolourKeepsInv(r, s);
      (s, Some(value))
  }

  /** The body of `selectDigit` past its guard: the old selection back to normal, `value` selected. */
  function Recolour(r: Registry, value: nat): Registry
    requires |r.digits| == DigitCount && value < DigitCount
    requires r.selected.Some? ==> r.selected.value < DigitCount
  {
    var ds := if r.selected.Some? then r.digits[r.selected.value := r.digits[r.selected.value].(look := NormalLook)]
              else r.digits;
    Registry(ds[value := ds[value].(look := SelectedLook)], Some(value), r.placedDigits)
  }

  lemma RecolourFacts(r: Registry, value: nat)
    requires Inv(r) && value < DigitCount && !r.digits[value].placed
    ensures var s := Recolour(r, value);
      && SameButLooks(r, s)
      && forall i :: 0 <= i < DigitCount ==> s.digits[i].look == ExpectedLook(s, i)
  {
    var s := Recolour(r, value);
    forall i | 0 <= i < DigitCount
      ensures s.digits[i].look == ExpectedLook(s, i)
      ensures r.digits[i].(look := NormalLook) == s.digits[i].(look := NormalLook)
    {
      if i == value {
      } else if r.selected == Some(i) {
      } else {
        assert s.digits[i] == r.digits[i];
      }
    }
  }

  /**
   * `placeDigit(digit, position)`: a placed digit changes nothing; otherwise the digit takes
   * x and z from `position` at height `PlaceHeight`, becomes placed, is recorded under its
   * value in `placedDigits`, and stops being the selection if it was.
   */
  function Place(r: Registry, digit: nat, position: Vec3): (res: (Registry, bool))
    requires Inv(r) && digit < DigitCount
    ensures Inv(res.0)
  {
    if r.digits[digit].placed then (r, false)
    else
      var d := r.digits[digit];
      var d' := d.(position := Vec3(position.x, PlaceHeight, position.z), placed := true, look := PlacedLook);
      var sel := if r.selected == Some(digit) then None else r.selected;
      var s := Registry(r.digits[digit := d'], sel, r.placedDigits[d.value := digit]);
      assert forall i :: 0 <= i < DigitCount ==> s.digits[i].look == ExpectedLook(s, i);
      (s, true)
  }

  /** What `Place` does, as stated above it. */
  lemma PlaceRecordsDigit(r: Registry, digit: nat, position: Vec3)
    requires Inv(r) && digit < DigitCount
    ensures var res := Place(r, digit, position);
      && (r.digits[digit].placed ==> res == (r, false))
      && (!r.digits[digit].placed ==>
            && res.1
            && res.0.digits[digit].placed
            && res.0.digits[digit].position == Vec3(position.x, PlaceHeight, position.z)
            && res.0.digits[digit].look == PlacedLook
            && res.0.digits[digit].(position := r.digits[digit].position, placed := false, look := r.digits[digit].look)
                 == r.digits[digit]
            && res.0.placedDigits == r.placedDigits[digit := digit]
            && res.0.selected == (if r.selected == Some(digit) then None else r.selected)
            && |res.0.digits| == |r.digits|
            && (forall j :: 0 <= j < DigitCount && j != digit ==> res.0.digits[j] == r.digits[j]))
  {
  }

  /**
   * `rotateSelectedDigit(direction)`: without a selection nothing changes; otherwise the
   * selected digit's rotation grows by direction times a quarter turn, and its y rotation
   * follows while the x tilt stays at `initialXRotation`.
   */
  function Rotate(r: Registry, direction: real): (res: Registry)
    requires Inv(r)
    ensures Inv(res)
  {
    if r.selected.None? then r
    else
      var i := r.selected.value;
      var d := r.digits[i];
      var rot := d.rotation + direction / 2.0;
      r.(digits := r.digits[i := d.(rotation := rot, euler := d.euler.(y := rot, x := d.initialXRotation))])
  }

  /**
   * What `Rotate` does: nothing without a selection; otherwise only the selected digit's
   * rotation changes, by `direction` quarter turns, with the y rotation following it and the x
   * tilt at `initialXRotation`.
   */
  lemma RotateTurnsSelection(r: Registry, direction: real)
    requires Inv(r)
    ensures var res := Rotate(r, direction);
      && (r.selected.None? ==> res == r)
      && (r.selected.Some? ==>
            var i := r.selected.value;
            && res.selected == r.selected && res.placedDigits == r.placedDigits && |res.digits| == |r.digits|
            && res.digits[i].rotation == r.digits[i].rotation + direction / 2.0
            && res.digits[i].euler == Euler(FlatTilt, res.digits[i].rotation, r.digits[i].euler.z)
            && res.digits[i].(rotation := 0.0, euler := r.digits[i].euler) == r.digits[i].(rotation := 0.0)
            && (forall j :: 0 <= j < DigitCount && j != i ==> res.digits[j] == r.digits[j]))
  {
    if r.selected.Some? {
      assert DigitOk(r.digits[r.selected.value], r.selected.value);
    }
  }

  /**
   * `flipSelectedDigit()`: without a selection nothing changes; otherwise the selected
   * digit's `flipped` flag toggles, its z rotation is pi exactly when flipped, and the x tilt
   * stays at `initialXRotation`.
   */
  function Flip(r: Registry): (res: Registry)
    requires Inv(r)
    ensures Inv(res)
    ensures r.selected.None? ==> res == r
    ensures r.selected.Some? ==>
      var i := r.selected.value;
      && res.selected == r.selected && res.placedDigits == r.placedDigits && |res.digits| == |r.digits|
      && res.digits[i].flipped == !r.digits[i].flipped
      && res.digits[i].euler.z == (if res.digits[i].flipped then 1.0 else 0.0)
      && res.digits[i].euler.x == FlatTilt
      && res.digits[i].euler.y == r.digits[i].euler.y
      && res.digits[i].(flipped := r.digits[i].flipped, euler := r.digits[i].euler) == r.digits[i]
      && (forall j :: 0 <= j < DigitCount && j != i ==> res.digits[j] == r.digits[j])
  {
    if r.selected.None? then r
    else
      var i := r.selected.value;
      var d := r.digits[i];
      var f := !d.flipped;
      r.(digits := r.digits[i := d.(flipped := f, euler := d.euler.(z := FlipAngle(f), x := d.initialXRotation))])
  }

  /**
   * A pointer handler writing the `position` of an unplaced digit: only that digit's position
   * changes, and the registry stays valid.
   */
  function MoveTo(r: Registry, i: nat, p: Vec3): (res: Registry)
    requires Inv(r) && i < DigitCount && !r.digits[i].placed
    ensures Inv(res)
  {
    var s := r.(digits := r.digits[i := r.digits[i].(position := p)]);
    assert forall j :: 0 <= j < DigitCount ==> s.digits[j].look == ExpectedLook(s, j);
    s
  }

  /** One digit as the loop of `resetDigits` leaves it. */
  function ResetDigit(d: Digit): Digit {
    d.(position := d.home, euler := Euler(d.initialXRotation, 0.0, 0.0), placed := false,
       rotation := 0.0, flipped := false, look := NormalLook)
  }

  /**
   * `resetDigits()`: every digit back at its home, unrotated, unflipped and unplaced, with no
   * selection and an empty `placedDigits`: exactly the state `createDigits` produced.
   */
  function Reset(r: Registry): (res: Registry)
    requires Inv(r)
    ensures Inv(res)
    ensures res == Initial()
  {
    var s := Registry(seq(|r.digits|, k requires 0 <= k < |r.digits| => ResetDigit(r.digits[k])), None, map[]);
    assert forall k :: 0 <= k < DigitCount ==> s.digits[k] == Initial().digits[k];
    s
  }

  /** `Object.keys(placedDigits).length`. */
  function PlacedCount(r: Registry): nat {
    |r.placedDigits|
  }

  /** The indices of the digits whose `placed` flag is set. */
  function PlacedSet(r: Registry): set<nat>
    requires |r.digits| == DigitCount
  {
    set i: nat | i < DigitCount && r.digits[i].placed
  }

  /** `DigitManager`: the ten digits, the selection and the placed-digit record. */
  class DigitManager {
    var digits: seq<Digit>
    var selected: Option<nat>           // selectedDigit
    var placedDigits: map<nat, nat>     // digit value -> digit

    function View(): Registry
      reads this
    {
      Registry(digits, selected, placedDigits)
    }

    ghost predicate Valid()
      reads this
    {
      Inv(View())
    }

    constructor ()
      ensures digits == [] && selected == None && placedDigits == map[]
    {
      digits := [];
      selected := None;
      placedDigits := map[];
    }

    /** The segment children `createDigitMesh(value)` creates, in `Object.entries` order. */
    static method CreateDigitMesh(value: nat) returns (children: seq<Segment>)
      ensures children == Lit(Order, value)
    {
      children := [];
      var k := 0;
      while k < |Order|
        invariant 0 <= k <= |Order|
        invariant children == Lit(Order[..k], value)
      {
        LitSnoc(Order[..k], Order[k], value);
        assert Order[..k + 1] == Order[..k] + [Order[k]];
        if value in Show(Order[k]) {
          children := children + [Order[k]];
        }
        k := k + 1;
      }
      assert Order[..k] == Order;
    }

    /** `createDigits()`: ten digits, value i at index i, each at its home position. */
    method CreateDigits() returns (created: seq<Digit>)
      requires digits == [] && selected == None && placedDigits == map[]
      modifies this
      ensures View() == Initial() && Valid()
      ensures created == digits
    {
      var i := 0;
      while i < DigitCount
        invariant 0 <= i <= DigitCount
        invariant |digits| == i
        invariant forall k :: 0 <= k < i ==> digits[k] == NewDigit(k)
        invariant selected == None && placedDigits == map[]
      {
        var segments := CreateDigitMesh(i);
        SegmentTableIsLit(i);
        var home := HomePosition(i);
        var d := Digit(i, segments, home, home, false, 0.0, false, FlatTilt, Euler(FlatTilt, 0.0, 0.0), NormalLook);
        digits := digits + [d];
        i := i + 1;
      }
      assert digits == Initial().digits;
      InitialInv();
      created := digits;
    }

    /** `selectDigit(value)`, specified by `Select`. */
    method SelectDigit(value: nat) returns (digit: Option<nat>)
      requires Valid() && value < DigitCount
      modifies this
      ensures Valid()
      ensures (View(), digit) == Select(old(View()), value)
    {
      ghost var expected := Select(View(), value);
      if digits[value].placed {
        return None;
      }
      if selected.Some? {
        var p := selected.value;
        digits := digits[p := digits[p].(look := NormalLook)];
      }
      selected := Some(value);
      digits := digits[value := digits[value].(look := SelectedLook)];
      digit := selected;
      assert View() == expected.0;
    }

    /** `placeDigit(digit, position)`, specified by `Place`; `ok` is its `true` result. */
    method PlaceDigit(digit: nat, position: Vec3) returns (ok: bool)
      requires Valid() && digit < DigitCount
      modifies this
      ensures Valid()
      ensures (View(), ok) == Place(old(View()), digit, position)
    {
      ghost var expected := Place(View(), digit, position);
      if digits[digit].placed {
        return false;
      }
      var d := digits[digit];
      var value := d.value;
      d := d.(position := Vec3(position.x, PlaceHeight, position.z), placed := true);
      placedDigits := placedDigits[value := digit];
      d := d.(look := PlacedLook);
      digits := digits[digit := d];
      if selected == Some(digit) {
        selected := None;
      }
      ok := true;
      assert View() == expected.0;
    }

    /** `rotateSelectedDigit(direction)`, specified by `Rotate`. */
    method RotateSelectedDigit(direction: real)
      requires Valid()
      modifies this
      ensures View() == Rotate(old(View()), direction)
      ensures Valid()
    {
      if selected.None? {
        return;
      }
      var i := selected.value;
      var d := digits[i];
      var rotation := d.rotation + direction / 2.0;
      ghost var r := View();
      ghost var after := r.(digits := r.digits[i := d.(rotation := rotation, euler := d.euler.(y := rotation, x := d.initialXRotation))]);
      assert after == Rotate(r, direction);
      digits := digits[i := d.(rotation := rotation, euler := d.euler.(y := rotation, x := d.initialXRotation))];
      assert View() == after;
    }

    /** `flipSelectedDigit()`, specified by `Flip`. */
    method FlipSelectedDigit()
      requires Valid()
      modifies this
      ensures Valid()
      ensures View() == Flip(old(View()))
    {
      ghost var expected := Flip(View());
      if selected.None? {
        return;
      }
      var i := selected.value;
      var d := digits[i];
      d := d.(flipped := !d.flipped);
      if d.flipped {
        d := d.(euler := d.euler.(z := 1.0));
      } else {
        d := d.(euler := d.euler.(z := 0.0));
      }
      d := d.(euler := d.euler.(x := d.initialXRotation));
      digits := digits[i := d];
      assert View() == expected;
    }

    /** `resetDigits()`, specified by `Reset`: the state `createDigits` left. */
    method ResetDigits()
      requires Valid()
      modifies this
      ensures Valid()
      ensures View() == Reset(old(View())) == Initial()
    {
      var i := 0;
      while i < |digits|
        invariant 0 <= i <= |digits| == DigitCount
        invariant forall k :: 0 <= k < i ==> digits[k] == ResetDigit(old(digits[k]))
        invariant forall k :: i <= k < |digits| ==> digits[k] == old(digits[k])
      {
        var d := digits[i];
        d := d.(position := d.home, euler := Euler(d.initialXRotation, 0.0, 0.0));
        d := d.(placed := false, rotation := 0.0, flipped := false);
        d := d.(look := NormalLook);
        digits := digits[i := d];
        i := i + 1;
      }
      selected := None;
      placedDigits := map[];
      assert digits == Reset(old(View())).digits;
    }
  }
}

module DigitLemmas {
  import opened Common
  import opened Segments
  import opened Constants
  import opened Digits

  /** Every home position lies outside the board's strict x-bounds, so no digit starts on the board. */
  lemma HomesOffBoard(i: nat)
    requires i < DigitCount
    ensures !OverBoard(HomePosition(i).x, HomePosition(i).z)
    ensures Abs(HomePosition(i).x) == BoardWidth / 2.0 + BoardOffset
  {
  }

  /** The ten home positions are pairwise distinct, and all lie within the board's z-extent. */
  lemma HomesDistinct(i: nat, j: nat)
    requires i < DigitCount && j < DigitCount && i != j
    ensures HomePosition(i) != HomePosition(j)
    ensures -(BoardHeight / 2.0) <= HomePosition(i).z <= BoardHeight / 2.0
  {
  }

  /**
   * Every digit of a valid registry carries exactly the segments whose `show` list holds its
   * value, in the order a..g, and at most seven of them.
   */
  lemma DigitSegmentsShown(r: Registry, i: nat, s: Segment)
    requires Inv(r) && i < DigitCount
    ensures s in r.digits[i].segments <==> i in Show(s)
    ensures r.digits[i].segments == Lit(Order, i) && |r.digits[i].segments| <= 7
  {
    assert DigitOk(r.digits[i], i);
    SegmentTableIsLit(i);
    LitMembers(Order, i);
    OrderIsComplete(s);
  }

  /** At most one digit shows the selected colour, and it is the selection. */
  lemma AtMostOneSelected(r: Registry, i: nat, j: nat)
    requires Inv(r) && i < DigitCount && j < DigitCount
    requires r.digits[i].look == SelectedLook && r.digits[j].look == SelectedLook
    ensures i == j && r.selected == Some(i) && !r.digits[i].placed
  {
  }

  /** Two flips restore the registry exactly. */
  lemma FlipTwice(r: Registry)
    requires Inv(r)
    ensures Flip(Flip(r)) == r
  {
    if r.selected.Some? {
      var i := r.selected.value;
      var s := Flip(Flip(r));
      assert DigitOk(r.digits[i], i);
      assert s.digits[i] == r.digits[i];
      assert s.digits == r.digits;
    }
  }

  /** Four `rotate(1)` calls turn the selected digit by a full turn (2 pi) and change nothing else. */
  lemma FourQuarterTurns(r: Registry)
    requires Inv(r)
    ensures var s := Rotate(Rotate(Rotate(Rotate(r, 1.0), 1.0), 1.0), 1.0);
      && (r.selected.None? ==> s == r)
      && (r.selected.Some? ==>
            var i := r.selected.value;
            && s.digits[i].rotation == r.digits[i].rotation + 2.0
            && s.digits[i].euler.y == r.digits[i].euler.y + 2.0
            && s.digits[i].(rotation := 0.0, euler := r.digits[i].euler) == r.digits[i].(rotation := 0.0)
            && s == r.(digits := r.digits[i := s.digits[i]]))
  {
    if r.selected.Some? {
      var i := r.selected.value;
      var s := Rotate(Rotate(Rotate(Rotate(r, 1.0), 1.0), 1.0), 1.0);
      assert DigitOk(r.digits[i], i);
      assert s.digits == r.digits[i := s.digits[i]];
    }
  }

  /** Resetting twice is resetting once. */
  lemma ResetIdempotent(r: Registry)
    requires Inv(r)
    ensures Reset(Reset(r)) == Reset(r)
  {
  }

  /** `placedDigits` holds exactly the values of the digits whose `placed` flag is set. */
  lemma PlacedKeysMirrorFlags(r: Registry)
    requires Inv(r)
    ensures r.placedDigits.Keys == PlacedSet(r)
    ensures PlacedCount(r) == |PlacedSet(r)| <= DigitCount
  {
    assert r.placedDigits.Keys == PlacedSet(r);
    SubsetOfRange(PlacedSet(r), DigitCount);
  }

  /** The game is complete (ten keys in `placedDigits`) exactly when every digit is placed. */
  lemma CompleteIffAllPlaced(r: Registry)
    requires Inv(r)
    ensures PlacedCount(r) == DigitCount <==> forall i :: 0 <= i < DigitCount ==> r.digits[i].placed
  {
    PlacedKeysMirrorFlags(r);
    FullIffAllMembers(PlacedSet(r), DigitCount);
  }

  lemma {:induction false} SubsetOfRange(s: set<nat>, n: nat)
    requires forall i :: i in s ==> i < n
    ensures |s| <= n
  {
    if n == 0 {
      assert s == {};
    } else {
      SubsetOfRange(s - {n - 1}, n - 1);
    }
  }

  /** A set of naturals below n has n elements exactly when it holds every natural below n. */
  lemma {:induction false} FullIffAllMembers(s: set<nat>, n: nat)
    requires forall i :: i in s ==> i < n
    ensures |s| == n <==> forall i :: 0 <= i < n ==> i in s
  {
    if n == 0 {
      assert s == {};
    } else {
      var t := s - {n - 1};
      FullIffAllMembers(t, n - 1);
      SubsetOfRange(t, n - 1);
      if n - 1 in s {
        assert |s| == |t| + 1;
      } else {
        assert t == s;
      }
    }
  }
}
