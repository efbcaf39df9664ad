/**
 * The digit builder of js/OctagonalDigitGenerator.js: a segment table keyed a..g with the
 * values each segment shows, a range guard, and digit groups whose segment meshes record
 * their key, whether they got the horizontal geometry, their material and their parent group.
 */
module OctagonalGenerator {
  import opened Common
  import opened Segments
  import opened Digits

  /** The `show` arrays of this file's `segments` table, as sets. */
  function ShowTable(s: Segment): set<int> {
    match s
    case A => {0, 2, 3, 5, 6, 7, 8, 9}
    case B => {0, 1, 2, 3, 4, 7, 8, 9}
    case C => {0, 1, 3, 4, 5, 6, 7, 8, 9}
    case D => {0, 2, 3, 5, 6, 8, 9}
    case E => {0, 2, 6, 8}
    case F => {0, 4, 5, 6, 8, 9}
    case G => {2, 3, 4, 5, 6, 8, 9}
  }

  /** `isHorizontal`: keys a, d and g get the horizontal segment geometry. */
  predicate IsHorizontal(key: Segment) {
    key == A || key == D || key == G
  }

  /** A segment mesh: `segment_<key>`, its geometry, its material and `userData.parentDigit`. */
  datatype SegmentMesh = SegmentMesh(key: Segment, horizontal: bool, material: Look, parentDigit: int)

  /** A digit group (`digit_<value>`) with its children, x rotation and `userData`. */
  datatype DigitGroup = DigitGroup(
    value: int,
    children: seq<SegmentMesh>,
    rotationX: real,
    placed: bool,
    rotation: real,
    flipped: bool,
    initialXRotation: real)

  /** The meshes the loop over `keys` adds to the group of `value`. */
  function Meshes(keys: seq<Segment>, value: int, material: Look): seq<SegmentMesh>
    decreases |keys|
  {
    if keys == [] then []
    else
      var key := keys[|keys| - 1];
      Meshes(keys[..|keys| - 1], value, material)
        + (if value in ShowTable(key) then [SegmentMesh(key, IsHorizontal(key), material, value)] else [])
  }

  /** The range guard of `createDigitMesh`. */
  predicate InRange(value: int) {
    !(value < 0 || value > 9)
  }

  /** The group `createDigitMesh(value, material)` returns for an in-range value. */
  function Group(value: int, material: Look): DigitGroup {
    DigitGroup(value, Meshes(Order, value, material), FlatTilt, false, 0.0, false, FlatTilt)
  }

  /** `createDigitMesh(value, material)`: null for a value outside 0..9. */
  method CreateDigitMesh(value: int, material: Look) returns (g: Option<DigitGroup>)
    ensures g == if InRange(value) then Some(Group(value, material)) else None
  {
    if value < 0 || value > 9 {
      return None;
    }
    var children: seq<SegmentMesh> := [];
    var k := 0;
    while k < |Order|
      invariant 0 <= k <= |Order|
      invariant children == Meshes(Order[..k], value, material)
    {
      var key := Order[k];
      assert Order[..k + 1][..k] == Order[..k];
      if value in ShowTable(key) {
        var isHorizontal := key == A || key == D || key == G;
        children := children + [SegmentMesh(key, isHorizontal, material, value)];
      }
      k := k + 1;
    }
    assert Order[..k] == Order;
    g := Some(DigitGroup(value, children, FlatTilt, false, 0.0, false, FlatTilt));
  }

  /** `createAllDigits()`: the digits 0..9 in order, all built from the normal material. */
  method CreateAllDigits() returns (digits: seq<DigitGroup>)
    ensures |digits| == 10
    ensures forall i :: 0 <= i < 10 ==> digits[i] == Group(i, NormalLook)
  {
    digits := [];
    var i := 0;
    while i < 10
      invariant 0 <= i <= 10
      invariant |digits| == i
      invariant forall j :: 0 <= j < i ==> digits[j] == Group(j, NormalLook)
    {
      var digit := CreateDigitMesh(i, NormalLook);
      digits := digits + [digit.value];
      i := i + 1;
    }
  }
}

/** What the groups of the a..g builder satisfy. */
module OctagonalGeneratorLemmas {
  import opened Common
  import opened Segments
  import opened Constants
  import opened Digits
  import opened OctagonalGenerator

  /** This file's table is digitManager's `show` table. */
  lemma ShowTablesAgree(s: Segment)
    ensures ShowTable(s) == Show(s)
  {
  }

  /**
   * The meshes over `keys`: at least one for each key
   * that shows `value`, horizontal exactly for a, d and g, with the given material and parent.
   */
  lemma {:induction false} MeshesOf(keys: seq<Segment>, value: int, material: Look)
    ensures forall m :: m in Meshes(keys, value, material) ==>
      m.key in keys && value in ShowTable(m.key)
      && (m.horizontal <==> IsHorizontal(m.key)) && m.material == material && m.parentDigit == value
    ensures forall key :: key in keys && value in ShowTable(key) ==>
      exists m :: m in Meshes(keys, value, material) && m.key == key
    ensures |Meshes(keys, value, material)| <= |keys|
    decreases |keys|
  {
    if keys != [] {
      var front := keys[..|keys| - 1];
      var key := keys[|keys| - 1];
      MeshesOf(front, value, material);
      assert forall k :: k in front ==> k in keys;
      assert forall k :: k in keys ==> k in front || k == key by {
        forall k | k in keys ensures k in front || k == key {
          var i :| 0 <= i < |keys| && keys[i] == k;
          if i < |keys| - 1 { assert front[i] == k; }
        }
      }
      var rest := Meshes(keys, value, material);
      if value in ShowTable(key) {
        assert rest[|rest| - 1] == SegmentMesh(key, IsHorizontal(key), material, value);
      }
    }
  }

  /**
   * A digit 0..9 gets a mesh for segment `s` exactly when digitManager's table shows `s`
   * for it; each mesh is horizontal exactly for a, d and g, carries the material passed in,
   * and names its group as parent. The group is tilted flat by -pi/2, unplaced, unrotated and
   * unflipped.
   */
  lemma GroupShape(value: int, material: Look, s: Segment)
    requires InRange(value)
    ensures var g := Group(value, material);
      && ((exists m :: m in g.children && m.key == s) <==> value in Show(s))
      && (forall m :: m in g.children ==>
            (m.horizontal <==> m.key in {A, D, G}) && m.material == material && m.parentDigit == g.value)
      && g.rotationX == -0.5 && g.initialXRotation == -0.5
      && !g.placed && g.rotation == 0.0 && !g.flipped
  {
    MeshesOf(Order, value, material);
    OrderIsComplete(s);
    ShowTablesAgree(s);
  }

  /** The keys of a sequence of meshes, in order. */
  function Keys(ms: seq<SegmentMesh>): seq<Segment> {
    seq(|ms|, i requires 0 <= i < |ms| => ms[i].key)
  }

  /** The meshes over `keys` name the segments digitManager's `createDigitMesh` gives `value`, in the same order. */
  lemma {:induction false} MeshKeysAsDigitManager(keys: seq<Segment>, value: int, material: Look)
    ensures Keys(Meshes(keys, value, material)) == Lit(keys, value)
    decreases |keys|
  {
    if keys != [] {
      var front := keys[..|keys| - 1];
      var key := keys[|keys| - 1];
      MeshKeysAsDigitManager(front, value, material);
      assert front + [key] == keys;
      LitSnoc(front, key, value);
      ShowTablesAgree(key);
    }
  }

  /** No group for a value outside 0..9, and one for each digit. */
  lemma RangeGuard(value: int)
    ensures InRange(value) <==> 0 <= value < DigitCount
  {
  }
}
