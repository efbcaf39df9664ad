/** Small value types shared by the whole model. */
module Common {

  /** Stands for JavaScript's `null` / `undefined` results. */
  datatype Option<+T> = None | Some(value: T) {
    function GetOr(default: T): T {
      match this
      case Some(v) => v
      case None => default
    }
  }

  /** A three.js `Vector3`, with exact real coordinates. */
  datatype Vec3 = Vec3(x: real, y: real, z: real) {
    function Plus(o: Vec3): Vec3 { Vec3(x + o.x, y + o.y, z + o.z) }
    function Minus(o: Vec3): Vec3 { Vec3(x - o.x, y - o.y, z - o.z) }
  }

  const Origin: Vec3 := Vec3(0.0, 0.0, 0.0)

  function Abs(r: real): real { if r < 0.0 then -r else r }

  function Max(a: real, b: real): real { if a < b then b else a }
}

/** The seven segments a..g of a seven-segment digit, in the order every table lists them. */
module Segments {

  datatype Segment = A | B | C | D | E | F | G

  /** `Object.entries(segments)` order in the digit builders, and the index order of row tables. */
  const Order: seq<Segment> := [A, B, C, D, E, F, G]

  function IndexOf(s: Segment): (i: nat)
    ensures i < |Order| && Order[i] == s
  {
    match s
    case A => 0 case B => 1 case C => 2 case D => 3 case E => 4 case F => 5 case G => 6
  }

  lemma OrderIsComplete(s: Segment)
    ensures s in Order
  {
    assert Order[IndexOf(s)] == s;
  }
}
