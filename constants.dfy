/** The board and grid constants of js/constants.js that the core reads. */
module Constants {
  import opened Common

  const GridSize: nat := 2
  const BoardWidth: real := 10.0
  const BoardHeight: real := 8.0
  const BoardDepth: real := 0.5

  /** `BOARD_DEPTH / 2 + 0.1`: the height at which a placed digit rests, and the lowest drag height. */
  const PlaceHeight: real := BoardDepth / 2.0 + 0.1

  /** `totalDigits` of the progress computations, and the number of digits created. */
  const DigitCount: nat := 10

  /** The strict board-bounds test of a drop: |x| < BOARD_WIDTH/2 and |z| < BOARD_HEIGHT/2. */
  predicate OverBoard(x: real, z: real) {
    Abs(x) < BoardWidth / 2.0 && Abs(z) < BoardHeight / 2.0
  }
}
