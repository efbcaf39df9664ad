# Octagonal digits board: a Dafny model

This project models the game logic of a 3D puzzle. Ten seven-segment digits (0 to 9) lie
around a board. The player selects a digit, drags it onto the board, rotates or flips it,
and drops it. A dropped digit counts as placed when it lands strictly inside the board's
bounds. A progress bar and a completion message track how many digits are placed.

The model covers five parts of the game:

- **Digit registry** (`digits.dfy`). This is the `DigitManager` class: ten digits, one
  selection, the `placedDigits` record, and the operations select, place, rotate, flip and
  reset. Each method is proved against a function on the registry's value. That function
  keeps the registry invariant:
  - the selection is empty or an unplaced digit;
  - `placedDigits` holds exactly the placed values;
  - every digit's colour follows its state.
- **Pointer controllers** (`interaction.dfy`, `instructions.dfy`). These are the main
  `InteractionManager` and the older variant. Both include press, drag, release, wheel,
  right click, tap, progress and reset. Raycasts are inputs: which digit the pointer hits,
  and where the ray meets the drag or board plane.
- **Board grid** (`board.dfy`). The row-major cell centres, the lookup by (row, col), and
  the highlight overlay, which is created once and toggled after that.
- **Scripted placement** (`main_application.dfy`). `placePredefinedDigits` replays fourteen
  placements through select, lookup and place. With `GRID_SIZE` = 2, the replay places 6, 5
  and 7 and leaves 3 selected.
- **Table files and texture helpers.** The seven-segment tables and digit builders of
  four further files, each shown to agree with the registry's `show` table:
  - `named_generator.dfy`
  - `octagonal_generator.dfy`
  - `geometry_helper.dfy`
  - `puzzle_board.dfy`

  `texture.dfy` holds three texture helpers: `shiftColor`, the in-place blur over a
  byte array, and the recursive fractal cross pattern.

Some modelling conventions:

- Coordinates are exact reals. Angles are reals counted in multiples of pi, so `Math.PI / 2`
  is `0.5`.
- Materials are the three looks normal, selected and placed.
- Scene meshes are records of what the code adds: segment keys, geometry kind, colour,
  position, parent.

Behaviour of the code worth noting:

- A release does not snap the digit to a cell. The digit is placed at its own position (main
  controller) or at the pointer's board point (variant).
- No cell records which digit it holds, so two digits can be dropped at the same spot.
- A rejected drop sends the digit home but keeps it selected.
- Placed digits are never unplaced except by reset.
- The wheel turns by 45 degrees in the main controller and by 15 degrees in the variant. The
  multiple of 90 degrees belongs to `rotateSelectedDigit` itself.

## Model

| member | source | states |
|---|---|---|
| Digits.LitMembers | js/digitManager.js:31-85 | the segments filtered from a key list are exactly its keys whose `show` list holds the value, no more of them than keys |
| Digits.SegmentTableIsLit | js/digitManager.js:31-85 | the written-out segment table row of each digit 0..9 is the filter of a..g by the `show` lists |
| DigitLemmas.DigitSegmentsShown | js/digitManager.js:31-85 | every digit of a valid registry carries segment s exactly when s's `show` list holds its value, in the order a..g, at most seven |
| Digits.InitialInv | js/digitManager.js:93-124 | the ten digits `createDigits` makes satisfy the registry invariant |
| Digits.Select | js/digitManager.js:132-153 | keeps the invariant; a placed digit leaves everything unchanged and returns nothing; otherwise returns the value, makes it the selection and changes only colours |
| Digits.RecolourFacts | js/digitManager.js:138-150 | un-colouring the old selection and colouring the new one changes colours only, and every colour then matches its digit's state |
| Digits.Place | js/digitManager.js:156-185 | placing keeps the registry invariant |
| Digits.PlaceRecordsDigit | js/digitManager.js:156-185 | placing a placed digit is a no-op; otherwise the digit is placed at the argument's x/z with y = BOARD_DEPTH/2 + 0.1, coloured as placed, recorded under its value, deselected if it was selected; none of its other fields (rotation, flip, euler) and no other digit changes |
| Digits.Rotate | js/digitManager.js:187-196 | rotating keeps the registry invariant |
| Digits.RotateTurnsSelection | js/digitManager.js:187-196 | no-op without a selection; otherwise adds direction·pi/2 to the selected digit's rotation, sets rotation.y to it, resets rotation.x to initialXRotation and changes nothing else |
| Digits.Flip | js/digitManager.js:198-212 | no-op without a selection; otherwise toggles `flipped`, sets rotation.z to pi exactly when flipped, keeps the flat x tilt and rotation.y, changes none of the digit's other fields (position, rotation, look) and no other digit |
| Digits.MoveTo | js/interactionManager.js:317-327 | moving an unplaced digit keeps the registry invariant |
| Digits.Reset | js/digitManager.js:214-234 | every digit home, unrotated, unflipped, unplaced and normal, with no selection and empty `placedDigits`: the state `createDigits` produced |
| Digits.DigitManager.constructor | js/digitManager.js:5-10 | no digits, no selection, empty `placedDigits` |
| Digits.DigitManager.CreateDigitMesh | js/digitManager.js:31-85 | the loop over the keys a..g collects exactly the filter `Lit` of the keys by the `show` lists |
| Digits.DigitManager.CreateDigits | js/digitManager.js:93-127 | builds the initial registry and returns the digit list |
| Digits.DigitManager.SelectDigit | js/digitManager.js:132-153 | the new state and the result are those of `Select` |
| Digits.DigitManager.PlaceDigit | js/digitManager.js:156-185 | the new state and the result are those of `Place` |
| Digits.DigitManager.RotateSelectedDigit | js/digitManager.js:187-196 | the new state is that of `Rotate` |
| Digits.DigitManager.FlipSelectedDigit | js/digitManager.js:198-212 | the new state is that of `Flip` |
| Digits.DigitManager.ResetDigits | js/digitManager.js:214-234 | the new state is that of `Reset`, the initial registry |
| DigitLemmas.HomesOffBoard | js/digitManager.js:98-114 | every home lies at \|x\| = BOARD_WIDTH/2 + 3, outside the drop bounds |
| DigitLemmas.HomesDistinct | js/digitManager.js:98-114 | the ten homes are pairwise distinct and have z within ±BOARD_HEIGHT/2 |
| DigitLemmas.AtMostOneSelected | js/digitManager.js:138-153 | at most one digit shows the selected colour, and it is the unplaced selection |
| DigitLemmas.FlipTwice | js/digitManager.js:198-212 | two flips restore the registry |
| DigitLemmas.FourQuarterTurns | js/digitManager.js:187-196 | four `rotate(1)` calls add 2·pi to the rotation and change nothing else |
| DigitLemmas.ResetIdempotent | js/digitManager.js:214-234 | resetting twice is resetting once |
| DigitLemmas.PlacedKeysMirrorFlags | js/digitManager.js:171-172 | the keys of `placedDigits` are exactly the placed digits, at most ten |
| DigitLemmas.CompleteIffAllPlaced | js/interactionManager.js:152-160 | ten recorded values hold exactly when every digit is placed |
| Board.Find | js/boardManager.js:141 | `find` returns the first cell matching (row, col), or none exactly when no cell matches |
| Board.Highlighted | js/boardManager.js:146-169 | highlighting keeps the number of cells |
| Board.BoardManager.constructor | js/boardManager.js:8-15 | a board with the given positive cell size, no cells and no overlays |
| Board.BoardManager.CreateGridCells | js/boardManager.js:102-137 | appends the GRID_SIZE² cells in row-major order, each one computed from the grid formula |
| Board.BoardManager.GetCellPosition | js/boardManager.js:140-143 | the position of the first matching cell, or none |
| Board.BoardManager.HighlightCell | js/boardManager.js:146-169 | cells become `Highlighted`; an overlay mesh is added only on the first highlight of a known cell |
| BoardLemmas.GridRowMajor | js/boardManager.js:112-135 | GRID_SIZE² cells, cell k at row k / GRID_SIZE and column k % GRID_SIZE, none highlighted |
| BoardLemmas.GridPairsOnce | js/boardManager.js:112-135 | each in-range (row, col) matches exactly one cell, and out-of-range pairs match none |
| BoardLemmas.FindInGrid | js/boardManager.js:140-143 | the lookup finds index row·GRID_SIZE + col for an in-range pair, none otherwise |
| BoardLemmas.CellPositionInGrid | js/boardManager.js:140-143 | `getCellPosition` gives (x(col), BOARD_DEPTH/2, z(row)) in range and null outside |
| BoardLemmas.GridSymmetric | js/boardManager.js:108-116 | x(col) + x(GRID_SIZE − 1 − col) = 0 |
| BoardLemmas.CellsOnBoardTop | js/boardManager.js:130-134 | every stored cell position has y = BOARD_DEPTH/2 |
| BoardLemmas.CentresDistinct | js/boardManager.js:112-116 | distinct cells have distinct centres |
| BoardLemmas.HighlightUnknownNoop | js/boardManager.js:146-152 | highlighting an unknown cell changes nothing and adds no overlay |
| BoardLemmas.UnhighlightFreshNoop | js/boardManager.js:146-152 | highlight=false on a never-highlighted grid changes nothing |
| BoardLemmas.OverlayCreatedOnce | js/boardManager.js:146-169 | after one overlay is created, later calls never create another; visibility follows the last highlight argument |
| BoardLemmas.FindAfterHighlight | js/boardManager.js:146-169 | highlighting does not change which cell a lookup finds |
| BoardLemmas.HighlightTouchesOneCell | js/boardManager.js:146-169 | cells other than the looked-up one are unchanged |
| Interaction.MouseDown | js/interactionManager.js:172-261 | a press keeps the registry invariant |
| Interaction.MouseMove | js/interactionManager.js:291-332 | a move keeps the registry invariant |
| Interaction.MouseUp | js/interactionManager.js:334-362 | a release keeps the registry invariant |
| Interaction.Wheel | js/interactionManager.js:30-47 | the wheel keeps the registry invariant |
| Interaction.RightClick | js/interactionManager.js:80-93 | a right click keeps the registry invariant |
| Interaction.Restart | js/interactionManager.js:134-138 | a restart keeps the registry invariant |
| Interaction.InteractionManager.constructor | js/interactionManager.js:5-28 | not dragging, zero offset, height, modifier and timestamps; controls on, progress 0, no message |
| Interaction.InteractionManager.MoveDigit | js/interactionManager.js:317-327 | the selected digit's position write is `MoveTo` |
| Interaction.InteractionManager.UpdateProgressBar | js/interactionManager.js:144-150 | progress becomes placedCount / 10 · 100 |
| Interaction.InteractionManager.CheckGameCompletion | js/interactionManager.js:152-160 | shows the message when ten values are recorded |
| Interaction.InteractionManager.StartDraggingDigit | js/interactionManager.js:263-289 | the new state is that of `startDragging` |
| Interaction.InteractionManager.OnMouseDown | js/interactionManager.js:172-261 | the new state is that of `MouseDown` |
| Interaction.InteractionManager.OnMouseMove | js/interactionManager.js:291-332 | the new state is that of `MouseMove` |
| Interaction.InteractionManager.OnMouseUp | js/interactionManager.js:334-362 | the new state is that of `MouseUp` |
| Interaction.InteractionManager.OnMouseWheel | js/interactionManager.js:30-47 | the new state is that of `Wheel` |
| Interaction.InteractionManager.OnRightClick | js/interactionManager.js:80-93 | the new state is that of `RightClick` |
| Interaction.InteractionManager.ResetGame | js/interactionManager.js:134-138 | the new state is that of `Restart` |
| InteractionLemmas.OtherButtonsIgnored | js/interactionManager.js:174-182 | a press with a button other than the left one changes nothing |
| InteractionLemmas.PressAfterRightClickIgnored | js/interactionManager.js:187-192 | a press within 300 ms of a right click only records the pointer y |
| InteractionLemmas.PressOnPlacedDigit | js/interactionManager.js:211-213 | a press on a placed digit changes no selection and starts no drag |
| InteractionLemmas.PressOnNothing | js/interactionManager.js:195-260 | a press that hits no digit changes nothing but re-enables the camera controls |
| InteractionLemmas.PressOnUnplacedDigit | js/interactionManager.js:205-289 | a press on an unplaced digit selects it and starts the drag in the same event, from its position and height, with offset position − hit point |
| InteractionLemmas.MoveWithoutDragIgnored | js/interactionManager.js:291-294 | a move without a drag or without a selection changes nothing |
| InteractionLemmas.MoveClampsHeight | js/interactionManager.js:312-331 | the pointer y is always recorded; with a hit: x/z = hit + offset, the modifier grows by 5·Δy, y = max(start + modifier, BOARD_DEPTH/2 + 0.1), lastMouseY becomes the pointer y, no other field of the digit and no other digit, selection or `placedDigits` changes; without a hit the registry is unchanged |
| InteractionLemmas.ReleaseEndsDrag | js/interactionManager.js:356-361 | after any release: not dragging, modifier 0, controls on |
| InteractionLemmas.ReleasePlacesIffOverBoard | js/interactionManager.js:335-347 | the dragged digit is placed exactly when \|x\| < W/2 and \|z\| < H/2 (strict); then at its x/z with the placed height, deselected, recorded, and progress updated |
| InteractionLemmas.RejectedDropGoesHome | js/interactionManager.js:348-353 | a rejected drop restores the home position, leaves the digit unplaced and still selected, and leaves progress and message unchanged |
| InteractionLemmas.ClickWithoutMoveKeepsSelection | js/interactionManager.js:205-353 | press then release on a digit at home selects it and leaves it home and unplaced |
| InteractionLemmas.WheelTurnsEighth | js/interactionManager.js:30-47 | with a selection, the wheel turns by ±pi/4 (+ for deltaY > 0) and flips exactly when shift is held; without one nothing changes |
| InteractionLemmas.RightClickFlips | js/interactionManager.js:80-93 | a right click flips the selected digit and records its time, and does nothing without a selection |
| InteractionLemmas.ProgressTracksPlacements | js/interactionManager.js:144-150 | progress = 10 · placedCount, within 0..100, and reaches 100 exactly when every digit is placed |
| InteractionLemmas.CompletionShownIffComplete | js/interactionManager.js:152-160 | the message is shown after the check exactly when it was shown already or every digit is placed |
| InteractionLemmas.ResetGameRestarts | js/interactionManager.js:134-138 | a reset gives the initial registry, progress 0 and a hidden message |
| Instructions.MouseDown | js/instructionsManager.js:145-202 | a press keeps the registry invariant |
| Instructions.MouseMove | js/instructionsManager.js:204-228 | a move keeps the registry invariant |
| Instructions.MouseUp | js/instructionsManager.js:230-268 | a release keeps the registry invariant |
| Instructions.Turn | js/instructionsManager.js:54-58 | the wheel's direct rotation write keeps the registry invariant |
| Instructions.Wheel | js/instructionsManager.js:47-66 | the wheel keeps the registry invariant |
| Instructions.TouchEnd | js/instructionsManager.js:320-364 | a touch end keeps the registry invariant |
| Instructions.Restart | js/instructionsManager.js:107-111 | a restart keeps the registry invariant |
| Instructions.InteractionManager.constructor | js/instructionsManager.js:4-19 | not dragging, zero offset, default plane, controls on, progress 0, no message |
| Instructions.InteractionManager.MoveDigit | js/instructionsManager.js:218-226 | the dragged digit's position write is `MoveTo` |
| Instructions.InteractionManager.UpdateProgressBar | js/instructionsManager.js:117-123 | the new state is that of `UpdateProgress` |
| Instructions.InteractionManager.CheckGameCompletion | js/instructionsManager.js:125-133 | the new state is that of `CheckCompletion` |
| Instructions.InteractionManager.OnMouseDown | js/instructionsManager.js:145-202 | the new state is that of `MouseDown` |
| Instructions.InteractionManager.OnMouseMove | js/instructionsManager.js:204-228 | the new state is that of `MouseMove` |
| Instructions.InteractionManager.OnMouseUp | js/instructionsManager.js:230-268 | the new state is that of `MouseUp` |
| Instructions.InteractionManager.TurnSelectedDigit | js/instructionsManager.js:54-58 | the selected digit's rotation write is `Turn` |
| Instructions.InteractionManager.OnMouseWheel | js/instructionsManager.js:47-66 | the new state is that of `Wheel` |
| Instructions.InteractionManager.OnTouchEnd | js/instructionsManager.js:320-364 | the new state is that of `TouchEnd` |
| Instructions.InteractionManager.ResetGame | js/instructionsManager.js:107-111 | the new state is that of `Restart` |
| InstructionsLemmas.PressSelectsOnly | js/instructionsManager.js:173-193 | a press on an unselected unplaced digit selects it and starts no drag |
| InstructionsLemmas.PressOnSelectedStartsDrag | js/instructionsManager.js:173-193 | a press on the selected digit starts the drag; with a board hit, the plane passes through it and offset = position − hit |
| InstructionsLemmas.SecondPressStartsDrag | js/instructionsManager.js:173-193 | on an unselected digit, the first press only selects and the second starts the drag |
| InstructionsLemmas.PlacedDigitsIgnored | js/instructionsManager.js:171-194 | a press or a tap on a placed digit changes nothing in the registry |
| InstructionsLemmas.TapSelects | js/instructionsManager.js:328-353 | a short tap on an unplaced digit selects it |
| InstructionsLemmas.ReleasePlacesIffInside | js/instructionsManager.js:231-260 | the digit is placed exactly when the board point lies strictly inside ±W/2, ±H/2, at that point with the placed height; with no point or one outside it goes home and stays selected |
| InstructionsLemmas.ReleaseEndsDrag | js/instructionsManager.js:263-268 | after a release or a touch end, not dragging |
| InstructionsLemmas.MoveKeepsAboveBoard | js/instructionsManager.js:205-227 | a move while dragging with a hit sets the position to hit + offset with y = max(hit.y + offset.y, BOARD_DEPTH/2 + 0.1), and changes no other field, digit, selection or `placedDigits`; otherwise it changes nothing |
| InstructionsLemmas.WheelTurnsFifteenDegrees | js/instructionsManager.js:49-64 | only while dragging, the wheel turns by ±pi/12 and flips exactly when shift is held |
| InstructionsLemmas.ProgressAsMainController | js/instructionsManager.js:117-133 | the variant's progress = 10·placedCount, within 0..100, 100 iff every digit is placed, equal to the main controller's; the message is shown iff it already was or every digit is placed |
| MainApplication.Step | js/main-application.js:118-130 | one placement keeps the registry invariant |
| MainApplication.Replay | js/main-application.js:118-131 | replaying a list keeps the registry invariant |
| MainApplication.PlacementsInRange | js/main-application.js:97-115 | every listed value is a digit 0..9 |
| MainApplication.PlacePredefinedDigits | js/main-application.js:95-132 | the new registry is the replay of the fixed list from the old one |
| MainApplication.PlaceOne | js/main-application.js:119-130 | one callback leaves the registry as `Step` of the placement |
| MainApplication.PlaceEach | js/main-application.js:118-131 | the `forEach` loop leaves the registry as `Replay` of the list |
| MainApplicationLemmas.StepFacts | js/main-application.js:120-130 | one step places its value only when it was unplaced and the cell exists, at the cell's x/z with the placed height; the selection ends empty after a placement and holds the value after a failed lookup |
| MainApplicationLemmas.ReplayPlacesAtFirstCell | js/main-application.js:118-131 | an unplaced value ends placed exactly when one of its entries has a cell, at the first such cell |
| MainApplicationLemmas.ReplayKeepsOthers | js/main-application.js:118-131 | a value already placed, or never listed, is untouched by the replay |
| MainApplicationLemmas.ListedValues | js/main-application.js:97-115 | the listed values are 0, 3, 5, 6, 7, 8 and 9 |
| MainApplicationLemmas.UnlistedNeverPlaced | js/main-application.js:97-130 | digits 1, 2 and 4 never end up placed |
| MainApplicationLemmas.PlacementCells | js/main-application.js:123-126 | a listed entry's lookup gives the grid position when its cell exists and null otherwise |
| MainApplicationLemmas.ListedOffGrid | js/main-application.js:97-115 | apart from 5, 6 and 7, every listed entry lies outside the 2 × 2 grid |
| MainApplicationLemmas.FirstCellsOnTwoByTwoGrid | js/main-application.js:97-130 | on the 2 × 2 grid, 6 resolves to (0,0), 5 to (0,1), 7 to (1,0), and nothing else resolves |
| MainApplicationLemmas.ScriptOnTwoByTwoGrid | js/main-application.js:95-132 | from the initial registry, exactly 5, 6 and 7 end placed, each at its cell with the placed height, and 3 ends selected |
| MainApplicationLemmas.ScriptEndsOnThree | js/main-application.js:113-131 | the last entry selects 3, unlisted before it, and finds no cell, so 3 stays selected |
| NamedGenerator.AddDigitSegments | js/octagonal-digit-generator.js:139-206 | one box per listed segment, in table order, each with the switch's geometry |
| NamedGenerator.CreateDigit | js/octagonal-digit-generator.js:51-71 | the group `Built(value)`: base with the colour map's colour, then the segment boxes, tilted by initialXRotation |
| NamedGenerator.CreateAllDigits | js/octagonal-digit-generator.js:40-49 | ten digits, digit i built from value i |
| NamedGeneratorLemmas.BoxesOfParts | js/octagonal-digit-generator.js:175-204 | as many boxes as names, box k named by entry k with its geometry |
| NamedGeneratorLemmas.TableMatchesShow | js/octagonal-digit-generator.js:208-224 | a segment is listed for a digit exactly when the registry's `show` table shows it |
| NamedGeneratorLemmas.PartsAreSegments | js/octagonal-digit-generator.js:210-221 | each segment name stands for exactly one segment a..g |
| NamedGeneratorLemmas.SegmentCounts | js/octagonal-digit-generator.js:210-221 | the rows have 6, 2, 5, 5, 4, 5, 6, 3, 7 and 6 segments |
| NamedGeneratorLemmas.UnknownValueHasNone | js/octagonal-digit-generator.js:223 | a value outside 0..9 has no segments and no colour |
| NamedGeneratorLemmas.ColorsRepeat | js/octagonal-digit-generator.js:26-37 | colorMap[v] = colorMap[v + 5] for v in 0..4 |
| NamedGeneratorLemmas.GeometryBySegment | js/octagonal-digit-generator.js:178-194 | top, bottom and middle are horizontal, the other four vertical |
| NamedGeneratorLemmas.NewDigitShape | js/octagonal-digit-generator.js:51-71 | a new digit has its value, tilt pi/2, rotation 0, unflipped, unplaced, and 1 + (segment count) children, the base first |
| OctagonalGenerator.CreateDigitMesh | js/OctagonalDigitGenerator.js:76-166 | null outside 0..9, otherwise the group of the table's meshes |
| OctagonalGenerator.CreateAllDigits | js/OctagonalDigitGenerator.js:203-215 | ten groups, group i for value i, all with the normal material |
| OctagonalGeneratorLemmas.ShowTablesAgree | js/OctagonalDigitGenerator.js:88-124 | this file's `show` table equals the registry's |
| OctagonalGeneratorLemmas.MeshesOf | js/OctagonalDigitGenerator.js:127-150 | each mesh has a key showing the value, horizontal exactly for a/d/g, the given material and parent; each showing key has a mesh |
| OctagonalGeneratorLemmas.GroupShape | js/OctagonalDigitGenerator.js:76-166 | a mesh for s exists exactly when the value shows s; horizontal iff key in {a, d, g}; parent is the group; tilt −pi/2, unplaced, unrotated, unflipped |
| OctagonalGeneratorLemmas.MeshKeysAsDigitManager | js/OctagonalDigitGenerator.js:127-150 | the mesh keys, in order, are the segments the registry's digit gets |
| OctagonalGeneratorLemmas.RangeGuard | js/OctagonalDigitGenerator.js:78-81 | the guard admits exactly 0..9 |
| GeometryHelper.CreateDigitGeometry | js/BufferGeometryUtils.js:52-99 | null outside 0..9, otherwise one box for each lit entry of the row |
| GeometryHelperLemmas.RowsHaveSeven | js/BufferGeometryUtils.js:15-24 | every row has seven entries |
| GeometryHelperLemmas.RowsTransposeShow | js/BufferGeometryUtils.js:14-25 | `digitSegments[v][i]` holds exactly when the registry shows segment i for v |
| GeometryHelperLemmas.EightAndOne | js/BufferGeometryUtils.js:16-23 | 8 lights every segment, 1 only b and c |
| GeometryHelperLemmas.WideIffADG | js/BufferGeometryUtils.js:66-67 | i % 3 = 0 picks exactly a, d and g |
| GeometryHelperLemmas.BoxesOfRow | js/BufferGeometryUtils.js:62-97 | one box per lit entry, in index order, each wide exactly when its index is a multiple of 3 |
| GeometryHelperLemmas.DigitBoxes | js/BufferGeometryUtils.js:52-99 | box count = lit count; a box for s exists exactly when the digit shows s; wide exactly for a, d, g |
| PuzzleBoard.CreateGridCells | js/OctagonalDigitsBoard.js:119-147 | sixteen holes, hole k at column k % 4 and row k / 4 by the grid formula |
| PuzzleBoard.CreateDigitPlacements | js/OctagonalDigitsBoard.js:172-192 | one piece per placement, in order, at its cell's x/z and height BOARD_DEPTH/2 + 0.1 |
| PuzzleBoardLemmas.CentreValues | js/OctagonalDigitsBoard.js:16-20 | the centres lie at −6, −2, 2 and 6 |
| PuzzleBoardLemmas.HolesInsideBoard | js/OctagonalDigitsBoard.js:119-147 | every hole, centre ± 1.75, fits inside the ±8 board |
| PuzzleBoardLemmas.PlacementCellsDistinct | js/OctagonalDigitsBoard.js:151-169 | the fourteen placements use pairwise distinct cells |
| PuzzleBoardLemmas.UsedCells | js/OctagonalDigitsBoard.js:151-169 | a cell holds a digit exactly when it is not (1,1) or (2,2) |
| PuzzleBoardLemmas.PieceOverHole | js/OctagonalDigitsBoard.js:172-192 | a piece's x/z is its hole's, at y 0.6, with the named table's segments |
| PuzzleBoardLemmas.SegmentTablesAgree | js/OctagonalDigitsBoard.js:334-350 | this file's table is that of octagonal-digit-generator.js, `[]` for unknown values |
| PuzzleBoardLemmas.ColoursFollowMap | js/OctagonalDigitsBoard.js:151-169 | every piece but one has its value's colour from the generator's map; the 5 at (0,1) is green, where the map gives yellow |
| TextureManager.Clamp255 | js/texture-manager.js:847-849 | `Math.min(255, Math.max(0, v))` lies in 0..255 |
| TextureManager.Blurred | js/texture-manager.js:943-973 | the blurred image has the original's length |
| TextureManager.SumKernel | js/texture-manager.js:958-968 | the kernel loops compute the weighted sum of the nine snapshot taps, in sixteenths |
| TextureManager.ApplyGaussianBlur | js/texture-manager.js:943-973 | the array ends as `Blurred` of its value before the call |
| TextureManagerLemmas.PrintByte | js/texture-manager.js:852 | `toString(16).padStart(2, '0')` prints a byte as two lower-case hex digits |
| TextureManagerLemmas.ParseTwoDigits | js/texture-manager.js:842-844 | `parseInt` of two hex digits is their value |
| TextureManagerLemmas.ByteRoundTrip | js/texture-manager.js:842-852 | parsing a printed byte gives the byte back |
| TextureManagerLemmas.ShiftReadable | js/texture-manager.js:840-853 | for "#rrggbb" input, each channel becomes clamp(channel + amount, 0, 255), printed after "#" |
| TextureManagerLemmas.RgbShape | js/texture-manager.js:852 | a printed colour has length 7: "#" and six lower-case hex digits |
| TextureManagerLemmas.ShiftShape | js/texture-manager.js:840-853 | when all three channels parse, the output is "#" and six lower-case hex digits |
| TextureManagerLemmas.ShiftByZero | js/texture-manager.js:840-853 | shifting "#rrggbb" by 0 gives it back lower-cased |
| TextureManagerLemmas.ShiftSaturates | js/texture-manager.js:847-849 | amount ≥ 255 gives "#ffffff" and amount ≤ −255 gives "#000000" |
| TextureManagerLemmas.KernelWeighsOne | js/texture-manager.js:947-951 | the kernel weights sum to 16 sixteenths |
| TextureManagerLemmas.TapInside | js/texture-manager.js:958-965 | the taps of an interior pixel are its 3 × 3 neighbours, inside the array and in the same channel |
| TextureManagerLemmas.KernelSumBetween | js/texture-manager.js:961-968 | taps within [lo, hi] give a weighted sum within lo and hi times the weights |
| TextureManagerLemmas.SmoothedBetween | js/texture-manager.js:947-970 | a smoothed value lies between its smallest and largest tap, so the clamp never applies, and it is the weighted average rounded to nearest |
| TextureManagerLemmas.BlurredAt | js/texture-manager.js:954-970 | channels 2 and 3 and border pixels keep their values; channels 0 and 1 of interior pixels hold the smoothed value |
| TextureManagerLemmas.UniformImageUnchanged | js/texture-manager.js:947-970 | an image with every channel constant is a fixed point |
| TextureManagerLemmas.FractalCount | js/texture-manager.js:579-604 | depth ≤ 0 draws nothing; depth d ≥ 0 draws (4^d − 1)/3 crosses |
| TextureManagerLemmas.TextureCrossCount | js/texture-manager.js:258 | the wire-frame texture's depth-4 call draws 85 crosses |
| TextureManagerLemmas.FractalInside | js/texture-manager.js:579-604 | for a rectangle of non-negative size, every stroke is axis-parallel with both ends inside it |

## Left out

- Raycasting, ray-plane intersection and the camera-facing drag plane are not modelled. They are three.js float geometry, so the pick result and the plane hits are inputs.
- `Date.now()` is not modelled. The time of a press or right click, and a touch's duration, are parameters.
- The main controller's touch handlers (`onTouchStart`, `onTouchMove`, `onTouchEnd`) and its two-finger rotation are left out. They use `atan2` and rounding of float angles. Only the variant's `onTouchEnd` tap is modelled.
- Event-listener registration, touch-device detection, camera mode and all DOM output are left out. The progress bar's width and the message box's visibility are modelled as state fields.
- Materials and colours (`setHex`, `material.clone`) are the three looks normal, selected and placed.
- Mesh geometry is not modelled: sizes, offsets, octagon outlines, extrusion and rounded corners. Neither are group names or the BufferGeometryUtils position and rotation tables. Segments are recorded by key, geometry kind, colour and parent only.
- The scene graph is not modelled. `userData.parentDigit` is recorded as the parent's value, and `parentDigit || digit` in `placeDigit` is always the digit itself.
- `getCellPosition` returns a copy of the cell position. Copying is implicit because positions are values, so aliasing is not modelled.
- Digits.DigitManager.CreateDigits: modelled only on a fresh manager, because the source calls it once after construction.
- Board.BoardManager.constructor: js/boardManager.js:3 imports `CELL_SIZE` by name, but js/constants.js does not export it. As written, that named import is a link-time SyntaxError, so js/boardManager.js and js/main-application.js, which imports it, cannot load. The model takes the cell size as a positive constructor parameter instead of a constant.
- Instructions.InteractionManager.constructor and GeometryHelper.CreateDigitGeometry: js/instructionsManager.js (constructor, lines 10-14) and js/BufferGeometryUtils.js (line 59, for every value 0..9) use `THREE` without importing it, and no file of the repository defines a global `THREE`. As written, both throw a ReferenceError unless the page provides one. The model assumes such a global exists, so both members return normally.
- Board.BoardManager.HighlightCell: the default argument `highlight = true` (js/boardManager.js:146) is not modelled: the model always takes the flag as an explicit argument.
- Rotation: angles are real multiples of pi rather than integer step counts, because `rotateSelectedDigit` accepts any `direction`. The wheel's steps come out as ±1/4 (45°, main controller) and ±1/12 (15°, variant).
- Interaction.InteractionManager.StartDraggingDigit: the drag offset is position − (intersection with the drag plane). With no intersection, the hit is taken as the origin, standing in for three.js's unchanged target vector.
- Progress is an exact real percentage. Float rounding of `placedCount / 10 * 100` is not modelled.
- The texture painting, noise, `Math.random` and the normal-map synthesis of js/texture-manager.js are left out, apart from `shiftColor`, `applyGaussianBlur` and `drawFractalLines`. Canvas drawing is modelled as the list of crosses stroked.
- TextureManager.ParseInt16: skips ASCII white space, NBSP, BOM and the line and paragraph separators, but not the other Unicode space separators that `parseInt` also skips.
- TextureManager.ShiftColor: `amount` is an integer, which is how the source calls it (amount 10). A fractional amount would print a fraction and is not modelled.
- TextureManager.ApplyGaussianBlur: the weighted sum is exact in sixteenths. The float sum in the source is exact too: each product is a byte times 1/16, 1/8 or 1/4, and every partial sum is a multiple of 1/16 below 256, which a double represents exactly.
- The `show` tables are sets rather than arrays. Only membership (`includes`) is ever asked of them.
- NamedGenerator.GeometryFor: the switch's `default` branch cannot be reached, because the names come from the fixed table.
- The segment names of octagonal-digit-generator.js and OctagonalDigitsBoard.js are an enumeration rather than strings.
- js/sceneManager.js, js/gameManager.js and js/uiManager.js are not part of this model. They hold rendering, lights, controls, loading screens and DOM buttons.
