/**
 * The pointer controller of js/interactionManager.js: press selects an unplaced digit and
 * starts a drag in the same event, move drags it with a height clamp, release places it when
 * it is strictly over the board and otherwise sends it home; the wheel rotates and flips, a
 * right click flips, and the progress bar and completion message follow `placedDigits`.
 *
 * The raycasts are inputs: `pick` is the digit whose group or segment the pointer hits (or
 * none), `planeHit` the ray's intersection with the drag plane (or none). Timestamps and the
 * normalised pointer y are inputs too.
 */
module Interaction {
  import opened Common
  import opened Constants
  import opened Digits

  /** The controller's state: the registry and the fields the handlers update. */
  datatype Controller = Controller(
    reg: Registry,
    isDragging: bool,
    dragOffset: Vec3,
    initialDragHeight: real,
    dragHeightModifier: real,
    lastMouseY: real,
    mouseY: real,              // this.mouse.y
    lastRightClickTime: int,
    controlsEnabled: bool,     // sceneManager.controls.enabled
    progress: real,            // width of the progress fill, in percent
    messageVisible: bool)      // the completion message box

  /** How long after a right click a press is ignored, in milliseconds. */
  const RightClickGuard: int := 300

  /** How far the pointer's y movement lifts a dragged digit. */
  const HeightSensitivity: real := 5.0

  /** `(placedCount / totalDigits) * 100`. */
  function ProgressPercentage(r: Registry): real {
    (PlacedCount(r) as real) / (DigitCount as real) * 100.0
  }

  /** `updateProgressBar()`. */
  function UpdateProgress(s: Controller): Controller {
    s.(progress := ProgressPercentage(s.reg))
  }

  /** `checkGameCompletion()`: shows the message when all ten values are recorded, never hides it. */
  function CheckCompletion(s: Controller): Controller {
    if PlacedCount(s.reg) == DigitCount then s.(messageVisible := true) else s
  }

  /** `startDragging(digit)`: the drag starts from the digit's current position and height. */
  function StartDragging(s: Controller, i: nat, planeHit: Option<Vec3>): Controller
    requires |s.reg.digits| == DigitCount && i < DigitCount
  {
    var position := s.reg.digits[i].position;
    s.(isDragging := true,
       initialDragHeight := position.y,
       dragHeightModifier := 0.0,
       dragOffset := position.Minus(planeHit.GetOr(Origin)),
       lastMouseY := s.mouseY)
  }

  /** `onMouseDown(event)`. */
  function MouseDown(s: Controller, button: int, mouseY: real, now: int, pick: Option<nat>, planeHit: Option<Vec3>): (res: Controller)
    requires Inv(s.reg) && (pick.Some? ==> pick.value < DigitCount)
    ensures Inv(res.reg)
  {
    if button == 2 then s
    else if button != 0 then s
    else
      var s1 := s.(mouseY := mouseY);
      if now - s.lastRightClickTime < RightClickGuard then s1
      else
        var s2 := s1.(controlsEnabled := false);
        match pick
        case None => s2.(controlsEnabled := true)
        case Some(d) =>
          if s2.reg.digits[d].placed then s2
          else if s2.reg.selected == Some(d) then StartDragging(s2, d, planeHit)
          else StartDragging(s2.(reg := Select(s2.reg, d).0), d, planeHit)
  }

  /** `onMouseMove(event)`. */
  function MouseMove(s: Controller, mouseY: real, planeHit: Option<Vec3>): (res: Controller)
    requires Inv(s.reg)
    ensures Inv(res.reg)
  {
    if !s.isDragging || s.reg.selected.None? then s
    else if planeHit.None? then s.(mouseY := mouseY)
    else Drag(s.(mouseY := mouseY), planeHit.value)
  }

  /** The rest of `onMouseMove` once the pointer was recorded and the drag plane hit at `p`. */
  function Drag(s: Controller, p: Vec3): (res: Controller)
    requires Inv(s.reg) && s.reg.selected.Some?
  {
    var q := p.Plus(s.dragOffset);
    var modifier := s.dragHeightModifier + (s.mouseY - s.lastMouseY) * HeightSensitivity;
    var height := Max(s.initialDragHeight + modifier, PlaceHeight);
    s.(reg := MoveTo(s.reg, s.reg.selected.value, Vec3(q.x, height, q.z)),
       dragHeightModifier := modifier,
       lastMouseY := s.mouseY)
  }

  /** `onMouseUp(event)`. */
  function MouseUp(s: Controller): (res: Controller)
    requires Inv(s.reg)
    ensures Inv(res.reg)
  {
    var s1 :=
      if s.isDragging && s.reg.selected.Some? then
        var i := s.reg.selected.value;
        var p := s.reg.digits[i].position;
        if OverBoard(p.x, p.z) then CheckCompletion(UpdateProgress(s.(reg := Place(s.reg, i, p).0)))
        else s.(reg := MoveTo(s.reg, i, s.reg.digits[i].home))
      else s;
    s1.(isDragging := false, dragHeightModifier := 0.0, controlsEnabled := true)
  }

  /** The `direction` the wheel passes to `rotateSelectedDigit`. */
  function WheelDirection(deltaY: real): real {
    if deltaY > 0.0 then 0.5 else -0.5
  }

  /** `onMouseWheel(event)`. */
  function Wheel(s: Controller, deltaY: real, shift: bool): (res: Controller)
    requires Inv(s.reg)
    ensures Inv(res.reg)
  {
    if s.reg.selected.None? then s
    else
      var r := Rotate(s.reg, WheelDirection(deltaY));
      s.(reg := if shift then Flip(r) else r)
  }

  /** `onRightClick(event)`. */
  function RightClick(s: Controller, now: int): (res: Controller)
    requires Inv(s.reg)
    ensures Inv(res.reg)
  {
    if s.reg.selected.None? then s
    else s.(reg := Flip(s.reg), lastRightClickTime := now)
  }

  /** `resetGame()`. */
  function Restart(s: Controller): (res: Controller)
    requires Inv(s.reg)
    ensures Inv(res.reg)
  {
    UpdateProgress(s.(reg := Reset(s.reg), messageVisible := false))
  }

  /** `InteractionManager`: the handlers over a shared `DigitManager`. */
  class InteractionManager {
    const dm: DigitManager
    var isDragging: bool
    var dragOffset: Vec3
    var initialDragHeight: real
    var dragHeightModifier: real
    var lastMouseY: real
    var mouseY: real
    var lastRightClickTime: int
    var controlsEnabled: bool
    var progress: real
    var messageVisible: bool

    function View(): Controller
      reads this, dm
    {
      Controller(dm.View(), isDragging, dragOffset, initialDragHeight, dragHeightModifier,
                 lastMouseY, mouseY, lastRightClickTime, controlsEnabled, progress, messageVisible)
    }

    ghost predicate Valid()
      reads this, dm
    {
      dm.Valid()
    }

    constructor (dm: DigitManager)
      ensures this.dm == dm
      ensures !isDragging && dragOffset == Origin && initialDragHeight == 0.0 && dragHeightModifier == 0.0
      ensures lastMouseY == 0.0 && mouseY == 0.0 && lastRightClickTime == 0
      ensures controlsEnabled && progress == 0.0 && !messageVisible
    {
      this.dm := dm;
      isDragging := false;
      dragOffset := Origin;
      initialDragHeight := 0.0;
      dragHeightModifier := 0.0;
      lastMouseY := 0.0;
      mouseY := 0.0;
      lastRightClickTime := 0;
      controlsEnabled := true;
      progress := 0.0;
      messageVisible := false;
    }

    /** Writes `selectedDigit.position` of an unplaced digit. */
    method MoveDigit(i: nat, p: Vec3)
      requires Valid() && i < DigitCount && !dm.digits[i].placed
      modifies dm
      ensures Valid()
      ensures dm.View() == MoveTo(old(dm.View()), i, p)
    {
      ghost var before := dm.View();
      ghost var after := before.(digits := before.digits[i := before.digits[i].(position := p)]);
      assert after == MoveTo(before, i, p);
      dm.digits := dm.digits[i := dm.digits[i].(position := p)];
      assert dm.View() == after;
    }

    method UpdateProgressBar()
      modifies this
      ensures View() == UpdateProgress(old(View()))
    {
      var placedCount := |dm.placedDigits|;
      progress := (placedCount as real) / (DigitCount as real) * 100.0;
    }

    method CheckGameCompletion()
      modifies this
      ensures View() == CheckCompletion(old(View()))
    {
      var placedCount := |dm.placedDigits|;
      if placedCount == DigitCount {
        messageVisible := true;
      }
    }

    method StartDraggingDigit(i: nat, planeHit: Option<Vec3>)
      requires Valid() && i < DigitCount
      modifies this
      ensures View() == StartDragging(old(View()), i, planeHit)
    {
      isDragging := true;
      var position := dm.digits[i].position;
      initialDragHeight := position.y;
      dragHeightModifier := 0.0;
      var planeIntersection := if planeHit.Some? then planeHit.value else Origin;
      dragOffset := position.Minus(planeIntersection);
      lastMouseY := mouseY;
    }

    method OnMouseDown(button: int, mouseY: real, now: int, pick: Option<nat>, planeHit: Option<Vec3>)
      requires Valid() && (pick.Some? ==> pick.value < DigitCount)
      modifies this, dm
      ensures Valid()
      ensures View() == MouseDown(old(View()), button, mouseY, now, pick, planeHit)
    {
      if button == 2 {
        return;
      }
      if button != 0 {
        return;
      }
      this.mouseY := mouseY;
      if now - lastRightClickTime < RightClickGuard {
        return;
      }
      controlsEnabled := false;
      if pick.None? {
        controlsEnabled := true;
        return;
      }
      var d := pick.value;
      if dm.digits[d].placed {
        return;
      }
      if dm.selected == Some(d) {
        StartDraggingDigit(d, planeHit);
      } else {
        var _ := dm.SelectDigit(d);
        StartDraggingDigit(d, planeHit);
      }
    }

    method OnMouseMove(mouseY: real, planeHit: Option<Vec3>)
      requires Valid()
      modifies this, dm
      ensures Valid()
      ensures View() == MouseMove(old(View()), mouseY, planeHit)
    {
      if !isDragging || dm.selected.None? {
        return;
      }
      this.mouseY := mouseY;
      assert View() == old(View()).(mouseY := mouseY);
      if planeHit.None? {
        return;
      }
      ghost var s1 := View();
      var i := dm.selected.value;
      var q := planeHit.value.Plus(dragOffset);
      var mouseYDelta := this.mouseY - lastMouseY;
      dragHeightModifier := dragHeightModifier + mouseYDelta * HeightSensitivity;
      var newHeight := initialDragHeight + dragHeightModifier;
      var height := Max(newHeight, PlaceHeight);
      ghost var moved := MoveTo(s1.reg, i, Vec3(q.x, height, q.z));
      assert Drag(s1, planeHit.value) == s1.(reg := moved, dragHeightModifier := dragHeightModifier, lastMouseY := mouseY);
      MoveDigit(i, Vec3(q.x, height, q.z));
      assert dm.View() == moved;
      lastMouseY := this.mouseY;
      assert dm.View() == moved;
    }

    method OnMouseUp()
      requires Valid()
      modifies this, dm
      ensures Valid()
      ensures View() == MouseUp(old(View()))
    {
      if isDragging && dm.selected.Some? {
        var i := dm.selected.value;
        var p := dm.digits[i].position;
        if Abs(p.x) < BoardWidth / 2.0 && Abs(p.z) < BoardHeight / 2.0 {
          var _ := dm.PlaceDigit(i, p);
          UpdateProgressBar();
          CheckGameCompletion();
        } else {
          MoveDigit(i, dm.digits[i].home);
        }
      }
      isDragging := false;
      dragHeightModifier := 0.0;
      controlsEnabled := true;
    }

    method OnMouseWheel(deltaY: real, shift: bool)
      requires Valid()
      modifies dm
      ensures Valid()
      ensures View() == Wheel(old(View()), deltaY, shift)
    {
      if dm.selected.Some? {
        var direction := if deltaY > 0.0 then 0.5 else -0.5;
        dm.RotateSelectedDigit(direction);
        if shift {
          dm.FlipSelectedDigit();
        }
      }
    }

    method OnRightClick(now: int)
      requires Valid()
      modifies this, dm
      ensures Valid()
      ensures View() == RightClick(old(View()), now)
    {
      if dm.selected.Some? {
        dm.FlipSelectedDigit();
        lastRightClickTime := now;
      }
    }

    method ResetGame()
      requires Valid()
      modifies this, dm
      ensures Valid()
      ensures View() == Restart(old(View()))
    {
      dm.ResetDigits();
      messageVisible := false;
      UpdateProgressBar();
    }
  }
}

/** What the controller's handlers guarantee. */
module InteractionLemmas {
  import opened Common
  import opened Constants
  import opened Digits
  import opened DigitLemmas
  import opened Interaction

  /** Only the left button acts on a press. */
  lemma OtherButtonsIgnored(s: Controller, button: int, mouseY: real, now: int, pick: Option<nat>, planeHit: Option<Vec3>)
    requires Inv(s.reg) && (pick.Some? ==> pick.value < DigitCount) && button != 0
    ensures MouseDown(s, button, mouseY, now, pick, planeHit) == s
  {
  }

  /** A press within 300 ms of a right click only records the pointer. */
  lemma PressAfterRightClickIgnored(s: Controller, mouseY: real, now: int, pick: Option<nat>, planeHit: Option<Vec3>)
    requires Inv(s.reg) && (pick.Some? ==> pick.value < DigitCount)
    requires now - s.lastRightClickTime < RightClickGuard
    ensures MouseDown(s, 0, mouseY, now, pick, planeHit) == s.(mouseY := mouseY)
  {
  }

  /** A press on a placed digit changes no selection and starts no drag; camera controls stay off. */
  lemma PressOnPlacedDigit(s: Controller, mouseY: real, now: int, d: nat, planeHit: Option<Vec3>)
    requires Inv(s.reg) && d < DigitCount && s.reg.digits[d].placed
    requires now - s.lastRightClickTime >= RightClickGuard
    ensures MouseDown(s, 0, mouseY, now, Some(d), planeHit) == s.(mouseY := mouseY, controlsEnabled := false)
  {
  }

  /** A press on empty space gives the pointer to the camera controls. */
  lemma PressOnNothing(s: Controller, mouseY: real, now: int, planeHit: Option<Vec3>)
    requires Inv(s.reg) && now - s.lastRightClickTime >= RightClickGuard
    ensures MouseDown(s, 0, mouseY, now, None, planeHit) == s.(mouseY := mouseY, controlsEnabled := true)
  {
  }

  /**
   * A press on an unplaced digit selects it (if it was not selected already) and starts a
   * drag in the same event, from the digit's current height with no height change yet.
   */
  lemma PressOnUnplacedDigit(s: Controller, mouseY: real, now: int, d: nat, planeHit: Option<Vec3>)
    requires Inv(s.reg) && d < DigitCount && !s.reg.digits[d].placed
    requires now - s.lastRightClickTime >= RightClickGuard
    ensures var res := MouseDown(s, 0, mouseY, now, Some(d), planeHit);
      && res.reg.selected == Some(d)
      && res.reg.digits[d].look == SelectedLook
      && SameButLooks(s.reg, res.reg)
      && res.isDragging && !res.controlsEnabled
      && res.dragHeightModifier == 0.0
      && res.initialDragHeight == s.reg.digits[d].position.y
      && res.dragOffset == s.reg.digits[d].position.Minus(planeHit.GetOr(Origin))
      && res.lastMouseY == mouseY
  {
    var s2 := s.(mouseY := mouseY, controlsEnabled := false);
    if s.reg.selected != Some(d) {
      var r := Select(s.reg, d).0;
      assert r.digits[d].position == s.reg.digits[d].position by {
        assert r.digits[d].(look := NormalLook) == s.reg.digits[d].(look := NormalLook);
      }
      assert MouseDown(s, 0, mouseY, now, Some(d), planeHit) == StartDragging(s2.(reg := r), d, planeHit);
    } else {
      assert SameButLooks(s.reg, s.reg);
      assert MouseDown(s, 0, mouseY, now, Some(d), planeHit) == StartDragging(s2, d, planeHit);
    }
  }

  /** A move without a drag in progress or without a selection does nothing. */
  lemma MoveWithoutDragIgnored(s: Controller, mouseY: real, planeHit: Option<Vec3>)
    requires Inv(s.reg) && (!s.isDragging || s.reg.selected.None?)
    ensures MouseMove(s, mouseY, planeHit) == s
  {
  }

  /**
   * A move while dragging the selection puts it at the plane hit plus the grab offset in x and
   * z, and at the larger of the drag's start height plus the pointer's accumulated y movement
   * and `PlaceHeight`; nothing else of the digit or the registry changes. Without a plane
   * hit the registry stays as it is, and only the pointer's y is recorded.
   */
  lemma MoveClampsHeight(s: Controller, mouseY: real, planeHit: Option<Vec3>)
    requires Inv(s.reg) && s.isDragging && s.reg.selected.Some?
    ensures var res := MouseMove(s, mouseY, planeHit);
      var i := s.reg.selected.value;
      && res.reg.selected == s.reg.selected
      && res.reg.placedDigits == s.reg.placedDigits
      && res.mouseY == mouseY
      && (planeHit.None? ==> res == s.(mouseY := mouseY))
      && (planeHit.Some? ==>
            && res.reg.digits[i].position.x == planeHit.value.x + s.dragOffset.x
            && res.reg.digits[i].position.z == planeHit.value.z + s.dragOffset.z
            && res.dragHeightModifier == s.dragHeightModifier + (mouseY - s.lastMouseY) * 5.0
            && res.reg.digits[i].position.y == Max(s.initialDragHeight + res.dragHeightModifier, PlaceHeight)
            && res.reg.digits[i].position.y >= PlaceHeight
            && res.lastMouseY == mouseY
            && res.reg.digits[i].(position := s.reg.digits[i].position) == s.reg.digits[i]
            && (forall j :: 0 <= j < DigitCount && j != i ==> res.reg.digits[j] == s.reg.digits[j]))
  {
  }

  /** A release always ends the drag, clears the height change and re-enables the camera. */
  lemma ReleaseEndsDrag(s: Controller)
    requires Inv(s.reg)
    ensures var res := MouseUp(s);
      !res.isDragging && res.dragHeightModifier == 0.0 && res.controlsEnabled
  {
  }

  /**
   * Releasing a dragged selection places it exactly when it is strictly inside the board's
   * x and z bounds; placed, it keeps its x and z at `PlaceHeight` and the selection clears.
   */
  lemma ReleasePlacesIffOverBoard(s: Controller)
    requires Inv(s.reg) && s.isDragging && s.reg.selected.Some?
    ensures var i := s.reg.selected.value;
      var p := s.reg.digits[i].position;
      var res := MouseUp(s);
      && (res.reg.digits[i].placed <==> OverBoard(p.x, p.z))
      && (OverBoard(p.x, p.z) ==>
            && res.reg.digits[i].position == Vec3(p.x, PlaceHeight, p.z)
            && res.reg.selected.None?
            && res.reg.placedDigits == s.reg.placedDigits[i := i]
            && res.progress == ProgressPercentage(res.reg))
  {
    var i := s.reg.selected.value;
    PlaceRecordsDigit(s.reg, i, s.reg.digits[i].position);
  }

  /** A rejected drop sends the digit home, leaves it unplaced and keeps it selected. */
  lemma RejectedDropGoesHome(s: Controller)
    requires Inv(s.reg) && s.isDragging && s.reg.selected.Some?
    requires var p := s.reg.digits[s.reg.selected.value].position; !OverBoard(p.x, p.z)
    ensures var i := s.reg.selected.value;
      var res := MouseUp(s);
      && res.reg.digits[i].position == s.reg.digits[i].home
      && !res.reg.digits[i].placed
      && res.reg.selected == Some(i)
      && res.reg.placedDigits == s.reg.placedDigits
      && res.progress == s.progress && res.messageVisible == s.messageVisible
  {
  }

  /** Pressing on a digit at home and releasing it unmoved sends it home and keeps it selected. */
  lemma ClickWithoutMoveKeepsSelection(s: Controller, mouseY: real, now: int, d: nat, planeHit: Option<Vec3>)
    requires Inv(s.reg) && d < DigitCount && !s.reg.digits[d].placed
    requires s.reg.digits[d].position == s.reg.digits[d].home
    requires now - s.lastRightClickTime >= RightClickGuard
    ensures var res := MouseUp(MouseDown(s, 0, mouseY, now, Some(d), planeHit));
      && res.reg.selected == Some(d)
      && !res.reg.digits[d].placed
      && res.reg.digits[d].position == s.reg.digits[d].home
      && !res.isDragging
  {
    var down := MouseDown(s, 0, mouseY, now, Some(d), planeHit);
    PressOnUnplacedDigit(s, mouseY, now, d, planeHit);
    assert down.reg.digits[d].(look := NormalLook) == s.reg.digits[d].(look := NormalLook);
    assert DigitOk(s.reg.digits[d], d);
    HomesOffBoard(d);
  }

  /** With a selection the wheel turns it by +-45 degrees (a quarter of pi), flipping it too when shift is held. */
  lemma WheelTurnsEighth(s: Controller, deltaY: real, shift: bool)
    requires Inv(s.reg)
    ensures var res := Wheel(s, deltaY, shift);
      && (s.reg.selected.None? ==> res == s)
      && (s.reg.selected.Some? ==>
            var i := s.reg.selected.value;
            && res.reg.digits[i].rotation == s.reg.digits[i].rotation + (if deltaY > 0.0 then 0.25 else -0.25)
            && res.reg.digits[i].flipped == (s.reg.digits[i].flipped != shift)
            && res.reg.selected == s.reg.selected
            && res.reg.placedDigits == s.reg.placedDigits)
  {
  }

  /** A right click flips the selection, and only when there is one, and arms the press guard. */
  lemma RightClickFlips(s: Controller, now: int)
    requires Inv(s.reg)
    ensures var res := RightClick(s, now);
      && (s.reg.selected.None? ==> res == s)
      && (s.reg.selected.Some? ==>
            && res.reg == Flip(s.reg)
            && res.reg.digits[s.reg.selected.value].flipped == !s.reg.digits[s.reg.selected.value].flipped
            && res.lastRightClickTime == now)
  {
  }

  /** The progress bar reads ten percent per placed digit, from 0 to 100, and 100 exactly when all are placed. */
  lemma ProgressTracksPlacements(r: Registry)
    requires Inv(r)
    ensures ProgressPercentage(r) == (PlacedCount(r) as real) * 10.0
    ensures 0.0 <= ProgressPercentage(r) <= 100.0
    ensures ProgressPercentage(r) == 100.0 <==> forall i :: 0 <= i < DigitCount ==> r.digits[i].placed
  {
    PlacedKeysMirrorFlags(r);
    CompleteIffAllPlaced(r);
  }

  /** The completion message appears exactly when the tenth value is recorded (or was already shown). */
  lemma CompletionShownIffComplete(s: Controller)
    requires Inv(s.reg)
    ensures CheckCompletion(s).messageVisible <==>
      s.messageVisible || forall i :: 0 <= i < DigitCount ==> s.reg.digits[i].placed
  {
    CompleteIffAllPlaced(s.reg);
  }

  /** Reset brings the game back to the start: the new registry, progress 0 and no message. */
  lemma ResetGameRestarts(s: Controller)
    requires Inv(s.reg)
    ensures var res := Restart(s);
      res.reg == Initial() && res.progress == 0.0 && !res.messageVisible
  {
  }
}
