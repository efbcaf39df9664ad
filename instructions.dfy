/**
 * The older pointer controller of js/instructionsManager.js. It differs from
 * js/interactionManager.js in three ways: a press on an unselected digit only selects it
 * (a second press on the selected digit starts the drag); a release places the digit at the
 * pointer's board intersection point, not at the digit's own position; and the wheel turns
 * the digit by 15 degrees, only while dragging. A tap on the touch screen selects.
 *
 * The raycasts are inputs: `pick` is the digit whose group or segment the pointer hits,
 * `boardHit` the pointer's intersection with the board plane, `planeHit` its intersection
 * with the drag plane. A touch's duration and whether it ended near its start are inputs too.
 */
module Instructions {
  import opened Common
  import opened Constants
  import opened Digits
  import Interaction

  /** A `THREE.Plane`: the points q with normal . q + constant == 0. */
  datatype Plane = Plane(normal: Vec3, constant: real)

  /** `new THREE.Plane()`. */
  const DefaultPlane: Plane := Plane(Vec3(1.0, 0.0, 0.0), 0.0)

  /** `setFromNormalAndCoplanarPoint((0, 1, 0), p)`: the horizontal plane through p. */
  function HorizontalThrough(p: Vec3): Plane {
    Plane(Vec3(0.0, 1.0, 0.0), -p.y)
  }

  /** The tap window of `onTouchEnd`, in milliseconds. */
  const TapTime: int := 200

  /** The controller's state: the registry and the fields the handlers update. */
  datatype Controller = Controller(
    reg: Registry,
    isDragging: bool,
    dragOffset: Vec3,
    dragPlane: Plane,
    controlsEnabled: bool,
    progress: real,
    messageVisible: bool)

  /** `updateProgressBar()`: the recorded values over this file's own total of ten, as a percentage. */
  function UpdateProgress(s: Controller): Controller {
    s.(progress := (PlacedCount(s.reg) as real) / 10.0 * 100.0)
  }

  /** `checkGameCompletion()`. */
  function CheckCompletion(s: Controller): Controller {
    if PlacedCount(s.reg) == DigitCount then s.(messageVisible := true) else s
  }

  /** `onMouseDown(event)`. */
  function MouseDown(s: Controller, button: int, pick: Option<nat>, boardHit: Option<Vec3>): (res: Controller)
    requires Inv(s.reg) && (pick.Some? ==> pick.value < DigitCount)
    ensures Inv(res.reg)
  {
    if button != 0 then s
    else
      var s1 := s.(controlsEnabled := false);
      match pick
      case None => s1.(controlsEnabled := true)
      case Some(d) =>
        if s1.reg.digits[d].placed then s1
        else if s1.reg.selected == Some(d) then
          var s2 := s1.(isDragging := true);
          match boardHit
          case None => s2
          case Some(p) => s2.(dragPlane := HorizontalThrough(p), dragOffset := s.reg.digits[d].position.Minus(p))
        else s1.(reg := Select(s1.reg, d).0)
  }

  /** `onMouseMove(event)`: the digit follows the drag plane hit, kept at or above `PlaceHeight`. */
  function MouseMove(s: Controller, planeHit: Option<Vec3>): (res: Controller)
    requires Inv(s.reg)
    ensures Inv(res.reg)
  {
    if !s.isDragging || s.reg.selected.None? || planeHit.None? then s
    else
      var q := planeHit.value.Plus(s.dragOffset);
      s.(reg := MoveTo(s.reg, s.reg.selected.value, Vec3(q.x, Max(q.y, PlaceHeight), q.z)))
  }

  /** The strict bounds test of `onMouseUp`, on the board intersection point. */
  predicate Inside(boardHit: Option<Vec3>) {
    boardHit.Some? && Abs(boardHit.value.x) < BoardWidth / 2.0 && Abs(boardHit.value.z) < BoardHeight / 2.0
  }

  /** `onMouseUp(event)`. */
  function MouseUp(s: Controller, boardHit: Option<Vec3>): (res: Controller)
    requires Inv(s.reg)
    ensures Inv(res.reg)
  {
    var s1 :=
      if s.isDragging && s.reg.selected.Some? then
        var i := s.reg.selected.value;
        if Inside(boardHit) then CheckCompletion(UpdateProgress(s.(reg := Place(s.reg, i, boardHit.value).0)))
        else s.(reg := MoveTo(s.reg, i, s.reg.digits[i].home))
      else s;
    s1.(isDragging := false, controlsEnabled := true)
  }

  /** `direction * (Math.PI / 12)`, in multiples of pi. */
  function WheelAmount(deltaY: real): real {
    (if deltaY > 0.0 then 1.0 else -1.0) / 12.0
  }

  /** The wheel's direct write of `userData.rotation` and `rotation.y` of the selected digit. */
  function Turn(r: Registry, amount: real): (res: Registry)
    requires Inv(r) && r.selected.Some?
    ensures Inv(res)
  {
    var i := r.selected.value;
    var d := r.digits[i];
    var rotation := d.rotation + amount;
    var s := r.(digits := r.digits[i := d.(rotation := rotation, euler := d.euler.(y := rotation))]);
    assert forall j :: 0 <= j < DigitCount ==> s.digits[j].look == ExpectedLook(s, j);
    s
  }

  /** `onMouseWheel(event)`. */
  function Wheel(s: Controller, deltaY: real, shift: bool): (res: Controller)
    requires Inv(s.reg)
    ensures Inv(res.reg)
  {
    if s.isDragging && s.reg.selected.Some? then
      var r := Turn(s.reg, WheelAmount(deltaY));
      s.(reg := if shift then Flip(r) else r)
    else s
  }

  /**
   * `onTouchEnd(event)`: a short touch that is not a drag and ends near its start is a tap,
   * which selects the unplaced digit it hits; anything else finishes like a release.
   */
  function TouchEnd(s: Controller, duration: int, changedTouches: nat, nearStart: bool, pick: Option<nat>, boardHit: Option<Vec3>): (res: Controller)
    requires Inv(s.reg) && (pick.Some? ==> pick.value < DigitCount)
    ensures Inv(res.reg)
  {
    var s1 :=
      if duration < TapTime && !s.isDragging then
        if changedTouches == 1 && nearStart && pick.Some? && !s.reg.digits[pick.value].placed
        then s.(reg := Select(s.reg, pick.value).0)
        else s
      else MouseUp(s, boardHit);
    s1.(isDragging := false)
  }

  /** `resetGame()`. */
  function Restart(s: Controller): (res: Controller)
    requires Inv(s.reg)
    ensures Inv(res.reg)
  {
    UpdateProgress(s.(reg := Reset(s.reg), messageVisible := false))
  }

  /** The variant `InteractionManager`. */
  class InteractionManager {
    const dm: DigitManager
    var isDragging: bool
    var dragOffset: Vec3
    var dragPlane: Plane
    var controlsEnabled: bool
    var progress: real
    var messageVisible: bool

    function View(): Controller
      reads this, dm
    {
      Controller(dm.View(), isDragging, dragOffset, dragPlane, controlsEnabled, progress, messageVisible)
    }

    ghost predicate Valid()
      reads this, dm
    {
      dm.Valid()
    }

    constructor (dm: DigitManager)
      ensures this.dm == dm
      ensures !isDragging && dragOffset == Origin && dragPlane == DefaultPlane
      ensures controlsEnabled && progress == 0.0 && !messageVisible
    {
      this.dm := dm;
      isDragging := false;
      dragOffset := Origin;
      dragPlane := DefaultPlane;
      controlsEnabled := true;
      progress := 0.0;
      messageVisible := false;
    }

    /** Writes `selectedDigit.position` of an unplaced digit. */
    method MoveDigit(i: nat, p: Vec3)
      requires Valid() && i < DigitCount && !dm.digits[i].placed
      modifies dm
      ensures Valid()
      ensures dm.View() == MoveTo(old(dm.View()), i, p)
    {
      ghost var before := dm.View();
      ghost var after := before.(digits := before.digits[i := before.digits[i].(position := p)]);
      assert after == MoveTo(before, i, p);
      dm.digits := dm.digits[i := dm.digits[i].(position := p)];
      assert dm.View() == after;
    }

    method UpdateProgressBar()
      modifies this
      ensures View() == UpdateProgress(old(View()))
    {
      var placedCount := |dm.placedDigits|;
      progress := (placedCount as real) / (DigitCount as real) * 100.0;
    }

    method CheckGameCompletion()
      modifies this
      ensures View() == CheckCompletion(old(View()))
    {
      var placedCount := |dm.placedDigits|;
      if placedCount == DigitCount {
        messageVisible := true;
      }
    }

    method OnMouseDown(button: int, pick: Option<nat>, boardHit: Option<Vec3>)
      requires Valid() && (pick.Some? ==> pick.value < DigitCount)
      modifies this, dm
      ensures Valid()
      ensures View() == MouseDown(old(View()), button, pick, boardHit)
    {
      if button != 0 {
        return;
      }
      controlsEnabled := false;
      if pick.None? {
        controlsEnabled := true;
        return;
      }
      var d := pick.value;
      if !dm.digits[d].placed {
        if dm.selected == Some(d) {
          isDragging := true;
          if boardHit.Some? {
            dragPlane := HorizontalThrough(boardHit.value);
            var planeIntersection := boardHit.value;
            dragOffset := dm.digits[d].position.Minus(planeIntersection);
          }
        } else {
          var _ := dm.SelectDigit(d);
        }
      }
    }

    method OnMouseMove(planeHit: Option<Vec3>)
      requires Valid()
      modifies dm
      ensures Valid()
      ensures View() == MouseMove(old(View()), planeHit)
    {
      if !isDragging || dm.selected.None? {
        return;
      }
      if planeHit.Some? {
        ghost var expected := MouseMove(View(), planeHit);
        var q := planeHit.value.Plus(dragOffset);
        MoveDigit(dm.selected.value, Vec3(q.x, Max(q.y, PlaceHeight), q.z));
        assert View() == expected;
      }
    }

    method OnMouseUp(boardHit: Option<Vec3>)
      requires Valid()
      modifies this, dm
      ensures Valid()
      ensures View() == MouseUp(old(View()), boardHit)
    {
      if isDragging && dm.selected.Some? {
        var i := dm.selected.value;
        if boardHit.Some? {
          var point := boardHit.value;
          if Abs(point.x) < BoardWidth / 2.0 && Abs(point.z) < BoardHeight / 2.0 {
            var _ := dm.PlaceDigit(i, point);
            UpdateProgressBar();
            CheckGameCompletion();
          } else {
            MoveDigit(i, dm.digits[i].home);
          }
        } else {
          MoveDigit(i, dm.digits[i].home);
        }
      }
      isDragging := false;
      controlsEnabled := true;
    }

    /** The wheel's write of `userData.rotation` and `rotation.y` of the selected digit. */
    method TurnSelectedDigit(rotationAmount: real)
      requires Valid() && dm.selected.Some?
      modifies dm
      ensures Valid()
      ensures dm.View() == Turn(old(dm.View()), rotationAmount)
    {
      ghost var before := dm.View();
      var i := dm.selected.value;
      var d := dm.digits[i];
      var rotation := d.rotation + rotationAmount;
      ghost var after := before.(digits := before.digits[i := d.(rotation := rotation, euler := d.euler.(y := rotation))]);
      assert after == Turn(before, rotationAmount);
      dm.digits := dm.digits[i := d.(rotation := rotation, euler := d.euler.(y := rotation))];
      assert dm.View() == after;
    }

    method OnMouseWheel(deltaY: real, shift: bool)
      requires Valid()
      modifies dm
      ensures Valid()
      ensures View() == Wheel(old(View()), deltaY, shift)
    {
      if isDragging && dm.selected.Some? {
        var direction := if deltaY > 0.0 then 1.0 else -1.0;
        var rotationAmount := direction / 12.0;
        TurnSelectedDigit(rotationAmount);
        if shift {
          dm.FlipSelectedDigit();
        }
      }
    }

    method OnTouchEnd(duration: int, changedTouches: nat, nearStart: bool, pick: Option<nat>, boardHit: Option<Vec3>)
      requires Valid() && (pick.Some? ==> pick.value < DigitCount)
      modifies this, dm
      ensures Valid()
      ensures View() == TouchEnd(old(View()), duration, changedTouches, nearStart, pick, boardHit)
    {
      if duration < TapTime && !isDragging {
        if changedTouches == 1 && nearStart && pick.Some? {
          if !dm.digits[pick.value].placed {
            var _ := dm.SelectDigit(pick.value);
          }
        }
      } else {
        OnMouseUp(boardHit);
      }
      isDragging := false;
    }

    method ResetGame()
      requires Valid()
      modifies this, dm
      ensures Valid()
      ensures View() == Restart(old(View()))
    {
      dm.ResetDigits();
      messageVisible := false;
      UpdateProgressBar();
    }
  }
}

/** What the variant controller's handlers guarantee. */
module InstructionsLemmas {
  import opened Common
  import opened Constants
  import opened Digits
  import opened DigitLemmas
  import opened Instructions
  import Interaction
  import InteractionLemmas

  /** A press on an unselected unplaced digit only selects it: no drag starts. */
  lemma PressSelectsOnly(s: Controller, d: nat, boardHit: Option<Vec3>)
    requires Inv(s.reg) && d < DigitCount && !s.reg.digits[d].placed && s.reg.selected != Some(d)
    ensures var res := MouseDown(s, 0, Some(d), boardHit);
      && res.reg == Select(s.reg, d).0
      && res.reg.selected == Some(d)
      && res.isDragging == s.isDragging
      && res.dragOffset == s.dragOffset && res.dragPlane == s.dragPlane
      && !res.controlsEnabled
  {
  }

  /**
   * A press on the selected digit starts the drag; with a board hit the drag plane becomes
   * the horizontal plane through it and the offset is the digit's position minus the hit.
   */
  lemma PressOnSelectedStartsDrag(s: Controller, d: nat, boardHit: Option<Vec3>)
    requires Inv(s.reg) && d < DigitCount && s.reg.selected == Some(d)
    ensures var res := MouseDown(s, 0, Some(d), boardHit);
      && res.reg == s.reg && res.isDragging
      && (boardHit.None? ==> res.dragOffset == s.dragOffset && res.dragPlane == s.dragPlane)
      && (boardHit.Some? ==>
            && res.dragPlane == HorizontalThrough(boardHit.value)
            && res.dragOffset == s.reg.digits[d].position.Minus(boardHit.value))
  {
  }

  /** Two presses on an unselected digit: the first selects it, the second starts the drag. */
  lemma SecondPressStartsDrag(s: Controller, d: nat, boardHit: Option<Vec3>)
    requires Inv(s.reg) && d < DigitCount && !s.reg.digits[d].placed && s.reg.selected != Some(d)
    requires !s.isDragging
    ensures var once := MouseDown(s, 0, Some(d), boardHit);
      var twice := MouseDown(once, 0, Some(d), boardHit);
      && !once.isDragging && once.reg.selected == Some(d)
      && twice.isDragging && twice.reg == once.reg
  {
    PressSelectsOnly(s, d, boardHit);
    PressOnSelectedStartsDrag(MouseDown(s, 0, Some(d), boardHit), d, boardHit);
  }

  /** Placed digits are ignored by a press and by a tap. */
  lemma PlacedDigitsIgnored(s: Controller, d: nat, boardHit: Option<Vec3>, duration: int)
    requires Inv(s.reg) && d < DigitCount && s.reg.digits[d].placed
    ensures MouseDown(s, 0, Some(d), boardHit) == s.(controlsEnabled := false)
    ensures duration < TapTime && !s.isDragging ==>
      TouchEnd(s, duration, 1, true, Some(d), boardHit) == s.(isDragging := false)
  {
  }

  /** A tap selects the unplaced digit it hits. */
  lemma TapSelects(s: Controller, d: nat, duration: int, boardHit: Option<Vec3>)
    requires Inv(s.reg) && d < DigitCount && !s.reg.digits[d].placed
    requires duration < TapTime && !s.isDragging
    ensures var res := TouchEnd(s, duration, 1, true, Some(d), boardHit);
      res.reg == Select(s.reg, d).0 && res.reg.selected == Some(d) && !res.isDragging
  {
  }

  /**
   * A release while dragging the selection places it exactly when the board hit is strictly
   * inside the board; placed, it sits at the hit's x and z at `PlaceHeight`.
   */
  lemma ReleasePlacesIffInside(s: Controller, boardHit: Option<Vec3>)
    requires Inv(s.reg) && s.isDragging && s.reg.selected.Some?
    ensures var i := s.reg.selected.value;
      var res := MouseUp(s, boardHit);
      && (res.reg.digits[i].placed <==> Inside(boardHit))
      && (Inside(boardHit) ==>
            res.reg.digits[i].position == Vec3(boardHit.value.x, PlaceHeight, boardHit.value.z) && res.reg.selected.None?)
      && (!Inside(boardHit) ==>
            res.reg.digits[i].position == s.reg.digits[i].home && res.reg.selected == Some(i))
  {
    PlaceRecordsDigit(s.reg, s.reg.selected.value, boardHit.GetOr(Origin));
  }

  /** After any release or touch end the drag is over. */
  lemma ReleaseEndsDrag(s: Controller, boardHit: Option<Vec3>, duration: int, changedTouches: nat, nearStart: bool, pick: Option<nat>)
    requires Inv(s.reg) && (pick.Some? ==> pick.value < DigitCount)
    ensures !MouseUp(s, boardHit).isDragging && MouseUp(s, boardHit).controlsEnabled
    ensures !TouchEnd(s, duration, changedTouches, nearStart, pick, boardHit).isDragging
  {
  }

  /**
   * A move while dragging with a plane hit puts the selection at the hit plus the grab offset,
   * raised to `PlaceHeight` when it would be lower, and changes nothing else; otherwise it
   * does nothing.
   */
  lemma MoveKeepsAboveBoard(s: Controller, planeHit: Option<Vec3>)
    requires Inv(s.reg)
    ensures var res := MouseMove(s, planeHit);
      && (!s.isDragging || s.reg.selected.None? || planeHit.None? ==> res == s)
      && (s.isDragging && s.reg.selected.Some? && planeHit.Some? ==>
            var i := s.reg.selected.value;
            && res.reg.digits[i].position.x == planeHit.value.x + s.dragOffset.x
            && res.reg.digits[i].position.y == Max(planeHit.value.y + s.dragOffset.y, PlaceHeight)
            && res.reg.digits[i].position.z == planeHit.value.z + s.dragOffset.z
            && res.reg.digits[i].position.y >= PlaceHeight
            && res.reg.digits[i].(position := s.reg.digits[i].position) == s.reg.digits[i]
            && res.reg.selected == s.reg.selected
            && res.reg.placedDigits == s.reg.placedDigits
            && res == s.(reg := res.reg)
            && (forall j :: 0 <= j < DigitCount && j != i ==> res.reg.digits[j] == s.reg.digits[j]))
  {
  }

  /** The wheel acts only while dragging, turning the selection by +-15 degrees and flipping it with shift. */
  lemma WheelTurnsFifteenDegrees(s: Controller, deltaY: real, shift: bool)
    requires Inv(s.reg)
    ensures var res := Wheel(s, deltaY, shift);
      && (!s.isDragging || s.reg.selected.None? ==> res == s)
      && (s.isDragging && s.reg.selected.Some? ==>
            var i := s.reg.selected.value;
            && res.reg.digits[i].rotation == s.reg.digits[i].rotation + (if deltaY > 0.0 then 1.0 / 12.0 else -1.0 / 12.0)
            && res.reg.digits[i].euler.y == res.reg.digits[i].rotation
            && res.reg.digits[i].flipped == (s.reg.digits[i].flipped != shift)
            && res.reg.selected == s.reg.selected)
  {
    if s.isDragging && s.reg.selected.Some? {
      assert DigitOk(s.reg.digits[s.reg.selected.value], s.reg.selected.value);
    }
  }

  /**
   * The variant's progress bar shows ten percent per placed digit, stays within 0..100 and
   * is full exactly when every digit is placed, as the main controller's does; its completion
   * message appears exactly when every digit is placed (or was already shown).
   */
  lemma ProgressAsMainController(s: Controller, c: Interaction.Controller)
    requires Inv(s.reg) && s.reg == c.reg
    ensures UpdateProgress(s).progress == (PlacedCount(s.reg) as real) * 10.0
    ensures 0.0 <= UpdateProgress(s).progress <= 100.0
    ensures UpdateProgress(s).progress == 100.0 <==> forall i :: 0 <= i < DigitCount ==> s.reg.digits[i].placed
    ensures UpdateProgress(s).progress == Interaction.UpdateProgress(c).progress
    ensures CheckCompletion(s).messageVisible <==>
      s.messageVisible || forall i :: 0 <= i < DigitCount ==> s.reg.digits[i].placed
  {
    InteractionLemmas.ProgressTracksPlacements(s.reg);
    CompleteIffAllPlaced(s.reg);
  }
}
