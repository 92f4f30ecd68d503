// The viewer's canvas mouse: DOM button numbers mapped to buttons, and the
// state its listeners keep. Its mouseenter listener repeats the mouseleave
// one, so the cursor is never seen over the canvas again once it left.
module ViewerMouse {
  import opened Wrappers
  import opened Vectors
  import opened Rectangles
  import Mice

  datatype MouseButton = NoButton | Left | Middle | Right | Unknow

  /** The DOM button numbers: 0, 1 and 2 are the left, middle and right buttons; anything else is unknown. */
  function DomButton(button: int): (r: MouseButton)
    ensures button == 0 <==> r == Left
    ensures button == 1 <==> r == Middle
    ensures button == 2 <==> r == Right
    ensures r != NoButton
  {
    if button == 0 then Left
    else if button == 1 then Middle
    else if button == 2 then Right
    else Unknow
  }

  /** What the mouse fires to its listeners. */
  datatype MouseFired =
    | Entered
    | Departed
    | Down(x: real, y: real, button: MouseButton)
    | Up(x: real, y: real)
    | Moved(x: real, y: real)
    | Wheeled(x: real, y: real, delta: real)

  /** The canvas events that move the activity flag. */
  datatype Crossing = CursorLeaves | CursorEnters

  /** One listener's effect on the flag, as written: mouseleave and mouseenter both clear it. */
  function StepAsWritten(active: bool, c: Crossing): bool
  {
    match c
    case CursorLeaves => false
    case CursorEnters => false
  }

  /** One listener's effect on the flag, as the other two mice do it: entering sets it, leaving clears it. */
  function StepIntended(active: bool, c: Crossing): bool
  {
    c == CursorEnters
  }

  /** The flag after a run of crossings, as written. */
  function ActiveAsWritten(active: bool, crossings: seq<Crossing>): bool
  {
    if crossings == [] then active else StepAsWritten(ActiveAsWritten(active, crossings[..|crossings| - 1]), crossings[|crossings| - 1])
  }

  /** The flag after a run of crossings, as intended. */
  function ActiveIntended(active: bool, crossings: seq<Crossing>): bool
  {
    if crossings == [] then active else StepIntended(ActiveIntended(active, crossings[..|crossings| - 1]), crossings[|crossings| - 1])
  }

  /** As written, the flag survives only when nothing crossed: no mouseenter brings it back. */
  lemma {:induction false} NeverActiveAgain(active: bool, crossings: seq<Crossing>)
    ensures ActiveAsWritten(active, crossings) <==> active && crossings == []
  {
  }

  /** The input that shows it: leaving, then entering again, leaves the mouse inactive, where entering should set it. */
  lemma LeaveThenEnter()
    ensures !ActiveAsWritten(true, [CursorLeaves, CursorEnters])
    ensures ActiveIntended(true, [CursorLeaves, CursorEnters])
  {
    NeverActiveAgain(true, [CursorLeaves, CursorEnters]);
  }

  /** As intended, after any crossings the flag is set exactly when the last one entered; entering always brings it back. */
  lemma {:induction false} IntendedFollowsLastCrossing(active: bool, crossings: seq<Crossing>)
    requires crossings != []
    ensures ActiveIntended(active, crossings) <==> crossings[|crossings| - 1] == CursorEnters
  {
  }

  class Mouse {
    var x: real
    var y: real
    var button: MouseButton
    var active: bool
    /** The events fired so far, in order; the listeners are not modelled. */
    var fired: seq<MouseFired>

    constructor ()
      ensures x == 0.0 && y == 0.0 && button == NoButton && active && fired == []
    {
      x := 0.0;
      y := 0.0;
      button := NoButton;
      active := true;
      fired := [];
    }

    /** mouseleave: inactive, Leave fired. */
    method MouseLeave()
      modifies this`active, this`fired
      ensures active == StepAsWritten(old(active), CursorLeaves) == StepIntended(old(active), CursorLeaves)
      ensures !active && fired == old(fired) + [Departed]
    {
      active := false;
      fired := fired + [Departed];
    }

    /** mouseenter as written: inactive, and Leave fired, exactly as mouseleave. */
    method MouseEnter()
      modifies this`active, this`fired
      ensures active == StepAsWritten(old(active), CursorEnters)
      ensures !active && fired == old(fired) + [Departed]
    {
      active := false;
      fired := fired + [Departed];
    }

    /** mouseenter as intended, as the other two mice do it: active, Enter fired. */
    method MouseEnterIntended()
      modifies this`active, this`fired
      ensures active == StepIntended(old(active), CursorEnters)
      ensures active && fired == old(fired) + [Entered]
    {
      active := true;
      fired := fired + [Entered];
    }

    /** mousedown: the mapped button, then Down with the event's own coordinates; x and y are kept. */
    method MouseDown(domButton: int, ex: real, ey: real)
      modifies this`button, this`fired
      ensures button == DomButton(domButton) && fired == old(fired) + [Down(ex, ey, button)]
    {
      button := DomButton(domButton);
      fired := fired + [Down(ex, ey, button)];
    }

    /** mouseup: no button, then Up; x and y are kept. */
    method MouseUp(ex: real, ey: real)
      modifies this`button, this`fired
      ensures button == NoButton && fired == old(fired) + [Up(ex, ey)]
    {
      button := NoButton;
      fired := fired + [Up(ex, ey)];
    }

    /** mousemove: the position, then Move. */
    method MouseMove(ex: real, ey: real)
      modifies this`x, this`y, this`fired
      ensures x == ex && y == ey && fired == old(fired) + [Moved(ex, ey)]
    {
      x := ex;
      y := ey;
      fired := fired + [Moved(ex, ey)];
    }

    /** wheel: the position, then Wheel with the vertical delta. */
    method Wheel(ex: real, ey: real, deltaY: real)
      modifies this`x, this`y, this`fired
      ensures x == ex && y == ey && fired == old(fired) + [Wheeled(ex, ey, deltaY)]
    {
      x := ex;
      y := ey;
      fired := fired + [Wheeled(ex, ey, deltaY)];
    }

    /** isIn: false while inactive; otherwise the world point of the mouse tested as a 0 by 0 box. */
    method IsIn(rectangle: Rectangle, screenToWorld: (real, real) -> Vector2) returns (r: bool)
      ensures r == Mice.PointIn(active, screenToWorld(x, y), rectangle)
      ensures !active ==> !r
    {
      if !active {
        return false;
      }
      var pt := screenToWorld(x, y);
      r := Intersect(Some(Rectangle(pt.x, pt.y, 0.0, 0.0)), Some(rectangle));
    }
  }
}
