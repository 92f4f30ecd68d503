// The tiny viewer's mouse over an SDL window: SDL button numbers mapped to
// buttons, and the state its listeners keep.
module TinyMouse {
  import opened Wrappers
  import opened Vectors
  import opened Rectangles
  import Mice

  datatype MouseButton = NoButton | Left | Middle | Right | Unknow

  /** The SDL button numbers: 1, 2 and 3 are the left, middle and right buttons; anything else is unknown. */
  function SdlButton(button: int): (r: MouseButton)
    ensures button == 1 <==> r == Left
    ensures button == 2 <==> r == Middle
    ensures button == 3 <==> r == Right
    ensures r != NoButton
  {
    if button == 1 then Left
    else if button == 2 then Middle
    else if button == 3 then Right
    else Unknow
  }

  /** What the mouse fires to its listeners. */
  datatype MouseFired =
    | Entered
    | Departed
    | Down(x: real, y: real, button: MouseButton)
    | Up(x: real, y: real)
    | Moved(x: real, y: real)
    | Wheeled(x: real, y: real, delta: real)

  class Mouse {
    var x: real
    var y: real
    var button: MouseButton
    var active: bool
    /** The events fired so far, in order; the listeners are not modelled. */
    var fired: seq<MouseFired>

    constructor ()
      ensures x == 0.0 && y == 0.0 && button == NoButton && active && fired == []
    {
      x := 0.0;
      y := 0.0;
      button := NoButton;
      active := true;
      fired := [];
    }

    /** leave: inactive, Leave fired. */
    method Leave()
      modifies this`active, this`fired
      ensures !active && fired == old(fired) + [Departed]
    {
      active := false;
      fired := fired + [Departed];
    }

    /** hover: active, Enter fired. */
    method Hover()
      modifies this`active, this`fired
      ensures active && fired == old(fired) + [Entered]
    {
      active := true;
      fired := fired + [Entered];
    }

    /** mouseButtonDown: the mapped button, then Down with the event's own coordinates; x and y are kept. */
    method MouseButtonDown(sdlButton: int, ex: real, ey: real)
      modifies this`button, this`fired
      ensures button == SdlButton(sdlButton) && fired == old(fired) + [Down(ex, ey, button)]
    {
      button := SdlButton(sdlButton);
      fired := fired + [Down(ex, ey, button)];
    }

    /** mouseButtonUp: no button, then Up; x and y are kept. */
    method MouseButtonUp(ex: real, ey: real)
      modifies this`button, this`fired
      ensures button == NoButton && fired == old(fired) + [Up(ex, ey)]
    {
      button := NoButton;
      fired := fired + [Up(ex, ey)];
    }

    /** mouseMove: the only listener that moves x and y. */
    method MouseMove(ex: real, ey: real)
      modifies this`x, this`y, this`fired
      ensures x == ex && y == ey && fired == old(fired) + [Moved(ex, ey)]
    {
      x := ex;
      y := ey;
      fired := fired + [Moved(ex, ey)];
    }

    /** mouseWheel: Wheel fired with the vertical delta; nothing else changes. */
    method MouseWheel(ex: real, ey: real, dy: real)
      modifies this`fired
      ensures fired == old(fired) + [Wheeled(ex, ey, dy)]
    {
      fired := fired + [Wheeled(ex, ey, dy)];
    }

    /** isIn: false while inactive; otherwise the world point of the mouse tested as a 0 by 0 box. */
    method IsIn(rectangle: Rectangle, screenToWorld: (real, real) -> Vector2) returns (r: bool)
      ensures r == Mice.PointIn(active, screenToWorld(x, y), rectangle)
      ensures !active ==> !r
    {
      if !active {
        return false;
      }
      var pt := screenToWorld(x, y);
      r := Intersect(Some(Rectangle(pt.x, pt.y, 0.0, 0.0)), Some(rectangle));
    }
  }
}
