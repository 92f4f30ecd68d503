// The shared canvas mouse: DOM button numbers mapped to buttons, and the
// state its listeners keep (position relative to the canvas, button,
// whether the cursor is over the canvas).
module Mice {
  import opened Wrappers
  import opened Vectors
  import opened Rectangles

  datatype MouseButton = NoButton | Left | Middle | Right | Unknown

  /** What the mouse fires to its listeners. */
  datatype MouseFired =
    | Entered
    | Departed
    | Down(x: real, y: real, button: MouseButton)
    | Up(x: real, y: real)
    | Moved(x: real, y: real)
    | Wheeled(x: real, y: real, delta: real)

  /** convertDOMMouseButton: 0, 1 and 2 are the left, middle and right buttons; anything else is unknown. */
  function ConvertDOMMouseButton(button: int): (r: MouseButton)
    ensures button == 0 <==> r == Left
    ensures button == 1 <==> r == Middle
    ensures button == 2 <==> r == Right
    ensures r != NoButton
  {
    if button == 0 then Left
    else if button == 1 then Middle
    else if button == 2 then Right
    else Unknown
  }

  /** isIn at a world point: the 0 by 0 box there meets the rectangle, and only while the cursor is over the canvas. */
  predicate PointIn(active: bool, world: Vector2, rectangle: Rectangle)
  {
    active && Intersect(Some(Rectangle(world.x, world.y, 0.0, 0.0)), Some(rectangle))
  }

  /** While active, isIn is exactly "the world point lies in the rectangle's closed bounds". */
  lemma PointInHolds(active: bool, world: Vector2, rectangle: Rectangle)
    ensures PointIn(active, world, rectangle) <==> active && rectangle.Holds(world.x, world.y)
  {
    PointIntersect(world.x, world.y, rectangle);
  }

  /** Mouse: the listeners' state; the canvas origin and the screen-to-world map are given per call. */
  class Mouse {
    var x: real
    var y: real
    var button: MouseButton
    var active: bool
    /** The events fired so far, in order; the listeners are not modelled. */
    var fired: seq<MouseFired>

    constructor ()
      ensures x == 0.0 && y == 0.0 && button == NoButton && active && fired == []
    {
      x := 0.0;
      y := 0.0;
      button := NoButton;
      active := true;
      fired := [];
    }

    /** mouseleave: inactive, Leave fired. */
    method MouseLeave()
      modifies this`active, this`fired
      ensures !active && fired == old(fired) + [Departed]
    {
      active := false;
      fired := fired + [Departed];
    }

    /** mouseenter: active, Enter fired. */
    method MouseEnter()
      modifies this`active, this`fired
      ensures active && fired == old(fired) + [Entered]
    {
      active := true;
      fired := fired + [Entered];
    }

    /** mousedown: the converted button and the position relative to the canvas origin, then Down. */
    method MouseDown(domButton: int, clientX: real, clientY: real, left: real, top: real)
      modifies this`button, this`x, this`y, this`fired
      ensures button == ConvertDOMMouseButton(domButton) && button != NoButton
      ensures x == clientX - left && y == clientY - top
      ensures fired == old(fired) + [Down(x, y, button)]
    {
      button := ConvertDOMMouseButton(domButton);
      x := clientX - left;
      y := clientY - top;
      fired := fired + [Down(x, y, button)];
    }

    /** mouseup: no button, the position relative to the canvas origin, then Up. */
    method MouseUp(clientX: real, clientY: real, left: real, top: real)
      modifies this`button, this`x, this`y, this`fired
      ensures button == NoButton && x == clientX - left && y == clientY - top
      ensures fired == old(fired) + [Up(x, y)]
    {
      button := NoButton;
      x := clientX - left;
      y := clientY - top;
      fired := fired + [Up(x, y)];
    }

    /** mousemove: the position relative to the canvas origin, then Move; the button is kept. */
    method MouseMove(clientX: real, clientY: real, left: real, top: real)
      modifies this`x, this`y, this`fired
      ensures x == clientX - left && y == clientY - top
      ensures fired == old(fired) + [Moved(x, y)]
    {
      x := clientX - left;
      y := clientY - top;
      fired := fired + [Moved(x, y)];
    }

    /** wheel: the position relative to the canvas origin, then Wheel with the vertical delta. */
    method Wheel(clientX: real, clientY: real, left: real, top: real, deltaY: real)
      modifies this`x, this`y, this`fired
      ensures x == clientX - left && y == clientY - top
      ensures fired == old(fired) + [Wheeled(x, y, deltaY)]
    {
      x := clientX - left;
      y := clientY - top;
      fired := fired + [Wheeled(x, y, deltaY)];
    }

    /** isIn: false while inactive; otherwise the world point of the mouse tested as a 0 by 0 box. */
    method IsIn(rectangle: Rectangle, screenToWorld: (real, real) -> Vector2) returns (r: bool)
      ensures r == PointIn(active, screenToWorld(x, y), rectangle)
      ensures !active ==> !r
    {
      if !active {
        return false;
      }
      var pt := screenToWorld(x, y);
      r := Intersect(Some(Rectangle(pt.x, pt.y, 0.0, 0.0)), Some(rectangle));
    }
  }
}
