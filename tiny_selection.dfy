// The tiny viewer's selection: a rectangle dragged with one mouse button,
// driven by the surface mouse's Down, Move and Up events. Points are kept
// in world space; the screen-to-world map is given per event.
module TinySelections {
  import opened Wrappers
  import opened Vectors
  import opened Rectangles
  import opened SelectionRegions
  import TinyMouse

  /** What the selection fires to its listeners. */
  datatype SelectionFired = Begin(p: Vector2) | Intermediate(p: Vector2) | End(p: Vector2) | Cancelled

  /** Whether a Down with `button` restarts the selection: always when no button is configured. */
  predicate Accepts(configured: Option<TinyMouse.MouseButton>, button: TinyMouse.MouseButton)
  {
    configured.None? || configured.value == button
  }

  /** The event Up fires with the end point, as written: the Intermediate notification. */
  function UpFiredAsWritten(p: Vector2): SelectionFired
  {
    Intermediate(p)
  }

  /** The event Up fires as intended: End, which the listeners declare and nothing else fires. */
  function UpFiredIntended(p: Vector2): SelectionFired
  {
    End(p)
  }

  /** Some listener has been told that a selection ended. */
  predicate EndReported(fired: seq<SelectionFired>)
  {
    exists i :: 0 <= i < |fired| && fired[i].End?
  }

  /** As written, finishing a drag never tells the End listeners anything new. */
  lemma UpReportsNoEnd(fired: seq<SelectionFired>, p: Vector2)
    ensures EndReported(fired + [UpFiredAsWritten(p)]) <==> EndReported(fired)
  {
    if EndReported(fired + [UpFiredAsWritten(p)]) {
      var i :| 0 <= i < |fired| + 1 && (fired + [UpFiredAsWritten(p)])[i].End?;
      assert i < |fired| && fired[i].End?;
    }
    if EndReported(fired) {
      var i :| 0 <= i < |fired| && fired[i].End?;
      assert (fired + [UpFiredAsWritten(p)])[i].End?;
    }
  }

  /** As intended, finishing a drag always reports the end, with the end point. */
  lemma UpReportsEnd(fired: seq<SelectionFired>, p: Vector2)
    ensures EndReported(fired + [UpFiredIntended(p)])
    ensures (fired + [UpFiredIntended(p)])[|fired|] == End(p)
  {
    assert (fired + [UpFiredIntended(p)])[|fired|].End?;
  }

  class Selection {
    var start: Option<Vector2>
    var end: Option<Vector2>
    var intermediate: Option<Vector2>
    const mouseButton: Option<TinyMouse.MouseButton>
    /** The events fired so far, in order; the listeners are not modelled. */
    var fired: seq<SelectionFired>

    /** A drag in progress has a start and no end; a finished one has both. */
    ghost predicate Valid()
      reads this
    {
      (intermediate.Some? ==> start.Some? && end.None?) && (end.Some? ==> start.Some?)
    }

    constructor (mouseButton: Option<TinyMouse.MouseButton>)
      ensures Valid() && this.mouseButton == mouseButton
      ensures start.None? && end.None? && intermediate.None? && fired == []
    {
      this.mouseButton := mouseButton;
      start := None;
      end := None;
      intermediate := None;
      fired := [];
    }

    /**
     * Down: another button than the configured one drops the selection, firing Cancelled only when a
     * drag had started and moved or finished; otherwise a new drag starts at the world point.
     */
    method OnMouseDown(x: real, y: real, button: TinyMouse.MouseButton, toWorld: (real, real) -> Vector2)
      requires Valid()
      modifies this`start, this`end, this`intermediate, this`fired
      ensures Valid()
      ensures !Accepts(mouseButton, button) ==> start.None? && end.None? && intermediate.None?
      ensures !Accepts(mouseButton, button) ==>
        fired == old(fired) + (if old(start).Some? && (old(intermediate).Some? || old(end).Some?) then [Cancelled] else [])
      ensures Accepts(mouseButton, button) ==> start == Some(toWorld(x, y)) && end.None? && intermediate.None?
      ensures Accepts(mouseButton, button) ==> fired == old(fired) + [Begin(toWorld(x, y))]
    {
      if mouseButton.Some? && mouseButton.value != button {
        if start.Some? && (intermediate.Some? || end.Some?) {
          fired := fired + [Cancelled];
        }
        start := None;
        end := None;
        intermediate := None;
        return;
      }
      end := None;
      intermediate := None;
      var p := toWorld(x, y);
      start := Some(p);
      fired := fired + [Begin(p)];
    }

    /** Move: only during a drag (started, not finished) the intermediate point follows the mouse. */
    method OnMouseMove(x: real, y: real, toWorld: (real, real) -> Vector2)
      requires Valid()
      modifies this`intermediate, this`fired
      ensures Valid()
      ensures old(start).Some? && old(end).None? ==>
        intermediate == Some(toWorld(x, y)) && fired == old(fired) + [Intermediate(toWorld(x, y))]
      ensures !(old(start).Some? && old(end).None?) ==> intermediate == old(intermediate) && fired == old(fired)
    {
      if start.None? || end.Some? {
        return;
      }
      var p := toWorld(x, y);
      intermediate := Some(p);
      fired := fired + [Intermediate(p)];
    }

    /** Up as written: with a drag started, the end point is recorded and Intermediate (not End) fires with it. */
    method OnMouseUp(x: real, y: real, toWorld: (real, real) -> Vector2)
      requires Valid()
      modifies this`intermediate, this`end, this`fired
      ensures Valid()
      ensures start.Some? ==>
        intermediate.None? && end == Some(toWorld(x, y)) && fired == old(fired) + [Intermediate(toWorld(x, y))]
      ensures start.None? ==> intermediate == old(intermediate) && end == old(end) && fired == old(fired)
      ensures EndReported(fired) <==> EndReported(old(fired))
    {
      if start.None? {
        return;
      }
      intermediate := None;
      var p := toWorld(x, y);
      end := Some(p);
      UpReportsNoEnd(fired, p);
      fired := fired + [UpFiredAsWritten(p)];
    }

    /** Up as intended: the end point is recorded and End fires with it. */
    method OnMouseUpIntended(x: real, y: real, toWorld: (real, real) -> Vector2)
      requires Valid()
      modifies this`intermediate, this`end, this`fired
      ensures Valid()
      ensures start.Some? ==>
        intermediate.None? && end == Some(toWorld(x, y)) && fired == old(fired) + [End(toWorld(x, y))]
      ensures start.Some? ==> EndReported(fired)
      ensures start.None? ==> intermediate == old(intermediate) && end == old(end) && fired == old(fired)
    {
      if start.None? {
        return;
      }
      intermediate := None;
      var p := toWorld(x, y);
      end := Some(p);
      UpReportsEnd(fired, p);
      fired := fired + [UpFiredIntended(p)];
    }

    /** region: present exactly when the drag has finished, as the box spanned by its two points. */
    method Region() returns (r: Option<Rectangle>)
      requires Valid()
      ensures r.Some? <==> end.Some?
      ensures r == ComputeRegion(start, end)
      ensures r.Some? ==> r.value.NonNegative()
      ensures r.Some? ==> r.value.Holds(start.value.x, start.value.y) && r.value.Holds(end.value.x, end.value.y)
    {
      r := ComputeRegion(start, end);
    }

    /** invalidate: forgets a finished selection; a drag still in progress is kept. */
    method Invalidate()
      requires Valid()
      modifies this`start, this`end, this`intermediate
      ensures Valid()
      ensures old(end).Some? ==> start.None? && end.None? && intermediate.None?
      ensures old(end).None? ==> start == old(start) && intermediate == old(intermediate) && end.None?
    {
      if end.None? {
        return;
      }
      start := None;
      intermediate := None;
      end := None;
    }

    /** contains: false until the selection is finished; then the coordinate's box meets the region's closed bounds. */
    method Contains(c: Coord) returns (r: bool)
      requires Valid()
      ensures end.None? ==> !r
      ensures r <==> RegionContains(ComputeRegion(start, end), c)
      ensures c.width.None? && c.height.None? ==>
        (r <==> end.Some? && ComputeRegion(start, end).value.Holds(c.x, c.y))
    {
      var region := Region();
      if region.None? {
        return false;
      }
      r := Intersect(region, Some(AsBox(c)));
      if c.width.None? && c.height.None? {
        ContainsPoint(region, c.x, c.y);
      }
    }
  }
}
