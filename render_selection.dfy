// The shared rendering Selection: a RenderNode that records a dragged
// rectangle in client coordinates and, when the drag ends, propagates a
// selection event to the selectable nodes of its subtree.
module RenderSelections {
  import opened Wrappers
  import opened Vectors
  import opened Rectangles
  import opened SelectionRegions
  import Mice

  /** The corners of a RenderingSelectionEvent. */
  datatype Corners = Corners(startX: real, startY: real, endX: real, endY: real)

  /** Whether a mouse down with `button` restarts the selection: always when no button is configured. */
  predicate Accepts(configured: Option<Mice.MouseButton>, button: Mice.MouseButton)
  {
    configured.None? || configured.value == button
  }

  /** The event onMouseUp propagates for a region: its min corner and its max corner. */
  function RegionCorners(r: Rectangle): Corners
  {
    Corners(r.x, r.y, r.x + r.width, r.y + r.height)
  }

  /** The corners sent on mouse up are the two points' min and max, whichever order they were dragged in. */
  lemma {:induction false} CornersNormalised(s: Vector2, e: Vector2)
    ensures var c := RegionCorners(ComputeRegion(Some(s), Some(e)).value);
      && c.startX == Min(s.x, e.x) && c.startY == Min(s.y, e.y)
      && c.endX == Max(s.x, e.x) && c.endY == Max(s.y, e.y)
      && c.startX <= c.endX && c.startY <= c.endY
  {
    var r := ComputeRegion(Some(s), Some(e)).value;
    assert r.x + r.width == Max(s.x, e.x);
    assert r.y + r.height == Max(s.y, e.y);
  }

  class Selection {
    var start: Option<Vector2>
    var end: Option<Vector2>
    var intermediate: Option<Vector2>
    const mouseButton: Option<Mice.MouseButton>
    /** The selection events propagated so far, in order. */
    var propagated: seq<Corners>

    /** A drag in progress has a start and no end; a finished one has both. */
    ghost predicate Valid()
      reads this
    {
      (intermediate.Some? ==> start.Some? && end.None?) && (end.Some? ==> start.Some?)
    }

    constructor (mouseButton: Option<Mice.MouseButton>)
      ensures Valid() && this.mouseButton == mouseButton
      ensures start.None? && end.None? && intermediate.None? && propagated == []
    {
      this.mouseButton := mouseButton;
      start := None;
      end := None;
      intermediate := None;
      propagated := [];
    }

    /** isPointInside: the selection node is hit everywhere. */
    function IsPointInside(x: real, y: real): (r: bool)
      ensures r
    {
      true
    }

    /** onMouseDown: another button than the configured one drops everything; otherwise a drag starts at the client point. */
    method OnMouseDown(clientX: real, clientY: real, button: Mice.MouseButton)
      requires Valid()
      modifies this`start, this`end, this`intermediate
      ensures Valid()
      ensures !Accepts(mouseButton, button) ==> start.None? && end.None? && intermediate.None?
      ensures Accepts(mouseButton, button) ==>
        start == Some(Vector2(clientX, clientY)) && end.None? && intermediate.None?
    {
      if mouseButton.Some? && mouseButton.value != button {
        start := None;
        end := None;
        intermediate := None;
        return;
      }
      end := None;
      intermediate := None;
      start := Some(Vector2(clientX, clientY));
    }

    /** onMouseMove: only during a drag (started, not finished) the intermediate point follows the mouse. */
    method OnMouseMove(clientX: real, clientY: real)
      requires Valid()
      modifies this`intermediate
      ensures Valid()
      ensures old(start).Some? && old(end).None? ==> intermediate == Some(Vector2(clientX, clientY))
      ensures !(old(start).Some? && old(end).None?) ==> intermediate == old(intermediate)
    {
      if start.None? || end.Some? {
        return;
      }
      intermediate := Some(Vector2(clientX, clientY));
    }

    /** onMouseUp: with a drag started, the end is recorded and one selection event with the normalised region's corners is propagated. */
    method OnMouseUp(clientX: real, clientY: real)
      requires Valid()
      modifies this`intermediate, this`end, this`propagated
      ensures Valid()
      ensures start.Some? ==> intermediate.None? && end == Some(Vector2(clientX, clientY))
      ensures start.Some? ==>
        propagated == old(propagated) + [RegionCorners(ComputeRegion(start, end).value)]
      ensures start.None? ==> intermediate == old(intermediate) && end == old(end) && propagated == old(propagated)
    {
      if start.None? {
        return;
      }
      intermediate := None;
      end := Some(Vector2(clientX, clientY));
      var area := ComputeRegion(start, end);
      if area.Some? {
        propagated := propagated + [RegionCorners(area.value)];
      }
    }

    /** region: present exactly when the drag has finished, as the box spanned by its two points. */
    method Region() returns (r: Option<Rectangle>)
      requires Valid()
      ensures r.Some? <==> end.Some?
      ensures r == ComputeRegion(start, end)
    {
      r := ComputeRegion(start, end);
    }

    /** invalidate: forgets a finished selection; a drag still in progress is kept. */
    method Invalidate()
      requires Valid()
      modifies this`start, this`end, this`intermediate
      ensures Valid()
      ensures old(end).Some? ==> start.None? && end.None? && intermediate.None?
      ensures old(end).None? ==> start == old(start) && intermediate == old(intermediate) && end.None?
    {
      if end.None? {
        return;
      }
      start := None;
      intermediate := None;
      end := None;
    }

    /** contains: false until the selection is finished; then the coordinate's box meets the region's closed bounds. */
    method Contains(c: Coord) returns (r: bool)
      requires Valid()
      ensures end.None? ==> !r
      ensures r <==> RegionContains(ComputeRegion(start, end), c)
    {
      var region := Region();
      if region.None? {
        return false;
      }
      r := Intersect(region, Some(AsBox(c)));
    }
  }

  // ---------------------------------------------------------------------
  // Propagating a selection event
  // ---------------------------------------------------------------------

  /** A snapshot of a subtree: whether each node is a RenderSelectableNode, and its mouseIn flag. */
  datatype SNode = SNode(id: nat, selectable: bool, mouseIn: bool, children: seq<SNode>)

  /** The opaque geometry and the custom handlers, per node id. */
  datatype SelectHooks = SelectHooks(
    apply: (nat, real, real) -> Vector2,          // the node's transform applied to a point
    inside: (nat, Rectangle) -> bool,             // isSelectionInside for the transformed area
    stops: nat -> bool)                           // whether onSelect stops propagation

  /** The nodes Selection.propagateEvent hands the event to: selectable nodes, reached through non-selectable ones only. */
  function Frontier(cs: seq<SNode>): seq<SNode>
    decreases cs
  {
    if cs == [] then []
    else
      var c := cs[0];
      (if c.selectable then [c] else Frontier(c.children)) + Frontier(cs[1..])
  }

  /** Every node of a forest, parent before children. */
  function Nodes(cs: seq<SNode>): seq<SNode>
    decreases cs
  {
    if cs == [] then [] else [cs[0]] + Nodes(cs[0].children) + Nodes(cs[1..])
  }

  /** Every node the outer walk hands the event to is selectable. */
  lemma {:induction false} FrontierSelectable(cs: seq<SNode>)
    ensures forall f :: f in Frontier(cs) ==> f.selectable
    decreases cs
  {
    if cs != [] {
      FrontierSelectable(cs[1..]);
      if !cs[0].selectable {
        FrontierSelectable(cs[0].children);
      }
    }
  }

  /** Every selectable node of the subtree is handed the event, or lies below one that is. */
  lemma {:induction false} FrontierCovers(cs: seq<SNode>, m: SNode)
    requires m in Nodes(cs) && m.selectable
    ensures m in Frontier(cs) || exists f :: f in Frontier(cs) && m in Nodes(f.children)
    decreases cs
  {
    var c := cs[0];
    if m in Nodes(cs[1..]) {
      FrontierCovers(cs[1..], m);
    } else if m == c {
    } else {
      assert m in Nodes(c.children);
      if !c.selectable {
        FrontierCovers(c.children, m);
      } else {
        assert c in Frontier(cs);
      }
    }
  }

  /** What a walk produces: its return value, the stop flag after it, and the onSelect handlers it ran. */
  datatype SelectOutcome = SelectOutcome(result: bool, stopped: bool, selected: seq<nat>)

  /**
   * RenderSelectableNode.propagateEvent at the transformed corners: the node's onSelect runs when it is
   * hit, the mouse is in it, and the inner walk did not return true. `everyChild` picks the inner walk:
   * false for the loop as written, which looks at the first child only, true for the loop as intended.
   */
  function SelectablePropagate(n: SNode, e: Corners, stopped: bool, h: SelectHooks, everyChild: bool): SelectOutcome
    decreases n, 2
  {
    var s := h.apply(n.id, e.startX, e.startY);
    var t := h.apply(n.id, e.endX, e.endY);
    var e' := Corners(s.x, s.y, t.x, t.y);
    var hit := h.inside(n.id, Rectangle(s.x, s.y, t.x - s.x, t.y - s.y));
    var w := InnerWalk(n, e', stopped, h, everyChild);
    if hit && w.result then SelectOutcome(true, w.stopped, w.selected)
    else if hit && n.mouseIn then
      var st := w.stopped || h.stops(n.id);
      SelectOutcome(st, st, w.selected + [n.id])
    else if hit then SelectOutcome(w.stopped, w.stopped, w.selected)
    else SelectOutcome(false, w.stopped, w.selected)
  }

  /**
   * The inner tryToPropagate. As written its loop returns during its first pass, so only the first
   * child is looked at; a selectable first child gets the event, and when it returns false the walk
   * repeats on that child's own first child (with this node's coordinates). No children: falsy,
   * nothing done. As intended, the loop goes through every child (ChildrenWalk).
   */
  function InnerWalk(that: SNode, e: Corners, stopped: bool, h: SelectHooks, everyChild: bool): SelectOutcome
    decreases that, 1
  {
    if everyChild then ChildrenWalk(that, |that.children|, e, stopped, h)
    else if that.children == [] then SelectOutcome(false, stopped, [])
    else
      var child := that.children[0];
      if !child.selectable then SelectOutcome(false, stopped, [])
      else
        var o := SelectablePropagate(child, e, stopped, h, false);
        if o.result then o
        else
          var w := InnerWalk(child, e, o.stopped, h, false);
          SelectOutcome(w.result, w.stopped, o.selected + w.selected)
  }

  /** One walk after another: true when either returned true, the second's stop flag, both runs of handlers. */
  function Then(x: SelectOutcome, y: SelectOutcome): SelectOutcome
  {
    SelectOutcome(x.result || y.result, y.stopped, x.selected + y.selected)
  }

  /** One pass of the intended loop: a selectable child gets the event, and its own children when it returns false. */
  function ChildStep(child: SNode, e: Corners, stopped: bool, h: SelectHooks): SelectOutcome
    decreases child, 3
  {
    if !child.selectable then SelectOutcome(false, stopped, [])
    else
      var o := SelectablePropagate(child, e, stopped, h, true);
      if o.result then o else Then(o, InnerWalk(child, e, o.stopped, h, true))
  }

  /** The intended loop over the first i children: each pass in list order, the stop flag threaded through. */
  function ChildrenWalk(that: SNode, i: nat, e: Corners, stopped: bool, h: SelectHooks): SelectOutcome
    requires i <= |that.children|
    decreases that, 0, i
  {
    if i == 0 then SelectOutcome(false, stopped, [])
    else
      var pre := ChildrenWalk(that, i - 1, e, stopped, h);
      Then(pre, ChildStep(that.children[i - 1], e, pre.stopped, h))
  }

  /** As written, only the first child matters to the inner walk: dropping the others changes nothing. */
  lemma InnerWalkFirstChildOnly(that: SNode, e: Corners, stopped: bool, h: SelectHooks)
    requires |that.children| >= 1
    ensures InnerWalk(that, e, stopped, h, false) == InnerWalk(that.(children := that.children[..1]), e, stopped, h, false)
  {
    assert that.(children := that.children[..1]).children[0] == that.children[0];
  }

  /** As written, a first child that is not selectable ends the inner walk at once, whatever follows it. */
  lemma InnerWalkStopsAtPlainChild(that: SNode, e: Corners, stopped: bool, h: SelectHooks)
    requires |that.children| >= 1 && !that.children[0].selectable
    ensures InnerWalk(that, e, stopped, h, false) == SelectOutcome(false, stopped, [])
  {
  }

  /** The intended loop depends only on the children it has passed. */
  lemma {:induction false} ChildrenWalkPrefix(that: SNode, other: SNode, i: nat, e: Corners, stopped: bool, h: SelectHooks)
    requires i <= |that.children| && i <= |other.children| && that.children[..i] == other.children[..i]
    ensures ChildrenWalk(that, i, e, stopped, h) == ChildrenWalk(other, i, e, stopped, h)
  {
    if i > 0 {
      assert that.children[..i - 1] == other.children[..i - 1] by {
        assert that.children[..i - 1] == that.children[..i][..i - 1];
        assert other.children[..i - 1] == other.children[..i][..i - 1];
      }
      ChildrenWalkPrefix(that, other, i - 1, e, stopped, h);
      assert that.children[i - 1] == that.children[..i][i - 1] == other.children[i - 1];
    }
  }

  /** After k passes, the intended loop goes on exactly as a loop over the remaining children would. */
  lemma {:induction false} ChildrenWalkShift(that: SNode, k: nat, i: nat, e: Corners, stopped: bool, h: SelectHooks)
    requires k + i <= |that.children|
    ensures var wk := ChildrenWalk(that, k, e, stopped, h);
      ChildrenWalk(that, k + i, e, stopped, h)
        == Then(wk, ChildrenWalk(that.(children := that.children[k..]), i, e, wk.stopped, h))
  {
    var wk := ChildrenWalk(that, k, e, stopped, h);
    var rest := that.(children := that.children[k..]);
    if i == 0 {
      assert wk.selected + [] == wk.selected;
    } else {
      ChildrenWalkShift(that, k, i - 1, e, stopped, h);
      var wr := ChildrenWalk(rest, i - 1, e, wk.stopped, h);
      assert rest.children[i - 1] == that.children[k + i - 1];
      var step := ChildStep(that.children[k + i - 1], e, wr.stopped, h);
      assert wk.selected + wr.selected + step.selected == wk.selected + (wr.selected + step.selected);
    }
  }

  /**
   * The intended inner walk over the children a + b is the walk over a followed by the walk over b:
   * every child is looked at, in list order, and none is hidden by the ones before it.
   */
  lemma ChildrenWalkAppend(that: SNode, a: seq<SNode>, b: seq<SNode>, e: Corners, stopped: bool, h: SelectHooks)
    requires that.children == a + b
    ensures var wa := InnerWalk(that.(children := a), e, stopped, h, true);
      InnerWalk(that, e, stopped, h, true) == Then(wa, InnerWalk(that.(children := b), e, wa.stopped, h, true))
  {
    var na := that.(children := a);
    ChildrenWalkShift(that, |a|, |b|, e, stopped, h);
    assert that.children[..|a|] == na.children[..|a|];
    ChildrenWalkPrefix(that, na, |a|, e, stopped, h);
    assert that.children[|a|..] == b;
  }

  /**
   * The input that shows the difference: a plain first child and a hit selectable second child under
   * the mouse. As written the second child's onSelect never runs; as intended it does.
   */
  lemma SecondChildHidden(e: Corners)
    ensures var h := SelectHooks((id: nat, x: real, y: real) => Vector2(x, y), (id: nat, r: Rectangle) => true, (id: nat) => false);
      var that := SNode(0, true, false, [SNode(1, false, false, []), SNode(2, true, true, [])]);
      InnerWalk(that, e, false, h, false).selected == []
      && InnerWalk(that, e, false, h, true).selected == [2]
  {
    var h := SelectHooks((id: nat, x: real, y: real) => Vector2(x, y), (id: nat, r: Rectangle) => true, (id: nat) => false);
    var c2 := SNode(2, true, true, []);
    var that := SNode(0, true, false, [SNode(1, false, false, []), c2]);
    assert InnerWalk(c2, e, false, h, true) == SelectOutcome(false, false, []);
    assert SelectablePropagate(c2, e, false, h, true) == SelectOutcome(false, false, [2]);
    assert ChildStep(c2, e, false, h) == SelectOutcome(false, false, [2]);
    assert ChildrenWalk(that, 1, e, false, h) == SelectOutcome(false, false, []);
  }

  /** Selection.propagateEvent: each frontier node in turn runs its own propagateEvent; results are ignored. */
  function OuterWalk(cs: seq<SNode>, e: Corners, stopped: bool, h: SelectHooks, everyChild: bool): SelectOutcome
    decreases cs
  {
    if cs == [] then SelectOutcome(false, stopped, [])
    else
      var c := cs[0];
      var o := if c.selectable then SelectablePropagate(c, e, stopped, h, everyChild) else OuterWalk(c.children, e, stopped, h, everyChild);
      var rest := OuterWalk(cs[1..], e, o.stopped, h, everyChild);
      SelectOutcome(false, rest.stopped, o.selected + rest.selected)
  }

  /** The outer walk is exactly "each frontier node's propagateEvent, in order". */
  lemma {:induction false} OuterWalkIsFrontier(cs: seq<SNode>, e: Corners, stopped: bool, h: SelectHooks, everyChild: bool)
    ensures OuterWalk(cs, e, stopped, h, everyChild) == FrontierWalk(Frontier(cs), e, stopped, h, everyChild)
    decreases cs
  {
    if cs != [] {
      var c := cs[0];
      if c.selectable {
        var o := SelectablePropagate(c, e, stopped, h, everyChild);
        OuterWalkIsFrontier(cs[1..], e, o.stopped, h, everyChild);
        FrontierWalkAppend([c], Frontier(cs[1..]), e, stopped, h, everyChild);
      } else {
        OuterWalkIsFrontier(c.children, e, stopped, h, everyChild);
        var o := OuterWalk(c.children, e, stopped, h, everyChild);
        OuterWalkIsFrontier(cs[1..], e, o.stopped, h, everyChild);
        FrontierWalkAppend(Frontier(c.children), Frontier(cs[1..]), e, stopped, h, everyChild);
      }
    }
  }

  /** Running `step` on each node of a list in turn, threading the stop flag and collecting the selected ids. */
  function WalkWith(fs: seq<SNode>, stopped: bool, step: (SNode, bool) -> SelectOutcome): SelectOutcome
    decreases |fs|
  {
    if fs == [] then SelectOutcome(false, stopped, [])
    else
      var o := step(fs[0], stopped);
      var rest := WalkWith(fs[1..], o.stopped, step);
      SelectOutcome(false, rest.stopped, o.selected + rest.selected)
  }

  lemma {:induction false} WalkWithAppend(a: seq<SNode>, b: seq<SNode>, stopped: bool, step: (SNode, bool) -> SelectOutcome)
    ensures var wa := WalkWith(a, stopped, step);
      var wb := WalkWith(b, wa.stopped, step);
      WalkWith(a + b, stopped, step) == SelectOutcome(false, wb.stopped, wa.selected + wb.selected)
    decreases |a|
  {
    if a == [] {
      assert a + b == b;
    } else {
      var o := step(a[0], stopped);
      assert (a + b)[0] == a[0];
      assert (a + b)[1..] == a[1..] + b;
      WalkWithAppend(a[1..], b, o.stopped, step);
      var wt := WalkWith(a[1..], o.stopped, step);
      var wb := WalkWith(b, wt.stopped, step);
      assert o.selected + (wt.selected + wb.selected) == (o.selected + wt.selected) + wb.selected;
    }
  }

  /** One frontier node's propagateEvent, as a step of WalkWith. */
  function PropagateStep(e: Corners, h: SelectHooks, everyChild: bool): (SNode, bool) -> SelectOutcome
  {
    (n: SNode, stopped: bool) => SelectablePropagate(n, e, stopped, h, everyChild)
  }

  /** Running propagateEvent on each node of a list in turn, threading the stop flag. */
  function FrontierWalk(fs: seq<SNode>, e: Corners, stopped: bool, h: SelectHooks, everyChild: bool): SelectOutcome
  {
    WalkWith(fs, stopped, PropagateStep(e, h, everyChild))
  }

  lemma FrontierWalkAppend(a: seq<SNode>, b: seq<SNode>, e: Corners, stopped: bool, h: SelectHooks, everyChild: bool)
    ensures var wa := FrontierWalk(a, e, stopped, h, everyChild);
      var wb := FrontierWalk(b, e, wa.stopped, h, everyChild);
      FrontierWalk(a + b, e, stopped, h, everyChild) == SelectOutcome(false, wb.stopped, wa.selected + wb.selected)
  {
    WalkWithAppend(a, b, stopped, PropagateStep(e, h, everyChild));
  }

  /** The mutable corners and stop flag of one RenderingSelectionEvent. */
  class SelectionEventState {
    var startX: real
    var startY: real
    var endX: real
    var endY: real
    var stopped: bool

    constructor (c: Corners)
      ensures Corners(startX, startY, endX, endY) == c && !stopped
    {
      startX, startY, endX, endY := c.startX, c.startY, c.endX, c.endY;
      stopped := false;
    }

    function Get(): Corners
      reads this
    {
      Corners(startX, startY, endX, endY)
    }
  }

  /** RenderSelectableNode.propagateEvent on the event object: the corners are transformed for the walk and restored afterwards. */
  method PropagateSelectable(n: SNode, ev: SelectionEventState, h: SelectHooks) returns (result: bool, selected: seq<nat>)
    modifies ev
    ensures ev.Get() == old(ev.Get())
    ensures SelectOutcome(result, ev.stopped, selected) == SelectablePropagate(n, old(ev.Get()), old(ev.stopped), h, false)
    decreases n, 1
  {
    var old0 := ev.Get();
    var s := h.apply(n.id, ev.startX, ev.startY);
    var t := h.apply(n.id, ev.endX, ev.endY);
    ev.startX, ev.startY, ev.endX, ev.endY := s.x, s.y, t.x, t.y;
    var mousein := h.inside(n.id, Rectangle(s.x, s.y, t.x - s.x, t.y - s.y));
    var stopped, below := TryToPropagate(n, ev, h);
    result := false;
    selected := [];
    if mousein {
      if stopped {
        result := true;
      } else {
        if n.mouseIn {
          selected := [n.id];
          if h.stops(n.id) {
            ev.stopped := true;
          }
        }
        result := ev.stopped;
      }
    }
    selected := below + selected;
    ev.startX, ev.startY, ev.endX, ev.endY := old0.startX, old0.startY, old0.endX, old0.endY;
  }

  /** The inner tryToPropagate on the event object; its coordinates come back as they went in. */
  method TryToPropagate(that: SNode, ev: SelectionEventState, h: SelectHooks) returns (stopped: bool, selected: seq<nat>)
    modifies ev
    ensures ev.Get() == old(ev.Get())
    ensures SelectOutcome(stopped, ev.stopped, selected) == InnerWalk(that, old(ev.Get()), old(ev.stopped), h, false)
    decreases that, 0
  {
    stopped, selected := false, [];
    if that.children == [] {
      return;
    }
    var child := that.children[0];
    if child.selectable {
      var r, ran := PropagateSelectable(child, ev, h);
      selected := ran;
      if r {
        stopped := true;
      } else {
        var r', ran' := TryToPropagate(child, ev, h);
        selected := selected + ran';
        if r' {
          stopped := true;
        }
      }
    }
  }
}
