// RenderNode: a node of the shared rendering tree. Its child list is kept
// sorted by z-index; drawing and mouse events walk the tree. Coordinates are
// opaque: each node's transform and hit test are given as functions of the
// node's id.
module RenderNodes {
  import opened Wrappers
  import opened Vectors
  import Mice
  import opened StableSort

  // The error messages, as the source spells them.
  const NotFromRoot: string := "A DOM Event should only be propagated from the root of the tree."

  // ---------------------------------------------------------------------
  // The child list
  // ---------------------------------------------------------------------

  /** The sort key of a child. */
  function ZIndexOf(n: RenderNode): int
  {
    n.zIndex
  }

  /** indexOf: the position of the first identical element. */
  function IndexOf(s: seq<RenderNode>, c: RenderNode): (i: nat)
    requires c in s
    ensures i < |s| && s[i] == c && c !in s[..i]
  {
    if s[0] == c then 0 else 1 + IndexOf(s[1..], c)
  }

  /** Removing an element from a sorted list keeps it sorted. */
  lemma SpliceSorted(s: seq<RenderNode>, i: nat)
    requires SortedBy(s, ZIndexOf) && i < |s|
    ensures SortedBy(s[..i] + s[i + 1..], ZIndexOf)
  {
    var r := s[..i] + s[i + 1..];
    forall a, b | 0 <= a < b < |r|
      ensures ZIndexOf(r[a]) <= ZIndexOf(r[b])
    {
      var a', b' := if a < i then a else a + 1, if b < i then b else b + 1;
      assert r[a] == s[a'] && r[b] == s[b'];
    }
  }

  class RenderNode {
    var tree: seq<RenderNode>
    var visible: bool
    /** Set once when the node is built (0 in the base class; nothing in this repository changes it later). */
    const zIndex: int
    var parent: RenderNode?

    /** The children stay in z-order. */
    ghost predicate Valid()
      reads this
    {
      SortedBy(tree, ZIndexOf)
    }

    constructor (zIndex: int)
      ensures Valid() && this.zIndex == zIndex
      ensures tree == [] && visible && parent == null
    {
      this.zIndex := zIndex;
      tree := [];
      visible := true;
      parent := null;
    }

    method Show()
      modifies this`visible
      ensures visible
    {
      visible := true;
    }

    method Hide()
      modifies this`visible
      ensures !visible
    {
      visible := false;
    }

    /** add: the child is appended, becomes this node's child, and the list is stably sorted by z-index. */
    method Add(child: RenderNode)
      requires Valid()
      modifies this`tree, child`parent
      ensures Valid()
      ensures tree == SortBy(old(tree) + [child], ZIndexOf) && child.parent == this
      ensures multiset(tree) == multiset(old(tree)) + multiset{child}
    {
      var t := tree + [child];
      child.parent := this;
      SortBySorted(t, ZIndexOf);
      tree := SortBy(t, ZIndexOf);
    }

    /** remove: the first identical child leaves the list and loses its parent; an absent child changes nothing. */
    method Remove(child: RenderNode)
      requires Valid()
      modifies this`tree, child`parent
      ensures Valid()
      ensures child in old(tree) ==> child.parent == null
      ensures child in old(tree) ==>
        tree == old(tree)[..IndexOf(old(tree), child)] + old(tree)[IndexOf(old(tree), child) + 1..]
      ensures child !in old(tree) ==> tree == old(tree) && child.parent == old(child.parent)
    {
      if child in tree {
        var index := IndexOf(tree, child);
        SpliceSorted(tree, index);
        tree := tree[..index] + tree[index + 1..];
        child.parent := null;
      }
    }

    /** removeChildren: the list is emptied; the former children keep their parent reference. */
    method RemoveChildren()
      modifies this`tree
      ensures Valid() && tree == []
    {
      tree := [];
    }
  }

  // ---------------------------------------------------------------------
  // Walking the tree
  // ---------------------------------------------------------------------

  /** A snapshot of a subtree as the walks see it. */
  datatype Node = Node(id: nat, visible: bool, mouseIn: bool, children: seq<Node>)

  /** The opaque geometry and the custom handlers, per node id. */
  datatype Hooks = Hooks(
    apply: (nat, real, real) -> Vector2,   // the node's transform applied to a point
    inside: (nat, real, real) -> bool,     // isPointInside, in the node's space
    stops: nat -> bool)                    // whether the node's handler stops propagation

  /** All node ids, parent before children, children in list order. */
  function Preorder(n: Node): seq<nat>
  {
    [n.id] + PreorderFrom(n, |n.children|)
  }

  function PreorderFrom(n: Node, i: nat): seq<nat>
    requires i <= |n.children|
    decreases n, 0, i
  {
    if i == 0 then [] else PreorderFrom(n, i - 1) + Preorder(n.children[i - 1])
  }

  predicate AllVisible(n: Node)
  {
    n.visible && forall i :: 0 <= i < |n.children| ==> AllVisible(n.children[i])
  }

  /** What render draws, in order: nothing for an invisible node, else the node, then each child's drawing. */
  function DrawOrder(n: Node): seq<nat>
  {
    if !n.visible then [] else [n.id] + DrawOrderFrom(n, |n.children|)
  }

  function DrawOrderFrom(n: Node, i: nat): seq<nat>
    requires i <= |n.children|
    decreases n, 0, i
  {
    if i == 0 then [] else DrawOrderFrom(n, i - 1) + DrawOrder(n.children[i - 1])
  }

  /** With every node visible, render draws the whole tree in preorder. */
  lemma {:induction false} AllVisibleDrawsPreorder(n: Node)
    requires AllVisible(n)
    ensures DrawOrder(n) == Preorder(n)
    decreases n, 1
  {
    AllVisibleDrawsPreorderFrom(n, |n.children|);
  }

  lemma {:induction false} AllVisibleDrawsPreorderFrom(n: Node, i: nat)
    requires i <= |n.children|
    requires forall j :: 0 <= j < |n.children| ==> AllVisible(n.children[j])
    ensures DrawOrderFrom(n, i) == PreorderFrom(n, i)
    decreases n, 0, i
  {
    if i > 0 {
      AllVisibleDrawsPreorderFrom(n, i - 1);
      AllVisibleDrawsPreorder(n.children[i - 1]);
    }
  }

  /** The drawing of a visible node starts with the node itself, before any descendant. */
  lemma DrawsSelfFirst(n: Node)
    requires n.visible
    ensures DrawOrder(n) != [] && DrawOrder(n)[0] == n.id
  {
  }

  /** render: an invisible node does nothing; otherwise it draws itself, then renders its children in list order. */
  method Render(n: Node) returns (drawn: seq<nat>)
    ensures drawn == DrawOrder(n)
    decreases n
  {
    if !n.visible {
      return [];
    }
    drawn := [n.id];
    var i := 0;
    while i < |n.children|
      invariant 0 <= i <= |n.children|
      invariant drawn == [n.id] + DrawOrderFrom(n, i)
    {
      var d := Render(n.children[i]);
      drawn := drawn + d;
      i := i + 1;
    }
  }

  // ---------------------------------------------------------------------
  // Mouse events
  // ---------------------------------------------------------------------

  /** The mutable coordinates and the stop flag of one rendering mouse event. */
  class MouseEventState {
    var x: real
    var y: real
    var localX: real
    var localY: real
    var stopped: bool

    constructor (x: real, y: real, localX: real, localY: real)
      ensures this.x == x && this.y == y && this.localX == localX && this.localY == localY && !stopped
    {
      this.x, this.y, this.localX, this.localY := x, y, localX, localY;
      stopped := false;
    }
  }

  /** The result of handleMouseEvent on a subtree: its return value, the stop flag after it, the handlers it ran, and the nodes that recorded the event as their last one. */
  datatype Outcome = Outcome(handled: bool, stopped: bool, ran: seq<nat>, visited: seq<nat>)

  /** handleMouseEvent at event coordinates (x, y) with the stop flag `stopped` on entry. */
  function Propagate(n: Node, x: real, y: real, stopped: bool, h: Hooks): Outcome
    decreases n, 1
  {
    if !n.visible then Outcome(false, stopped, [], [])
    else
      var p := h.apply(n.id, x, y);
      var hit := h.inside(n.id, p.x, p.y);
      var c := PropagateFrom(n, |n.children|, p.x, p.y, stopped, h);
      var visited := [n.id] + c.visited;
      if hit && c.handled then Outcome(true, c.stopped, c.ran, visited)
      else if hit && n.mouseIn then
        var st := c.stopped || h.stops(n.id);
        Outcome(st, st, c.ran + [n.id], visited)
      else if hit then Outcome(c.stopped, c.stopped, c.ran, visited)
      else Outcome(false, c.stopped, c.ran, visited)
  }

  /** The first i children, each handling the event in turn; `handled` says whether any returned true. */
  function PropagateFrom(n: Node, i: nat, x: real, y: real, stopped: bool, h: Hooks): Outcome
    requires i <= |n.children|
    decreases n, 0, i
  {
    if i == 0 then Outcome(false, stopped, [], [])
    else
      var pre := PropagateFrom(n, i - 1, x, y, stopped, h);
      var o := Propagate(n.children[i - 1], x, y, pre.stopped, h);
      Outcome(pre.handled || o.handled, o.stopped, pre.ran + o.ran, pre.visited + o.visited)
  }

  /** An invisible node ignores the event entirely. */
  lemma InvisibleIgnores(n: Node, x: real, y: real, stopped: bool, h: Hooks)
    requires !n.visible
    ensures Propagate(n, x, y, stopped, h) == Outcome(false, stopped, [], [])
  {
  }

  /**
   * A visible node returns true exactly when it is hit and either a child returned true or the
   * event's propagation is stopped; its own handler runs exactly when it is hit, the mouse is in it,
   * and no child returned true.
   */
  lemma VisibleDecision(n: Node, x: real, y: real, stopped: bool, h: Hooks)
    requires n.visible
    ensures var p := h.apply(n.id, x, y);
      var hit := h.inside(n.id, p.x, p.y);
      var c := PropagateFrom(n, |n.children|, p.x, p.y, stopped, h);
      var o := Propagate(n, x, y, stopped, h);
      && (o.handled <==> hit && (c.handled || o.stopped))
      && (o.ran == c.ran + [n.id] <==> hit && n.mouseIn && !c.handled)
      && (o.ran == c.ran <==> !(hit && n.mouseIn && !c.handled))
  {
  }

  /** Once propagation is stopped it stays stopped. */
  lemma {:induction false} StopIsSticky(n: Node, x: real, y: real, h: Hooks)
    ensures Propagate(n, x, y, true, h).stopped
    decreases n, 1
  {
    if n.visible {
      var p := h.apply(n.id, x, y);
      StopIsStickyFrom(n, |n.children|, p.x, p.y, h);
    }
  }

  lemma {:induction false} StopIsStickyFrom(n: Node, i: nat, x: real, y: real, h: Hooks)
    requires i <= |n.children|
    ensures PropagateFrom(n, i, x, y, true, h).stopped
    decreases n, 0, i
  {
    if i > 0 {
      StopIsStickyFrom(n, i - 1, x, y, h);
      StopIsStickyAt(n.children[i - 1], x, y, h);
    }
  }

  lemma StopIsStickyAt(n: Node, x: real, y: real, h: Hooks)
    ensures Propagate(n, x, y, true, h).stopped
    decreases n, 2
  {
    StopIsSticky(n, x, y, h);
  }

  /** The mouse is in no node of the subtree. */
  predicate NoMouseIn(n: Node)
  {
    !n.mouseIn && forall i :: 0 <= i < |n.children| ==> NoMouseIn(n.children[i])
  }

  /** With the mouse in no node and propagation not stopped, no handler runs and the event is not handled. */
  lemma {:induction false} NoMouseInNothingRuns(n: Node, x: real, y: real, h: Hooks)
    requires NoMouseIn(n)
    ensures var o := Propagate(n, x, y, false, h); !o.handled && !o.stopped && o.ran == []
    decreases n, 1
  {
    if n.visible {
      var p := h.apply(n.id, x, y);
      NoMouseInNothingRunsFrom(n, |n.children|, p.x, p.y, h);
    }
  }

  lemma {:induction false} NoMouseInNothingRunsFrom(n: Node, i: nat, x: real, y: real, h: Hooks)
    requires i <= |n.children|
    requires forall j :: 0 <= j < |n.children| ==> NoMouseIn(n.children[j])
    ensures var o := PropagateFrom(n, i, x, y, false, h); !o.handled && !o.stopped && o.ran == []
    decreases n, 0, i
  {
    if i > 0 {
      NoMouseInNothingRunsFrom(n, i - 1, x, y, h);
      NoMouseInNothingRuns(n.children[i - 1], x, y, h);
    }
  }

  /**
   * handleMouseEvent: the node's transform is applied to the event for the walk below it, every
   * child is visited, and the event's x, y, localX and localY are restored on the way out.
   */
  method HandleMouseEvent(n: Node, ev: MouseEventState, h: Hooks) returns (handled: bool, ran: seq<nat>, visited: seq<nat>)
    modifies ev
    ensures ev.x == old(ev.x) && ev.y == old(ev.y) && ev.localX == old(ev.localX) && ev.localY == old(ev.localY)
    ensures Outcome(handled, ev.stopped, ran, visited) == Propagate(n, old(ev.x), old(ev.y), old(ev.stopped), h)
    decreases n
  {
    if !n.visible {
      return false, [], [];
    }
    var oldX, oldY, oldLocalX, oldLocalY := ev.x, ev.y, ev.localX, ev.localY;
    var p := h.apply(n.id, ev.x, ev.y);
    ev.x, ev.y, ev.localX, ev.localY := p.x, p.y, oldX, oldY;
    var mousein := h.inside(n.id, p.x, p.y);
    ghost var stopped0 := old(ev.stopped);

    var stopped := false;
    ran, visited := [], [n.id];
    var i := 0;
    while i < |n.children|
      invariant 0 <= i <= |n.children|
      invariant ev.x == p.x && ev.y == p.y && ev.localX == oldX && ev.localY == oldY
      invariant stopped == PropagateFrom(n, i, p.x, p.y, stopped0, h).handled
      invariant ev.stopped == PropagateFrom(n, i, p.x, p.y, stopped0, h).stopped
      invariant ran == PropagateFrom(n, i, p.x, p.y, stopped0, h).ran
      invariant visited == [n.id] + PropagateFrom(n, i, p.x, p.y, stopped0, h).visited
    {
      ghost var before := PropagateFrom(n, i, p.x, p.y, stopped0, h);
      var childHandled, childRan, childVisited := HandleMouseEvent(n.children[i], ev, h);
      if childHandled {
        stopped := true;
      }
      assert visited + childVisited == [n.id] + (before.visited + childVisited);
      ran, visited := ran + childRan, visited + childVisited;
      i := i + 1;
    }
    handled := false;
    if mousein {
      if stopped {
        handled := true;
      } else {
        if n.mouseIn {
          ran := ran + [n.id];
          if h.stops(n.id) {
            ev.stopped := true;
          }
        }
        handled := ev.stopped;
      }
    }
    ev.x, ev.y, ev.localX, ev.localY := oldX, oldY, oldLocalX, oldLocalY;
  }

  /** handleMouseEnter's effect on the tree: each node's mouseIn becomes set where it is hit (visibility is not consulted). */
  function EnterTree(n: Node, x: real, y: real, h: Hooks): (r: Node)
    ensures r.id == n.id && r.visible == n.visible && |r.children| == |n.children|
    ensures n.mouseIn ==> r.mouseIn
  {
    var p := h.apply(n.id, x, y);
    var hit := h.inside(n.id, p.x, p.y);
    Node(n.id, n.visible, n.mouseIn || hit,
      seq(|n.children|, i requires 0 <= i < |n.children| => EnterTree(n.children[i], p.x, p.y, h)))
  }

  /** handleMouseLeave's effect on the tree: each node's mouseIn is cleared where it is not hit. */
  function LeaveTree(n: Node, x: real, y: real, h: Hooks): (r: Node)
    ensures r.id == n.id && r.visible == n.visible && |r.children| == |n.children|
    ensures !n.mouseIn ==> !r.mouseIn
  {
    var p := h.apply(n.id, x, y);
    var hit := h.inside(n.id, p.x, p.y);
    Node(n.id, n.visible, n.mouseIn && hit,
      seq(|n.children|, i requires 0 <= i < |n.children| => LeaveTree(n.children[i], p.x, p.y, h)))
  }

  /** The tree with every node's mouseIn equal to its own hit test at the event point. */
  function HitTree(n: Node, x: real, y: real, h: Hooks): (r: Node)
  {
    var p := h.apply(n.id, x, y);
    Node(n.id, n.visible, h.inside(n.id, p.x, p.y),
      seq(|n.children|, i requires 0 <= i < |n.children| => HitTree(n.children[i], p.x, p.y, h)))
  }

  /** The custom onMouseEnter handlers handleMouseEnter runs: children first, then the node if the mouse just entered it. */
  function EnterLog(n: Node, x: real, y: real, h: Hooks): seq<nat>
    decreases n, 1
  {
    var p := h.apply(n.id, x, y);
    var hit := h.inside(n.id, p.x, p.y);
    EnterLogFrom(n, |n.children|, p.x, p.y, h) + (if hit && !n.mouseIn then [n.id] else [])
  }

  function EnterLogFrom(n: Node, i: nat, x: real, y: real, h: Hooks): seq<nat>
    requires i <= |n.children|
    decreases n, 0, i
  {
    if i == 0 then [] else EnterLogFrom(n, i - 1, x, y, h) + EnterLog(n.children[i - 1], x, y, h)
  }

  /** The custom onMouseLeave handlers handleMouseLeave runs: children first, then the node if the mouse just left it. */
  function LeaveLog(n: Node, x: real, y: real, h: Hooks): seq<nat>
    decreases n, 1
  {
    var p := h.apply(n.id, x, y);
    var hit := h.inside(n.id, p.x, p.y);
    LeaveLogFrom(n, |n.children|, p.x, p.y, h) + (if !hit && n.mouseIn then [n.id] else [])
  }

  function LeaveLogFrom(n: Node, i: nat, x: real, y: real, h: Hooks): seq<nat>
    requires i <= |n.children|
    decreases n, 0, i
  {
    if i == 0 then [] else LeaveLogFrom(n, i - 1, x, y, h) + LeaveLog(n.children[i - 1], x, y, h)
  }

  /** The enter-then-leave pair render runs at the root leaves every node's mouseIn equal to its hit test. */
  lemma {:induction false} EnterThenLeaveIsHit(n: Node, x: real, y: real, h: Hooks)
    ensures LeaveTree(EnterTree(n, x, y, h), x, y, h) == HitTree(n, x, y, h)
  {
    var p := h.apply(n.id, x, y);
    var e := EnterTree(n, x, y, h);
    var l := LeaveTree(e, x, y, h);
    var t := HitTree(n, x, y, h);
    forall i | 0 <= i < |n.children|
      ensures l.children[i] == t.children[i]
    {
      EnterThenLeaveIsHit(n.children[i], p.x, p.y, h);
    }
  }

  /** A node the mouse is already in runs no enter handler; one it is not in runs no leave handler. */
  lemma OwnEnterLeave(n: Node, x: real, y: real, h: Hooks)
    ensures n.mouseIn ==> EnterLog(n, x, y, h) == EnterLogFrom(n, |n.children|, h.apply(n.id, x, y).x, h.apply(n.id, x, y).y, h)
    ensures !n.mouseIn ==> LeaveLog(n, x, y, h) == LeaveLogFrom(n, |n.children|, h.apply(n.id, x, y).x, h.apply(n.id, x, y).y, h)
  {
  }

  // ---------------------------------------------------------------------
  // DOM events at the root
  // ---------------------------------------------------------------------

  /** A DOM event as handleEvent inspects it; an empty type is a missing one. */
  datatype DomEvent = DomEvent(isObject: bool, eventType: string, clientX: real, clientY: real, button: int, deltaX: real, deltaY: real)

  datatype MouseKind = MouseDown(button: Mice.MouseButton) | MouseUp(button: Mice.MouseButton) | MouseMove | MouseWheel(deltaX: real, deltaY: real)

  /** The rendering event handleEvent builds: client coordinates relative to the canvas, and their world point. */
  datatype RenderingMouseEvent = RenderingMouseEvent(kind: MouseKind, clientX: real, clientY: real, world: Vector2)

  /**
   * handleEvent: a non-root node throws; null, non-objects and typeless events are ignored; the four
   * mouse types become rendering events; any other type does nothing.
   */
  function HandleEvent(hasParent: bool, event: Option<DomEvent>, left: real, top: real, toWorld: (real, real) -> Vector2): (r: Result<Option<RenderingMouseEvent>>)
    ensures hasParent <==> r.Err?
    ensures !hasParent && (event.None? || !event.value.isObject || event.value.eventType == "") ==> r == Ok(None)
    ensures r.Ok? && r.value.Some? ==> event.Some? && event.value.eventType in {"mousedown", "mouseup", "mousemove", "wheel"}
    ensures r.Ok? && r.value.Some? ==>
      (r.value.value.clientX == event.value.clientX - left && r.value.value.clientY == event.value.clientY - top
       && r.value.value.world == toWorld(event.value.clientX - left, event.value.clientY - top))
    ensures !hasParent && event.Some? && event.value.isObject && event.value.eventType == "mousedown" ==>
      r.Ok? && r.value.Some? && r.value.value.kind == MouseDown(Mice.ConvertDOMMouseButton(event.value.button))
    ensures !hasParent && event.Some? && event.value.isObject && event.value.eventType == "mouseup" ==>
      r.Ok? && r.value.Some? && r.value.value.kind == MouseUp(Mice.ConvertDOMMouseButton(event.value.button))
    ensures !hasParent && event.Some? && event.value.isObject && event.value.eventType == "mousemove" ==>
      r.Ok? && r.value.Some? && r.value.value.kind == MouseMove
    ensures !hasParent && event.Some? && event.value.isObject && event.value.eventType == "wheel" ==>
      r.Ok? && r.value.Some? && r.value.value.kind == MouseWheel(event.value.deltaX, event.value.deltaY)
  {
    if hasParent then Err(NotFromRoot)
    else if event.None? || !event.value.isObject || event.value.eventType == "" then Ok(None)
    else
      var e := event.value;
      var ptX, ptY := e.clientX - left, e.clientY - top;
      var pos := toWorld(ptX, ptY);
      match e.eventType
      case "mousedown" => Ok(Some(RenderingMouseEvent(MouseDown(Mice.ConvertDOMMouseButton(e.button)), ptX, ptY, pos)))
      case "mouseup" => Ok(Some(RenderingMouseEvent(MouseUp(Mice.ConvertDOMMouseButton(e.button)), ptX, ptY, pos)))
      case "mousemove" => Ok(Some(RenderingMouseEvent(MouseMove, ptX, ptY, pos)))
      case "wheel" => Ok(Some(RenderingMouseEvent(MouseWheel(e.deltaX, e.deltaY), ptX, ptY, pos)))
      case _ => Ok(None)
  }
}
