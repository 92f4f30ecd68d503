// Dispatcher: per-event-type callback lists, with callbacks as opaque ids.
module Dispatching {
  /** The callbacks registered for e, or none if e has no list. */
  function Registered<E, C>(events: map<E, seq<C>>, e: E): seq<C>
  {
    if e in events then events[e] else []
  }

  /** The filter of off: every occurrence of c dropped, the rest kept in order. */
  function Removed<C(==)>(s: seq<C>, c: C): (r: seq<C>)
    ensures |r| <= |s|
  {
    if s == [] then []
    else if s[|s| - 1] == c then Removed(s[..|s| - 1], c)
    else Removed(s[..|s| - 1], c) + [s[|s| - 1]]
  }

  /** Removing c leaves no c, keeps every other callback, and adds nothing. */
  lemma {:induction false} RemovedMembers<C>(s: seq<C>, c: C)
    ensures c !in Removed(s, c)
    ensures forall x :: x in Removed(s, c) <==> x in s && x != c
    ensures |Removed(s, c)| + multiset(s)[c] == |s|
  {
    if s != [] {
      var front := s[..|s| - 1];
      assert s == front + [s[|s| - 1]];
      RemovedMembers(front, c);
    }
  }

  /** Removal works piecewise, so the callbacks kept stay in their order. */
  lemma {:induction false} RemovedAppend<C>(a: seq<C>, b: seq<C>, c: C)
    ensures Removed(a + b, c) == Removed(a, c) + Removed(b, c)
  {
    if b == [] {
      assert a + b == a;
    } else {
      var front := b[..|b| - 1];
      assert (a + b)[..|a + b| - 1] == a + front && (a + b)[|a + b| - 1] == b[|b| - 1];
      RemovedAppend(a, front, c);
    }
  }

  /** A list without c is left as it is. */
  lemma {:induction false} RemovedAbsent<C>(s: seq<C>, c: C)
    requires c !in s
    ensures Removed(s, c) == s
  {
    if s != [] {
      assert s == s[..|s| - 1] + [s[|s| - 1]];
      RemovedAbsent(s[..|s| - 1], c);
    }
  }

  /** off after on(c) is off alone: the registration just made is undone with the others. */
  lemma OffUndoesOn<C>(s: seq<C>, c: C)
    ensures Removed(s + [c], c) == Removed(s, c)
  {
    assert (s + [c])[..|s|] == s;
  }

  class Dispatcher<E(==), C(==)> {
    var events: map<E, seq<C>>

    constructor ()
      ensures events == map[]
    {
      events := map[];
    }

    /**
     * on: appends c to e's list, making the list if e has none; a second
     * registration of the same callback is stored twice. Other lists stay.
     */
    method On(e: E, c: C)
      modifies this
      ensures events == old(events)[e := Registered(old(events), e) + [c]]
      ensures forall t :: Registered(events, t) == if t == e then Registered(old(events), t) + [c] else Registered(old(events), t)
    {
      if e !in events {
        events := events[e := []];
      }
      events := events[e := events[e] + [c]];
    }

    /** off: drops every occurrence of c from e's list; no list, no change. Other lists stay. */
    method Off(e: E, c: C)
      modifies this
      ensures e !in old(events) ==> events == old(events)
      ensures e in old(events) ==> events == old(events)[e := Removed(old(events)[e], c)]
      ensures forall t :: Registered(events, t) == if t == e then Removed(Registered(old(events), t), c) else Registered(old(events), t)
    {
      if e !in events {
        return;
      }
      var callbacks := events[e];
      var kept := [];
      var i := 0;
      while i < |callbacks|
        invariant 0 <= i <= |callbacks| && kept == Removed(callbacks[..i], c)
      {
        assert callbacks[..i + 1][..i] == callbacks[..i];
        if callbacks[i] != c {
          kept := kept + [callbacks[i]];
        }
        i := i + 1;
      }
      assert callbacks[..i] == callbacks;
      events := events[e := kept];
    }

    /** emit: the callbacks called, in registration order, once per occurrence; none for an unknown type. */
    method Emit(e: E) returns (called: seq<C>)
      ensures called == Registered(events, e)
    {
      called := [];
      if e !in events {
        return;
      }
      var callbacks := events[e];
      for i := 0 to |callbacks|
        invariant called == callbacks[..i]
      {
        called := called + [callbacks[i]];
      }
    }
  }
}
