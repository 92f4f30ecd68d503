// RecentItems: a bounded first-in first-out list of the latest inserts.
module Recent {
  import opened Wrappers

  /** How many items the list keeps: maxSize, but at least one, since insert always pushes. */
  function Capacity(maxSize: int): (r: nat)
    ensures r >= 1 && r >= maxSize
  {
    if maxSize >= 1 then maxSize else 1
  }

  /** The latest min(|history|, cap) items of a history, oldest first. */
  function Latest<T>(history: seq<T>, cap: nat): (r: seq<T>)
    ensures |r| <= cap && |r| <= |history|
    ensures |history| <= cap ==> r == history
  {
    if |history| <= cap then history else history[|history| - cap..]
  }

  /** Keeping the latest items, then one more, is keeping the latest of the longer history. */
  lemma LatestStep<T>(history: seq<T>, cap: nat, x: T)
    requires cap >= 1
    ensures var kept := Latest(history, cap);
      Latest(history + [x], cap) == (if |kept| >= cap then kept[1..] else kept) + [x]
  {
    var h := history + [x];
    if |h| > cap {
      assert h[|h| - cap..] == Latest(history, cap)[(if |history| >= cap then 1 else 0)..] + [x];
    }
  }

  class RecentItems<T> {
    var items: seq<T>
    var maxSize: int
    /** Everything inserted since the list was made or last cleared. */
    ghost var history: seq<T>

    ghost predicate Valid()
      reads this
    {
      items == Latest(history, Capacity(maxSize))
    }

    /** A new list is empty; maxSize defaults to 10. */
    constructor (maxSize: int)
      ensures Valid() && items == [] && history == [] && this.maxSize == maxSize
    {
      items := [];
      this.maxSize := maxSize;
      history := [];
    }

    /** length: the number of items held. */
    method Length() returns (n: nat)
      ensures n == |items|
    {
      n := |items|;
    }

    /** insert: drops the oldest item first when the list is full, then appends the new one. */
    method Insert(item: T)
      requires Valid()
      modifies this
      ensures Valid() && history == old(history) + [item] && maxSize == old(maxSize)
      ensures items == (if |old(items)| >= maxSize && |old(items)| > 0 then old(items)[1..] else old(items)) + [item]
      ensures |items| <= Capacity(maxSize) && items[|items| - 1] == item
    {
      LatestStep(history, Capacity(maxSize), item);
      if |items| >= maxSize && |items| > 0 {
        items := items[1..];
      }
      items := items + [item];
      history := history + [item];
    }

    /** clear: empties the list and keeps maxSize. */
    method Clear()
      modifies this
      ensures Valid() && items == [] && history == [] && maxSize == old(maxSize)
    {
      items := [];
      history := [];
    }

    /** first: the oldest item, or none when empty. */
    method First() returns (r: Option<T>)
      ensures |items| == 0 ==> r == None
      ensures |items| > 0 ==> r == Some(items[0])
    {
      if |items| == 0 {
        return None;
      }
      return Some(items[0]);
    }

    /** last: the newest item, or none when empty. */
    method Last() returns (r: Option<T>)
      ensures |items| == 0 ==> r == None
      ensures |items| > 0 ==> r == Some(items[|items| - 1])
    {
      if |items| == 0 {
        return None;
      }
      return Some(items[|items| - 1]);
    }

    /** list: the items in insertion order, the latest inserts since the last clear. */
    method List() returns (r: seq<T>)
      requires Valid()
      ensures r == items && r == Latest(history, Capacity(maxSize))
    {
      r := items;
    }
  }
}
