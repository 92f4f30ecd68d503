// UniqueBridgeIdProvider: a closure counter handing out bridge ids 1, 2, 3, ...
module Bridges {
  /** The ids handed out by the first n calls. */
  function IdsIssued(n: nat): (r: seq<int>)
    ensures |r| == n && forall i :: 0 <= i < n ==> r[i] == i + 1
  {
    if n == 0 then [] else IdsIssued(n - 1) + [n]
  }

  /** The ids issued are strictly increasing, hence pairwise distinct. */
  lemma IdsIncreasing(n: nat, i: nat, j: nat)
    requires i < j < n
    ensures IdsIssued(n)[i] < IdsIssued(n)[j]
  {
  }

  /**
   * The closure's state as an object: the next id, and (ghost) the ids
   * handed out so far. Nothing resets it.
   */
  class UniqueBridgeIdProvider {
    var id: int
    ghost var issued: seq<int>

    ghost predicate Valid()
      reads this
    {
      id >= 1 && issued == IdsIssued(id - 1)
    }

    constructor ()
      ensures Valid() && id == 1 && issued == []
    {
      id := 1;
      issued := [];
    }

    /** One call: returns the current id and moves on to the next; the first call returns 1. */
    method Next() returns (r: int)
      requires Valid()
      modifies this
      ensures Valid() && r == old(id) && id == r + 1 && issued == old(issued) + [r]
      ensures forall x :: x in old(issued) ==> x < r
    {
      r := id;
      id := id + 1;
      issued := issued + [r];
    }
  }
}
