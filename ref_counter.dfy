// RefCounter: an item with a use count that never drops below zero.
module RefCounting {
  /** decrement on a count: one less, but never below zero. */
  function Decremented(n: nat): (r: nat)
    ensures n > 0 ==> r + 1 == n
    ensures n == 0 ==> r == 0
  {
    if n > 0 then n - 1 else 0
  }

  /** The count after j decrements. */
  function DecrementedTimes(n: nat, j: nat): nat
  {
    if j == 0 then n else Decremented(DecrementedTimes(n, j - 1))
  }

  /** j saturating decrements take a count n to n - j, or to zero once j reaches n. */
  lemma {:induction false} DecrementedTimesIs(n: nat, j: nat)
    ensures DecrementedTimes(n, j) == if j <= n then n - j else 0
  {
    if j > 0 {
      DecrementedTimesIs(n, j - 1);
    }
  }

  /**
   * From a new counter, k increments then j decrements leave it in use
   * exactly when j < k: k - 1 decrements keep it in use, the k-th does not.
   */
  lemma InUseAfter(k: nat, j: nat)
    ensures DecrementedTimes(k, j) > 0 <==> j < k
  {
    DecrementedTimesIs(k, j);
  }

  class RefCounter<T> {
    const item: T
    var counter: nat

    /** A new counter holds its item with count 0, so it is not in use. */
    constructor (item: T)
      ensures this.item == item && counter == 0
    {
      this.item := item;
      counter := 0;
    }

    /** increment: one more use; returns the counter itself. */
    method Increment() returns (r: RefCounter<T>)
      modifies this
      ensures r == this && counter == old(counter) + 1
    {
      counter := counter + 1;
      r := this;
    }

    /** decrement: one use fewer, never below zero; returns the counter itself. */
    method Decrement() returns (r: RefCounter<T>)
      modifies this
      ensures r == this && counter == Decremented(old(counter))
    {
      if counter > 0 {
        counter := counter - 1;
      }
      r := this;
    }

    /** isUse: the count is positive. */
    method IsUse() returns (r: bool)
      ensures r <==> counter > 0
    {
      r := counter > 0;
    }
  }
}
