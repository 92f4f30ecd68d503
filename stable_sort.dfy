// The stable sort `Array.prototype.sort` performs with a comparator of the
// form `key(a) - key(b)`, written as an insertion sort, with the facts the
// rendering tree and the userscript header rely on.
module StableSort {
  /** Non-decreasing by key. */
  predicate SortedBy<T>(s: seq<T>, key: T -> int)
  {
    forall i, j :: 0 <= i < j < |s| ==> key(s[i]) <= key(s[j])
  }

  /** One step of the sort: `c` goes before the first element of larger key. */
  function InsertBy<T>(s: seq<T>, c: T, key: T -> int): (r: seq<T>)
    ensures |r| == |s| + 1
  {
    if s == [] then [c]
    else if key(c) < key(s[0]) then [c] + s
    else [s[0]] + InsertBy(s[1..], c, key)
  }

  /** The sort: each element in turn inserted into the sorted front. */
  function SortBy<T>(s: seq<T>, key: T -> int): (r: seq<T>)
    ensures |r| == |s|
  {
    if s == [] then [] else InsertBy(SortBy(s[..|s| - 1], key), s[|s| - 1], key)
  }

  /** The elements of key `k`, in their order. */
  function Ties<T>(s: seq<T>, key: T -> int, k: int): seq<T>
  {
    if s == [] then [] else (if key(s[0]) == k then [s[0]] else []) + Ties(s[1..], key, k)
  }

  lemma {:induction false} TiesAppend<T>(a: seq<T>, b: seq<T>, key: T -> int, k: int)
    ensures Ties(a + b, key, k) == Ties(a, key, k) + Ties(b, key, k)
  {
    if a == [] {
      assert a + b == b;
    } else {
      var head := if key(a[0]) == k then [a[0]] else [];
      assert (a + b)[0] == a[0];
      assert (a + b)[1..] == a[1..] + b;
      assert Ties(a + b, key, k) == head + Ties(a[1..] + b, key, k);
      TiesAppend(a[1..], b, key, k);
      assert Ties(a, key, k) == head + Ties(a[1..], key, k);
      assert head + (Ties(a[1..], key, k) + Ties(b, key, k)) == (head + Ties(a[1..], key, k)) + Ties(b, key, k);
    }
  }

  /** Inserting into a sorted list: the new element lands after every element of lower or equal key and before the rest. */
  lemma {:induction false} InsertByPlace<T>(s: seq<T>, c: T, key: T -> int) returns (p: nat)
    requires SortedBy(s, key)
    ensures p <= |s| && InsertBy(s, c, key) == s[..p] + [c] + s[p..]
    ensures forall i :: 0 <= i < p ==> key(s[i]) <= key(c)
    ensures forall i :: p <= i < |s| ==> key(c) < key(s[i])
  {
    if s == [] || key(c) < key(s[0]) {
      p := 0;
    } else {
      var t := s[1..];
      assert SortedBy(t, key) by {
        forall i, j | 0 <= i < j < |t| ensures key(t[i]) <= key(t[j]) {
          assert t[i] == s[i + 1] && t[j] == s[j + 1];
        }
      }
      var p' := InsertByPlace(t, c, key);
      p := p' + 1;
      assert s[..p] == [s[0]] + t[..p'];
      assert s[p..] == t[p'..];
    }
  }

  /** An element placed where it separates lower-or-equal keys from higher ones keeps the list sorted. */
  lemma SortedInsertAt<T>(s: seq<T>, c: T, p: nat, key: T -> int)
    requires SortedBy(s, key) && p <= |s|
    requires forall i :: 0 <= i < p ==> key(s[i]) <= key(c)
    requires forall i :: p <= i < |s| ==> key(c) < key(s[i])
    ensures SortedBy(s[..p] + [c] + s[p..], key)
    ensures multiset(s[..p] + [c] + s[p..]) == multiset(s) + multiset{c}
  {
    var r := s[..p] + [c] + s[p..];
    forall a, b | 0 <= a < b < |r|
      ensures key(r[a]) <= key(r[b])
    {
      if a < p {
        assert r[a] == s[a];
      } else if a > p {
        assert r[a] == s[a - 1];
      }
      if b < p {
        assert r[b] == s[b];
      } else if b > p {
        assert r[b] == s[b - 1];
      }
    }
    assert s == s[..p] + s[p..];
  }

  /** An element whose key is at least every other key is appended at the end. */
  lemma {:induction false} InsertByLargest<T>(s: seq<T>, c: T, key: T -> int)
    requires forall i :: 0 <= i < |s| ==> key(s[i]) <= key(c)
    ensures InsertBy(s, c, key) == s + [c]
  {
    if s != [] {
      InsertByLargest(s[1..], c, key);
    }
  }

  /** The sort yields a sorted permutation of its input. */
  lemma {:induction false} SortBySorted<T>(s: seq<T>, key: T -> int)
    ensures SortedBy(SortBy(s, key), key)
    ensures multiset(SortBy(s, key)) == multiset(s)
  {
    if s != [] {
      var front, last := s[..|s| - 1], s[|s| - 1];
      assert s == front + [last];
      SortBySorted(front, key);
      var sorted := SortBy(front, key);
      var p := InsertByPlace(sorted, last, key);
      SortedInsertAt(sorted, last, p, key);
      assert SortBy(s, key) == sorted[..p] + [last] + sorted[p..];
      assert multiset(s) == multiset(front) + multiset{last};
    }
  }

  /** A list already in order is left exactly as it is. */
  lemma {:induction false} SortBySortedUnchanged<T>(s: seq<T>, key: T -> int)
    requires SortedBy(s, key)
    ensures SortBy(s, key) == s
  {
    if s != [] {
      var front, last := s[..|s| - 1], s[|s| - 1];
      assert SortedBy(front, key);
      SortBySortedUnchanged(front, key);
      InsertByLargest(front, last, key);
      assert s == front + [last];
    }
  }

  /** Appending to a sorted list and sorting places the new element after every element of lower or equal key, the others keeping their order. */
  lemma AppendAndSort<T>(s: seq<T>, c: T, key: T -> int) returns (p: nat)
    requires SortedBy(s, key)
    ensures p <= |s| && SortBy(s + [c], key) == s[..p] + [c] + s[p..]
    ensures forall i :: 0 <= i < p ==> key(s[i]) <= key(c)
    ensures forall i :: p <= i < |s| ==> key(c) < key(s[i])
  {
    assert (s + [c])[..|s + [c]| - 1] == s;
    SortBySortedUnchanged(s, key);
    p := InsertByPlace(s, c, key);
  }

  /** Stability: elements of equal key come out in the order they went in. */
  lemma {:induction false} SortByKeepsTies<T>(s: seq<T>, key: T -> int, k: int)
    ensures Ties(SortBy(s, key), key, k) == Ties(s, key, k)
  {
    if s != [] {
      var front, last := s[..|s| - 1], s[|s| - 1];
      SortByKeepsTies(front, key, k);
      SortBySorted(front, key);
      TiesInsert(SortBy(front, key), last, key, k);
      TiesAppend(front, [last], key, k);
      assert s == front + [last];
    }
  }

  /** Inserting into a sorted list puts the new element after every element of its own key. */
  lemma {:induction false} TiesInsert<T>(s: seq<T>, c: T, key: T -> int, k: int)
    requires SortedBy(s, key)
    ensures Ties(InsertBy(s, c, key), key, k) == Ties(s, key, k) + (if key(c) == k then [c] else [])
  {
    var extra := if key(c) == k then [c] else [];
    TiesSingle(c, key, k);
    if s == [] {
      assert InsertBy(s, c, key) == [c];
    } else if key(c) < key(s[0]) {
      TiesAppend([c], s, key, k);
      if key(c) == k {
        TiesAbove(s, key, k);
      }
    } else {
      var t := s[1..];
      assert SortedBy(t, key) by {
        forall i, j | 0 <= i < j < |t| ensures key(t[i]) <= key(t[j]) {
          assert t[i] == s[i + 1] && t[j] == s[j + 1];
        }
      }
      TiesInsert(t, c, key, k);
      TiesAppend([s[0]], InsertBy(t, c, key), key, k);
      assert s == [s[0]] + t;
      TiesAppend([s[0]], t, key, k);
      assert Ties(InsertBy(s, c, key), key, k) == Ties([s[0]], key, k) + (Ties(t, key, k) + extra);
    }
  }

  lemma TiesSingle<T>(c: T, key: T -> int, k: int)
    ensures Ties([c], key, k) == if key(c) == k then [c] else []
  {
    assert [c][1..] == [];
  }

  /** No element of key `k` in a list whose keys all exceed `k`. */
  lemma {:induction false} TiesAbove<T>(s: seq<T>, key: T -> int, k: int)
    requires forall i :: 0 <= i < |s| ==> k < key(s[i])
    ensures Ties(s, key, k) == []
  {
    if s != [] {
      TiesAbove(s[1..], key, k);
    }
  }

  /** An element whose key is below every other key comes out first. */
  lemma SmallestFirst<T>(s: seq<T>, i: nat, key: T -> int)
    requires i < |s|
    requires forall j :: 0 <= j < |s| && j != i ==> key(s[i]) < key(s[j])
    ensures SortBy(s, key)[0] == s[i]
  {
    SortBySorted(s, key);
    var r := SortBy(s, key);
    assert s[i] in multiset(r);
    var q :| 0 <= q < |r| && r[q] == s[i];
    assert r[0] in multiset(s);
    var j :| 0 <= j < |s| && s[j] == r[0];
    assert key(r[0]) <= key(r[q]);
  }
}
