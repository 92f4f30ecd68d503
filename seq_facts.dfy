// Small facts about sequences shared by the codecs and the containers.
module SeqFacts {
  /** A non-empty sequence is its front followed by its last element. */
  lemma LastSplit<T>(s: seq<T>)
    requires s != []
    ensures s == s[..|s| - 1] + [s[|s| - 1]]
  {
  }

  /** Appending a sequence built as front + last appends front, then last. */
  lemma AppendSplit<T>(head: seq<T>, whole: seq<T>, front: seq<T>, last: seq<T>)
    requires whole == front + last
    ensures head + whole == head + front + last
  {
  }

  /** Appending a six-part concatenation appends its parts one by one. */
  lemma AppendParts<T>(d: seq<T>, a: seq<T>, b: seq<T>, c: seq<T>, e: seq<T>, f: seq<T>, g: seq<T>)
    ensures d + (a + b + c + e + f + g) == d + a + b + c + e + f + g
  {
  }

  /** A non-empty prefix is the shorter prefix followed by its last element. */
  lemma PrefixLast<T>(s: seq<T>, i: nat)
    requires 0 < i <= |s|
    ensures s[..i] == s[..i - 1] + [s[i - 1]]
  {
  }
}
