// Hash: a digest held as an array of numbers, and its lower-case hex
// rendering. The array is a JavaScript array, so an element may be a
// number or (once hex has run over it) a string.
module Hashing {
  /** hex_chr: the digit for a value below 16, in lower case. */
  function HexDigit(v: nat): (c: char)
    requires v < 16
    ensures IsHexDigit(c)
  {
    if v < 10 then ('0' as int + v) as char else ('a' as int + v - 10) as char
  }

  /** An element of the digest's array. */
  datatype Element = Number(n: int) | Text(s: string)

  predicate IsHexDigit(c: char)
  {
    '0' <= c <= '9' || 'a' <= c <= 'f'
  }

  predicate IsDecimalDigit(c: char)
  {
    '0' <= c <= '9'
  }

  /**
   * The number a stored element stands for in a bit operation. A string is
   * converted as a JavaScript number and NaN becomes 0; only two-character
   * strings of hex digits are ever stored, and such a string is numeric
   * exactly when both characters are decimal digits.
   */
  function Coerced(e: Element): int
  {
    match e
    case Number(n) => n
    case Text(s) =>
      if |s| == 2 && IsDecimalDigit(s[0]) && IsDecimalDigit(s[1])
      then 10 * (s[0] as int - '0' as int) + (s[1] as int - '0' as int)
      else 0
  }

  /** The two digits of one element: (x >> 4) & 15 then x & 15, for any integer x. */
  function HexPair(x: int): (r: string)
    ensures |r| == 2 && IsHexDigit(r[0]) && IsHexDigit(r[1])
  {
    [HexDigit((x / 16) % 16), HexDigit(x % 16)]
  }

  /** The rendering of a byte sequence: two digits per byte, in order. */
  function HexOf(bytes: seq<int>): (r: string)
    ensures |r| == 2 * |bytes|
  {
    if bytes == [] then "" else HexOf(bytes[..|bytes| - 1]) + HexPair(bytes[|bytes| - 1])
  }

  /** Element i of the input renders as characters 2i and 2i + 1, so the output follows the input's order. */
  lemma {:induction false} HexOfAt(bytes: seq<int>, i: nat)
    requires i < |bytes|
    ensures HexOf(bytes)[2 * i..2 * i + 2] == HexPair(bytes[i])
  {
    var front := bytes[..|bytes| - 1];
    if i < |bytes| - 1 {
      HexOfAt(front, i);
      assert HexOf(bytes)[2 * i..2 * i + 2] == HexOf(front)[2 * i..2 * i + 2];
    }
  }

  /** The value of one hex digit. */
  function DigitValue(c: char): (v: nat)
    requires IsHexDigit(c)
    ensures v < 16 && HexDigit(v) == c
  {
    if '0' <= c <= '9' then c as int - '0' as int else c as int - 'a' as int + 10
  }

  /** The inverse of HexPair on bytes: two digits back to their byte. */
  function PairValue(p: string): (v: nat)
    requires |p| == 2 && IsHexDigit(p[0]) && IsHexDigit(p[1])
    ensures v < 256
  {
    16 * DigitValue(p[0]) + DigitValue(p[1])
  }

  /** Each value has its own digit. */
  lemma DigitsDistinct(i: nat, j: nat)
    requires i < 16 && j < 16 && HexDigit(i) == HexDigit(j)
    ensures i == j
  {
  }

  /** Two digits give back the byte they were made from. */
  lemma PairRoundTrip(b: int)
    requires 0 <= b < 256
    ensures PairValue(HexPair(b)) == b
  {
    var p := HexPair(b);
    DigitsDistinct(DigitValue(p[0]), (b / 16) % 16);
    DigitsDistinct(DigitValue(p[1]), b % 16);
  }

  /** For bytes, the rendering is injective: equal renderings come from equal digests. */
  lemma HexInjective(a: seq<int>, b: seq<int>)
    requires forall i :: 0 <= i < |a| ==> 0 <= a[i] < 256
    requires forall i :: 0 <= i < |b| ==> 0 <= b[i] < 256
    requires HexOf(a) == HexOf(b)
    ensures a == b
  {
    assert |a| == |b|;
    forall i | 0 <= i < |a|
      ensures a[i] == b[i]
    {
      HexOfAt(a, i);
      HexOfAt(b, i);
      PairRoundTrip(a[i]);
      PairRoundTrip(b[i]);
    }
  }

  /** What hex leaves in its argument: each element replaced by its two digits. */
  function Overwritten(elements: seq<Element>): (r: seq<Element>)
    ensures |r| == |elements|
  {
    seq(|elements|, i requires 0 <= i < |elements| => Text(HexPair(Coerced(elements[i]))))
  }

  /** The numbers a sequence of elements stands for. */
  function Values(elements: seq<Element>): (r: seq<int>)
    ensures |r| == |elements| && forall i :: 0 <= i < |elements| ==> r[i] == Coerced(elements[i])
  {
    seq(|elements|, i requires 0 <= i < |elements| => Coerced(elements[i]))
  }

  /**
   * hex as written: overwrites each element of x with its two digits, then
   * joins them.
   */
  method Hex(x: array<Element>) returns (s: string)
    modifies x
    ensures x[..] == Overwritten(old(x[..]))
    ensures s == HexOf(Values(old(x[..])))
  {
    ghost var original := x[..];
    s := "";
    for i := 0 to x.Length
      invariant forall j :: i <= j < x.Length ==> x[j] == original[j]
      invariant forall j :: 0 <= j < i ==> x[j] == Overwritten(original)[j]
      invariant s == HexOf(Values(original)[..i])
    {
      assert Values(original)[..i + 1] == Values(original)[..i] + [Coerced(original[i])];
      x[i] := Text(HexPair(Coerced(x[i])));
      s := s + x[i].s;
    }
    assert Values(original)[..x.Length] == Values(original);
    assert x[..] == Overwritten(original);
  }

  /**
   * Rendering a digest, overwriting it as hex does, then rendering it again
   * does not give the first rendering back: the byte 0x12 first renders as
   * "12", is stored as the string "12", which converts to the number 12 and
   * renders as "0c"; a byte such as 0xab is stored as "ab", converts to NaN,
   * hence 0, and renders as "00".
   */
  lemma RenderingTwiceDiffers()
    ensures HexOf(Values([Number(0x12)])) == "12"
    ensures HexOf(Values(Overwritten([Number(0x12)]))) == "0c"
    ensures HexOf(Values(Overwritten([Number(0xab)]))) == "00"
  {
    assert Values([Number(0x12)]) == [0x12];
    assert Overwritten([Number(0x12)]) == [Text("12")];
    assert Values([Text("12")]) == [12];
    assert Overwritten([Number(0xab)]) == [Text("ab")];
    assert Values([Text("ab")]) == [0];
  }

  /** A digest: the array of numbers it was made from, shared, not copied. */
  class Hash {
    const bytes: array<Element>

    constructor (bytes: array<Element>)
      ensures this.bytes == bytes
    {
      this.bytes := bytes;
    }

    /** toString as written: hex over the stored array itself, which it overwrites with strings. */
    method ToString() returns (s: string)
      modifies bytes
      ensures bytes[..] == Overwritten(old(bytes[..]))
      ensures s == HexOf(Values(old(bytes[..])))
    {
      s := Hex(bytes);
    }

    /** toString as intended: the same rendering, leaving the digest as it was, so every call agrees. */
    method ToHex() returns (s: string)
      ensures s == HexOf(Values(bytes[..]))
    {
      s := "";
      for i := 0 to bytes.Length
        invariant s == HexOf(Values(bytes[..])[..i])
      {
        assert Values(bytes[..])[..i + 1] == Values(bytes[..])[..i] + [Coerced(bytes[i])];
        s := s + HexPair(Coerced(bytes[i]));
      }
      assert Values(bytes[..])[..bytes.Length] == Values(bytes[..]);
    }

    /** toArray: a fresh copy, so changing it leaves the digest alone. */
    method ToArray() returns (r: array<Element>)
      ensures fresh(r) && r[..] == bytes[..]
    {
      r := new Element[bytes.Length](i requires 0 <= i < bytes.Length reads bytes => bytes[i]);
    }

    /** toBuffer: each element converted to a byte, modulo 256. */
    method ToBuffer() returns (r: seq<int>)
      ensures |r| == bytes.Length && forall i :: 0 <= i < bytes.Length ==> r[i] == Coerced(bytes[i]) % 256
    {
      r := seq(bytes.Length, i requires 0 <= i < bytes.Length reads bytes => Coerced(bytes[i]) % 256);
    }
  }
}
