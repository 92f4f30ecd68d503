// Bytes and the fixed-width integer encodings that a JavaScript DataView uses.
module Bytes {
  type byte = x: int | 0 <= x < 256

  /** 256^n, the number of values that n bytes can hold. */
  function Pow256(n: nat): (r: nat)
    ensures r >= 1
  {
    if n == 0 then 1 else 256 * Pow256(n - 1)
  }

  /**
   * The n-byte little-endian encoding of `v` reduced modulo 256^n, which is
   * what DataView.setUintN and setIntN store (they agree on the bytes).
   */
  function EncodeLE(v: int, n: nat): (r: seq<byte>)
    ensures |r| == n
    decreases n
  {
    if n == 0 then [] else [v % 256] + EncodeLE(v / 256, n - 1)
  }

  /** The unsigned value of a little-endian byte sequence (DataView.getUintN). */
  function DecodeLE(s: seq<byte>): (r: nat)
  {
    if s == [] then 0 else s[0] + 256 * DecodeLE(s[1..])
  }

  /** Two's complement reinterpretation of an n-byte unsigned value (DataView.getIntN). */
  function ToSigned(u: int, n: nat): int
  {
    if 2 * u >= Pow256(n) then u - Pow256(n) else u
  }

  predicate InSignedRange(v: int, n: nat)
  {
    -(Pow256(n) as int) <= 2 * v < Pow256(n)
  }

  lemma {:induction false} DecodeLEBound(s: seq<byte>)
    ensures DecodeLE(s) < Pow256(|s|)
  {
    if s != [] {
      DecodeLEBound(s[1..]);
      assert DecodeLE(s) <= 255 + 256 * (Pow256(|s| - 1) - 1);
    }
  }

  lemma ModSplit(v: int, p: nat)
    requires p >= 1
    ensures v % (256 * p) == v % 256 + 256 * ((v / 256) % p)
  {
    var q, r := v / 256, v % 256;
    var a, b := q / p, q % p;
    assert v == 256 * q + r;
    assert q == p * a + b;
    assert v == (256 * p) * a + (256 * b + r) by {
      assert 256 * q == 256 * (p * a) + 256 * b;
      assert 256 * (p * a) == (256 * p) * a;
    }
    assert 0 <= 256 * b + r < 256 * p;
    ModUnique(v, 256 * p, a, 256 * b + r);
  }

  lemma ModUnique(v: int, d: int, a: int, m: int)
    requires d > 0 && 0 <= m < d && v == d * a + m
    ensures v % d == m && v / d == a
  {
    var a', m' := v / d, v % d;
    assert v == d * a' + m';
    var k := a - a';
    assert d * k == m' - m by {
      assert d * a - d * a' == d * (a - a');
    }
    MulAwayFromZero(d, k);
  }

  lemma MulAwayFromZero(d: int, k: int)
    requires d > 0
    ensures k >= 1 ==> d * k >= d
    ensures k <= -1 ==> d * k <= -d
  {
    assert d * k == d * (k - 1) + d;
    assert d * k == d * (k + 1) - d;
    assert k >= 1 ==> d * (k - 1) >= 0;
    assert k <= -1 ==> d * (k + 1) <= 0;
  }

  /** Reading back what was written yields the value modulo 256^n. */
  lemma {:induction false} DecodeEncode(v: int, n: nat)
    ensures DecodeLE(EncodeLE(v, n)) == v % Pow256(n)
    decreases n
  {
    if n > 0 {
      DecodeEncode(v / 256, n - 1);
      ModSplit(v, Pow256(n - 1));
    }
  }

  /** An unsigned value in range survives a write followed by an unsigned read. */
  lemma UnsignedRoundTrip(v: int, n: nat)
    requires 0 <= v < Pow256(n)
    ensures DecodeLE(EncodeLE(v, n)) == v
  {
    DecodeEncode(v, n);
  }

  /** A signed value in range survives a write followed by a signed read. */
  lemma SignedRoundTrip(v: int, n: nat)
    requires n >= 1 && InSignedRange(v, n)
    ensures ToSigned(DecodeLE(EncodeLE(v, n)), n) == v
  {
    DecodeEncode(v, n);
    if v < 0 {
      ModUnique(v, Pow256(n), -1, v + Pow256(n));
    } else {
      ModUnique(v, Pow256(n), 0, v);
    }
  }

  /** Unsigned decoding is injective on sequences of one length. */
  lemma {:induction false} DecodeLEInjective(s: seq<byte>, t: seq<byte>)
    requires |s| == |t| && DecodeLE(s) == DecodeLE(t)
    ensures s == t
  {
    if s != [] {
      DecodeLEBound(s[1..]);
      DecodeLEBound(t[1..]);
      ModUnique(DecodeLE(s), 256, DecodeLE(s[1..]), s[0]);
      ModUnique(DecodeLE(t), 256, DecodeLE(t[1..]), t[0]);
      DecodeLEInjective(s[1..], t[1..]);
    }
  }

  /** The JavaScript `x | 0` conversion of an integer: wrap to signed 32 bits. */
  function ToInt32(x: int): (r: int)
    ensures -0x8000_0000 <= r < 0x8000_0000
    ensures (r - x) % 0x1_0000_0000 == 0
  {
    var m := x % 0x1_0000_0000;
    if m >= 0x8000_0000 then m - 0x1_0000_0000 else m
  }

  lemma ToInt32Identity(x: int)
    requires -0x8000_0000 <= x < 0x8000_0000
    ensures ToInt32(x) == x
  {
  }
}
