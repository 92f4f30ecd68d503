// Points on the map: real-valued vectors and the integer grid vectors whose
// "x,y" strings key every chunk store.
module Vectors {
  import opened Bytes
  import opened Wrappers

  datatype Vector2 = Vector2(x: real, y: real)

  /** A grid position: both components already passed through `| 0`. */
  datatype GridVector2 = GridVector2(x: int, y: int)

  const DefaultTolerance: real := 0.001

  function Abs(r: real): real { if r < 0.0 then -r else r }

  /**
   * Vector2.equals: two nulls are the same reference, hence equal; one null
   * equals nothing; otherwise the components are compared exactly, then
   * within the tolerance.
   */
  function Equals(v1: Option<Vector2>, v2: Option<Vector2>, tolerance: real): (r: bool)
    ensures v1.None? && v2.None? ==> r
    ensures v1.None? != v2.None? ==> !r
    ensures v1.Some? && v2.Some? && v1.value == v2.value ==> r
    ensures v1.Some? && v2.Some? && v1.value != v2.value ==>
      (r <==> Abs(v1.value.x - v2.value.x) < tolerance && Abs(v1.value.y - v2.value.y) < tolerance)
  {
    if v1.None? && v2.None? then true
    else if v1.None? || v2.None? then false
    else if v1.value.x == v2.value.x && v1.value.y == v2.value.y then true
    else Abs(v1.value.x - v2.value.x) < tolerance && Abs(v1.value.y - v2.value.y) < tolerance
  }

  function AsVector(g: GridVector2): Vector2 { Vector2(g.x as real, g.y as real) }

  /** On grid positions the default tolerance adds nothing: equals is component equality. */
  lemma GridEquals(g1: GridVector2, g2: GridVector2)
    ensures Equals(Some(AsVector(g1)), Some(AsVector(g2)), DefaultTolerance) <==> g1 == g2
  {
    if g1.x != g2.x {
      assert Abs(g1.x as real - g2.x as real) >= 1.0;
    }
    if g1.y != g2.y {
      assert Abs(g1.y as real - g2.y as real) >= 1.0;
    }
  }

  /** The integer part of a real, rounding toward zero. */
  function Truncate(r: real): (t: int)
    ensures Abs(r - t as real) < 1.0
    ensures r >= 0.0 ==> 0.0 <= t as real <= r
    ensures r < 0.0 ==> r <= t as real <= 0.0
  {
    if r >= 0.0 then r.Floor else -((-r).Floor)
  }

  /** `new GridVector2(x, y)`: each component goes through JavaScript's `| 0`. */
  function MakeGrid(x: real, y: real): (g: GridVector2)
    ensures -0x8000_0000 <= g.x < 0x8000_0000 && -0x8000_0000 <= g.y < 0x8000_0000
  {
    GridVector2(ToInt32(Truncate(x)), ToInt32(Truncate(y)))
  }

  /** GridVector2.from. */
  function From(v: Vector2): (g: GridVector2)
    ensures g == MakeGrid(v.x, v.y)
  {
    MakeGrid(v.x, v.y)
  }

  /** For values in the signed 32-bit range, `| 0` is truncation toward zero. */
  lemma MakeGridTruncates(x: real, y: real)
    requires -2147483648.0 < x < 2147483648.0 && -2147483648.0 < y < 2147483648.0
    ensures MakeGrid(x, y) == GridVector2(Truncate(x), Truncate(y))
  {
    ToInt32Identity(Truncate(x));
    ToInt32Identity(Truncate(y));
  }

  /** A grid vector given back its own components is unchanged. */
  lemma MakeGridIdempotent(g: GridVector2)
    requires -0x8000_0000 <= g.x < 0x8000_0000 && -0x8000_0000 <= g.y < 0x8000_0000
    ensures MakeGrid(g.x as real, g.y as real) == g
  {
    assert Truncate(g.x as real) == g.x;
    assert Truncate(g.y as real) == g.y;
    ToInt32Identity(g.x);
    ToInt32Identity(g.y);
  }

  function DigitChar(d: nat): (c: char)
    requires d < 10
  {
    "0123456789"[d]
  }

  predicate IsDigit(c: char) { '0' <= c <= '9' }

  /** The decimal digits of a natural number, without leading zeros. */
  function Digits(n: nat): (s: seq<char>)
    ensures |s| >= 1 && forall i :: 0 <= i < |s| ==> IsDigit(s[i])
    ensures |s| == 1 <==> n < 10
  {
    if n < 10 then [DigitChar(n)] else Digits(n / 10) + [DigitChar(n % 10)]
  }

  /** A JavaScript integer as a string: an optional minus sign, then its digits. */
  function IntToString(i: int): (s: seq<char>)
    ensures ',' !in s
  {
    if i < 0 then "-" + Digits(-i) else Digits(i)
  }

  /** GridVector2.toString, the key of every chunk store. */
  function Key(g: GridVector2): seq<char>
  {
    IntToString(g.x) + "," + IntToString(g.y)
  }

  lemma {:induction false} DigitsInjective(n: nat, m: nat)
    requires Digits(n) == Digits(m)
    ensures n == m
  {
    if n >= 10 && m >= 10 {
      var dn, dm := Digits(n), Digits(m);
      assert dn[|dn| - 1] == DigitChar(n % 10) && dm[|dm| - 1] == DigitChar(m % 10);
      assert n % 10 == m % 10;
      assert Digits(n / 10) == dn[..|dn| - 1] == dm[..|dm| - 1] == Digits(m / 10);
      DigitsInjective(n / 10, m / 10);
    }
  }

  lemma IntToStringInjective(i: int, j: int)
    requires IntToString(i) == IntToString(j)
    ensures i == j
  {
    var s := IntToString(i);
    assert (s[0] == '-') == (i < 0) == (j < 0);
    if i < 0 {
      assert Digits(-i) == s[1..] == Digits(-j);
      DigitsInjective(-i, -j);
    } else {
      DigitsInjective(i, j);
    }
  }

  /** The index of the first comma of a string that has one. */
  function FirstComma(s: seq<char>): (k: nat)
    requires ',' in s
    ensures k < |s| && s[k] == ','
  {
    if s[0] == ',' then 0 else 1 + FirstComma(s[1..])
  }

  lemma {:induction false} FirstCommaAfter(a: seq<char>, b: seq<char>)
    requires ',' !in a
    ensures FirstComma(a + "," + b) == |a|
  {
    if a != [] {
      assert (a + "," + b)[1..] == a[1..] + "," + b;
      FirstCommaAfter(a[1..], b);
    }
  }

  lemma SplitAtComma(a: seq<char>, b: seq<char>, c: seq<char>, d: seq<char>)
    requires ',' !in a && ',' !in c && a + "," + b == c + "," + d
    ensures a == c && b == d
  {
    var s := a + "," + b;
    FirstCommaAfter(a, b);
    FirstCommaAfter(c, d);
    assert a == s[..|a|] == c;
    assert b == s[|a| + 1..] == d;
  }

  /** Equal grid positions give equal keys and distinct positions distinct keys. */
  lemma KeyInjective(g1: GridVector2, g2: GridVector2)
    ensures Key(g1) == Key(g2) <==> g1 == g2
  {
    if Key(g1) == Key(g2) {
      SplitAtComma(IntToString(g1.x), IntToString(g1.y), IntToString(g2.x), IntToString(g2.y));
      IntToStringInjective(g1.x, g2.x);
      IntToStringInjective(g1.y, g2.y);
    }
  }
}
