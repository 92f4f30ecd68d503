// A 64x64 chunk of the map, kept as the sorted list of its ore pixels, each
// packed by BitCompactor.
module Chunks {
  import opened Bytes
  import opened Wrappers
  import opened Vectors
  import opened BitCompactor
  import opened OrePalette

  // The error messages, as the source spells them.
  const NoContext: string := "Unable to retrieve 2d context of chunk offscreen canvas."
  const NotChunkSized: string := "The provided canvas is not 64x64 pixels."
  const InvalidOreIndex: string := "Invalid ore palette index."
  const MergeLocationError: string := "Unable to merge chunk that comes from different location (The unique name provider failed due to a bug or an update)."

  const ChunkSize: nat := 64
  const ChunkArea: nat := 4096
  const PixelBytes: nat := 16384

  /** Locations strictly increase along the list. */
  ghost predicate StrictlySorted(s: seq<uint16>)
  {
    forall i, j :: 0 <= i < j < |s| ==> GetLocation(s[i]) < GetLocation(s[j])
  }

  /** Some entry of s sits at location l. */
  ghost predicate HasLocation(s: seq<uint16>, l: int)
  {
    exists i :: 0 <= i < |s| && GetLocation(s[i]) == l
  }

  /**
   * The merge that `eat` performs with its cursors i and j: the smaller
   * location goes first, and on equal locations the other chunk's entry is
   * kept and both cursors advance.
   */
  function Merge(a: seq<uint16>, b: seq<uint16>): seq<uint16>
    decreases |a| + |b|
  {
    if a == [] then b
    else if b == [] then a
    else if GetLocation(a[0]) < GetLocation(b[0]) then [a[0]] + Merge(a[1..], b)
    else if GetLocation(a[0]) == GetLocation(b[0]) then [b[0]] + Merge(a[1..], b[1..])
    else [b[0]] + Merge(a, b[1..])
  }

  /** The merge buffer is a Uint16Array of 4096 entries; writes past its end are lost. */
  function Capped(s: seq<uint16>): (r: seq<uint16>)
    ensures |r| <= ChunkArea && |r| <= |s| && r == s[..|r|]
    ensures |s| <= ChunkArea ==> r == s
  {
    if |s| <= ChunkArea then s else s[..ChunkArea]
  }

  /** The data `eat` leaves behind (positions assumed equal). */
  function EatResult(mine: seq<uint16>, other: seq<uint16>): seq<uint16>
  {
    if other == [] then mine
    else if mine == [] then other
    else Capped(Merge(mine, other))
  }

  lemma {:induction false} SortedLengthBound(s: seq<uint16>, lo: int)
    requires StrictlySorted(s) && lo <= ChunkArea
    requires forall i :: 0 <= i < |s| ==> lo <= GetLocation(s[i])
    ensures |s| <= ChunkArea - lo
    decreases |s|
  {
    if s != [] {
      var t := s[1..];
      assert GetLocation(s[0]) < ChunkArea;
      forall i | 0 <= i < |t| ensures GetLocation(s[0]) + 1 <= GetLocation(t[i]) {
        assert t[i] == s[i + 1];
      }
      SortedLengthBound(t, GetLocation(s[0]) + 1);
    }
  }

  /** A location-sorted list holds at most one entry per pixel of the chunk. */
  lemma SortedFitsChunk(s: seq<uint16>)
    requires StrictlySorted(s)
    ensures |s| <= ChunkArea
  {
    SortedLengthBound(s, 0);
  }

  /** The entries the merge keeps: all of b, and those of a at a location b lacks. */
  ghost predicate Kept(x: uint16, a: seq<uint16>, b: seq<uint16>)
  {
    x in b || (x in a && !HasLocation(b, GetLocation(x)))
  }

  lemma MergeUnfold(a: seq<uint16>, b: seq<uint16>, i: nat, j: nat)
    requires i < |a| && j < |b|
    ensures Merge(a[i..], b[j..]) ==
      if GetLocation(a[i]) < GetLocation(b[j]) then [a[i]] + Merge(a[i + 1..], b[j..])
      else if GetLocation(a[i]) == GetLocation(b[j]) then [b[j]] + Merge(a[i + 1..], b[j + 1..])
      else [b[j]] + Merge(a[i..], b[j + 1..])
  {
    assert a[i..][0] == a[i] && a[i..][1..] == a[i + 1..];
    assert b[j..][0] == b[j] && b[j..][1..] == b[j + 1..];
  }

  lemma SortedTail(s: seq<uint16>)
    requires StrictlySorted(s) && s != []
    ensures StrictlySorted(s[1..])
    ensures forall y :: y in s[1..] ==> GetLocation(s[0]) < GetLocation(y)
    ensures forall l :: HasLocation(s, l) && l != GetLocation(s[0]) ==> HasLocation(s[1..], l)
  {
    forall l | HasLocation(s, l) && l != GetLocation(s[0]) ensures HasLocation(s[1..], l) {
      var i :| 0 <= i < |s| && GetLocation(s[i]) == l;
      assert s[1..][i - 1] == s[i];
    }
  }

  lemma MergeKeptLess(a: seq<uint16>, b: seq<uint16>)
    requires StrictlySorted(a) && StrictlySorted(b) && a != [] && b != []
    requires GetLocation(a[0]) < GetLocation(b[0])
    requires forall x :: x in Merge(a[1..], b) <==> Kept(x, a[1..], b)
    ensures forall x :: x in Merge(a, b) <==> Kept(x, a, b)
  {
    assert Merge(a, b) == [a[0]] + Merge(a[1..], b);
    assert a == [a[0]] + a[1..];
    assert !HasLocation(b, GetLocation(a[0]));
  }

  lemma MergeKeptEqual(a: seq<uint16>, b: seq<uint16>)
    requires StrictlySorted(a) && StrictlySorted(b) && a != [] && b != []
    requires GetLocation(a[0]) == GetLocation(b[0])
    requires forall x :: x in Merge(a[1..], b[1..]) <==> Kept(x, a[1..], b[1..])
    ensures forall x :: x in Merge(a, b) <==> Kept(x, a, b)
  {
    assert Merge(a, b) == [b[0]] + Merge(a[1..], b[1..]);
    assert a == [a[0]] + a[1..] && b == [b[0]] + b[1..];
    SortedTail(a);
    SortedTail(b);
    forall x | x in a[1..] ensures HasLocation(b, GetLocation(x)) <==> HasLocation(b[1..], GetLocation(x)) {
      if HasLocation(b[1..], GetLocation(x)) {
        var i :| 0 <= i < |b[1..]| && GetLocation(b[1..][i]) == GetLocation(x);
        assert b[i + 1] == b[1..][i];
      }
    }
    assert HasLocation(b, GetLocation(a[0]));
  }

  lemma MergeKeptGreater(a: seq<uint16>, b: seq<uint16>)
    requires StrictlySorted(a) && StrictlySorted(b) && a != [] && b != []
    requires GetLocation(a[0]) > GetLocation(b[0])
    requires forall x :: x in Merge(a, b[1..]) <==> Kept(x, a, b[1..])
    ensures forall x :: x in Merge(a, b) <==> Kept(x, a, b)
  {
    assert Merge(a, b) == [b[0]] + Merge(a, b[1..]);
    assert b == [b[0]] + b[1..];
    SortedTail(b);
    forall x | x in a ensures HasLocation(b, GetLocation(x)) <==> HasLocation(b[1..], GetLocation(x)) {
      var k :| 0 <= k < |a| && a[k] == x;
      assert k == 0 || GetLocation(a[0]) < GetLocation(a[k]);
      if HasLocation(b[1..], GetLocation(x)) {
        var i :| 0 <= i < |b[1..]| && GetLocation(b[1..][i]) == GetLocation(x);
        assert b[i + 1] == b[1..][i];
      }
    }
  }

  lemma {:induction false} MergeKept(a: seq<uint16>, b: seq<uint16>)
    requires StrictlySorted(a) && StrictlySorted(b)
    ensures forall x :: x in Merge(a, b) <==> Kept(x, a, b)
    decreases |a| + |b|
  {
    if a == [] || b == [] {
    } else if GetLocation(a[0]) < GetLocation(b[0]) {
      SortedTail(a);
      MergeKept(a[1..], b);
      MergeKeptLess(a, b);
    } else if GetLocation(a[0]) == GetLocation(b[0]) {
      SortedTail(a);
      SortedTail(b);
      MergeKept(a[1..], b[1..]);
      MergeKeptEqual(a, b);
    } else {
      SortedTail(b);
      MergeKept(a, b[1..]);
      MergeKeptGreater(a, b);
    }
  }

  lemma {:induction false} MergeSorted(a: seq<uint16>, b: seq<uint16>)
    requires StrictlySorted(a) && StrictlySorted(b)
    ensures StrictlySorted(Merge(a, b))
    decreases |a| + |b|
  {
    if a != [] && b != [] {
      SortedTail(a);
      SortedTail(b);
      if GetLocation(a[0]) < GetLocation(b[0]) {
        MergeSorted(a[1..], b);
        MergeKept(a[1..], b);
        forall y | y in Merge(a[1..], b) ensures GetLocation(a[0]) < GetLocation(y) {
          if y in b {
            var k :| 0 <= k < |b| && b[k] == y;
            assert k == 0 || GetLocation(b[0]) < GetLocation(b[k]);
          }
        }
        StrictlySortedCons(a[0], Merge(a[1..], b));
      } else if GetLocation(a[0]) == GetLocation(b[0]) {
        MergeSorted(a[1..], b[1..]);
        MergeKept(a[1..], b[1..]);
        StrictlySortedCons(b[0], Merge(a[1..], b[1..]));
      } else {
        MergeSorted(a, b[1..]);
        MergeKept(a, b[1..]);
        forall y | y in Merge(a, b[1..]) ensures GetLocation(b[0]) < GetLocation(y) {
          if y in a {
            var k :| 0 <= k < |a| && a[k] == y;
            assert k == 0 || GetLocation(a[0]) < GetLocation(a[k]);
          }
        }
        StrictlySortedCons(b[0], Merge(a, b[1..]));
      }
    }
  }

  lemma StrictlySortedCons(x: uint16, t: seq<uint16>)
    requires StrictlySorted(t) && forall y :: y in t ==> GetLocation(x) < GetLocation(y)
    ensures StrictlySorted([x] + t)
  {
    var s := [x] + t;
    forall i, j | 0 <= i < j < |s| ensures GetLocation(s[i]) < GetLocation(s[j]) {
      if i == 0 {
        assert s[j] in t;
      } else {
        assert s[i] == t[i - 1] && s[j] == t[j - 1];
      }
    }
  }

  /**
   * For location-sorted inputs `eat` yields a location-sorted list of at most
   * 4096 entries whose locations are those of both inputs, keeping the other
   * chunk's entry where both have one.
   */
  lemma EatMerges(mine: seq<uint16>, other: seq<uint16>)
    requires StrictlySorted(mine) && StrictlySorted(other)
    ensures StrictlySorted(EatResult(mine, other)) && |EatResult(mine, other)| <= ChunkArea
    ensures forall x :: x in EatResult(mine, other) <==>
      x in other || (x in mine && !HasLocation(other, GetLocation(x)))
    ensures forall l :: HasLocation(EatResult(mine, other), l) <==> HasLocation(mine, l) || HasLocation(other, l)
  {
    var r := EatResult(mine, other);
    if other != [] && mine != [] {
      MergeSorted(mine, other);
      MergeKept(mine, other);
      SortedFitsChunk(Merge(mine, other));
    }
    SortedFitsChunk(r);
    KeptLocations(r, mine, other);
  }

  /** A list holding the other chunk's entries and the rest of mine covers exactly the locations of both. */
  lemma KeptLocations(r: seq<uint16>, mine: seq<uint16>, other: seq<uint16>)
    requires forall x :: x in r <==> x in other || (x in mine && !HasLocation(other, GetLocation(x)))
    ensures forall l :: HasLocation(r, l) <==> HasLocation(mine, l) || HasLocation(other, l)
  {
    forall l ensures HasLocation(r, l) <==> HasLocation(mine, l) || HasLocation(other, l) {
      if HasLocation(mine, l) && !HasLocation(other, l) {
        var i :| 0 <= i < |mine| && GetLocation(mine[i]) == l;
        assert mine[i] in r;
        var k :| 0 <= k < |r| && r[k] == mine[i];
      }
      if HasLocation(other, l) {
        var i :| 0 <= i < |other| && GetLocation(other[i]) == l;
        assert other[i] in r;
        var k :| 0 <= k < |r| && r[k] == other[i];
      }
      if HasLocation(r, l) {
        var k :| 0 <= k < |r| && GetLocation(r[k]) == l;
        assert r[k] in r;
        if r[k] in other {
          var i :| 0 <= i < |other| && other[i] == r[k];
        } else {
          var i :| 0 <= i < |mine| && mine[i] == r[k];
        }
      }
    }
  }

  /** The entries the canvas constructor finds among the first n pixels. */
  function Scanned(rgba: seq<byte>, classify: (byte, byte, byte) -> Option<OreIndex>, n: nat): (s: seq<uint16>)
    requires 4 * n <= |rgba| && n <= ChunkArea
    ensures |s| <= n
    ensures forall i :: 0 <= i < |s| ==> GetLocation(s[i]) < n
  {
    if n == 0 then []
    else
      var p := 4 * (n - 1);
      var rest := Scanned(rgba, classify, n - 1);
      if rgba[p + 3] != 0xff then rest
      else match classify(rgba[p], rgba[p + 1], rgba[p + 2])
        case None => rest
        case Some(ore) => rest + [Compress(ChunkElement(n - 1, ore))]
  }

  /** One step of the canvas constructor's loop: the pixel at byte `index`. */
  method ScanPixel(pixels: seq<byte>, classify: (byte, byte, byte) -> Option<OreIndex>, out: array<uint16>, k: nat, index: nat)
    returns (k': nat)
    requires |pixels| == PixelBytes && out.Length == ChunkArea && index % 4 == 0 && index < PixelBytes
    requires k == |Scanned(pixels, classify, index / 4)| && out[..k] == Scanned(pixels, classify, index / 4)
    modifies out
    ensures k' == |Scanned(pixels, classify, index / 4 + 1)| && out[..k'] == Scanned(pixels, classify, index / 4 + 1)
  {
    k' := k;
    if pixels[index + 3] == 0xff {
      var paletteIndex := classify(pixels[index], pixels[index + 1], pixels[index + 2]);
      if paletteIndex.Some? {
        out[k] := Compress(ChunkElement(index / 4, paletteIndex.value));
        k' := k + 1;
      }
    }
  }

  /** The canvas constructor emits strictly increasing locations, one per opaque ore pixel at most. */
  lemma {:induction false} ScannedSorted(rgba: seq<byte>, classify: (byte, byte, byte) -> Option<OreIndex>, n: nat)
    requires 4 * n <= |rgba| && n <= ChunkArea
    ensures StrictlySorted(Scanned(rgba, classify, n))
  {
    if n > 0 {
      ScannedSorted(rgba, classify, n - 1);
      var rest := Scanned(rgba, classify, n - 1);
      var s := Scanned(rgba, classify, n);
      if s != rest {
        assert s == rest + [s[|s| - 1]] && GetLocation(s[|s| - 1]) == n - 1;
        forall i, j | 0 <= i < j < |s| ensures GetLocation(s[i]) < GetLocation(s[j]) {
          if j == |s| - 1 {
            assert GetLocation(s[i]) < n - 1 by { assert s[i] == rest[i]; }
          } else {
            assert s[i] == rest[i] && s[j] == rest[j];
          }
        }
      }
    }
  }

  /** The pixels of a chunk's canvas, read row by row as RGBA bytes. */
  datatype Canvas = Canvas(hasContext: bool, width: nat, height: nat, rgba: seq<byte>)
  {
    ghost predicate Valid() { |rgba| == 4 * width * height }
  }

  /** The colour bytes toPixels writes for one entry. */
  function Rgba(c: uint16): (r: seq<byte>)
    requires Extract(c).index < |KnownOres|
    ensures |r| == 4 && r[3] == 0xff
  {
    var ore := KnownOres[Extract(c).index];
    [ore.color.red, ore.color.green, ore.color.blue, 0xff]
  }

  ghost predicate AllKnown(d: seq<uint16>)
  {
    forall i :: 0 <= i < |d| ==> Extract(d[i]).index < |KnownOres|
  }

  /** The RGBA image of the entries, painted in order (a later entry overwrites an earlier one). */
  function Paint(d: seq<uint16>): (pixels: seq<byte>)
    requires AllKnown(d)
    ensures |pixels| == PixelBytes
  {
    if d == [] then seq(PixelBytes, _ => 0)
    else
      var c := d[|d| - 1];
      var at := 4 * Extract(c).location;
      var before := Paint(d[..|d| - 1]);
      before[..at] + Rgba(c) + before[at + 4..]
  }

  /** The last entry at location l, if any. */
  function LastAt(d: seq<uint16>, l: int): (r: Option<uint16>)
    ensures r.Some? ==> r.value in d && GetLocation(r.value) == l
    ensures r.None? <==> !HasLocation(d, l)
  {
    if d == [] then None
    else if GetLocation(d[|d| - 1]) == l then Some(d[|d| - 1])
    else
      var r := LastAt(d[..|d| - 1], l);
      assert HasLocation(d, l) ==> HasLocation(d[..|d| - 1], l) by {
        if HasLocation(d, l) {
          var i :| 0 <= i < |d| && GetLocation(d[i]) == l;
          assert d[..|d| - 1][i] == d[i];
        }
      }
      r
  }

  /** toPixels: an error for an entry whose index names no ore, else the painted image. */
  function PixelsOf(d: seq<uint16>): Result<seq<byte>>
  {
    if AllKnownBy(d) then Ok(Paint(d)) else Err(InvalidOreIndex)
  }

  predicate AllKnownBy(d: seq<uint16>)
    ensures AllKnownBy(d) <==> AllKnown(d)
  {
    forall i :: 0 <= i < |d| ==> Extract(d[i]).index < |KnownOres|
  }

  /**
   * Each pixel of the image has the colour of the last entry at its location,
   * with alpha 255, and every pixel without an entry is four zero bytes.
   */
  lemma {:induction false} PaintAt(d: seq<uint16>, l: int, channel: int)
    requires AllKnown(d) && 0 <= l < ChunkArea && 0 <= channel < 4
    ensures Paint(d)[4 * l + channel] ==
      match LastAt(d, l)
      case None => 0
      case Some(c) => Rgba(c)[channel]
  {
    if d != [] {
      var c := d[|d| - 1];
      var at := 4 * Extract(c).location;
      var before := Paint(d[..|d| - 1]);
      assert Paint(d) == before[..at] + Rgba(c) + before[at + 4..];
      if GetLocation(c) != l {
        PaintAt(d[..|d| - 1], l, channel);
        assert Paint(d)[4 * l + channel] == before[4 * l + channel];
      }
    }
  }

  /** Chunk.isChunk on the arguments of a drawImage call. */
  datatype ImageSource = ImageSource(isVideoFrame: bool, width: real, height: real)

  predicate IsChunk(image: ImageSource, numbers: seq<real>)
    ensures IsChunk(image, numbers) <==>
      numbers == [0.0, 0.0, 1.0, 1.0] && !image.isVideoFrame && image.width == 64.0 && image.height == 64.0
  {
    if 1 + |numbers| != 5 then false
    else if image.isVideoFrame then false
    else (image.width == ChunkSize as real && image.height == ChunkSize as real
      && numbers[0] == 0.0 && numbers[1] == 0.0 && numbers[2] == 1.0 && numbers[3] == 1.0)
  }

  class Chunk {
    const position: GridVector2
    var data: seq<uint16>

    /** new Chunk(position, data): the grid position and a copy of the entries. */
    constructor (position: Vector2, source: array<uint16>)
      ensures this.position == From(position) && data == source[..]
    {
      this.position := From(position);
      data := source[..];
    }

    constructor WithEntries(position: GridVector2, entries: seq<uint16>)
      ensures this.position == position && data == entries
    {
      this.position := position;
      data := entries;
    }

    /**
     * new Chunk(position, canvas): fails without a 2d context or for a canvas
     * that is not 64x64; otherwise keeps the opaque pixels the classifier
     * names, in pixel order.
     */
    static method FromCanvas(position: Vector2, canvas: Canvas, classify: (byte, byte, byte) -> Option<OreIndex>)
      returns (r: Result<Chunk>)
      requires canvas.Valid()
      ensures !canvas.hasContext ==> r == Err(NoContext)
      ensures canvas.hasContext && (canvas.width != ChunkSize || canvas.height != ChunkSize) ==>
        r == Err(NotChunkSized)
      ensures canvas.hasContext && canvas.width == ChunkSize && canvas.height == ChunkSize ==>
        r.Ok? && fresh(r.value) && r.value.position == From(position)
        && r.value.data == Scanned(canvas.rgba, classify, ChunkArea)
    {
      if !canvas.hasContext {
        return Err(NoContext);
      }
      if canvas.width != ChunkSize || canvas.height != ChunkSize {
        return Err(NotChunkSized);
      }
      var pixels := canvas.rgba;
      var out := new uint16[ChunkArea];
      var k := 0;
      var index := 0;
      while index < PixelBytes
        invariant index % 4 == 0 && 0 <= index <= PixelBytes
        invariant k == |Scanned(pixels, classify, index / 4)| && k <= index / 4
        invariant out[..k] == Scanned(pixels, classify, index / 4)
      {
        k := ScanPixel(pixels, classify, out, k, index);
        index := index + 4;
      }
      var chunk := new Chunk.WithEntries(From(position), out[..k]);
      r := Ok(chunk);
    }

    /** toPixels. */
    method ToPixels() returns (r: Result<seq<byte>>)
      ensures r == PixelsOf(data)
    {
      var pixels := new byte[PixelBytes](_ => 0);
      assert pixels[..] == Paint([]);
      var i := 0;
      while i < |data|
        invariant 0 <= i <= |data|
        invariant AllKnown(data[..i])
        invariant pixels[..] == Paint(data[..i])
      {
        var element := Extract(data[i]);
        var ore := Get(KnownOres, element.index);
        if ore.None? {
          assert !AllKnown(data);
          return Err(InvalidOreIndex);
        }
        PaintStep(data, i);
        PaintEntry(pixels, data[i]);
        i := i + 1;
      }
      assert data[..i] == data;
      r := Ok(pixels[..]);
    }

    /**
     * eat: merge another chunk of the same position into this one. Chunks at
     * different positions are refused and nothing changes.
     */
    method Eat(other: Chunk) returns (outcome: Outcome)
      modifies this
      ensures position != other.position ==> outcome == Fail(MergeLocationError) && data == old(data)
      ensures position == other.position ==> outcome == Pass && data == EatResult(old(data), old(other.data))
    {
      var same := SamePosition(position, other.position);
      if !same {
        return Fail(MergeLocationError);
      }
      data := EatEntries(data, other.data);
      return Pass;
    }
  }

  /** The entries eat keeps: the other chunk's when this one has none, this one's when the other has none, else the capped merge. */
  method EatEntries(mine: seq<uint16>, other: seq<uint16>) returns (r: seq<uint16>)
    ensures r == EatResult(mine, other)
  {
    if |other| == 0 {
      return mine;
    }
    if |mine| == 0 {
      return other;
    }
    r := MergeCapped(mine, other);
  }

  /** Vector2.equals on two chunk positions, which on the grid is plain equality. */
  method SamePosition(g1: GridVector2, g2: GridVector2) returns (r: bool)
    ensures r <==> g1 == g2
  {
    GridEquals(g1, g2);
    r := Equals(Some(AsVector(g1)), Some(AsVector(g2)), DefaultTolerance);
  }

  /** The cursor loop of eat, over a 4096-entry buffer that drops writes past its end. */
  method MergeCapped(a: seq<uint16>, b: seq<uint16>) returns (r: seq<uint16>)
    ensures r == Capped(Merge(a, b))
  {
    var out := new uint16[ChunkArea];
    var i, j, k, emitted := MergeHeads(out, a, b);
    if i < |a| {
      assert b[j..] == [];
      k, emitted := CopyTail(out, k, emitted, a[i..]);
    } else {
      assert a[i..] == [];
      k, emitted := CopyTail(out, k, emitted, b[j..]);
    }
    assert emitted == Merge(a, b);
    r := out[..if k < ChunkArea then k else ChunkArea];
  }

  /** The `while (true)` part of eat: runs until one input is used up. */
  method MergeHeads(out: array<uint16>, a: seq<uint16>, b: seq<uint16>)
    returns (i: nat, j: nat, k: nat, ghost emitted: seq<uint16>)
    requires out.Length == ChunkArea
    modifies out
    ensures i <= |a| && j <= |b| && (i == |a| || j == |b|) && k == |emitted|
    ensures emitted + Merge(a[i..], b[j..]) == Merge(a, b)
    ensures forall t :: 0 <= t < k && t < ChunkArea ==> out[t] == emitted[t]
  {
    i, j, k := 0, 0, 0;
    emitted := [];
    while i < |a| && j < |b|
      invariant 0 <= i <= |a| && 0 <= j <= |b| && k == |emitted|
      invariant emitted + Merge(a[i..], b[j..]) == Merge(a, b)
      invariant forall t :: 0 <= t < k && t < ChunkArea ==> out[t] == emitted[t]
      decreases |a| - i + |b| - j
    {
      var ci, cj := GetLocation(a[i]), GetLocation(b[j]);
      var x: uint16;
      ghost var rest := Merge(a[i..], b[j..]);
      MergeUnfold(a, b, i, j);
      if ci < cj {
        x := a[i];
        i := i + 1;
      } else if ci == cj {
        x := b[j];
        i, j := i + 1, j + 1;
      } else {
        x := b[j];
        j := j + 1;
      }
      assert rest == [x] + Merge(a[i..], b[j..]);
      assert (emitted + [x]) + Merge(a[i..], b[j..]) == emitted + rest;
      if k < ChunkArea {
        out[k] := x;
      }
      k := k + 1;
      emitted := emitted + [x];
    }
  }

  /** The tail copy of eat: the rest of the input that is not used up. */
  method CopyTail(out: array<uint16>, k0: nat, ghost emitted0: seq<uint16>, tail: seq<uint16>)
    returns (k: nat, ghost emitted: seq<uint16>)
    requires out.Length == ChunkArea && k0 == |emitted0|
    requires forall t :: 0 <= t < k0 && t < ChunkArea ==> out[t] == emitted0[t]
    modifies out
    ensures emitted == emitted0 + tail && k == |emitted|
    ensures forall t :: 0 <= t < k && t < ChunkArea ==> out[t] == emitted[t]
  {
    k, emitted := k0, emitted0;
    var n := 0;
    while n < |tail|
      invariant 0 <= n <= |tail| && k == |emitted| && emitted == emitted0 + tail[..n]
      invariant forall t :: 0 <= t < k && t < ChunkArea ==> out[t] == emitted[t]
    {
      if k < ChunkArea {
        out[k] := tail[n];
      }
      k := k + 1;
      emitted := emitted + [tail[n]];
      n := n + 1;
    }
    assert tail[..n] == tail;
  }
  /** Painting one more entry changes only the four bytes at its location. */
  lemma PaintStep(d: seq<uint16>, i: nat)
    requires i < |d| && AllKnown(d[..i]) && Extract(d[i]).index < |KnownOres|
    ensures AllKnown(d[..i + 1])
    ensures Paint(d[..i + 1]) ==
      Paint(d[..i])[..4 * Extract(d[i]).location] + Rgba(d[i]) + Paint(d[..i])[4 * Extract(d[i]).location + 4..]
  {
    assert d[..i + 1][..i] == d[..i];
    assert d[..i + 1][i] == d[i];
  }

  /** The four stores toPixels makes for one entry. */
  method PaintEntry(pixels: array<byte>, c: uint16)
    requires pixels.Length == PixelBytes && Extract(c).index < |KnownOres|
    modifies pixels
    ensures pixels[..] == old(pixels[..])[..4 * Extract(c).location] + Rgba(c) + old(pixels[..])[4 * Extract(c).location + 4..]
  {
    var element := Extract(c);
    var at := element.location * 4;
    var ore := KnownOres[element.index];
    pixels[at] := ore.color.red;
    pixels[at + 1] := ore.color.green;
    pixels[at + 2] := ore.color.blue;
    pixels[at + 3] := 0xff;
  }
}
