// The binary format of the chunk aggregator: magic-byte framed chunks and
// chunk lists, written and read through a Buffer cursor.
module ChunkCodec {
  import opened Bytes
  import opened Wrappers
  import opened Vectors
  import opened BitCompactor
  import opened Chunks
  import opened ByteBuffer
  import opened SeqFacts

  // The error messages, as the source spells them.
  const ChunkStartExpected: string := "Chunk start section expected."
  const ChunkEndExpected: string := "Chunk end section expected."
  const ChunkListStartExpected: string := "Chunk List start section expected."
  const ChunkListEndExpected: string := "Chunk List end section expected."
  const InvalidBuffer: string := "Buffer provided is not valid."

  const Init: byte := 0xb4
  const ChunkStartSection: byte := 0x12
  const ChunkEndSection: byte := 0xcf
  const ChunkListStartSection: byte := 0x7c
  const ChunkListEndSection: byte := 0xe5

  /** The RangeError a DataView throws for an access past its end. */
  const RangeError := "Offset is outside the bounds of the DataView"

  /** What a chunk contributes to the format: its position and its entries. */
  datatype ChunkValue = ChunkValue(position: GridVector2, entries: seq<uint16>)

  /** Positions fit a signed 32-bit field and the entry count an unsigned one. */
  ghost predicate Encodable(c: ChunkValue)
  {
    InSignedRange(c.position.x, 4) && InSignedRange(c.position.y, 4) && |c.entries| < Pow256(4)
  }

  ghost predicate AllEncodable(cs: seq<ChunkValue>)
  {
    forall i :: 0 <= i < |cs| ==> Encodable(cs[i])
  }

  /** sizeOfChunk: 14 bytes of framing plus two per entry. */
  function SizeOfChunk(c: ChunkValue): nat
  {
    14 + 2 * |c.entries|
  }

  function SumOfSizes(cs: seq<ChunkValue>): nat
  {
    if cs == [] then 0 else SumOfSizes(cs[..|cs| - 1]) + SizeOfChunk(cs[|cs| - 1])
  }

  /** sizeOfChunkList: 6 bytes of framing plus the size of every chunk. */
  function SizeOfChunkList(cs: seq<ChunkValue>): nat
  {
    6 + SumOfSizes(cs)
  }

  function EntriesBytes(es: seq<uint16>): (r: seq<byte>)
    ensures |r| == 2 * |es|
  {
    if es == [] then [] else EntriesBytes(es[..|es| - 1]) + EncodeLE(es[|es| - 1], 2)
  }

  /** writeChunk: 0x12, x and y as int32, the entry count as uint32, the entries as uint16, 0xcf. */
  function ChunkBytes(c: ChunkValue): (r: seq<byte>)
    ensures |r| == SizeOfChunk(c)
    ensures r[0] == ChunkStartSection && r[|r| - 1] == ChunkEndSection
  {
    [ChunkStartSection] + EncodeLE(c.position.x, 4) + EncodeLE(c.position.y, 4)
      + EncodeLE(|c.entries|, 4) + EntriesBytes(c.entries) + [ChunkEndSection]
  }

  function ChunksBytes(cs: seq<ChunkValue>): (r: seq<byte>)
    ensures |r| == SumOfSizes(cs)
  {
    if cs == [] then [] else ChunksBytes(cs[..|cs| - 1]) + ChunkBytes(cs[|cs| - 1])
  }

  /** writeChunkList: 0x7c, the chunk count as uint32, every chunk, 0xe5. */
  function ChunkListBytes(cs: seq<ChunkValue>): (r: seq<byte>)
    ensures |r| == SizeOfChunkList(cs)
    ensures r[0] == ChunkListStartSection && r[|r| - 1] == ChunkListEndSection
  {
    [ChunkListStartSection] + EncodeLE(|cs|, 4) + ChunksBytes(cs) + [ChunkListEndSection]
  }

  /** export: the Init byte followed by the chunk list, filling exactly 1 + sizeOfChunkList bytes. */
  function ExportBytes(cs: seq<ChunkValue>): (r: seq<byte>)
    ensures |r| == 1 + SizeOfChunkList(cs) && r[0] == Init
  {
    [Init] + ChunkListBytes(cs)
  }

  /** An unsigned little-endian read of n bytes at p, or the DataView's RangeError. */
  function ReadUnsigned(s: seq<byte>, p: nat, n: nat): (r: Result<nat>)
    ensures r.Ok? <==> p + n <= |s|
    ensures r.Err? ==> r.error == RangeError
    ensures n == 1 && p < |s| ==> r == Ok(s[p] as nat)
  {
    if p + n <= |s| then
      ReadSingle(s, p, n);
      Ok(DecodeLE(s[p..p + n]))
    else Err(RangeError)
  }

  lemma ReadSingle(s: seq<byte>, p: nat, n: nat)
    requires p + n <= |s|
    ensures n == 1 ==> DecodeLE(s[p..p + n]) == s[p] as nat
  {
    if n == 1 {
      assert s[p..p + n] == [s[p]];
      assert [s[p]][1..] == [];
    }
  }

  /** The read loop of readChunk: n uint16 entries from p. */
  function ReadEntries(s: seq<byte>, p: nat, n: nat): (r: Result<seq<uint16>>)
    ensures r.Ok? <==> (n == 0 || p + 2 * n <= |s|)
    ensures r.Ok? ==> |r.value| == n
    ensures r.Err? ==> r.error == RangeError
  {
    if n == 0 then Ok([])
    else
      var rest :- ReadEntries(s, p, n - 1);
      var e :- ReadUnsigned(s, p + 2 * (n - 1), 2);
      DecodeLEBound(s[p + 2 * (n - 1)..p + 2 * n]);
      Ok(rest + [e])
  }

  /** readChunk from position p: the chunk and the cursor after it, or the error thrown. */
  function DecodeChunk(s: seq<byte>, p: nat): (r: Result<(ChunkValue, nat)>)
    ensures p < |s| && s[p] != ChunkStartSection ==> r == Err(ChunkStartExpected)
    ensures r.Ok? ==> r.value.1 == p + SizeOfChunk(r.value.0) <= |s|
  {
    var start :- ReadUnsigned(s, p, 1);
    if start != ChunkStartSection then Err(ChunkStartExpected)
    else
      var x :- ReadUnsigned(s, p + 1, 4);
      var y :- ReadUnsigned(s, p + 5, 4);
      var n :- ReadUnsigned(s, p + 9, 4);
      var es :- ReadEntries(s, p + 13, n);
      CloseChunk(s, x, y, es, p + 13 + 2 * n)
  }

  /** The position readChunk builds from the two words it read: `new GridVector2` of two getInt32 values. */
  function GridOfWords(x: nat, y: nat): GridVector2
  {
    GridVector2(ToSigned(x, 4), ToSigned(y, 4))
  }

  /** The `| 0` in the GridVector2 constructor leaves a getInt32 value unchanged, so GridOfWords is that constructor. */
  lemma GridOfWordsIsMakeGrid(x: nat, y: nat)
    requires x < Pow256(4) && y < Pow256(4)
    ensures GridOfWords(x, y) == MakeGrid(ToSigned(x, 4) as real, ToSigned(y, 4) as real)
  {
    assert Pow256(4) == 0x1_0000_0000;
    MakeGridIdempotent(GridOfWords(x, y));
  }

  /** The end of readChunk: the end marker at q after the entries, and the chunk built from the fields read. */
  function CloseChunk(s: seq<byte>, x: nat, y: nat, es: seq<uint16>, q: nat): (r: Result<(ChunkValue, nat)>)
    ensures r.Ok? <==> ReadUnsigned(s, q, 1) == Ok(ChunkEndSection as nat)
    ensures r.Ok? ==> r.value == (ChunkValue(GridOfWords(x, y), es), q + 1)
  {
    var end :- ReadUnsigned(s, q, 1);
    if end != ChunkEndSection then Err(ChunkEndExpected)
    else Ok((ChunkValue(GridOfWords(x, y), es), q + 1))
  }

  /** The loop of readChunkList: n chunks one after the other from p. */
  function ReadChunks(s: seq<byte>, p: nat, n: nat): (r: Result<(seq<ChunkValue>, nat)>)
    ensures r.Ok? ==> |r.value.0| == n && r.value.1 == p + SumOfSizes(r.value.0)
    ensures r.Ok? && n > 0 ==> r.value.1 <= |s|
  {
    if n == 0 then Ok(([], p))
    else
      var rest :- ReadChunks(s, p, n - 1);
      var next :- DecodeChunk(s, rest.1);
      assert (rest.0 + [next.0])[..n - 1] == rest.0;
      Ok((rest.0 + [next.0], next.1))
  }

  /** readChunkList from position p. */
  function DecodeChunkList(s: seq<byte>, p: nat): (r: Result<(seq<ChunkValue>, nat)>)
    ensures p < |s| && s[p] != ChunkListStartSection ==> r == Err(ChunkListStartExpected)
  {
    var start :- ReadUnsigned(s, p, 1);
    if start != ChunkListStartSection then Err(ChunkListStartExpected)
    else
      var n :- ReadUnsigned(s, p + 1, 4);
      var chunks :- ReadChunks(s, p + 5, n);
      CloseChunkList(s, chunks.0, chunks.1)
  }

  /** The end of readChunkList: the end marker at q after the chunks. */
  function CloseChunkList(s: seq<byte>, cs: seq<ChunkValue>, q: nat): (r: Result<(seq<ChunkValue>, nat)>)
    ensures r.Ok? <==> ReadUnsigned(s, q, 1) == Ok(ChunkListEndSection as nat)
    ensures r.Ok? ==> r.value == (cs, q + 1)
  {
    var end :- ReadUnsigned(s, q, 1);
    if end != ChunkListEndSection then Err(ChunkListEndExpected)
    else Ok((cs, q + 1))
  }

  /** The reading half of import: the Init byte, then the chunk list. */
  function DecodeExport(s: seq<byte>): (r: Result<seq<ChunkValue>>)
    ensures |s| > 0 && s[0] != Init ==> r == Err(InvalidBuffer)
    ensures |s| == 0 ==> r == Err(RangeError)
  {
    var first :- ReadUnsigned(s, 0, 1);
    if first != Init then Err(InvalidBuffer)
    else
      var list :- DecodeChunkList(s, 1);
      Ok(list.0)
  }

  // ---- round trips ----

  /** The i-th byte of w; the placement facts below are about it rather than about w[i], so that they apply only where a proof asks for them. */
  ghost function ByteOf(w: seq<byte>, i: nat): byte
    requires i < |w|
  {
    w[i]
  }

  /** The bytes of w sit in s from position p on. */
  ghost predicate Holds(s: seq<byte>, p: nat, w: seq<byte>)
  {
    p + |w| <= |s| && forall i: nat {:trigger ByteOf(w, i)} :: i < |w| ==> s[p + i] == ByteOf(w, i)
  }

  /** Bytes laid down as a + b at p hold a at p and b from q = p + |a| on. */
  lemma SplitAt(s: seq<byte>, p: nat, q: nat, whole: seq<byte>, a: seq<byte>, b: seq<byte>)
    requires whole == a + b && q == p + |a| && Holds(s, p, whole)
    ensures Holds(s, p, a) && Holds(s, q, b)
  {
    forall i: nat | i < |a|
      ensures s[p + i] == ByteOf(a, i)
    {
      assert ByteOf(whole, i) == a[i];
    }
    forall i: nat | i < |b|
      ensures s[q + i] == ByteOf(b, i)
    {
      assert ByteOf(whole, |a| + i) == b[i];
    }
  }

  /** Every sequence holds its own suffix from p. */
  lemma HoldsWhole(s: seq<byte>, p: nat)
    requires p <= |s|
    ensures Holds(s, p, s[p..])
  {
  }

  /** A read of the bytes of w where they sit. */
  lemma ReadHeld(s: seq<byte>, q: nat, w: seq<byte>)
    requires Holds(s, q, w)
    ensures ReadUnsigned(s, q, |w|) == Ok(DecodeLE(w))
  {
    SliceHeld(s, q, w);
  }

  /** Held bytes are the slice of s they occupy. */
  lemma SliceHeld(s: seq<byte>, q: nat, w: seq<byte>)
    requires Holds(s, q, w)
    ensures q + |w| <= |s| && s[q..q + |w|] == w
  {
    forall i | 0 <= i < |w|
      ensures s[q..q + |w|][i] == w[i]
    {
      assert s[q + i] == ByteOf(w, i);
    }
  }

  lemma SmallMod(v: nat, n: nat)
    requires v < Pow256(n)
    ensures v % Pow256(n) == v
  {
    ModUnique(v, Pow256(n), 0, v);
  }

  /** Reading n bytes where EncodeLE(v, n) was written gives v modulo 256^n. */
  lemma ReadEncoded(s: seq<byte>, q: nat, v: int, n: nat)
    requires Holds(s, q, EncodeLE(v, n))
    ensures ReadUnsigned(s, q, n) == Ok(v % Pow256(n))
  {
    ReadHeld(s, q, EncodeLE(v, n));
    DecodeEncode(v, n);
  }

  /** Reading n bytes where an in-range v was written gives v back. */
  lemma ReadEncodedSmall(s: seq<byte>, q: nat, v: nat, n: nat)
    requires v < Pow256(n) && Holds(s, q, EncodeLE(v, n))
    ensures ReadUnsigned(s, q, n) == Ok(v)
  {
    ReadEncoded(s, q, v, n);
    SmallMod(v, n);
  }

  /** Reading one byte where it was written. */
  lemma ReadMarker(s: seq<byte>, q: nat, b: byte)
    requires Holds(s, q, [b])
    ensures ReadUnsigned(s, q, 1) == Ok(b as nat)
  {
    ReadHeld(s, q, [b]);
  }

  lemma ReadEntriesStep(s: seq<byte>, p: nat, n: nat, front: seq<uint16>, e: uint16)
    requires n > 0 && ReadEntries(s, p, n - 1) == Ok(front) && ReadUnsigned(s, p + 2 * (n - 1), 2) == Ok(e)
    ensures ReadEntries(s, p, n) == Ok(front + [e])
  {
  }

  lemma EntriesBytesLast(es: seq<uint16>)
    requires es != []
    ensures EntriesBytes(es) == EntriesBytes(es[..|es| - 1]) + EncodeLE(es[|es| - 1], 2)
  {
  }

  /** The entries written at p hold the front entries, then the last one as a uint16. */
  lemma EntriesLastRead(s: seq<byte>, p: nat, es: seq<uint16>)
    requires es != [] && Holds(s, p, EntriesBytes(es))
    ensures Holds(s, p, EntriesBytes(es[..|es| - 1]))
    ensures Holds(s, p + 2 * (|es| - 1), EncodeLE(es[|es| - 1], 2))
  {
    var a, b := EntriesBytes(es[..|es| - 1]), EncodeLE(es[|es| - 1], 2);
    assert EntriesBytes(es) == a + b by {
      EntriesBytesLast(es);
    }
    SplitAt(s, p, p + 2 * (|es| - 1), EntriesBytes(es), a, b);
  }

  lemma Uint16Fits(v: uint16)
    ensures v < Pow256(2)
  {
  }

  lemma {:induction false} EntriesRoundTrip(s: seq<byte>, p: nat, es: seq<uint16>)
    requires Holds(s, p, EntriesBytes(es))
    ensures ReadEntries(s, p, |es|) == Ok(es)
  {
    if es != [] {
      EntriesLastRead(s, p, es);
      Uint16Fits(es[|es| - 1]);
      ReadEncodedSmall(s, p + 2 * (|es| - 1), es[|es| - 1], 2);
      EntriesRoundTrip(s, p, es[..|es| - 1]);
      ReadEntriesStep(s, p, |es|, es[..|es| - 1], es[|es| - 1]);
      LastSplit(es);
    }
  }

  /** What readChunk reads at p: the start marker, x and y as words, the count n, n entries, the end marker. */
  ghost predicate ChunkFieldsAt(s: seq<byte>, p: nat, x: int, y: int, n: nat, es: seq<uint16>)
  {
    && ReadUnsigned(s, p, 1) == Ok(ChunkStartSection as nat)
    && ReadUnsigned(s, p + 1, 4) == Ok(x % Pow256(4))
    && ReadUnsigned(s, p + 5, 4) == Ok(y % Pow256(4))
    && ReadUnsigned(s, p + 9, 4) == Ok(n)
    && ReadEntries(s, p + 13, |es|) == Ok(es)
    && ReadUnsigned(s, p + 13 + 2 * |es|, 1) == Ok(ChunkEndSection as nat)
  }

  /** The start marker, the two position words and the count read back. */
  lemma ChunkHeadRead(s: seq<byte>, p: nat, x: int, y: int, n: nat)
    requires n < Pow256(4)
    requires Holds(s, p, [ChunkStartSection]) && Holds(s, p + 1, EncodeLE(x, 4)) && Holds(s, p + 5, EncodeLE(y, 4))
    requires Holds(s, p + 9, EncodeLE(n, 4))
    ensures ReadUnsigned(s, p, 1) == Ok(ChunkStartSection as nat)
    ensures ReadUnsigned(s, p + 1, 4) == Ok(x % Pow256(4)) && ReadUnsigned(s, p + 5, 4) == Ok(y % Pow256(4))
    ensures ReadUnsigned(s, p + 9, 4) == Ok(n)
  {
    ReadMarker(s, p, ChunkStartSection);
    ReadEncoded(s, p + 1, x, 4);
    ReadEncoded(s, p + 5, y, 4);
    ReadEncodedSmall(s, p + 9, n, 4);
  }

  /** The entries and the end marker right after them read back. */
  lemma ChunkTailRead(s: seq<byte>, q: nat, e: nat, es: seq<uint16>)
    requires e == q + 2 * |es| && Holds(s, q, EntriesBytes(es)) && Holds(s, e, [ChunkEndSection])
    ensures ReadEntries(s, q, |es|) == Ok(es) && ReadUnsigned(s, e, 1) == Ok(ChunkEndSection as nat)
  {
    EntriesRoundTrip(s, q, es);
    ReadMarker(s, e, ChunkEndSection);
  }

  /** The six parts of a chunk's layout, each held at its own offset. */
  lemma ChunkParts(s: seq<byte>, p: nat, e: nat, w1: seq<byte>, w2: seq<byte>, w3: seq<byte>, w4: seq<byte>, w5: seq<byte>, w6: seq<byte>)
    requires |w1| == 1 && |w2| == 4 && |w3| == 4 && |w4| == 4 && e == p + 13 + |w5|
    requires Holds(s, p, w1 + w2 + w3 + w4 + w5 + w6)
    ensures Holds(s, p, w1) && Holds(s, p + 1, w2) && Holds(s, p + 5, w3) && Holds(s, p + 9, w4)
    ensures Holds(s, p + 13, w5) && Holds(s, e, w6)
  {
    SplitAt(s, p, e, w1 + w2 + w3 + w4 + w5 + w6, w1 + w2 + w3 + w4 + w5, w6);
    SplitAt(s, p, p + 13, w1 + w2 + w3 + w4 + w5, w1 + w2 + w3 + w4, w5);
    SplitAt(s, p, p + 9, w1 + w2 + w3 + w4, w1 + w2 + w3, w4);
    SplitAt(s, p, p + 5, w1 + w2 + w3, w1 + w2, w3);
    SplitAt(s, p, p + 1, w1 + w2, w1, w2);
  }

  /** Fields that read back as the parts of an encodable chunk decode to that chunk. */
  lemma DecodeChunkAt(s: seq<byte>, p: nat, q: nat, c: ChunkValue)
    requires Encodable(c) && q == p + SizeOfChunk(c)
    requires ChunkFieldsAt(s, p, c.position.x, c.position.y, |c.entries|, c.entries)
    ensures DecodeChunk(s, p) == Ok((c, q))
  {
    var x, y := c.position.x % Pow256(4), c.position.y % Pow256(4);
    PositionRoundTrip(c.position);
    assert CloseChunk(s, x, y, c.entries, q - 1) == Ok((ChunkValue(GridOfWords(x, y), c.entries), q));
  }

  lemma Int32RoundTrip(x: int)
    requires InSignedRange(x, 4)
    ensures ToSigned(x % Pow256(4), 4) == x
  {
    DecodeEncode(x, 4);
    SignedRoundTrip(x, 4);
  }

  /** readChunk restores what writeChunk wrote and leaves the cursor right after it. */
  lemma ChunkRoundTrip(s: seq<byte>, p: nat, q: nat, c: ChunkValue)
    requires Encodable(c) && Holds(s, p, ChunkBytes(c)) && q == p + SizeOfChunk(c)
    ensures DecodeChunk(s, p) == Ok((c, q))
  {
    var e := p + 13 + 2 * |c.entries|;
    ChunkParts(s, p, e, [ChunkStartSection], EncodeLE(c.position.x, 4), EncodeLE(c.position.y, 4),
      EncodeLE(|c.entries|, 4), EntriesBytes(c.entries), [ChunkEndSection]);
    ChunkHeadRead(s, p, c.position.x, c.position.y, |c.entries|);
    ChunkTailRead(s, p + 13, e, c.entries);
    DecodeChunkAt(s, p, q, c);
  }

  /** A position written as two int32 words reads back as itself. */
  lemma PositionRoundTrip(g: GridVector2)
    requires InSignedRange(g.x, 4) && InSignedRange(g.y, 4)
    ensures GridOfWords(g.x % Pow256(4), g.y % Pow256(4)) == g
  {
    Int32RoundTrip(g.x);
    Int32RoundTrip(g.y);
  }

  lemma ReadChunksStep(s: seq<byte>, p: nat, n: nat, front: seq<ChunkValue>, q: nat, c: ChunkValue, q': nat)
    requires n == |front| + 1
    requires ReadChunks(s, p, |front|) == Ok((front, q)) && DecodeChunk(s, q) == Ok((c, q'))
    ensures ReadChunks(s, p, n) == Ok((front + [c], q'))
  {
  }

  lemma ChunksBytesLast(cs: seq<ChunkValue>)
    requires cs != []
    ensures ChunksBytes(cs) == ChunksBytes(cs[..|cs| - 1]) + ChunkBytes(cs[|cs| - 1])
    ensures SumOfSizes(cs) == SumOfSizes(cs[..|cs| - 1]) + SizeOfChunk(cs[|cs| - 1])
  {
  }

  lemma AllEncodableFront(cs: seq<ChunkValue>)
    requires cs != [] && AllEncodable(cs)
    ensures AllEncodable(cs[..|cs| - 1]) && Encodable(cs[|cs| - 1])
  {
  }

  /** The chunks written at p hold the front chunks, then the last chunk. */
  lemma ChunksLastRead(s: seq<byte>, p: nat, q: nat, cs: seq<ChunkValue>)
    requires cs != [] && q == p + SumOfSizes(cs[..|cs| - 1]) && Holds(s, p, ChunksBytes(cs))
    ensures Holds(s, p, ChunksBytes(cs[..|cs| - 1]))
    ensures Holds(s, q, ChunkBytes(cs[|cs| - 1]))
  {
    ChunksBytesLast(cs);
    SplitAt(s, p, q, ChunksBytes(cs), ChunksBytes(cs[..|cs| - 1]), ChunkBytes(cs[|cs| - 1]));
  }

  lemma ReadNoChunks(s: seq<byte>, p: nat, q: nat, cs: seq<ChunkValue>)
    requires cs == [] && q == p
    ensures ReadChunks(s, p, |cs|) == Ok((cs, q))
  {
  }

  /** readChunkList's loop restores, in order, the chunks written one after the other from p up to q. */
  lemma {:induction false} ChunksRoundTrip(s: seq<byte>, p: nat, q: nat, cs: seq<ChunkValue>)
    requires AllEncodable(cs) && Holds(s, p, ChunksBytes(cs)) && q == p + SumOfSizes(cs)
    ensures ReadChunks(s, p, |cs|) == Ok((cs, q))
  {
    if cs == [] {
      ReadNoChunks(s, p, q, cs);
    } else {
      var mid: nat := p + SumOfSizes(cs[..|cs| - 1]);
      ChunksLastRead(s, p, mid, cs);
      AllEncodableFront(cs);
      ChunkRoundTrip(s, mid, q, cs[|cs| - 1]);
      ChunksRoundTrip(s, p, mid, cs[..|cs| - 1]);
      ReadChunksStep(s, p, |cs|, cs[..|cs| - 1], mid, cs[|cs| - 1], q);
      LastSplit(cs);
    }
  }

  lemma DecodeChunkListFields(s: seq<byte>, p: nat, cs: seq<ChunkValue>, q: nat, q': nat)
    requires ReadUnsigned(s, p, 1) == Ok(ChunkListStartSection as nat)
    requires ReadUnsigned(s, p + 1, 4) == Ok(|cs|)
    requires ReadChunks(s, p + 5, |cs|) == Ok((cs, q))
    requires ReadUnsigned(s, q, 1) == Ok(ChunkListEndSection as nat)
    requires q' == q + 1
    ensures DecodeChunkList(s, p) == Ok((cs, q'))
  {
    CloseChunkListOk(s, cs, q);
  }

  lemma CloseChunkListOk(s: seq<byte>, cs: seq<ChunkValue>, q: nat)
    requires ReadUnsigned(s, q, 1) == Ok(ChunkListEndSection as nat)
    ensures CloseChunkList(s, cs, q) == Ok((cs, q + 1))
  {
  }

  /** A frame laid down at p reads back: the start marker, the count, the body from p + 5, and the end marker at e right after it. */
  lemma FrameRead(s: seq<byte>, p: nat, e: nat, first: byte, n: nat, body: seq<byte>, last: byte)
    requires n < Pow256(4) && Holds(s, p, [first] + EncodeLE(n, 4) + body + [last]) && e == p + 5 + |body|
    ensures ReadUnsigned(s, p, 1) == Ok(first as nat)
    ensures ReadUnsigned(s, p + 1, 4) == Ok(n)
    ensures Holds(s, p + 5, body)
    ensures ReadUnsigned(s, e, 1) == Ok(last as nat)
  {
    FrameSplit(s, p, e, first, EncodeLE(n, 4), body, last);
    ReadMarker(s, p, first);
    ReadEncodedSmall(s, p + 1, n, 4);
    ReadMarker(s, e, last);
  }

  /** A frame laid down at p: the start marker, a count, the body up to e, and the end marker at e. */
  lemma FrameSplit(s: seq<byte>, p: nat, e: nat, first: byte, count: seq<byte>, body: seq<byte>, last: byte)
    requires Holds(s, p, [first] + count + body + [last]) && e == p + 1 + |count| + |body|
    ensures Holds(s, p, [first]) && Holds(s, p + 1, count)
    ensures Holds(s, p + 1 + |count|, body) && Holds(s, e, [last])
  {
    SplitAt(s, p, e, [first] + count + body + [last], [first] + count + body, [last]);
    SplitAt(s, p, p + 1 + |count|, [first] + count + body, [first] + count, body);
    MarkerSplit(s, p, first, count);
  }

  /** A marker byte followed by w, laid down at p: the marker at p and w right after it. */
  lemma MarkerSplit(s: seq<byte>, p: nat, m: byte, w: seq<byte>)
    requires Holds(s, p, [m] + w)
    ensures Holds(s, p, [m]) && Holds(s, p + 1, w)
  {
    SplitAt(s, p, p + 1, [m] + w, [m], w);
  }

  /** readChunkList restores, in order, the chunks writeChunkList wrote from p up to q. */
  lemma ChunkListRoundTrip(s: seq<byte>, p: nat, q: nat, cs: seq<ChunkValue>)
    requires AllEncodable(cs) && |cs| < Pow256(4) && Holds(s, p, ChunkListBytes(cs))
    requires q == p + SizeOfChunkList(cs)
    ensures DecodeChunkList(s, p) == Ok((cs, q))
  {
    var e: nat := p + 5 + SumOfSizes(cs);
    FrameRead(s, p, e, ChunkListStartSection, |cs|, ChunksBytes(cs), ChunkListEndSection);
    ChunksRoundTrip(s, p + 5, e, cs);
    DecodeChunkListFields(s, p, cs, e, q);
  }

  /** Decoding an export gives back exactly the exported chunks, in order. */
  lemma ExportRoundTrip(cs: seq<ChunkValue>)
    requires AllEncodable(cs) && |cs| < Pow256(4)
    ensures DecodeExport(ExportBytes(cs)) == Ok(cs)
  {
    var s := ExportBytes(cs);
    var q: nat := 1 + SizeOfChunkList(cs);
    HoldsWhole(s, 0);
    assert s[0..] == [Init] + ChunkListBytes(cs);
    SplitAt(s, 0, 1, s[0..], [Init], ChunkListBytes(cs));
    ReadMarker(s, 0, Init);
    ChunkListRoundTrip(s, 1, q, cs);
  }
}
