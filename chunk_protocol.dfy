// ChunkAggregatorProtocol: writeChunk, writeChunkList, readChunk and
// readChunkList, which move a Buffer cursor. Each is proved to lay down or
// read exactly the bytes that ChunkCodec describes.
module ChunkProtocol {
  import opened Bytes
  import opened Wrappers
  import opened BitCompactor
  import opened Vectors
  import opened ByteBuffer
  import opened ChunkCodec
  import opened SeqFacts

  /**
   * The bytes s0 had before writing began at p0, with `done` laid over them
   * from p0 and the cursor just past it.
   */
  ghost predicate Laid(b: Buffer, s0: seq<byte>, p0: nat, done: seq<byte>)
    reads b, b.bytes
  {
    b.Valid() && b.bytes.Length == |s0| && b.offset == p0 + |done|
    && b.bytes[..] == s0[..p0] + done + s0[p0 + |done|..]
  }

  /** Laying w right after `done` lays done + w. */
  lemma LayMore(s0: seq<byte>, p0: nat, done: seq<byte>, x: seq<byte>, w: seq<byte>)
    requires p0 + |done| + |w| <= |s0| == |x| && x == s0[..p0] + done + s0[p0 + |done|..]
    ensures x[..p0 + |done|] + w + x[p0 + |done| + |w|..] == s0[..p0] + (done + w) + s0[p0 + |done| + |w|..]
  {
    assert x[..p0 + |done|] == s0[..p0] + done;
    assert x[p0 + |done| + |w|..] == s0[p0 + |done| + |w|..];
  }

  /** One integer write at the cursor, seen as extending what was laid. */
  method Put(b: Buffer, w: Width, v: int, ghost s0: seq<byte>, ghost p0: nat, ghost done: seq<byte>)
    requires Laid(b, s0, p0, done) && b.offset + w.Size() <= b.bytes.Length
    modifies b`offset, b.bytes
    ensures Laid(b, s0, p0, done + EncodeLE(v, w.Size()))
  {
    LayMore(s0, p0, done, b.bytes[..], EncodeLE(v, w.Size()));
    b.Write(w, v, None);
  }

  /** Nothing laid yet. */
  lemma LaidNothing(b: Buffer)
    requires b.Valid()
    ensures Laid(b, b.bytes[..], b.offset, [])
  {
    assert b.bytes[..] == b.bytes[..][..b.offset] + [] + b.bytes[..][b.offset..];
  }

  lemma EncodeByte(v: byte)
    ensures EncodeLE(v, 1) == [v]
  {
  }

  lemma EntriesStep(es: seq<uint16>, i: nat)
    requires i < |es|
    ensures EntriesBytes(es[..i + 1]) == EntriesBytes(es[..i]) + EncodeLE(es[i], 2)
  {
    assert es[..i + 1][..i] == es[..i];
  }

  /** The fixed-size head of writeChunk: start marker, x, y and the entry count. */
  method WriteChunkHead(b: Buffer, c: ChunkValue, ghost s0: seq<byte>, ghost p0: nat, ghost done: seq<byte>)
    requires Laid(b, s0, p0, done) && b.offset + 13 <= b.bytes.Length
    modifies b`offset, b.bytes
    ensures Laid(b, s0, p0, done + [ChunkStartSection] + EncodeLE(c.position.x, 4) + EncodeLE(c.position.y, 4)
      + EncodeLE(|c.entries|, 4))
  {
    EncodeByte(ChunkStartSection);
    Put(b, W8, ChunkStartSection, s0, p0, done);
    Put(b, W32, c.position.x, s0, p0, done + [ChunkStartSection]);
    Put(b, W32, c.position.y, s0, p0, done + [ChunkStartSection] + EncodeLE(c.position.x, 4));
    Put(b, W32, |c.entries|, s0, p0, done + [ChunkStartSection] + EncodeLE(c.position.x, 4) + EncodeLE(c.position.y, 4));
  }

  /** The entry loop of writeChunk: one uint16 per entry, in order. */
  method WriteEntries(b: Buffer, es: seq<uint16>, ghost s0: seq<byte>, ghost p0: nat, ghost head: seq<byte>)
    requires Laid(b, s0, p0, head) && b.offset + 2 * |es| <= b.bytes.Length
    modifies b`offset, b.bytes
    ensures Laid(b, s0, p0, head + EntriesBytes(es))
  {
    var i := 0;
    while i < |es|
      invariant 0 <= i <= |es|
      invariant Laid(b, s0, p0, head + EntriesBytes(es[..i]))
    {
      Put(b, W16, es[i], s0, p0, head + EntriesBytes(es[..i]));
      EntriesStep(es, i);
      AppendSplit(head, EntriesBytes(es[..i + 1]), EntriesBytes(es[..i]), EncodeLE(es[i], 2));
      i := i + 1;
    }
    assert es[..i] == es;
  }

  /** writeChunk, seen as extending what was laid before it. */
  method LayChunk(b: Buffer, c: ChunkValue, ghost s0: seq<byte>, ghost p0: nat, ghost done: seq<byte>)
    requires Laid(b, s0, p0, done) && b.offset + SizeOfChunk(c) <= b.bytes.Length
    modifies b`offset, b.bytes
    ensures Laid(b, s0, p0, done + ChunkBytes(c))
  {
    WriteChunkHead(b, c, s0, p0, done);
    ghost var head := done + [ChunkStartSection] + EncodeLE(c.position.x, 4) + EncodeLE(c.position.y, 4)
      + EncodeLE(|c.entries|, 4);
    WriteEntries(b, c.entries, s0, p0, head);
    EncodeByte(ChunkEndSection);
    Put(b, W8, ChunkEndSection, s0, p0, head + EntriesBytes(c.entries));
    AppendParts(done, [ChunkStartSection], EncodeLE(c.position.x, 4), EncodeLE(c.position.y, 4),
      EncodeLE(|c.entries|, 4), EntriesBytes(c.entries), [ChunkEndSection]);
  }

  /** writeChunk: lays down exactly ChunkBytes(c) at the cursor and moves past it. */
  method WriteChunk(b: Buffer, c: ChunkValue)
    requires b.Valid() && b.offset + SizeOfChunk(c) <= b.bytes.Length
    modifies b`offset, b.bytes
    ensures Laid(b, old(b.bytes[..]), old(b.offset), ChunkBytes(c))
  {
    LaidNothing(b);
    LayChunk(b, c, b.bytes[..], b.offset, []);
    assert [] + ChunkBytes(c) == ChunkBytes(c);
  }

  lemma ChunksStep(cs: seq<ChunkValue>, i: nat)
    requires i < |cs|
    ensures ChunksBytes(cs[..i + 1]) == ChunksBytes(cs[..i]) + ChunkBytes(cs[i])
    ensures SumOfSizes(cs[..i + 1]) == SumOfSizes(cs[..i]) + SizeOfChunk(cs[i])
  {
    assert cs[..i + 1][..i] == cs[..i];
  }

  lemma {:induction false} SumOfSizesPrefix(cs: seq<ChunkValue>, i: nat)
    requires i <= |cs|
    ensures SumOfSizes(cs[..i]) <= SumOfSizes(cs)
    decreases |cs|
  {
    if i < |cs| {
      var front := cs[..|cs| - 1];
      assert front[..i] == cs[..i];
      SumOfSizesPrefix(front, i);
    } else {
      assert cs[..i] == cs;
    }
  }

  /** One pass of the chunk loop of writeChunkList. */
  method WriteNextChunk(b: Buffer, cs: seq<ChunkValue>, i: nat, ghost s0: seq<byte>, ghost p0: nat, ghost head: seq<byte>)
    requires i < |cs| && Laid(b, s0, p0, head + ChunksBytes(cs[..i]))
    requires p0 + |head| + SumOfSizes(cs) <= |s0|
    modifies b`offset, b.bytes
    ensures Laid(b, s0, p0, head + ChunksBytes(cs[..i + 1]))
  {
    ChunksStep(cs, i);
    SumOfSizesPrefix(cs, i + 1);
    LayChunk(b, cs[i], s0, p0, head + ChunksBytes(cs[..i]));
    AppendSplit(head, ChunksBytes(cs[..i + 1]), ChunksBytes(cs[..i]), ChunkBytes(cs[i]));
  }

  /** The chunk loop of writeChunkList: every chunk, in order. */
  method WriteChunks(b: Buffer, cs: seq<ChunkValue>, ghost s0: seq<byte>, ghost p0: nat, ghost head: seq<byte>)
    requires Laid(b, s0, p0, head) && b.offset + SumOfSizes(cs) <= b.bytes.Length
    modifies b`offset, b.bytes
    ensures Laid(b, s0, p0, head + ChunksBytes(cs))
  {
    var i := 0;
    assert cs[..0] == [];
    while i < |cs|
      invariant 0 <= i <= |cs|
      invariant Laid(b, s0, p0, head + ChunksBytes(cs[..i]))
    {
      WriteNextChunk(b, cs, i, s0, p0, head);
      i := i + 1;
    }
    assert cs[..i] == cs;
  }

  /** writeChunkList: lays down exactly ChunkListBytes(cs) at the cursor and moves past it. */
  method WriteChunkList(b: Buffer, cs: seq<ChunkValue>)
    requires b.Valid() && b.offset + SizeOfChunkList(cs) <= b.bytes.Length
    modifies b`offset, b.bytes
    ensures Laid(b, old(b.bytes[..]), old(b.offset), ChunkListBytes(cs))
  {
    ghost var s0, p0 := b.bytes[..], b.offset;
    LaidNothing(b);
    EncodeByte(ChunkListStartSection);
    Put(b, W8, ChunkListStartSection, s0, p0, []);
    Put(b, W32, |cs|, s0, p0, [ChunkListStartSection]);
    ghost var head := [ChunkListStartSection] + EncodeLE(|cs|, 4);
    WriteChunks(b, cs, s0, p0, head);
    EncodeByte(ChunkListEndSection);
    Put(b, W8, ChunkListEndSection, s0, p0, head + ChunksBytes(cs));
  }

  /**
   * What a read through the cursor gives: the decoded value with the cursor
   * left where decoding ended, or the error the decoder names.
   */
  ghost predicate Delivers<T>(r: Result<T>, cursor: nat, d: Result<(T, nat)>)
  {
    if d.Ok? then r == Ok(d.value.0) && cursor == d.value.1 else r == Err(d.error)
  }

  /** One DataView read at the cursor: the RangeError past the end, else the value and an advanced cursor. */
  method Take(b: Buffer, w: Width) returns (r: Result<nat>)
    requires b.Valid()
    modifies b`offset
    ensures b.Valid() && r == ReadUnsigned(b.bytes[..], old(b.offset), w.Size())
    ensures r.Ok? ==> b.offset == old(b.offset) + w.Size() && r.value < Pow256(w.Size())
  {
    if b.offset + w.Size() > b.bytes.Length {
      return Err(RangeError);
    }
    var v := b.ReadUint(w, None);
    return Ok(v);
  }

  /** The entry loop of readChunk: n uint16 values from the cursor on. */
  method ReadEntriesAt(b: Buffer, n: nat) returns (r: Result<seq<uint16>>)
    requires b.Valid()
    modifies b`offset
    ensures b.Valid() && r == ReadEntries(b.bytes[..], old(b.offset), n)
    ensures r.Ok? ==> b.offset == old(b.offset) + 2 * n
  {
    ghost var s, p := b.bytes[..], b.offset;
    var es: seq<uint16> := [];
    var i := 0;
    while i < n
      invariant 0 <= i <= n && b.Valid() && b.offset == p + 2 * i
      invariant ReadEntries(s, p, i) == Ok(es)
    {
      var e := Take(b, W16);
      if e.Err? {
        assert ReadEntries(s, p, n).Err?;
        return Err(RangeError);
      }
      es := es + [e.value];
      i := i + 1;
    }
    r := Ok(es);
  }

  /** readChunk: the chunk DecodeChunk finds at the cursor, or the error it names. */
  method ReadChunk(b: Buffer) returns (r: Result<ChunkValue>)
    requires b.Valid()
    modifies b`offset
    ensures b.Valid() && Delivers(r, b.offset, DecodeChunk(b.bytes[..], old(b.offset)))
  {
    var start := Take(b, W8);
    if start.Err? {
      return Err(start.error);
    }
    if start.value != ChunkStartSection {
      return Err(ChunkStartExpected);
    }
    var x := Take(b, W32);
    if x.Err? {
      return Err(x.error);
    }
    var y := Take(b, W32);
    if y.Err? {
      return Err(y.error);
    }
    var n := Take(b, W32);
    if n.Err? {
      return Err(n.error);
    }
    var es := ReadEntriesAt(b, n.value);
    if es.Err? {
      return Err(es.error);
    }
    var end := Take(b, W8);
    if end.Err? {
      return Err(end.error);
    }
    if end.value != ChunkEndSection {
      return Err(ChunkEndExpected);
    }
    r := Ok(ChunkValue(GridOfWords(x.value, y.value), es.value));
  }

  /** Once the chunk loop has failed, reading more chunks fails the same way. */
  lemma {:induction false} ReadChunksFails(s: seq<byte>, p: nat, i: nat, n: nat)
    requires i <= n && ReadChunks(s, p, i).Err?
    ensures ReadChunks(s, p, n) == ReadChunks(s, p, i)
    decreases n - i
  {
    if i < n {
      ReadChunksFails(s, p, i, n - 1);
    }
  }

  lemma ReadChunksStepFails(s: seq<byte>, p: nat, front: seq<ChunkValue>, q: nat)
    requires ReadChunks(s, p, |front|) == Ok((front, q)) && DecodeChunk(s, q).Err?
    ensures ReadChunks(s, p, |front| + 1) == Err(DecodeChunk(s, q).error)
  {
  }

  /** The chunk loop of readChunkList: n chunks from the cursor on. */
  method ReadChunksAt(b: Buffer, n: nat) returns (r: Result<seq<ChunkValue>>)
    requires b.Valid()
    modifies b`offset
    ensures b.Valid() && Delivers(r, b.offset, ReadChunks(b.bytes[..], old(b.offset), n))
  {
    ghost var s, p := b.bytes[..], b.offset;
    var cs: seq<ChunkValue> := [];
    var i := 0;
    while i < n
      invariant 0 <= i <= n && b.Valid() && b.bytes[..] == s
      invariant |cs| == i && ReadChunks(s, p, i) == Ok((cs, b.offset))
    {
      ghost var q := b.offset;
      var c := ReadChunk(b);
      if c.Err? {
        ReadChunksStepFails(s, p, cs, q);
        ReadChunksFails(s, p, i + 1, n);
        return Err(c.error);
      }
      ReadChunksStep(s, p, i + 1, cs, q, c.value, b.offset);
      cs := cs + [c.value];
      i := i + 1;
    }
    r := Ok(cs);
  }

  /** readChunkList: the list DecodeChunkList finds at the cursor, or the error it names. */
  method ReadChunkList(b: Buffer) returns (r: Result<seq<ChunkValue>>)
    requires b.Valid()
    modifies b`offset
    ensures b.Valid() && Delivers(r, b.offset, DecodeChunkList(b.bytes[..], old(b.offset)))
  {
    var start := Take(b, W8);
    if start.Err? {
      return Err(start.error);
    }
    if start.value != ChunkListStartSection {
      return Err(ChunkListStartExpected);
    }
    var n := Take(b, W32);
    if n.Err? {
      return Err(n.error);
    }
    var cs := ReadChunksAt(b, n.value);
    if cs.Err? {
      return Err(cs.error);
    }
    var end := Take(b, W8);
    if end.Err? {
      return Err(end.error);
    }
    if end.value != ChunkListEndSection {
      return Err(ChunkListEndExpected);
    }
    r := cs;
  }
}
