// The map scanner's wire protocol: a tag byte, then either a chunk in the
// chunk aggregator's format or a position as two float64 fields, and the
// handler that tells the two apart.
module MapProtocol {
  import opened Bytes
  import opened Wrappers
  import opened Vectors
  import opened ByteBuffer
  import opened ChunkCodec
  import opened ChunkProtocol

  // The error messages, as the source spells them.
  const ChunkTypeExpected: string := "Chunk message type expected."
  const PositionTypeExpected: string := "Position message type expected."

  /** ProtocolMessageType.Chunk */
  const ChunkTag: byte := 0x1
  /** ProtocolMessageType.Position */
  const PositionTag: byte := 0x2

  /** A position as it travels: the two float64 fields, kept as their 8-byte patterns. */
  datatype PositionBits = PositionBits(x: seq<byte>, y: seq<byte>)
  {
    predicate WellFormed()
    {
      |x| == 8 && |y| == 8
    }
  }

  /** What the handler emits: a chunk, or a position. */
  datatype Message = ChunkMessage(chunk: ChunkValue) | PositionMessage(position: PositionBits)

  /** encode.chunk: the tag, then exactly what writeChunk lays down. */
  function ChunkMessageBytes(c: ChunkValue): (r: seq<byte>)
    ensures |r| == 1 + SizeOfChunk(c) && r[0] == ChunkTag && r[1..] == ChunkBytes(c)
  {
    [ChunkTag] + ChunkBytes(c)
  }

  /** encode.position: the tag, then x and y as 8 bytes each. */
  function PositionMessageBytes(pos: PositionBits): (r: seq<byte>)
    requires pos.WellFormed()
    ensures |r| == 17 && r[0] == PositionTag && r[1..9] == pos.x && r[9..] == pos.y
  {
    [PositionTag] + pos.x + pos.y
  }

  /** decode.chunk from cursor p: the tag must be 0x1, then readChunk. */
  function DecodeChunkMessage(s: seq<byte>, p: nat): (r: Result<(ChunkValue, nat)>)
    ensures p < |s| && s[p] != ChunkTag ==> r == Err(ChunkTypeExpected)
    ensures r.Ok? ==> p < |s| && s[p] == ChunkTag && r.value.1 == p + 1 + SizeOfChunk(r.value.0) <= |s|
  {
    var tag :- ReadUnsigned(s, p, 1);
    if tag != ChunkTag as nat then Err(ChunkTypeExpected) else DecodeChunk(s, p + 1)
  }

  /** decode.position from cursor p: the tag must be 0x2, then two float64 reads. */
  function DecodePositionMessage(s: seq<byte>, p: nat): (r: Result<(PositionBits, nat)>)
    ensures p < |s| && s[p] != PositionTag ==> r == Err(PositionTypeExpected)
    ensures r.Ok? ==> p < |s| && s[p] == PositionTag && r.value.0.WellFormed() && r.value.1 == p + 17 <= |s|
  {
    var tag :- ReadUnsigned(s, p, 1);
    if tag != PositionTag as nat then Err(PositionTypeExpected)
    else if p + 17 > |s| then Err(RangeError)
    else Ok((PositionBits(s[p + 1..p + 9], s[p + 9..p + 17]), p + 17))
  }

  /** handle on the bytes of its copy: the tag at 0 picks the decoder; any other tag is refused. */
  function Handled(s: seq<byte>): (r: Result<Message>)
    ensures |s| == 0 ==> r == Err(RangeError)
    ensures |s| > 0 && s[0] != ChunkTag && s[0] != PositionTag ==>
      r == Err("Unsupported protocol message " + IntToString(s[0] as int) + ".")
    ensures r.Ok? ==> |s| > 0 && (r.value.ChunkMessage? <==> s[0] == ChunkTag) && (r.value.PositionMessage? <==> s[0] == PositionTag)
  {
    var tag :- ReadUnsigned(s, 0, 1);
    if tag == ChunkTag as nat then
      var d :- DecodeChunkMessage(s, 0);
      Ok(ChunkMessage(d.0))
    else if tag == PositionTag as nat then
      var d :- DecodePositionMessage(s, 0);
      Ok(PositionMessage(d.0))
    else
      Err("Unsupported protocol message " + IntToString(tag) + ".")
  }

  /** A chunk message decodes to its chunk, with the cursor at its end. */
  lemma ChunkMessageDecodes(c: ChunkValue)
    requires Encodable(c)
    ensures DecodeChunkMessage(ChunkMessageBytes(c), 0) == Ok((c, |ChunkMessageBytes(c)|))
  {
    ChunkAfterTag(c, ChunkMessageBytes(c));
  }

  lemma ChunkAfterTag(c: ChunkValue, s: seq<byte>)
    requires Encodable(c) && s == [ChunkTag] + ChunkBytes(c)
    ensures DecodeChunk(s, 1) == Ok((c, |s|))
  {
    HoldsWhole(s, 1);
    assert s[1..] == ChunkBytes(c);
    ChunkRoundTrip(s, 1, |s|, c);
  }

  /** The handler emits the chunk of a chunk message. */
  lemma ChunkMessageRoundTrip(c: ChunkValue)
    requires Encodable(c)
    ensures Handled(ChunkMessageBytes(c)) == Ok(ChunkMessage(c))
  {
    ChunkMessageDecodes(c);
  }

  /** A position message decodes to its two fields, and the handler emits them. */
  lemma PositionMessageRoundTrip(pos: PositionBits)
    requires pos.WellFormed()
    ensures DecodePositionMessage(PositionMessageBytes(pos), 0) == Ok((pos, 17))
    ensures Handled(PositionMessageBytes(pos)) == Ok(PositionMessage(pos))
  {
    var s := PositionMessageBytes(pos);
    assert s[1..9] == pos.x && s[9..17] == pos.y;
  }

  /** encode.chunk: a fresh buffer of 1 + sizeOfChunk bytes, cursor at its end. */
  method EncodeChunk(c: ChunkValue) returns (b: Buffer)
    ensures fresh(b) && fresh(b.bytes) && b.Valid()
    ensures b.bytes[..] == ChunkMessageBytes(c) && b.offset == b.bytes.Length
  {
    b := new Buffer(1 + SizeOfChunk(c));
    b.Write(W8, ChunkTag as int, None);
    ghost var s1 := b.bytes[..];
    assert s1[..1] == [ChunkTag];
    WriteChunk(b, c);
    assert s1[1 + |ChunkBytes(c)|..] == [];
  }

  /** encode.position: a fresh 17-byte buffer, cursor at its end. */
  method EncodePosition(pos: PositionBits) returns (b: Buffer)
    requires pos.WellFormed()
    ensures fresh(b) && fresh(b.bytes) && b.Valid()
    ensures b.bytes[..] == PositionMessageBytes(pos) && b.offset == b.bytes.Length
  {
    b := new Buffer(1 + 8 * 2);
    b.Write(W8, PositionTag as int, None);
    b.WriteFloat64Bits(pos.x, None);
    b.WriteFloat64Bits(pos.y, None);
    EncodeByte(PositionTag);
    assert b.bytes[..] == [PositionTag] + pos.x + pos.y;
  }

  /** decode.chunk: the message DecodeChunkMessage finds at the cursor. */
  method DecodeChunkFrom(b: Buffer) returns (r: Result<ChunkValue>)
    requires b.Valid()
    modifies b`offset
    ensures b.Valid() && Delivers(r, b.offset, DecodeChunkMessage(b.bytes[..], old(b.offset)))
  {
    var tag := Take(b, W8);
    if tag.Err? {
      return Err(tag.error);
    }
    if tag.value != ChunkTag as nat {
      return Err(ChunkTypeExpected);
    }
    r := ReadChunk(b);
  }

  /** decode.position: the message DecodePositionMessage finds at the cursor. */
  method DecodePositionFrom(b: Buffer) returns (r: Result<PositionBits>)
    requires b.Valid()
    modifies b`offset
    ensures b.Valid() && Delivers(r, b.offset, DecodePositionMessage(b.bytes[..], old(b.offset)))
  {
    var tag := Take(b, W8);
    if tag.Err? {
      return Err(tag.error);
    }
    if tag.value != PositionTag as nat {
      return Err(PositionTypeExpected);
    }
    if b.offset + 16 > b.bytes.Length {
      return Err(RangeError);
    }
    var x := b.ReadFloat64Bits(None);
    var y := b.ReadFloat64Bits(None);
    return Ok(PositionBits(x, y));
  }

  /** ProtocolHandler: decodes each message and emits it to its listeners. */
  class ProtocolHandler {
    /** The messages emitted so far, in order; the listeners are not modelled. */
    var emitted: seq<Message>

    constructor ()
      ensures emitted == []
    {
      emitted := [];
    }

    /**
     * handle: works on a copy of data, reads the tag at 0 without moving the
     * cursor, then decodes and emits; a failure emits nothing.
     */
    method Handle(data: BufferLike) returns (outcome: Outcome)
      modifies this
      ensures data.Unsupported? ==> outcome.Fail? && emitted == old(emitted)
      ensures data.ArrayBufferLike? ==> Emits(old(data.data[..]), old(emitted), outcome)
      ensures data.BufferObject? ==> Emits(old(data.buffer.bytes[..]), old(emitted), outcome)
    {
      var copy := Buffer.From(data);
      if copy.Err? {
        return Fail(copy.error);
      }
      var b := copy.value;
      if b.bytes.Length < 1 {
        return Fail(RangeError);
      }
      var tag := b.ReadUint(W8, Some(0));
      if tag == ChunkTag as nat {
        var c := DecodeChunkFrom(b);
        if c.Err? {
          return Fail(c.error);
        }
        emitted := emitted + [ChunkMessage(c.value)];
      } else if tag == PositionTag as nat {
        var pos := DecodePositionFrom(b);
        if pos.Err? {
          return Fail(pos.error);
        }
        emitted := emitted + [PositionMessage(pos.value)];
      } else {
        return Fail("Unsupported protocol message " + IntToString(tag) + ".");
      }
      return Pass;
    }

    /** What handling the bytes s does: emits Handled(s)'s message, or fails with its error. */
    ghost predicate Emits(s: seq<byte>, before: seq<Message>, outcome: Outcome)
      reads this
    {
      match Handled(s)
      case Ok(m) => outcome == Pass && emitted == before + [m]
      case Err(e) => outcome == Fail(e) && emitted == before
    }
  }
}
