// The byte buffer with a moving cursor: an ArrayBuffer read and written
// through a little-endian DataView.
module ByteBuffer {
  import opened Bytes
  import opened Wrappers

  /** The integer widths the buffer reads and writes. */
  datatype Width = W8 | W16 | W32
  {
    function Size(): nat
    {
      match this
      case W8 => 1
      case W16 => 2
      case W32 => 4
    }
  }

  /** What `Buffer.from` is given: an ArrayBuffer, a Buffer, or anything else. */
  datatype BufferLike = ArrayBufferLike(data: array<byte>) | BufferObject(buffer: Buffer) | Unsupported

  class Buffer {
    /** The ArrayBuffer; shared with the caller when the buffer was built over one. */
    var bytes: array<byte>
    /** The cursor used by reads and writes that are given no explicit offset. */
    var offset: nat

    ghost predicate Valid()
      reads this
    {
      offset <= bytes.Length
    }

    /** A buffer of `size` zero bytes with the cursor at 0. */
    constructor (size: nat)
      ensures Valid() && fresh(bytes)
      ensures bytes.Length == size && offset == 0
      ensures forall i :: 0 <= i < size ==> bytes[i] == 0
    {
      bytes := new byte[size](_ => 0);
      offset := 0;
    }

    /** A buffer over an existing ArrayBuffer: the bytes are shared, not copied. */
    constructor Over(data: array<byte>)
      ensures Valid() && bytes == data && offset == 0
    {
      bytes := data;
      offset := 0;
    }

    function Size(): (n: nat)
      reads this
      ensures n == bytes.Length
    {
      bytes.Length
    }

    /** The position an access uses: the explicit offset if given, else the cursor. */
    function Position(at: Option<nat>): nat
      reads this
    {
      if at.Some? then at.value else offset
    }

    /** The cursor after an access of `n` bytes. */
    function Advanced(at: Option<nat>, n: nat): nat
      reads this
    {
      if at.None? then offset + n else offset
    }

    /** readUint8, readUint16, readUint32. */
    method ReadUint(w: Width, at: Option<nat>) returns (value: nat)
      requires Valid() && Position(at) + w.Size() <= bytes.Length
      modifies this`offset
      ensures Valid() && offset == old(Advanced(at, w.Size()))
      ensures value == DecodeLE(bytes[old(Position(at))..old(Position(at)) + w.Size()])
      ensures value < Pow256(w.Size())
    {
      var p := Position(at);
      value := DecodeLE(bytes[p..p + w.Size()]);
      DecodeLEBound(bytes[p..p + w.Size()]);
      offset := Advanced(at, w.Size());
    }

    /** readInt8, readInt16, readInt32: the same bytes read as two's complement. */
    method ReadInt(w: Width, at: Option<nat>) returns (value: int)
      requires Valid() && Position(at) + w.Size() <= bytes.Length
      modifies this`offset
      ensures Valid() && offset == old(Advanced(at, w.Size()))
      ensures value == ToSigned(DecodeLE(bytes[old(Position(at))..old(Position(at)) + w.Size()]), w.Size())
      ensures InSignedRange(value, w.Size())
    {
      var u := ReadUint(w, at);
      value := ToSigned(u, w.Size());
    }

    /**
     * writeUint8/16/32 and writeInt8/16/32: the value modulo 2^(8n), stored
     * little-endian. Signed and unsigned writes store the same bytes.
     */
    method Write(w: Width, v: int, at: Option<nat>)
      requires Valid() && Position(at) + w.Size() <= bytes.Length
      modifies this`offset, bytes
      ensures Valid() && offset == old(Advanced(at, w.Size()))
      ensures bytes[..] == old(bytes[..Position(at)]) + EncodeLE(v, w.Size()) + old(bytes[Position(at) + w.Size()..])
    {
      var p := Position(at);
      Store(p, EncodeLE(v, w.Size()));
      offset := Advanced(at, w.Size());
    }

    /** readFloat64, with the number kept as its 8 IEEE-754 bytes. */
    method ReadFloat64Bits(at: Option<nat>) returns (bits: seq<byte>)
      requires Valid() && Position(at) + 8 <= bytes.Length
      modifies this`offset
      ensures Valid() && offset == old(Advanced(at, 8))
      ensures bits == bytes[old(Position(at))..old(Position(at)) + 8]
    {
      var p := Position(at);
      bits := bytes[p..p + 8];
      offset := Advanced(at, 8);
    }

    /** writeFloat64, with the number given as its 8 IEEE-754 bytes. */
    method WriteFloat64Bits(bits: seq<byte>, at: Option<nat>)
      requires Valid() && |bits| == 8 && Position(at) + 8 <= bytes.Length
      modifies this`offset, bytes
      ensures Valid() && offset == old(Advanced(at, 8))
      ensures bytes[..] == old(bytes[..Position(at)]) + bits + old(bytes[Position(at) + 8..])
    {
      var p := Position(at);
      Store(p, bits);
      offset := Advanced(at, 8);
    }

    method Store(p: nat, s: seq<byte>)
      requires p + |s| <= bytes.Length
      modifies bytes
      ensures bytes[..] == old(bytes[..p]) + s + old(bytes[p + |s|..])
    {
      forall i | 0 <= i < |s| {
        bytes[p + i] := s[i];
      }
      assert bytes[..] == old(bytes[..p]) + s + old(bytes[p + |s|..]);
    }

    /** Same size and identical bytes. */
    method Equals(other: Buffer) returns (r: bool)
      ensures r <==> bytes[..] == other.bytes[..]
    {
      if bytes.Length != other.bytes.Length {
        return false;
      }
      var i := 0;
      while i < bytes.Length
        invariant 0 <= i <= bytes.Length
        invariant bytes[..i] == other.bytes[..i]
      {
        if bytes[i] != other.bytes[i] {
          assert bytes[..][i] != other.bytes[..][i];
          return false;
        }
        i := i + 1;
      }
      assert bytes[..] == bytes[..i];
      return true;
    }

    method ResetOffset()
      modifies this`offset
      ensures offset == 0
    {
      offset := 0;
    }

    /** A new Buffer over a copy of the source's bytes; anything else is a TypeError. */
    static method From(source: BufferLike) returns (r: Result<Buffer>)
      ensures source.Unsupported? <==> r.Err?
      ensures source.ArrayBufferLike? ==>
        (r.Ok? && fresh(r.value) && fresh(r.value.bytes) && r.value.bytes[..] == source.data[..] && r.value.offset == 0)
      ensures source.BufferObject? ==>
        (r.Ok? && fresh(r.value) && fresh(r.value.bytes) && r.value.bytes[..] == source.buffer.bytes[..] && r.value.offset == 0)
    {
      if source.Unsupported? {
        return Err("Unsupported buffer type.");
      }
      var data := if source.ArrayBufferLike? then source.data else source.buffer.bytes;
      var copy := new byte[data.Length](i reads data => if 0 <= i < data.Length then data[i] else 0);
      assert copy[..] == data[..];
      var b := new Buffer.Over(copy);
      r := Ok(b);
    }
  }

  /** Writing then reading at the same position returns an in-range unsigned value. */
  lemma WriteReadUint(before: seq<byte>, p: nat, w: Width, v: int)
    requires p + w.Size() <= |before| && 0 <= v < Pow256(w.Size())
    ensures var after := before[..p] + EncodeLE(v, w.Size()) + before[p + w.Size()..];
      DecodeLE(after[p..p + w.Size()]) == v
  {
    var after := before[..p] + EncodeLE(v, w.Size()) + before[p + w.Size()..];
    assert after[p..p + w.Size()] == EncodeLE(v, w.Size());
    UnsignedRoundTrip(v, w.Size());
  }

  /** Writing then reading at the same position returns an in-range signed value. */
  lemma WriteReadInt(before: seq<byte>, p: nat, w: Width, v: int)
    requires p + w.Size() <= |before| && InSignedRange(v, w.Size())
    ensures var after := before[..p] + EncodeLE(v, w.Size()) + before[p + w.Size()..];
      ToSigned(DecodeLE(after[p..p + w.Size()]), w.Size()) == v
  {
    var after := before[..p] + EncodeLE(v, w.Size()) + before[p + w.Size()..];
    assert after[p..p + w.Size()] == EncodeLE(v, w.Size());
    SignedRoundTrip(v, w.Size());
  }
}
