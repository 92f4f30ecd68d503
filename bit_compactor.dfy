// Packing of one ore pixel (a 12-bit location inside the 64x64 chunk and a
// 4-bit palette index) into a 16-bit number.
//
// On JavaScript numbers, `x & 0xf` and `x & 0xfff` keep the low 4 and 12 bits
// of the 32-bit two's complement of x, which is x modulo 16 and 4096 (Dafny's
// `%` never returns a negative value); `x >> 4` is floor division by 16; and
// `|` of two values with disjoint bits is their sum. The functions below are
// written in those terms.
module BitCompactor {
  import opened Bytes

  datatype ChunkElement = ChunkElement(location: int, index: int)

  type uint16 = x: int | 0 <= x < 0x1_0000

  /** (index & 0xf) | ((location & 0xfff) << 4) */
  function Compress(e: ChunkElement): (c: uint16)
    ensures c % 16 == e.index % 16 && c / 16 == e.location % 4096
  {
    e.index % 16 + 16 * (e.location % 4096)
  }

  /** { index: c & 0xf, location: (c >> 4) & 0xfff } */
  function Extract(c: int): (e: ChunkElement)
    ensures 0 <= e.index < 16 && 0 <= e.location < 4096
  {
    ChunkElement((c / 16) % 4096, c % 16)
  }

  /** (c >> 4) & 0xfff, the location field alone. */
  function GetLocation(c: int): (l: int)
    ensures l == Extract(c).location
    ensures 0 <= c < 0x1_0000 ==> l == c / 16
  {
    (c / 16) % 4096
  }

  /** Fields in range come back unchanged. */
  lemma ExtractCompress(e: ChunkElement)
    requires 0 <= e.location < 4096 && 0 <= e.index < 16
    ensures Extract(Compress(e)) == e
  {
    var c := Compress(e);
    ModUnique(c, 16, e.location, e.index);
  }

  /** Every 16-bit value is the packing of its own fields. */
  lemma CompressExtract(c: uint16)
    ensures Compress(Extract(c)) == c
  {
  }

  /** Out-of-range fields are reduced to their low 12 and 4 bits. */
  lemma CompressMasks(e: ChunkElement)
    ensures Compress(e) == Compress(ChunkElement(e.location % 4096, e.index % 16))
  {
  }

  /** The location occupies the high bits, so packed values order by location first. */
  lemma CompressOrdersByLocation(e1: ChunkElement, e2: ChunkElement)
    requires 0 <= e1.location < e2.location < 4096
    ensures Compress(e1) < Compress(e2)
  {
    assert 16 * e1.location + 16 <= 16 * e2.location;
  }

  /** Two packed values with the same location differ only in their index. */
  lemma SameLocation(c1: uint16, c2: uint16)
    requires GetLocation(c1) == GetLocation(c2) && c1 % 16 == c2 % 16
    ensures c1 == c2
  {
  }
}
