// The virtual-channel frames: a 16-byte channel identifier (the MD5 digest
// of the channel name), one opcode byte, then the payload.
module ChannelFrames {
  import opened Bytes
  import opened Wrappers

  /** A channel identifier: the digest's 16 bytes. */
  type Identifier = s: seq<byte> | |s| == 16 witness seq(16, i => 0)

  /** ChannelCode */
  const InitiateCode: byte := 0
  const ResolveCode: byte := 1
  const MessageCode: byte := 2
  const CloseCode: byte := 3

  /** A frame on the wire: identifier, opcode, payload. */
  function Frame(identifier: Identifier, code: byte, payload: seq<byte>): (r: seq<byte>)
    ensures |r| == 17 + |payload| && r[..16] == identifier && r[16] == code && r[17..] == payload
  {
    identifier + [code] + payload
  }

  /** check: the message is at least as long as the identifier and starts with it. */
  predicate Addressed(identifier: seq<byte>, message: seq<byte>)
  {
    |message| >= |identifier| && message[..|identifier|] == identifier
  }

  /** tryExtract: the bytes after the identifier, or none when the message is not for this channel. */
  function TryExtract(identifier: seq<byte>, message: seq<byte>): (r: Option<seq<byte>>)
    ensures |message| < |identifier| ==> r == None
    ensures (exists i :: 0 <= i < |identifier| <= |message| && identifier[i] != message[i]) ==> r == None
    ensures r.Some? ==> identifier + r.value == message
  {
    if Addressed(identifier, message) then Some(message[|identifier|..]) else None
  }

  /** A message that starts with the identifier always yields what follows it. */
  lemma ExtractAddressed(identifier: seq<byte>, rest: seq<byte>)
    ensures TryExtract(identifier, identifier + rest) == Some(rest)
  {
    assert (identifier + rest)[..|identifier|] == identifier;
  }

  /** A frame built for a channel gives back its opcode and payload, and nothing on another channel. */
  lemma FrameRoundTrip(identifier: Identifier, other: Identifier, code: byte, payload: seq<byte>)
    ensures TryExtract(identifier, Frame(identifier, code, payload)) == Some([code] + payload)
    ensures other != identifier ==> TryExtract(other, Frame(identifier, code, payload)) == None
  {
    assert Frame(identifier, code, payload) == identifier + ([code] + payload);
    ExtractAddressed(identifier, [code] + payload);
  }

  /** check, as the loop it is: false when short, false at the first differing byte, else true. */
  method Check(identifier: seq<byte>, message: seq<byte>) returns (r: bool)
    ensures r <==> Addressed(identifier, message)
  {
    if |message| < |identifier| {
      return false;
    }
    for i := 0 to |identifier|
      invariant identifier[..i] == message[..i]
    {
      if identifier[i] != message[i] {
        return false;
      }
      assert identifier[..i + 1] == message[..i + 1];
    }
    assert identifier[..|identifier|] == identifier;
    return true;
  }
}
