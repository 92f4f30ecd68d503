// The tiny viewer's client: the same handshake gate and event wiring as the
// viewer's, over the raw data the `ws` package hands out.
module TinyClient {
  import opened Bytes
  import opened Wrappers
  import opened ByteBuffer
  import opened MapProtocol
  import opened ViewerClient

  /** What `ws` delivers: an ArrayBuffer, a Node Buffer (a window on an ArrayBuffer), or anything else. */
  datatype RawData =
    | RawArrayBuffer(data: array<byte>)
    | NodeBuffer(backing: array<byte>, byteOffset: nat, byteLength: nat)
    | OtherRaw

  /** The window ArrayBuffer.slice copies: both ends clamped to the backing length. */
  function Window(backing: seq<byte>, byteOffset: nat, byteLength: nat): (r: seq<byte>)
    ensures byteOffset + byteLength <= |backing| ==> r == backing[byteOffset..byteOffset + byteLength]
    ensures |r| <= byteLength
  {
    var start := if byteOffset < |backing| then byteOffset else |backing|;
    var end := if byteOffset + byteLength < |backing| then byteOffset + byteLength else |backing|;
    backing[start..end]
  }

  /**
   * AsBuffer: an ArrayBuffer is wrapped without copying; a Node Buffer's
   * exact window is copied into a fresh ArrayBuffer; anything else throws.
   */
  method AsBuffer(raw: RawData) returns (r: Result<Buffer>)
    ensures raw.OtherRaw? <==> r.Err?
    ensures raw.OtherRaw? ==> r == Err("Unable to convert to buffer.")
    ensures raw.RawArrayBuffer? ==> r.Ok? && fresh(r.value) && r.value.bytes == raw.data && r.value.offset == 0
    ensures raw.NodeBuffer? ==> (r.Ok? && fresh(r.value) && fresh(r.value.bytes) && r.value.offset == 0
      && r.value.bytes[..] == Window(raw.backing[..], raw.byteOffset, raw.byteLength))
  {
    if raw.RawArrayBuffer? {
      var b := new Buffer.Over(raw.data);
      return Ok(b);
    } else if raw.NodeBuffer? {
      var window := Window(raw.backing[..], raw.byteOffset, raw.byteLength);
      var copy := new byte[|window|](i requires 0 <= i < |window| => window[i]);
      assert copy[..] == window;
      var b := new Buffer.Over(copy);
      return Ok(b);
    }
    return Err("Unable to convert to buffer.");
  }

  /** The bytes a raw message stands for, when AsBuffer accepts it. */
  function RawBytes(raw: RawData): seq<byte>
    reads if raw.RawArrayBuffer? then {raw.data} else if raw.NodeBuffer? then {raw.backing} else {}
  {
    match raw
    case RawArrayBuffer(data) => data[..]
    case NodeBuffer(backing, byteOffset, byteLength) => Window(backing[..], byteOffset, byteLength)
    case OtherRaw => []
  }

  /** Client: one scanner connected to the tiny viewer. */
  class Client {
    const id: string
    var position: PositionBits
    var hasHandshaked: bool
    const handler: ProtocolHandler
    const socket: Socket
    /** The handshake buffer shared by every client. */
    const handshake: Buffer
    /** The events fired so far, in order; the listeners are not modelled. */
    var fired: seq<ClientEvent>

    /** The id comes from the random id provider, here a parameter; the position starts at the origin. */
    constructor (id: string, socket: Socket, handshake: Buffer)
      ensures this.id == id && position == Origin && !hasHandshaked && fired == []
      ensures this.socket == socket && this.handshake == handshake && fresh(handler) && handler.emitted == []
    {
      this.id := id;
      position := Origin;
      this.socket := socket;
      handler := new ProtocolHandler();
      this.handshake := handshake;
      hasHandshaked := false;
      fired := [];
    }

    /** close: the socket is closed. */
    method Close()
      modifies socket`closed
      ensures socket.closed
    {
      socket.Close();
    }

    /** The socket's close event fires Disconnect. */
    method Disconnected()
      modifies this`fired
      ensures fired == old(fired) + [Disconnect]
    {
      fired := fired + [Disconnect];
    }

    /**
     * feed: data AsBuffer refuses throws before anything changes; otherwise
     * the message is fed as Feeding says.
     */
    method Feed(raw: RawData) returns (outcome: Outcome)
      modifies this`hasHandshaked, this`position, this`fired, handler
      ensures raw.OtherRaw? ==> (outcome == Fail("Unable to convert to buffer.")
        && hasHandshaked == old(hasHandshaked) && position == old(position) && fired == old(fired))
      ensures !raw.OtherRaw? ==> var r := Feeding(old(hasHandshaked), handshake.bytes[..], old(position), old(RawBytes(raw)));
        hasHandshaked == r.handshaked && position == r.position && fired == old(fired) + r.events && outcome == r.outcome
    {
      var message := AsBuffer(raw);
      if message.Err? {
        return Fail(message.error);
      }
      if !hasHandshaked {
        hasHandshaked := true;
        var same := handshake.Equals(message.value);
        if same {
          return Pass;
        }
        return Fail("Bad handshake!");
      }
      outcome := Deliver(message.value);
    }

    /** handle and the handler's listeners: the decoded message becomes an event. */
    method Deliver(message: Buffer) returns (outcome: Outcome)
      requires hasHandshaked
      modifies this`position, this`fired, handler
      ensures var r := Feeding(true, handshake.bytes[..], old(position), old(message.bytes[..]));
        position == r.position && fired == old(fired) + r.events && outcome == r.outcome
    {
      outcome := handler.Handle(BufferObject(message));
      if outcome.Fail? {
        return;
      }
      var m := handler.emitted[|handler.emitted| - 1];
      match m
      case ChunkMessage(c) =>
        fired := fired + [ChunkReceived(c)];
      case PositionMessage(p) =>
        position := p;
        fired := fired + [PositionUpdated(p)];
    }
  }
}
