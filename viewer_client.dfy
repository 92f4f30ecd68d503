// A map-scanner client as the viewer sees it: the first message must be the
// bridge handshake, every later one goes to the protocol handler, and the
// handler's messages become client events.
module ViewerClient {
  import opened Bytes
  import opened Wrappers
  import opened ByteBuffer
  import opened ChunkCodec
  import opened MapProtocol

  /** What a Client fires to its listeners. */
  datatype ClientEvent = Disconnect | ChunkReceived(chunk: ChunkValue) | PositionUpdated(position: PositionBits)

  /** The position a client starts at: both float64 fields are +0.0, whose pattern is eight zero bytes. */
  const Origin: PositionBits := PositionBits(seq(8, _ => 0), seq(8, _ => 0))

  /** What feeding one message leaves behind: the flag, the position, the events fired and the outcome. */
  datatype Fed = Fed(handshaked: bool, position: PositionBits, events: seq<ClientEvent>, outcome: Outcome)

  /** The events the handler's listeners fire for one decoded message, and the position they leave. */
  function Reaction(m: Message, position: PositionBits): Fed
  {
    match m
    case ChunkMessage(c) => Fed(true, position, [ChunkReceived(c)], Pass)
    case PositionMessage(p) => Fed(true, p, [PositionUpdated(p)], Pass)
  }

  /**
   * feed: before the handshake the flag is raised first, then the message is
   * compared with the handshake bytes; afterwards it goes to the handler.
   */
  function Feeding(handshaked: bool, handshake: seq<byte>, position: PositionBits, message: seq<byte>): Fed
  {
    if !handshaked then
      Fed(true, position, [], if message == handshake then Pass else Fail("Bad handshake!"))
    else
      match Handled(message)
      case Ok(m) => Reaction(m, position)
      case Err(e) => Fed(true, position, [], Fail(e))
  }

  /** The first message never reaches the handler: it is consumed when it is the handshake and refused otherwise. */
  lemma FirstMessage(handshake: seq<byte>, position: PositionBits, message: seq<byte>)
    ensures var r := Feeding(false, handshake, position, message);
      r.handshaked && r.events == [] && r.position == position
      && (r.outcome == Pass <==> message == handshake)
      && (message != handshake ==> r.outcome == Fail("Bad handshake!"))
  {
  }

  /**
   * A bad handshake does not lock the client out: the flag is raised before
   * the comparison, so the next message is handled as after a good one.
   */
  lemma HandledAfterBadHandshake(handshake: seq<byte>, position: PositionBits, first: seq<byte>, second: seq<byte>)
    requires first != handshake
    ensures var bad := Feeding(false, handshake, position, first);
      var good := Feeding(false, handshake, position, handshake);
      bad.outcome.Fail? && good.outcome == Pass
      && Feeding(bad.handshaked, handshake, bad.position, second) == Feeding(good.handshaked, handshake, good.position, second)
  {
  }

  /**
   * After the handshake, a message the handler decodes fires exactly one
   * event: a chunk as ChunkReceived, a position as PositionUpdated, which
   * also becomes the position. A message it refuses fires nothing.
   */
  lemma HandledMessages(handshake: seq<byte>, position: PositionBits, message: seq<byte>)
    ensures var r := Feeding(true, handshake, position, message);
      r.handshaked
      && (Handled(message).Err? ==> r == Fed(true, position, [], Fail(Handled(message).error)))
      && (Handled(message).Ok? && Handled(message).value.ChunkMessage? ==>
            r.position == position && r.events == [ChunkReceived(Handled(message).value.chunk)] && r.outcome == Pass)
      && (Handled(message).Ok? && Handled(message).value.PositionMessage? ==>
            r.position == Handled(message).value.position && r.events == [PositionUpdated(r.position)] && r.outcome == Pass)
  {
  }

  /** A chunk message sent after the handshake arrives as that chunk. */
  lemma ChunkArrives(handshake: seq<byte>, position: PositionBits, c: ChunkValue)
    requires Encodable(c)
    ensures Feeding(true, handshake, position, ChunkMessageBytes(c)) == Fed(true, position, [ChunkReceived(c)], Pass)
  {
    ChunkMessageRoundTrip(c);
  }

  /** A position message sent after the handshake becomes the client's position. */
  lemma PositionArrives(handshake: seq<byte>, position: PositionBits, p: PositionBits)
    requires p.WellFormed()
    ensures Feeding(true, handshake, position, PositionMessageBytes(p)) == Fed(true, p, [PositionUpdated(p)], Pass)
  {
    PositionMessageRoundTrip(p);
  }

  /** The socket a client reads from; only its closing is modelled. */
  class Socket {
    const id: string
    var closed: bool

    constructor (id: string)
      ensures this.id == id && !closed
    {
      this.id := id;
      closed := false;
    }

    method Close()
      modifies this`closed
      ensures closed
    {
      closed := true;
    }
  }

  /** Client: one scanner connected to the viewer. */
  class Client {
    const id: string
    var position: PositionBits
    var hasHandshaked: bool
    const handler: ProtocolHandler
    const socket: Socket
    /** The handshake buffer shared by every client. */
    const handshake: Buffer
    /** The events fired so far, in order; the listeners are not modelled. */
    var fired: seq<ClientEvent>

    /** The id is the socket's, the position the origin, and nothing is handshaked or fired yet. */
    constructor (socket: Socket, handshake: Buffer)
      ensures id == socket.id && position == Origin && !hasHandshaked && fired == []
      ensures this.socket == socket && this.handshake == handshake && fresh(handler) && handler.emitted == []
    {
      id := socket.id;
      position := Origin;
      handler := new ProtocolHandler();
      this.socket := socket;
      this.handshake := handshake;
      hasHandshaked := false;
      fired := [];
    }

    /** close: the socket is closed. */
    method Close()
      modifies socket`closed
      ensures socket.closed
    {
      socket.Close();
    }

    /** The socket's Disconnection event fires Disconnect. */
    method Disconnected()
      modifies this`fired
      ensures fired == old(fired) + [Disconnect]
    {
      fired := fired + [Disconnect];
    }

    /** feed: one message over the received ArrayBuffer, as Feeding says. */
    method Feed(data: array<byte>) returns (outcome: Outcome)
      modifies this`hasHandshaked, this`position, this`fired, handler
      ensures var r := Feeding(old(hasHandshaked), handshake.bytes[..], old(position), data[..]);
        hasHandshaked == r.handshaked && position == r.position && fired == old(fired) + r.events && outcome == r.outcome
    {
      var message := new Buffer.Over(data);
      if !hasHandshaked {
        hasHandshaked := true;
        var same := handshake.Equals(message);
        if same {
          return Pass;
        }
        return Fail("Bad handshake!");
      }
      outcome := Deliver(message);
    }

    /** handle and the handler's listeners: the decoded message becomes an event. */
    method Deliver(message: Buffer) returns (outcome: Outcome)
      requires hasHandshaked
      modifies this`position, this`fired, handler
      ensures var r := Feeding(true, handshake.bytes[..], old(position), old(message.bytes[..]));
        position == r.position && fired == old(fired) + r.events && outcome == r.outcome
    {
      outcome := handler.Handle(BufferObject(message));
      if outcome.Fail? {
        return;
      }
      var m := handler.emitted[|handler.emitted| - 1];
      match m
      case ChunkMessage(c) =>
        fired := fired + [ChunkReceived(c)];
      case PositionMessage(p) =>
        position := p;
        fired := fired + [PositionUpdated(p)];
    }
  }
}
