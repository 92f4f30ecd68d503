// The client side of the virtual-channel transport: a Connection with an
// outbound queue in front of a socket that may refuse a send, and the
// Channel state machine driven by the connection's events.
module RemoteChannel {
  import opened Bytes
  import opened Wrappers
  import opened ChannelFrames
  import opened Dispatching

  datatype ChannelState = Unknown | Opening | Handshaking | Opened | Closed

  datatype ConnectionState = ConnectionUnknown | ConnectionOpening | ConnectionOpened | ConnectionClosed

  /** ConnectionEventType: the four events a Connection dispatches. */
  datatype ConnectionEventType = OpenEvent | CloseEvent | MessageEvent | ErrorEvent

  /** What a Channel fires to its own listeners. */
  datatype Emitted = CloseEmitted(reason: string) | MessageEmitted(payload: seq<byte>) | ErrorEmitted(error: string)

  /** What reaches a Channel: one of the connection's events, or a call of connect or close. */
  datatype ChannelInput =
    | ConnectionOpen
    | ConnectionClose(reason: string)
    | ConnectionMessage(message: seq<byte>)
    | ConnectionError(error: string)
    | ConnectCall
    | CloseCall

  /** The effect of one input: the new state, the frames handed to the connection, the events fired. */
  datatype Effect = Effect(state: ChannelState, sent: seq<seq<byte>>, fired: seq<Emitted>)

  const ClosedByUser: string := "Closed by user."
  const ClosedByServer: string := "Close by the server"
  const NotOpened: string := "You cannot send a message on a closed/opening channel. Use channel.open() to open the channel first or use channel.isOpened() to check."

  /** Nothing happens. */
  function Unchanged(s: ChannelState): Effect
  {
    Effect(s, [], [])
  }

  /** initiateHandshake: Handshaking, and one InitiateHandshake frame. */
  function Initiated(identifier: Identifier): Effect
  {
    Effect(Handshaking, [Frame(identifier, InitiateCode, [])], [])
  }

  /** handleMessage: the opcode after this channel's identifier picks the reaction; anything else is ignored. */
  function Received(s: ChannelState, connection: ConnectionState, identifier: Identifier, message: seq<byte>): Effect
  {
    match TryExtract(identifier, message)
    case None => Unchanged(s)
    case Some(body) =>
      if |body| == 0 then Unchanged(s)
      else if body[0] == ResolveCode then
        // resolveHandshake
        if s != Handshaking then Unchanged(s)
        else if connection != ConnectionOpened then Unchanged(Opening)
        else Unchanged(Opened)
      else if body[0] == InitiateCode then
        // handleRemoteHandshake
        if s == Closed || s == Unknown then Unchanged(s)
        else Effect(Opened, [Frame(identifier, ResolveCode, [])], [])
      else if body[0] == MessageCode then
        if s == Opened then Effect(s, [], [MessageEmitted(body[1..])]) else Unchanged(s)
      else if body[0] == CloseCode then
        Effect(Opening, [], [CloseEmitted(ClosedByServer)])
      else Unchanged(s)
  }

  /** The Channel's reaction to one input, given its state and the connection's. */
  function Step(s: ChannelState, connection: ConnectionState, identifier: Identifier, input: ChannelInput): Effect
  {
    match input
    case ConnectionOpen => Initiated(identifier)
    case ConnectionClose(reason) => Effect(Opening, [], [CloseEmitted(reason)])
    case ConnectionMessage(message) => Received(s, connection, identifier, message)
    case ConnectionError(error) => Effect(s, [], [ErrorEmitted(error)])
    case ConnectCall => if connection == ConnectionOpened then Initiated(identifier) else Unchanged(Opening)
    case CloseCall => Effect(Closed, [], [CloseEmitted(ClosedByUser)])
  }

  /** Only close() reaches Closed; every other input leaves a channel that is not Closed short of it. */
  lemma OnlyCloseCloses(s: ChannelState, connection: ConnectionState, identifier: Identifier, input: ChannelInput)
    ensures Step(s, connection, identifier, input).state == Closed <==> input.CloseCall? || (s == Closed && StaysPut(s, connection, identifier, input))
  {
  }

  /** Inputs that leave the state as it is. */
  predicate StaysPut(s: ChannelState, connection: ConnectionState, identifier: Identifier, input: ChannelInput)
  {
    Step(s, connection, identifier, input).state == s
  }

  /** A connection Open always leads to Handshaking with exactly one InitiateHandshake frame, whatever the state. */
  lemma OpenAlwaysHandshakes(s: ChannelState, connection: ConnectionState, identifier: Identifier)
    ensures var e := Step(s, connection, identifier, ConnectionOpen);
      e.state == Handshaking && e.sent == [Frame(identifier, InitiateCode, [])] && e.fired == []
  {
  }

  /** connect ends in Handshaking with one InitiateHandshake frame iff the connection is Opened, else in Opening with nothing sent. */
  lemma ConnectHandshakes(s: ChannelState, connection: ConnectionState, identifier: Identifier)
    ensures var e := Step(s, connection, identifier, ConnectCall);
      (e.state == Handshaking <==> connection == ConnectionOpened)
      && (e.state == Handshaking ==> e.sent == [Frame(identifier, InitiateCode, [])])
      && (e.state != Handshaking ==> e.state == Opening && e.sent == [])
  {
  }

  /** A connection Close or a Close frame moves the channel to Opening, never to Closed, and fires Close. */
  lemma CloseReopens(s: ChannelState, connection: ConnectionState, identifier: Identifier, reason: string)
    ensures Step(s, connection, identifier, ConnectionClose(reason)) == Effect(Opening, [], [CloseEmitted(reason)])
    ensures Step(s, connection, identifier, ConnectionMessage(Frame(identifier, CloseCode, []))) == Effect(Opening, [], [CloseEmitted(ClosedByServer)])
  {
    FrameRoundTrip(identifier, identifier, CloseCode, []);
  }

  /** A message frame's payload reaches the listeners exactly when the channel is Opened. */
  lemma PayloadOnlyWhenOpened(s: ChannelState, connection: ConnectionState, identifier: Identifier, payload: seq<byte>)
    ensures var e := Step(s, connection, identifier, ConnectionMessage(Frame(identifier, MessageCode, payload)));
      (s == Opened ==> e == Effect(Opened, [], [MessageEmitted(payload)]))
      && (s != Opened ==> e == Unchanged(s))
  {
    FrameRoundTrip(identifier, identifier, MessageCode, payload);
    assert ([MessageCode] + payload)[1..] == payload;
  }

  /** Every payload fired was a Message frame for this channel received while Opened. */
  lemma PayloadSource(s: ChannelState, connection: ConnectionState, identifier: Identifier, input: ChannelInput, payload: seq<byte>)
    requires MessageEmitted(payload) in Step(s, connection, identifier, input).fired
    ensures s == Opened && input == ConnectionMessage(Frame(identifier, MessageCode, payload))
  {
    var body := TryExtract(identifier, input.message).value;
    assert body == [MessageCode] + payload;
  }

  /** A foreign frame, an empty one or an unknown opcode changes nothing. */
  lemma IgnoredMessages(s: ChannelState, connection: ConnectionState, identifier: Identifier, message: seq<byte>)
    requires !Addressed(identifier, message) || |message| == 16 || message[16] > CloseCode
    ensures Step(s, connection, identifier, ConnectionMessage(message)) == Unchanged(s)
  {
    if Addressed(identifier, message) {
      assert TryExtract(identifier, message).value == message[16..];
    }
  }

  /** A ResolveHandshake frame acts only in Handshaking: Opened if the connection is Opened, else back to Opening. */
  lemma ResolveOnlyWhenHandshaking(s: ChannelState, connection: ConnectionState, identifier: Identifier)
    ensures var e := Step(s, connection, identifier, ConnectionMessage(Frame(identifier, ResolveCode, [])));
      e.sent == [] && e.fired == []
      && (s != Handshaking ==> e.state == s)
      && (s == Handshaking ==> (e.state == Opened <==> connection == ConnectionOpened))
      && (s == Handshaking && connection != ConnectionOpened ==> e.state == Opening)
  {
    FrameRoundTrip(identifier, identifier, ResolveCode, []);
  }

  /** An InitiateHandshake frame is ignored in Unknown and Closed, and otherwise answered with one ResolveHandshake frame and Opened. */
  lemma RemoteHandshakeAnswered(s: ChannelState, connection: ConnectionState, identifier: Identifier)
    ensures var e := Step(s, connection, identifier, ConnectionMessage(Frame(identifier, InitiateCode, [])));
      (s == Unknown || s == Closed ==> e == Unchanged(s))
      && (s != Unknown && s != Closed ==> e == Effect(Opened, [Frame(identifier, ResolveCode, [])], []))
  {
    FrameRoundTrip(identifier, identifier, InitiateCode, []);
  }

  /** A socket: whether it can send (readyState OPEN), what it has sent, and the sends that threw. A send may throw. */
  class Socket {
    var open: bool
    var delivered: seq<seq<byte>>
    ghost var failed: seq<seq<byte>>

    constructor ()
      ensures !open && delivered == [] && failed == []
    {
      open := false;
      delivered := [];
      failed := [];
    }

    /** send: either the message goes out, or the send throws, nothing goes out and the failure is recorded. */
    method Send(message: seq<byte>) returns (ok: bool)
      modifies this`delivered, this`failed
      ensures ok ==> delivered == old(delivered) + [message] && failed == old(failed)
      ensures !ok ==> delivered == old(delivered) && failed == old(failed) + [message]
    {
      ok := *;
      if ok {
        delivered := delivered + [message];
      } else {
        failed := failed + [message];
      }
    }
  }

  /** The handler a Channel registers with its connection for one event type. */
  datatype Handler = Handler(owner: Channel, event: ConnectionEventType)

  /** Connection: the shared link to the app, with the messages waiting for a socket that can send. */
  class Connection {
    var state: ConnectionState
    var queue: seq<seq<byte>>
    const socket: Socket
    const dispatcher: Dispatcher<ConnectionEventType, Handler>
    /** Every message handed to send, in order. */
    ghost var submitted: seq<seq<byte>>

    /** A new connection starts connecting at once; its socket is not open yet. */
    constructor ()
      ensures state == ConnectionOpening && queue == [] && submitted == []
      ensures fresh(socket) && fresh(dispatcher) && !socket.open && socket.delivered == [] && socket.failed == []
      ensures dispatcher.events == map[]
    {
      state := ConnectionOpening;
      queue := [];
      socket := new Socket();
      dispatcher := new Dispatcher();
      submitted := [];
    }

    /** getState */
    method GetState() returns (r: ConnectionState)
      ensures r == state
    {
      r := state;
    }

    /**
     * tryToClearQueuedMessages: while the socket can send, sends from the
     * head of the queue; a failed send puts its message back at the head and
     * stops. Nothing is lost, duplicated or reordered, and the flush stops
     * short of an empty queue only at a send that threw.
     */
    method TryToClearQueuedMessages()
      modifies this`queue, socket`delivered, socket`failed
      ensures !socket.open ==> queue == old(queue) && socket.delivered == old(socket.delivered) && socket.failed == old(socket.failed)
      ensures socket.open ==>
        exists k :: 0 <= k <= |old(queue)| && Drained(old(socket.delivered), old(queue), old(socket.failed), k, socket.delivered, queue, socket.failed)
    {
      if !socket.open {
        return;
      }
      ghost var k := 0;
      while |queue| > 0
        invariant 0 <= k <= |old(queue)|
        invariant socket.delivered == old(socket.delivered) + old(queue)[..k] && queue == old(queue)[k..]
        invariant socket.failed == old(socket.failed)
        decreases |queue|
      {
        var message := queue[0];
        queue := queue[1..];
        var ok := socket.Send(message);
        if !ok {
          queue := [message] + queue;
          assert Drained(old(socket.delivered), old(queue), old(socket.failed), k, socket.delivered, queue, socket.failed);
          return;
        }
        assert old(queue)[..k + 1] == old(queue)[..k] + [message];
        k := k + 1;
      }
      assert Drained(old(socket.delivered), old(queue), old(socket.failed), k, socket.delivered, queue, socket.failed);
    }

    /**
     * send: queued at the tail if the socket cannot send; otherwise the queue
     * is flushed first, then the message is sent, and queued at the tail if
     * that send throws. The message is tried even when the flush stopped
     * early, so it can overtake queued messages.
     */
    method Send(message: seq<byte>)
      modifies this`queue, this`submitted, socket`delivered, socket`failed
      ensures submitted == old(submitted) + [message]
      ensures !socket.open ==> queue == old(queue) + [message] && socket.delivered == old(socket.delivered) && socket.failed == old(socket.failed)
      ensures socket.open ==>
        exists k :: 0 <= k <= |old(queue)| && Flushed(old(socket.delivered), old(queue), old(socket.failed), k, message, socket.delivered, queue, socket.failed)
      ensures multiset(socket.delivered + queue) == multiset(old(socket.delivered) + old(queue) + [message])
    {
      submitted := submitted + [message];
      if !socket.open {
        queue := queue + [message];
        return;
      }
      TryToClearQueuedMessages();
      ghost var k :| 0 <= k <= |old(queue)| && Drained(old(socket.delivered), old(queue), old(socket.failed), k, socket.delivered, queue, socket.failed);
      var ok := socket.Send(message);
      if !ok {
        queue := queue + [message];
      }
      assert Flushed(old(socket.delivered), old(queue), old(socket.failed), k, message, socket.delivered, queue, socket.failed);
      FlushedConserves(old(socket.delivered), old(queue), old(socket.failed), k, message, socket.delivered, queue, socket.failed);
    }

  }

  /** The send that stopped a flush after k messages, if it stopped before the end of the queue. */
  function Stopper<T>(queue0: seq<T>, k: nat): (r: seq<T>)
    requires k <= |queue0|
    ensures |r| <= 1 && (r == [] <==> k == |queue0|)
    ensures forall x :: x in r ==> x == queue0[k]
  {
    if k < |queue0| then [queue0[k]] else []
  }

  /**
   * What a flush leaves: the first k queued messages went out in order, the
   * rest stay queued, and the flush stopped early only at a send that threw
   * for the next queued message.
   */
  ghost predicate Drained<T>(delivered0: seq<T>, queue0: seq<T>, failed0: seq<T>, k: nat, delivered: seq<T>, queue: seq<T>, failed: seq<T>)
    requires k <= |queue0|
  {
    delivered == delivered0 + queue0[..k] && queue == queue0[k..] && failed == failed0 + Stopper(queue0, k)
  }

  /** What send leaves once the socket can send: a flush of k messages, then the new message either went out or threw and joined the tail. */
  ghost predicate Flushed<T>(delivered0: seq<T>, queue0: seq<T>, failed0: seq<T>, k: nat, message: T, delivered: seq<T>, queue: seq<T>, failed: seq<T>)
    requires k <= |queue0|
  {
    (delivered == delivered0 + queue0[..k] + [message] && queue == queue0[k..] && failed == failed0 + Stopper(queue0, k))
    || (delivered == delivered0 + queue0[..k] && queue == queue0[k..] + [message] && failed == failed0 + Stopper(queue0, k) + [message])
  }

  /** Whatever send does once the socket can send, no message is lost or duplicated. */
  lemma FlushedConserves<T>(delivered0: seq<T>, queue0: seq<T>, failed0: seq<T>, k: nat, message: T, delivered: seq<T>, queue: seq<T>, failed: seq<T>)
    requires k <= |queue0|
    requires Flushed(delivered0, queue0, failed0, k, message, delivered, queue, failed)
    ensures multiset(delivered + queue) == multiset(delivered0 + queue0 + [message])
  {
    assert queue0 == queue0[..k] + queue0[k..];
    calc {
      multiset(delivered + queue);
      multiset(delivered0) + multiset(queue0[..k]) + multiset(queue0[k..]) + multiset{message};
      multiset(delivered0) + multiset(queue0) + multiset{message};
      multiset(delivered0 + queue0 + [message]);
    }
  }

  /** The four handlers of a channel, registered or not. */
  ghost predicate ListensOnce(events: map<ConnectionEventType, seq<Handler>>, before: map<ConnectionEventType, seq<Handler>>, owner: Channel)
  {
    forall t: ConnectionEventType :: Registered(events, t) == Removed(Registered(before, t), Handler(owner, t)) + [Handler(owner, t)]
  }

  ghost predicate Unlistened(events: map<ConnectionEventType, seq<Handler>>, before: map<ConnectionEventType, seq<Handler>>, owner: Channel)
  {
    forall t: ConnectionEventType :: Registered(events, t) == Removed(Registered(before, t), Handler(owner, t))
  }

  /** After connect each of the channel's handlers is registered exactly once; after close none is. */
  lemma SubscriptionCounts(events: map<ConnectionEventType, seq<Handler>>, before: map<ConnectionEventType, seq<Handler>>, owner: Channel, t: ConnectionEventType)
    ensures ListensOnce(events, before, owner) ==> multiset(Registered(events, t))[Handler(owner, t)] == 1
    ensures Unlistened(events, before, owner) ==> Handler(owner, t) !in Registered(events, t)
  {
    RemovedMembers(Registered(before, t), Handler(owner, t));
    var kept := Removed(Registered(before, t), Handler(owner, t));
    assert multiset(kept + [Handler(owner, t)]) == multiset(kept) + multiset{Handler(owner, t)};
  }

  /** Channel: one named channel over the shared connection. */
  class Channel {
    const name: string
    const identifier: Identifier
    const connection: Connection
    var state: ChannelState
    /** The events fired so far, in order; the listeners are not modelled. */
    var fired: seq<Emitted>

    /** A new channel is Unknown; its identifier is the digest of its name. */
    constructor (name: string, connection: Connection, md5: string -> Identifier)
      ensures this.name == name && this.connection == connection && identifier == md5(name)
      ensures state == Unknown && fired == []
    {
      this.name := name;
      this.connection := connection;
      identifier := md5(name);
      state := Unknown;
      fired := [];
    }

    /** The channel's effect on itself and on the connection matches Step. */
    ghost predicate Took(e: Effect, submitted0: seq<seq<byte>>, fired0: seq<Emitted>)
      reads this, connection
    {
      state == e.state && connection.submitted == submitted0 + e.sent && fired == fired0 + e.fired
    }

    /** initiateHandshake */
    method InitiateHandshake()
      modifies this`state, connection`queue, connection`submitted, connection.socket`delivered, connection.socket`failed
      ensures Took(Initiated(identifier), old(connection.submitted), old(fired))
    {
      state := Handshaking;
      connection.Send(Frame(identifier, InitiateCode, []));
    }

    /** handleOpen: Opening becomes Handshaking, then the handshake is initiated in every state. */
    method HandleOpen()
      modifies this`state, connection`queue, connection`submitted, connection.socket`delivered, connection.socket`failed
      ensures Took(Step(old(state), old(connection.state), identifier, ConnectionOpen), old(connection.submitted), old(fired))
    {
      if state == Opening {
        state := Handshaking;
      }
      InitiateHandshake();
    }

    /** handleClose: back to Opening, waiting for the connection to come back, and Close fired. */
    method HandleClose(reason: string)
      modifies this`state, this`fired
      ensures Took(Step(old(state), connection.state, identifier, ConnectionClose(reason)), connection.submitted, old(fired))
    {
      state := Opening;
      fired := fired + [CloseEmitted(reason)];
    }

    /** handleError: the error is fired on. */
    method HandleError(error: string)
      modifies this`fired
      ensures Took(Step(old(state), connection.state, identifier, ConnectionError(error)), connection.submitted, old(fired))
    {
      fired := fired + [ErrorEmitted(error)];
    }

    /** handleMessage: the frames addressed to this channel, by opcode. */
    method HandleMessage(message: seq<byte>)
      modifies this`state, this`fired, connection`queue, connection`submitted, connection.socket`delivered, connection.socket`failed
      ensures Took(Step(old(state), old(connection.state), identifier, ConnectionMessage(message)), old(connection.submitted), old(fired))
    {
      var extracted := TryExtract(identifier, message);
      if extracted.None? {
        return;
      }
      var body := extracted.value;
      if |body| == 0 {
        return;
      }
      var code := body[0];
      if code == ResolveCode {
        ResolveHandshakeStep();
      } else if code == InitiateCode {
        HandleRemoteHandshake();
      } else if code == MessageCode {
        if state == Opened {
          fired := fired + [MessageEmitted(body[1..])];
        }
      } else if code == CloseCode {
        state := Opening;
        fired := fired + [CloseEmitted(ClosedByServer)];
      }
    }

    /** resolveHandshake: only in Handshaking; Opened if the connection is, otherwise back to Opening. */
    method ResolveHandshakeStep()
      modifies this`state
      ensures old(state) != Handshaking ==> state == old(state)
      ensures old(state) == Handshaking ==> state == (if connection.state == ConnectionOpened then Opened else Opening)
    {
      if state != Handshaking {
        return;
      }
      var connectionState := connection.GetState();
      if connectionState != ConnectionOpened {
        state := Opening;
        return;
      }
      state := Opened;
    }

    /** handleRemoteHandshake: ignored in Closed and Unknown; otherwise answered and Opened. */
    method HandleRemoteHandshake()
      modifies this`state, connection`queue, connection`submitted, connection.socket`delivered, connection.socket`failed
      ensures old(state) == Closed || old(state) == Unknown ==> state == old(state) && connection.submitted == old(connection.submitted)
      ensures old(state) != Closed && old(state) != Unknown ==>
        state == Opened && connection.submitted == old(connection.submitted) + [Frame(identifier, ResolveCode, [])]
    {
      if state == Closed || state == Unknown {
        return;
      }
      connection.Send(Frame(identifier, ResolveCode, []));
      state := Opened;
    }

    /** listen: the four handlers registered with the connection. */
    method Listen()
      modifies connection.dispatcher
      ensures forall t: ConnectionEventType :: Registered(connection.dispatcher.events, t) == Registered(old(connection.dispatcher.events), t) + [Handler(this, t)]
    {
      ghost var e0 := connection.dispatcher.events;
      connection.dispatcher.On(OpenEvent, Handler(this, OpenEvent));
      ghost var e1 := connection.dispatcher.events;
      connection.dispatcher.On(CloseEvent, Handler(this, CloseEvent));
      ghost var e2 := connection.dispatcher.events;
      connection.dispatcher.On(MessageEvent, Handler(this, MessageEvent));
      ghost var e3 := connection.dispatcher.events;
      connection.dispatcher.On(ErrorEvent, Handler(this, ErrorEvent));
      forall t: ConnectionEventType
        ensures Registered(connection.dispatcher.events, t) == Registered(e0, t) + [Handler(this, t)]
      {
        assert Registered(e1, t) == if t == OpenEvent then Registered(e0, t) + [Handler(this, t)] else Registered(e0, t);
        assert Registered(e2, t) == if t == CloseEvent then Registered(e1, t) + [Handler(this, t)] else Registered(e1, t);
        assert Registered(e3, t) == if t == MessageEvent then Registered(e2, t) + [Handler(this, t)] else Registered(e2, t);
      }
    }

    /** unlisten: the four handlers unregistered; other handlers stay, in order. */
    method Unlisten()
      modifies connection.dispatcher
      ensures Unlistened(connection.dispatcher.events, old(connection.dispatcher.events), this)
    {
      ghost var e0 := connection.dispatcher.events;
      connection.dispatcher.Off(OpenEvent, Handler(this, OpenEvent));
      ghost var e1 := connection.dispatcher.events;
      connection.dispatcher.Off(CloseEvent, Handler(this, CloseEvent));
      ghost var e2 := connection.dispatcher.events;
      connection.dispatcher.Off(MessageEvent, Handler(this, MessageEvent));
      ghost var e3 := connection.dispatcher.events;
      connection.dispatcher.Off(ErrorEvent, Handler(this, ErrorEvent));
      forall t: ConnectionEventType
        ensures Registered(connection.dispatcher.events, t) == Removed(Registered(e0, t), Handler(this, t))
      {
        assert Registered(e1, t) == if t == OpenEvent then Removed(Registered(e0, t), Handler(this, t)) else Registered(e0, t);
        assert Registered(e2, t) == if t == CloseEvent then Removed(Registered(e1, t), Handler(this, t)) else Registered(e1, t);
        assert Registered(e3, t) == if t == MessageEvent then Removed(Registered(e2, t), Handler(this, t)) else Registered(e2, t);
      }
    }

    /**
     * connect: the handlers re-registered once each, then Handshaking with
     * one InitiateHandshake frame if the connection is Opened, else Opening.
     */
    method Connect() returns (r: Channel)
      modifies this`state, connection.dispatcher, connection`queue, connection`submitted, connection.socket`delivered, connection.socket`failed
      ensures r == this
      ensures Took(Step(old(state), old(connection.state), identifier, ConnectCall), old(connection.submitted), old(fired))
      ensures ListensOnce(connection.dispatcher.events, old(connection.dispatcher.events), this)
    {
      Unlisten();
      state := Opening;
      Listen();
      var connectionState := connection.GetState();
      state := if connectionState == ConnectionOpened then Handshaking else Opening;
      if state == Handshaking {
        InitiateHandshake();
      }
      r := this;
    }

    /** close: Closed, the handlers unregistered, Close fired, and no frame sent. */
    method Close()
      modifies this`state, this`fired, connection.dispatcher
      ensures Took(Step(old(state), connection.state, identifier, CloseCall), connection.submitted, old(fired))
      ensures Unlistened(connection.dispatcher.events, old(connection.dispatcher.events), this)
    {
      state := Closed;
      Unlisten();
      fired := fired + [CloseEmitted(ClosedByUser)];
    }

    /** isOpened */
    method IsOpened() returns (r: bool)
      ensures r <==> state == Opened
    {
      r := state == Opened;
    }

    /** send: refused unless Opened, with nothing passed on; otherwise one Message frame carrying the bytes. */
    method Send(message: seq<byte>) returns (outcome: Outcome)
      modifies connection`queue, connection`submitted, connection.socket`delivered, connection.socket`failed
      ensures state != Opened ==> (outcome == Fail(NotOpened) && connection.submitted == old(connection.submitted)
        && connection.queue == old(connection.queue) && connection.socket.delivered == old(connection.socket.delivered)
        && connection.socket.failed == old(connection.socket.failed))
      ensures state == Opened ==> outcome == Pass && connection.submitted == old(connection.submitted) + [Frame(identifier, MessageCode, message)]
    {
      if state != Opened {
        return Fail(NotOpened);
      }
      connection.Send(Frame(identifier, MessageCode, message));
      return Pass;
    }
  }
}
