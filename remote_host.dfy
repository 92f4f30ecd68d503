// The host side of the virtual-channel transport: the peers of one channel,
// the reference-counted store of channel registries, and the opcode switch
// that reacts to frames from the sockets.
module RemoteHost {
  import opened Bytes
  import opened Wrappers
  import opened ChannelFrames
  import opened RefCounting
  import RemoteChannel

  // The error messages, as the source spells them.
  const UndefinedDecrement: string := "Cannot read properties of undefined (reading 'decrement')"
  const OffAllMissing: string := "this.dispatcher.offAll is not a function"

  /** A frame the websocket server sends to one socket. */
  datatype Outbound = Outbound(to: string, data: seq<byte>)

  /** The websocket server, as the log of what it sends. */
  class Wss {
    var sent: seq<Outbound>

    constructor ()
      ensures sent == []
    {
      sent := [];
    }

    method Send(to: string, data: seq<byte>)
      modifies this
      ensures sent == old(sent) + [Outbound(to, data)]
    {
      sent := sent + [Outbound(to, data)];
    }
  }

  /** What a ChannelClient fires to its listeners. */
  datatype ClientEvent = ClientMessage(payload: seq<byte>) | ClientClose

  /** ChannelClientInternal: one peer of a channel, reached through the websocket server. */
  class ChannelClientInternal {
    const identifier: Identifier
    const id: string
    /** The events fired so far, in order; the listeners are not modelled. */
    var fired: seq<ClientEvent>

    constructor (identifier: Identifier, id: string)
      ensures this.identifier == identifier && this.id == id && fired == []
    {
      this.identifier := identifier;
      this.id := id;
      fired := [];
    }

    /** initiateHandshake: one InitiateHandshake frame to the peer. */
    method InitiateHandshake(wss: Wss)
      modifies wss
      ensures wss.sent == old(wss.sent) + [Outbound(id, Frame(identifier, InitiateCode, []))]
    {
      wss.Send(id, Frame(identifier, InitiateCode, []));
    }

    /** resolveHandshake: one ResolveHandshake frame to the peer. */
    method ResolveHandshake(wss: Wss)
      modifies wss
      ensures wss.sent == old(wss.sent) + [Outbound(id, Frame(identifier, ResolveCode, []))]
    {
      wss.Send(id, Frame(identifier, ResolveCode, []));
    }

    /** send: one Message frame carrying the bytes to the peer. */
    method Send(wss: Wss, message: seq<byte>)
      modifies wss
      ensures wss.sent == old(wss.sent) + [Outbound(id, Frame(identifier, MessageCode, message))]
    {
      wss.Send(id, Frame(identifier, MessageCode, message));
    }

    /** forwardMessage: the payload fired as a Message. */
    method ForwardMessage(message: seq<byte>)
      modifies this`fired
      ensures fired == old(fired) + [ClientMessage(message)]
    {
      fired := fired + [ClientMessage(message)];
    }

    /** close: one Close frame to the peer, then Close fired; the socket itself stays open. */
    method Close(wss: Wss)
      modifies this`fired, wss
      ensures wss.sent == old(wss.sent) + [Outbound(id, Frame(identifier, CloseCode, []))]
      ensures fired == old(fired) + [ClientClose]
    {
      wss.Send(id, Frame(identifier, CloseCode, []));
      fired := fired + [ClientClose];
    }
  }

  /** ChannelClientInternalManager: the handshaked peers of one channel, by socket id. */
  class ChannelClientInternalManager {
    const identifier: Identifier
    var clients: map<string, ChannelClientInternal>
    /** The ids InComing was fired for, in order; the listeners are not modelled. */
    var incoming: seq<string>
    /** Whether offAll has detached every listener. */
    var detached: bool

    /** Each peer sits under its own id and speaks this channel. */
    ghost predicate Valid()
      reads this
    {
      forall k :: k in clients ==> clients[k].id == k && clients[k].identifier == identifier
    }

    constructor (name: string, md5: string -> Identifier)
      ensures Valid() && identifier == md5(name) && clients == map[] && incoming == [] && !detached
    {
      identifier := md5(name);
      clients := map[];
      incoming := [];
      detached := false;
    }

    /** add: a known id changes nothing; a new id gets a new peer and fires InComing once. */
    method Add(id: string)
      requires Valid()
      modifies this`clients, this`incoming
      ensures Valid()
      ensures id in old(clients) ==> clients == old(clients) && incoming == old(incoming)
      ensures id !in old(clients) ==>
        id in clients && fresh(clients[id]) && clients[id].fired == []
        && clients == old(clients)[id := clients[id]] && incoming == old(incoming) + [id]
    {
      if id in clients {
        return;
      }
      var client := new ChannelClientInternal(identifier, id);
      clients := clients[id := client];
      incoming := incoming + [id];
    }

    /** remove: a known peer fires Close (no frame is sent) and is dropped; an unknown id changes nothing. */
    method Remove(id: string)
      requires Valid()
      modifies this`clients, clients.Values
      ensures Valid()
      ensures id !in old(clients) ==> clients == old(clients)
      ensures id in old(clients) ==>
        clients == old(clients) - {id} && old(clients)[id].fired == old(clients[id].fired) + [ClientClose]
      ensures forall k :: k in clients ==> clients[k].fired == old(clients[k].fired)
    {
      if id !in clients {
        return;
      }
      var client := clients[id];
      client.fired := client.fired + [ClientClose];
      clients := clients - {id};
    }

    /** get: the peer under id, or none. */
    method Get(id: string) returns (r: Option<ChannelClientInternal>)
      ensures id in clients <==> r.Some?
      ensures r.Some? ==> r.value == clients[id]
    {
      if id in clients {
        return Some(clients[id]);
      }
      return None;
    }

    /** has */
    method Has(id: string) returns (r: bool)
      ensures r <==> id in clients
    {
      r := id in clients;
    }

    /** forward: the payload fired as a Message on the peer under id, if there is one. */
    method Forward(id: string, message: seq<byte>)
      requires Valid()
      modifies clients.Values
      ensures id in clients ==> clients[id].fired == old(clients[id].fired) + [ClientMessage(message)]
      ensures forall k :: k in clients && k != id ==> clients[k].fired == old(clients[k].fired)
    {
      if id !in clients {
        return;
      }
      clients[id].ForwardMessage(message);
    }

    /**
     * clear: every peer is closed, each once and in some order, sending its
     * Close frame and firing Close; then none is kept.
     */
    method Clear(wss: Wss) returns (ghost order: seq<string>)
      requires Valid()
      modifies this`clients, clients.Values, wss
      ensures Valid() && clients == map[]
      ensures forall k :: k in old(clients) ==> old(clients)[k].fired == old(clients[k].fired) + [ClientClose]
      ensures Distinct(order) && forall k :: k in order <==> k in old(clients)
      ensures wss.sent == old(wss.sent) + CloseFrames(order, identifier)
    {
      order := CloseAll(wss);
      clients := map[];
    }

    /** The loop of clear: each peer closes once; the map itself is kept. */
    method CloseAll(wss: Wss) returns (ghost order: seq<string>)
      requires Valid()
      modifies clients.Values, wss
      ensures forall k :: k in clients ==> clients[k].fired == old(clients[k].fired) + [ClientClose]
      ensures Distinct(order) && forall k :: k in order <==> k in clients
      ensures wss.sent == old(wss.sent) + CloseFrames(order, identifier)
    {
      var remaining := clients.Keys;
      order := [];
      while remaining != {}
        invariant remaining <= clients.Keys
        invariant forall k :: k in clients ==> clients[k].fired == old(clients[k].fired) + (if k in remaining then [] else [ClientClose])
        invariant Distinct(order) && forall k :: k in order <==> k in clients && k !in remaining
        invariant wss.sent == old(wss.sent) + CloseFrames(order, identifier)
        decreases remaining
      {
        var id :| id in remaining;
        CloseOne(id, wss);
        assert (order + [id])[..|order|] == order;
        order := order + [id];
        remaining := remaining - {id};
      }
    }

    /** One step of clear: the peer under id closes; the others fire nothing. */
    method CloseOne(id: string, wss: Wss)
      requires Valid() && id in clients
      modifies clients[id], wss
      ensures wss.sent == old(wss.sent) + [Outbound(id, Frame(identifier, CloseCode, []))]
      ensures clients[id].fired == old(clients[id].fired) + [ClientClose]
      ensures forall k :: k in clients && k != id ==> clients[k].fired == old(clients[k].fired)
    {
      clients[id].Close(wss);
    }

    /** notifyAll: every listed id without a peer is sent an InitiateHandshake frame, without being added. */
    method NotifyAll(ids: seq<string>, wss: Wss)
      modifies wss
      ensures wss.sent == old(wss.sent) + Notified(ids, clients, identifier)
    {
      for i := 0 to |ids|
        invariant wss.sent == old(wss.sent) + Notified(ids[..i], clients, identifier)
      {
        assert ids[..i + 1][..i] == ids[..i];
        NotifyOne(ids[i], wss);
      }
      assert ids[..|ids|] == ids;
    }

    /** One id of notifyAll: a throwaway peer initiates the handshake unless the id is tracked. */
    method NotifyOne(id: string, wss: Wss)
      modifies wss
      ensures wss.sent == old(wss.sent) + (if id in clients then [] else [Outbound(id, Frame(identifier, InitiateCode, []))])
    {
      if id !in clients {
        var client := new ChannelClientInternal(identifier, id);
        client.InitiateHandshake(wss);
      }
    }

    /** offAll: every listener detached; modelled by the flag. */
    method OffAll()
      modifies this`detached
      ensures detached
    {
      detached := true;
    }
  }

  /** No id occurs twice. */
  predicate Distinct(ids: seq<string>)
  {
    forall i, j :: 0 <= i < j < |ids| ==> ids[i] != ids[j]
  }

  /** The Close frames clear sends, one per id, in the order given. */
  function CloseFrames(order: seq<string>, identifier: Identifier): (r: seq<Outbound>)
    ensures |r| == |order|
  {
    if order == [] then [] else CloseFrames(order[..|order| - 1], identifier) + [Outbound(order[|order| - 1], Frame(identifier, CloseCode, []))]
  }

  /** The InitiateHandshake frames notifyAll sends: one for each id that has no peer, in order. */
  function Notified(ids: seq<string>, clients: map<string, ChannelClientInternal>, identifier: Identifier): (r: seq<Outbound>)
    ensures |r| <= |ids|
    ensures forall o :: o in r ==> o.to in ids && o.to !in clients && o.data == Frame(identifier, InitiateCode, [])
  {
    if ids == [] then []
    else
      var last := ids[|ids| - 1];
      Notified(ids[..|ids| - 1], clients, identifier)
        + (if last in clients then [] else [Outbound(last, Frame(identifier, InitiateCode, []))])
  }

  /** Every untracked id is notified: notifyAll misses none of them. */
  lemma {:induction false} NotifiedAll(ids: seq<string>, clients: map<string, ChannelClientInternal>, identifier: Identifier)
    ensures forall k :: k in ids && k !in clients ==> Outbound(k, Frame(identifier, InitiateCode, [])) in Notified(ids, clients, identifier)
  {
    if ids != [] {
      var front := ids[..|ids| - 1];
      assert forall k :: k in ids ==> k in front || k == ids[|ids| - 1] by {
        assert ids == front + [ids[|ids| - 1]];
      }
      NotifiedAll(front, clients, identifier);
    }
  }

  /** What the host does with a frame from one socket. */
  datatype HostAction = Ignore | AddPeer | ResolveAndAddPeer | ForwardPayload(payload: seq<byte>) | RemovePeer

  /** handleMessage in useChannel: the opcode after the channel's identifier picks the action. */
  function HostReaction(identifier: Identifier, message: seq<byte>): HostAction
  {
    match TryExtract(identifier, message)
    case None => Ignore
    case Some(body) =>
      if |body| == 0 then Ignore
      else if body[0] == ResolveCode then AddPeer
      else if body[0] == InitiateCode then ResolveAndAddPeer
      else if body[0] == MessageCode then ForwardPayload(body[1..])
      else if body[0] == CloseCode then RemovePeer
      else Ignore
  }

  /**
   * The handshake from the channel's side completes: the frame connect sends
   * makes the host answer with a ResolveHandshake frame, and that frame opens
   * a Handshaking channel whose connection is Opened.
   */
  lemma HandshakeCompletes(identifier: Identifier)
    ensures var sent := RemoteChannel.Step(RemoteChannel.Unknown, RemoteChannel.ConnectionOpened, identifier, RemoteChannel.ConnectCall).sent;
      |sent| == 1 && HostReaction(identifier, sent[0]) == ResolveAndAddPeer
    ensures RemoteChannel.Step(RemoteChannel.Handshaking, RemoteChannel.ConnectionOpened, identifier,
      RemoteChannel.ConnectionMessage(Frame(identifier, ResolveCode, []))).state == RemoteChannel.Opened
  {
    FrameRoundTrip(identifier, identifier, InitiateCode, []);
    FrameRoundTrip(identifier, identifier, ResolveCode, []);
  }

  /** A payload crosses in both directions unchanged: channel to host peer, and host peer to an Opened channel. */
  lemma PayloadCrosses(identifier: Identifier, payload: seq<byte>)
    ensures HostReaction(identifier, Frame(identifier, MessageCode, payload)) == ForwardPayload(payload)
    ensures RemoteChannel.Step(RemoteChannel.Opened, RemoteChannel.ConnectionOpened, identifier,
      RemoteChannel.ConnectionMessage(Frame(identifier, MessageCode, payload))).fired == [RemoteChannel.MessageEmitted(payload)]
  {
    FrameRoundTrip(identifier, identifier, MessageCode, payload);
    assert ([MessageCode] + payload)[1..] == payload;
    RemoteChannel.PayloadOnlyWhenOpened(RemoteChannel.Opened, RemoteChannel.ConnectionOpened, identifier, payload);
  }

  /** Frames for another channel, empty frames and unknown opcodes are ignored by the host. */
  lemma HostIgnores(identifier: Identifier, message: seq<byte>)
    requires !Addressed(identifier, message) || |message| == 16 || message[16] > CloseCode
    ensures HostReaction(identifier, message) == Ignore
  {
    if Addressed(identifier, message) {
      assert TryExtract(identifier, message).value == message[16..];
    }
  }

  /** useChannel's message handler: the action HostReaction picks, carried out on the registry. */
  method HandleChannelMessage(manager: ChannelClientInternalManager, wss: Wss, id: string, message: seq<byte>)
    requires manager.Valid()
    modifies manager`clients, manager`incoming, manager.clients.Values, wss
    ensures manager.Valid()
    ensures HostReaction(manager.identifier, message) == Ignore ==>
      manager.clients == old(manager.clients) && manager.incoming == old(manager.incoming) && wss.sent == old(wss.sent)
    ensures HostReaction(manager.identifier, message) == ResolveAndAddPeer ==>
      wss.sent == old(wss.sent) + [Outbound(id, Frame(manager.identifier, ResolveCode, []))] && id in manager.clients
    ensures HostReaction(manager.identifier, message) == AddPeer ==>
      wss.sent == old(wss.sent) && id in manager.clients
    ensures HostReaction(manager.identifier, message).ForwardPayload? && id in old(manager.clients) ==>
      manager.clients == old(manager.clients)
      && manager.clients[id].fired == old(manager.clients[id].fired) + [ClientMessage(HostReaction(manager.identifier, message).payload)]
    ensures HostReaction(manager.identifier, message) == RemovePeer ==>
      manager.clients == old(manager.clients) - {id} && wss.sent == old(wss.sent)
    ensures HostReaction(manager.identifier, message) in {AddPeer, ResolveAndAddPeer} && id in old(manager.clients) ==>
      manager.clients == old(manager.clients) && manager.incoming == old(manager.incoming)
    ensures HostReaction(manager.identifier, message) in {AddPeer, ResolveAndAddPeer} && id !in old(manager.clients) ==>
      manager.clients == old(manager.clients)[id := manager.clients[id]] && manager.clients[id].fired == []
      && manager.incoming == old(manager.incoming) + [id]
    ensures HostReaction(manager.identifier, message).ForwardPayload? ==>
      manager.clients == old(manager.clients) && manager.incoming == old(manager.incoming) && wss.sent == old(wss.sent)
    ensures HostReaction(manager.identifier, message) == RemovePeer && id in old(manager.clients) ==>
      old(manager.clients)[id].fired == old(manager.clients[id].fired) + [ClientClose]
    ensures HostReaction(manager.identifier, message) == RemovePeer ==> manager.incoming == old(manager.incoming)
    ensures forall k :: k in old(manager.clients) && k != id ==> old(manager.clients)[k].fired == old(manager.clients[k].fired)
    ensures id in old(manager.clients) && HostReaction(manager.identifier, message) != RemovePeer && !HostReaction(manager.identifier, message).ForwardPayload? ==>
      old(manager.clients)[id].fired == old(manager.clients[id].fired)
  {
    var extracted := TryExtract(manager.identifier, message);
    if extracted.None? {
      return;
    }
    var body := extracted.value;
    if |body| == 0 {
      return;
    }
    var code := body[0];
    if code == ResolveCode {
      manager.Add(id);
    } else if code == InitiateCode {
      var client := new ChannelClientInternal(manager.identifier, id);
      client.ResolveHandshake(wss);
      manager.Add(id);
    } else if code == MessageCode {
      manager.Forward(id, body[1..]);
    } else if code == CloseCode {
      manager.Remove(id);
    }
  }

  /** ChannelManagerStore: one registry per channel name, kept while some user holds it. */
  class ChannelManagerStore {
    var managers: map<string, RefCounter<ChannelClientInternalManager>>

    /** Every stored counter is its own and in use: a registry is kept exactly while it is held. */
    ghost predicate Valid()
      reads this, managers.Values
    {
      (forall n :: n in managers ==> managers[n].counter > 0)
      && (forall a, b :: a in managers && b in managers && a != b ==> managers[a] != managers[b])
    }

    constructor ()
      ensures Valid() && managers == map[]
    {
      managers := map[];
    }

    /**
     * get: a held name gives back the same registry, one use more; a new
     * name gets a new registry with one use. Other names keep their counts.
     */
    method Get(name: string, md5: string -> Identifier) returns (r: ChannelClientInternalManager)
      requires Valid()
      modifies this, managers.Values
      ensures Valid() && name in managers && r == managers[name].item
      ensures forall n :: n in old(managers) && n != name ==> n in managers && managers[n] == old(managers[n]) && managers[n].counter == old(managers[n].counter)
      ensures name in old(managers) ==> managers == old(managers) && managers[name].counter == old(managers[name].counter) + 1
      ensures name !in old(managers) ==> (managers.Keys == old(managers.Keys) + {name} && managers[name].counter == 1
        && fresh(r) && r.Valid() && r.identifier == md5(name) && r.clients == map[] && !r.detached)
    {
      if name !in managers {
        r := Create(name, md5);
      } else {
        r := Increment(name);
      }
    }

    /** create: a new registry under name, held once. */
    method Create(name: string, md5: string -> Identifier) returns (r: ChannelClientInternalManager)
      requires Valid() && name !in managers
      modifies this
      ensures Valid() && managers.Keys == old(managers.Keys) + {name} && fresh(managers[name])
      ensures forall n :: n in old(managers) ==> managers[n] == old(managers[n])
      ensures managers[name].counter == 1 && r == managers[name].item
      ensures fresh(r) && r.Valid() && r.identifier == md5(name) && r.clients == map[] && !r.detached
    {
      var manager := new ChannelClientInternalManager(name, md5);
      var counter := new RefCounter(manager);
      counter := counter.Increment();
      managers := managers[name := counter];
      r := manager;
    }

    /** increment: one use more of the registry under name. */
    method Increment(name: string) returns (r: ChannelClientInternalManager)
      requires Valid() && name in managers
      modifies managers[name]
      ensures Valid() && r == managers[name].item
      ensures managers[name].counter == old(managers[name].counter) + 1
      ensures forall n :: n in managers && n != name ==> managers[n].counter == old(managers[n].counter)
    {
      var counter := managers[name].Increment();
      r := counter.item;
    }

    /** decrement: one use fewer of the registry under name, never below zero. */
    method Decrement(name: string) returns (r: ChannelClientInternalManager)
      requires name in managers
      requires forall a, b :: a in managers && b in managers && a != b ==> managers[a] != managers[b]
      modifies managers[name]
      ensures r == managers[name].item
      ensures managers[name].counter == Decremented(old(managers[name].counter))
      ensures forall n :: n in managers && n != name ==> managers[n].counter == old(managers[n].counter)
    {
      var counter := managers[name].Decrement();
      r := counter.item;
    }

    /**
     * release: one use fewer; when none is left the registry closes its
     * peers, detaches its listeners and is dropped. An unknown name throws.
     */
    method Release(name: string, wss: Wss) returns (outcome: Outcome)
      requires Valid()
      requires name in managers ==> managers[name].item.Valid()
      modifies this, managers.Values, wss
      modifies if name in managers then {managers[name].item} + managers[name].item.clients.Values else {}
      ensures Valid()
      ensures name !in old(managers) ==> outcome.Fail? && managers == old(managers)
      ensures name in old(managers) ==> (outcome == Pass
        && forall n :: n in old(managers) && n != name ==> n in managers && managers[n] == old(managers[n]) && managers[n].counter == old(managers[n].counter))
      ensures name in old(managers) && old(managers[name].counter) > 1 ==>
        managers == old(managers) && managers[name].counter == old(managers[name].counter) - 1
      ensures name in old(managers) && old(managers[name].counter) == 1 ==>
        managers == old(managers) - {name} && old(managers[name].item).clients == map[] && old(managers[name].item).detached
    {
      if name !in managers {
        return Fail(UndefinedDecrement);
      }
      var manager := Decrement(name);
      var inUse := managers[name].IsUse();
      if inUse {
        return Pass;
      }
      Retire(manager, wss);
      managers := managers - {name};
      return Pass;
    }

    /** The last release, then get of the same name: the old registry is gone and get makes a fresh one. */
    method ReleaseThenGet(name: string, wss: Wss, md5: string -> Identifier) returns (r: ChannelClientInternalManager)
      requires Valid() && name in managers && managers[name].counter == 1 && managers[name].item.Valid()
      modifies this, managers.Values, wss, managers[name].item, managers[name].item.clients.Values
      ensures Valid() && managers.Keys == old(managers.Keys) && managers[name].counter == 1
      ensures fresh(r) && r != old(managers[name].item) && r.clients == map[] && !r.detached
      ensures old(managers[name].item).clients == map[] && old(managers[name].item).detached
    {
      var _ := Release(name, wss);
      r := Get(name, md5);
    }

    /**
     * release as written: the dispatcher behind offAll has no offAll, so the
     * last release throws right after clear and never deletes the entry. The
     * registry stays stored, cleared, still listened to, with a count of
     * zero, which breaks Valid: a registry is kept while nobody holds it.
     */
    method ReleaseAsWritten(name: string, wss: Wss) returns (outcome: Outcome)
      requires Valid()
      requires name in managers ==> managers[name].item.Valid()
      modifies this, managers.Values, wss
      modifies if name in managers then {managers[name].item} + managers[name].item.clients.Values else {}
      ensures name !in old(managers) ==> outcome.Fail? && managers == old(managers)
      ensures name in old(managers) && old(managers[name].counter) > 1 ==>
        outcome == Pass && managers == old(managers) && managers[name].counter == old(managers[name].counter) - 1
      ensures name in old(managers) && old(managers[name].counter) == 1 ==>
        outcome == Fail(OffAllMissing) && managers == old(managers) && managers[name].counter == 0
        && old(managers[name].item).clients == map[] && old(managers[name].item).detached == old(managers[name].item.detached)
        && !Valid()
    {
      if name !in managers {
        return Fail(UndefinedDecrement);
      }
      var manager := Decrement(name);
      var inUse := managers[name].IsUse();
      if inUse {
        return Pass;
      }
      var _ := manager.Clear(wss);
      return Fail(OffAllMissing);
    }

    /**
     * The last release as written, then get of the same name: the entry is
     * still there, so get takes its increment branch and hands out the
     * registry that was cleared, instead of a fresh one.
     */
    method ReleaseThenGetAsWritten(name: string, wss: Wss) returns (outcome: Outcome, r: ChannelClientInternalManager)
      requires Valid() && name in managers && managers[name].counter == 1 && managers[name].item.Valid()
      modifies this, managers.Values, wss, managers[name].item, managers[name].item.clients.Values
      ensures outcome == Fail(OffAllMissing) && managers == old(managers)
      ensures r == old(managers[name].item) && r.clients == map[] && r.detached == old(managers[name].item.detached)
      ensures managers[name].counter == 1
    {
      outcome := ReleaseAsWritten(name, wss);
      var counter := managers[name].Increment();
      r := counter.item;
    }

    /** The end of a registry: its peers closed and its listeners detached. */
    method Retire(manager: ChannelClientInternalManager, wss: Wss)
      requires manager.Valid()
      modifies manager, manager.clients.Values, wss
      ensures manager.clients == map[] && manager.detached
    {
      var _ := manager.Clear(wss);
      manager.OffAll();
    }
  }
}
