// The two client registries: the remote tool's, fed by the channel's
// incoming peers and emptied by their Close events, and the tiny viewer's,
// keyed by the client's own id.
module ClientManagers {
  import opened Dispatching
  import TinyClient

  /** Object.values of a record: every entry's value once, in some key order. */
  method ValuesOf<V(==)>(m: map<string, V>) returns (r: seq<V>)
    ensures |r| == |m|
    ensures forall v :: v in r <==> v in m.Values
  {
    var remaining := m.Keys;
    r := [];
    while remaining != {}
      invariant remaining <= m.Keys
      invariant |r| + |remaining| == |m|
      invariant forall v :: v in r <==> exists k :: k in m && k !in remaining && m[k] == v
      decreases remaining
    {
      var k :| k in remaining;
      r := r + [m[k]];
      remaining := remaining - {k};
    }
  }

  /** ChannelClientEventType */
  datatype ChannelClientEventType = ClientMessage | ClientClose

  /** The ChannelClient interface as the registry uses it: an id and the listeners per event type. */
  class ChannelClient {
    const id: string
    const listeners: Dispatcher<ChannelClientEventType, ClientManager>

    constructor (id: string)
      ensures this.id == id && fresh(listeners) && listeners.events == map[]
    {
      this.id := id;
      listeners := new Dispatcher();
    }
  }

  /** The remote tool's Client, reduced to the id it copies from its channel client. */
  class Client {
    const id: string

    constructor (cc: ChannelClient)
      ensures id == cc.id
    {
      id := cc.id;
    }
  }

  /** ClientManager (remote tool): one Client per channel client id. */
  class ClientManager {
    var clients: map<string, Client>

    /** Every Client sits under its own id. */
    ghost predicate Valid()
      reads this
    {
      forall k :: k in clients ==> clients[k].id == k
    }

    constructor ()
      ensures Valid() && clients == map[]
    {
      clients := map[];
    }

    /**
     * add: a tracked id gives back its Client and registers nothing; a new id
     * gets one new Client and one Close handler on its channel client.
     */
    method Add(cc: ChannelClient) returns (r: Client)
      requires Valid()
      modifies this, cc.listeners
      ensures Valid() && r.id == cc.id && cc.id in clients && clients[cc.id] == r
      ensures cc.id in old(clients) ==> (r == old(clients)[cc.id] && clients == old(clients) && cc.listeners.events == old(cc.listeners.events))
      ensures cc.id !in old(clients) ==> (fresh(r) && clients == old(clients)[cc.id := r]
        && forall t :: Registered(cc.listeners.events, t) == Registered(old(cc.listeners.events), t) + (if t == ClientClose then [this] else []))
    {
      if cc.id in clients {
        return clients[cc.id];
      }
      r := new Client(cc);
      clients := clients[cc.id := r];
      cc.listeners.On(ClientClose, this);
    }

    /** The Close handler add registers: it unregisters itself, then removes the entry. */
    method HandleClose(cc: ChannelClient)
      requires Valid()
      modifies this, cc.listeners
      ensures Valid() && clients == old(clients) - {cc.id}
      ensures this !in Registered(cc.listeners.events, ClientClose)
      ensures forall x :: x in Registered(cc.listeners.events, ClientClose) <==> x in Registered(old(cc.listeners.events), ClientClose) && x != this
      ensures Registered(cc.listeners.events, ClientMessage) == Registered(old(cc.listeners.events), ClientMessage)
    {
      cc.listeners.Off(ClientClose, this);
      RemovedMembers(Registered(old(cc.listeners.events), ClientClose), this);
      Remove(cc);
    }

    /** remove: only the entry under cc's id goes. */
    method Remove(cc: ChannelClient)
      requires Valid()
      modifies this
      ensures Valid() && clients == old(clients) - {cc.id}
    {
      clients := clients - {cc.id};
    }

    /** list: exactly the tracked Clients. */
    method List() returns (r: seq<Client>)
      ensures |r| == |clients| && forall c :: c in r <==> c in clients.Values
    {
      r := ValuesOf(clients);
    }
  }

  /** ClientManager (tiny viewer): the clients by their own id. */
  class TinyClientManager {
    var clients: map<string, TinyClient.Client>

    constructor ()
      ensures clients == map[]
    {
      clients := map[];
    }

    /** add: the client under its id, replacing any client stored there. */
    method Add(client: TinyClient.Client)
      modifies this
      ensures clients == old(clients)[client.id := client]
    {
      clients := clients[client.id := client];
    }

    /** remove: only the entry under the client's id goes, whichever client is stored there. */
    method Remove(client: TinyClient.Client)
      modifies this
      ensures clients == old(clients) - {client.id}
    {
      clients := clients - {client.id};
    }

    /** has: some client is stored under this client's id, not necessarily this one. */
    method Has(client: TinyClient.Client) returns (r: bool)
      ensures r <==> client.id in clients
    {
      r := client.id in clients;
    }

    /** list: every stored client. */
    method List() returns (r: seq<TinyClient.Client>)
      ensures |r| == |clients| && forall c :: c in r <==> c in clients.Values
    {
      r := ValuesOf(clients);
    }
  }
}
