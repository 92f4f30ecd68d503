// ChunkAggregator: chunks keyed by their position string, merged on a second
// feed, and exported to and imported from the ChunkAggregatorProtocol format.
module Aggregation {
  import opened Bytes
  import opened Wrappers
  import opened Vectors
  import opened Chunks
  import opened ByteBuffer
  import opened ChunkCodec
  import opened ChunkProtocol
  import opened SeqFacts

  /**
   * The aggregator as values: what each key holds, and the keys in the order
   * they were first inserted (the order Object.values reports them in, since
   * an "x,y" key is never an array index).
   */
  datatype Store = Store(contents: map<string, ChunkValue>, order: seq<string>)

  const EmptyStore := Store(map[], [])

  ghost predicate Distinct(keys: seq<string>)
  {
    forall i, j :: 0 <= i < j < |keys| ==> keys[i] != keys[j]
  }

  /** Every key is listed once, and each chunk sits under its own position's key. */
  ghost predicate WellKeyed(st: Store)
  {
    Distinct(st.order)
    && (forall k :: k in st.contents <==> k in st.order)
    && (forall k :: k in st.contents ==> Key(st.contents[k].position) == k)
  }

  /** The `chunks` getter: every stored chunk, in key insertion order. */
  ghost function Listed(st: Store): (r: seq<ChunkValue>)
    requires forall k :: k in st.order ==> k in st.contents
    ensures |r| == |st.order|
  {
    seq(|st.order|, i requires 0 <= i < |st.order| => st.contents[st.order[i]])
  }

  /** feed: a new key is stored and listed last; a known key's chunk eats the new one. */
  ghost function FeedValue(st: Store, v: ChunkValue): Store
  {
    var key := Key(v.position);
    if key in st.contents then
      Store(st.contents[key := ChunkValue(st.contents[key].position, EatResult(st.contents[key].entries, v.entries))], st.order)
    else
      Store(st.contents[key := v], st.order + [key])
  }

  /** Feeding the chunks one after the other, as import does. */
  ghost function FeedAll(st: Store, vs: seq<ChunkValue>): Store
  {
    if vs == [] then st else FeedValue(FeedAll(st, vs[..|vs| - 1]), vs[|vs| - 1])
  }

  /** The order of the keys, less one key. */
  function Without(keys: seq<string>, key: string): (r: seq<string>)
    ensures forall k :: k in r <==> k in keys && k != key
  {
    if keys == [] then []
    else if keys[|keys| - 1] == key then Without(keys[..|keys| - 1], key)
    else Without(keys[..|keys| - 1], key) + [keys[|keys| - 1]]
  }

  /** feed keeps every key listed once and every chunk under its own key. */
  lemma FeedWellKeyed(st: Store, v: ChunkValue)
    requires WellKeyed(st)
    ensures WellKeyed(FeedValue(st, v))
  {
    var key := Key(v.position);
    if key !in st.contents {
      var order := st.order + [key];
      forall i, j | 0 <= i < j < |order| ensures order[i] != order[j] {
        if j == |order| - 1 {
          assert order[i] == st.order[i];
        }
      }
    }
  }

  lemma {:induction false} FeedAllWellKeyed(st: Store, vs: seq<ChunkValue>)
    requires WellKeyed(st)
    ensures WellKeyed(FeedAll(st, vs))
  {
    if vs != [] {
      FeedAllWellKeyed(st, vs[..|vs| - 1]);
      FeedWellKeyed(FeedAll(st, vs[..|vs| - 1]), vs[|vs| - 1]);
    }
  }

  /** The store holding only the first i keys. */
  ghost function Prefix(st: Store, i: nat): Store
    requires i <= |st.order| && forall k :: k in st.order ==> k in st.contents
  {
    Store(map k | k in st.order[..i] :: st.contents[k], st.order[..i])
  }

  /** Feeding a chunk under a key not yet stored. */
  lemma FeedNewKey(st: Store, v: ChunkValue, key: string)
    requires Key(v.position) == key && key !in st.contents
    ensures FeedValue(st, v) == Store(st.contents[key := v], st.order + [key])
  {
  }

  lemma DistinctLast(keys: seq<string>, i: nat)
    requires Distinct(keys) && 0 < i <= |keys|
    ensures keys[i - 1] !in keys[..i - 1]
  {
    forall j | 0 <= j < i - 1 ensures keys[j] != keys[i - 1] {
    }
  }

  /** The first i keys are the first i - 1 keys and key number i. */
  lemma PrefixStep(st: Store, i: nat)
    requires (forall k :: k in st.order ==> k in st.contents) && 0 < i <= |st.order|
    ensures Prefix(st, i) ==
      Store(Prefix(st, i - 1).contents[st.order[i - 1] := st.contents[st.order[i - 1]]], st.order[..i - 1] + [st.order[i - 1]])
  {
    PrefixLast(st.order, i);
  }

  lemma FeedAllStep(st: Store, vs: seq<ChunkValue>, i: nat)
    requires 0 < i <= |vs|
    ensures FeedAll(st, vs[..i]) == FeedValue(FeedAll(st, vs[..i - 1]), vs[i - 1])
  {
    assert vs[..i][..i - 1] == vs[..i - 1];
  }

  lemma {:induction false} FeedListedPrefix(st: Store, i: nat)
    requires WellKeyed(st) && i <= |st.order|
    ensures FeedAll(EmptyStore, Listed(st)[..i]) == Prefix(st, i)
  {
    if i == 0 {
      assert Listed(st)[..0] == [];
      assert st.order[..0] == [];
    } else {
      FeedListedPrefix(st, i - 1);
      FeedAllStep(EmptyStore, Listed(st), i);
      PrefixStep(st, i);
      DistinctLast(st.order, i);
      FeedNewKey(Prefix(st, i - 1), st.contents[st.order[i - 1]], st.order[i - 1]);
    }
  }

  /** Feeding a store's own chunks, in order, into an empty one rebuilds it exactly. */
  lemma FeedListed(st: Store)
    requires WellKeyed(st)
    ensures FeedAll(EmptyStore, Listed(st)) == st
  {
    FeedListedPrefix(st, |st.order|);
    assert Listed(st)[..|st.order|] == Listed(st);
    assert st.order[..|st.order|] == st.order;
  }

  /** Exporting a well-keyed store and importing the bytes into an empty one rebuilds the store. */
  lemma ImportOfExport(st: Store)
    requires WellKeyed(st) && AllEncodable(Listed(st)) && |st.order| < Pow256(4)
    ensures DecodeExport(ExportBytes(Listed(st))) == Ok(Listed(st))
    ensures FeedAll(EmptyStore, Listed(st)) == st
  {
    ExportRoundTrip(Listed(st));
    FeedListed(st);
  }

  class ChunkAggregator {
    /** The record from "x,y" keys to chunks. */
    var internal: map<string, Chunk>
    /** The record's keys in insertion order. */
    var order: seq<string>

    ghost function Objects(): set<Chunk>
      reads this
    {
      set k | k in internal :: internal[k]
    }

    /** Each key is listed once and holds the chunk at that position. */
    ghost predicate Valid()
      reads this
    {
      Distinct(order)
      && (forall k :: k in internal <==> k in order)
      && (forall k :: k in internal ==> Key(internal[k].position) == k)
    }

    /** The aggregator as values. */
    ghost function State(): Store
      reads this, Objects()
    {
      Store(map k | k in internal :: ChunkValue(internal[k].position, internal[k].data), order)
    }

    constructor ()
      ensures Valid() && State() == EmptyStore
    {
      internal := map[];
      order := [];
    }

    /**
     * feed: a chunk at a new position is stored as it is (the aggregator keeps
     * the caller's object); one at a known position is eaten by the stored
     * chunk, which is changed in place.
     */
    method Feed(chunk: Chunk)
      requires Valid()
      modifies this, Objects()
      ensures Valid() && State() == FeedValue(old(State()), old(ChunkValue(chunk.position, chunk.data)))
      ensures Objects() <= old(Objects()) + {chunk}
    {
      var key := Key(chunk.position);
      if key !in internal {
        FeedNew(chunk, key);
      } else {
        FeedKnown(chunk, key);
      }
    }

    /** feed, first branch: the chunk object itself is stored under its key. */
    method FeedNew(chunk: Chunk, key: string)
      requires Valid() && key == Key(chunk.position) && key !in internal
      modifies this
      ensures Valid() && State() == FeedValue(old(State()), ChunkValue(chunk.position, chunk.data))
      ensures Objects() <= old(Objects()) + {chunk}
    {
      Insert(chunk, key);
      FeedNewKey(old(State()), ChunkValue(chunk.position, chunk.data), key);
    }

    /** feed, second branch: the stored chunk eats the new one. */
    method FeedKnown(chunk: Chunk, key: string)
      requires Valid() && key == Key(chunk.position) && key in internal
      modifies internal[key]
      ensures Valid() && State() == FeedValue(old(State()), old(ChunkValue(chunk.position, chunk.data)))
    {
      ghost var st := State();
      ghost var v := ChunkValue(chunk.position, chunk.data);
      var stored := internal[key];
      KeyInjective(stored.position, chunk.position);
      var outcome := stored.Eat(chunk);
      Untouched(key, st);
      FeedKnownKey(st, v, key);
    }

    /** The store with a new key at the end of the order. */
    method Insert(chunk: Chunk, key: string)
      requires Valid() && key == Key(chunk.position) && key !in internal
      modifies this
      ensures Valid() && internal == old(internal)[key := chunk] && order == old(order) + [key]
      ensures State() == Store(old(State()).contents[key := ChunkValue(chunk.position, chunk.data)], old(State()).order + [key])
      ensures Objects() <= old(Objects()) + {chunk}
    {
      ghost var st := State();
      DistinctAppend(order, key);
      internal := internal[key := chunk];
      order := order + [key];
      forall o | o in Objects() ensures o in old(Objects()) || o == chunk {
        var k :| k in internal && internal[k] == o;
        if k != key {
          assert o == old(internal)[k];
        }
      }
      Untouched(key, st);
    }

    /** has: some stored chunk sits at that position. */
    method Has(position: GridVector2) returns (r: bool)
      requires Valid()
      ensures r <==> exists k :: k in internal && internal[k].position == position
    {
      var key := Key(position);
      r := key in internal;
      if r {
        KeyInjective(internal[key].position, position);
      } else {
        forall k | k in internal ensures internal[k].position != position {
          KeyInjective(internal[k].position, position);
        }
      }
    }

    /** get: the stored chunk object at that position, or null. */
    method Get(position: GridVector2) returns (r: Option<Chunk>)
      requires Valid()
      ensures r.Some? <==> exists k :: k in internal && internal[k].position == position
      ensures r.Some? ==> r.value in Objects() && r.value.position == position
      ensures r.Some? <==> Key(position) in State().contents
      ensures r.Some? ==> State().contents[Key(position)] == ChunkValue(r.value.position, r.value.data)
      ensures State() == old(State())
    {
      var key := Key(position);
      if key in internal {
        KeyInjective(internal[key].position, position);
        r := Some(internal[key]);
      } else {
        forall k | k in internal ensures internal[k].position != position {
          KeyInjective(internal[k].position, position);
        }
        r := None;
      }
    }

    /** remove: forgets the key of that position, if stored. */
    method Remove(position: GridVector2)
      requires Valid()
      modifies this
      ensures Valid()
      ensures State() == Store(old(State()).contents - {Key(position)}, Without(old(order), Key(position)))
      ensures Objects() <= old(Objects())
    {
      var key := Key(position);
      WithoutDistinct(order, key);
      Forget(key);
    }

    /** Drops one key from the record and from the order, whatever else holds. */
    method Forget(key: string)
      modifies this
      ensures internal == old(internal) - {key} && order == Without(old(order), key)
      ensures State() == Store(old(State()).contents - {key}, Without(old(order), key))
      ensures Objects() <= old(Objects())
    {
      ghost var st := State();
      internal := map k | k in internal && k != key :: internal[k];
      order := Without(order, key);
      Shrunk(key, st);
    }

    /** clear: an empty record. */
    method Clear()
      modifies this
      ensures Valid() && State() == EmptyStore
    {
      internal := map[];
      order := [];
    }

    /** The `chunks` getter, as values. */
    method Values() returns (vs: seq<ChunkValue>)
      requires Valid()
      ensures vs == Listed(State()) && State() == old(State())
    {
      vs := seq(|order|, i requires 0 <= i < |order| && order[i] in internal reads this, Objects() =>
        ChunkValue(internal[order[i]].position, internal[order[i]].data));
      ListedIs(vs);
    }

    /** export: a fresh buffer of 1 + sizeOfChunkList bytes, the Init byte then the chunk list. */
    method Export() returns (data: array<byte>)
      requires Valid()
      ensures fresh(data)
      ensures data[..] == ExportBytes(Listed(State()))
    {
      var vs := Values();
      data := ExportValues(vs);
    }

    /**
     * The writing half of export: a buffer of 1 + sizeOfChunkList bytes, the
     * Init byte, then the chunk list; the aggregator itself is left as it was.
     */
    method ExportValues(vs: seq<ChunkValue>) returns (data: array<byte>)
      ensures fresh(data) && data[..] == ExportBytes(vs)
      ensures State() == old(State())
    {
      var b := new Buffer(1 + SizeOfChunkList(vs));
      b.Write(W8, Init, None);
      ghost var s1 := b.bytes[..];
      assert s1[..1] == [Init];
      WriteChunkList(b, vs);
      assert s1[1 + |ChunkListBytes(vs)|..] == [];
      data := b.bytes;
    }

    /**
     * import: reads the whole buffer first, then feeds every chunk in order.
     * A bad buffer throws before anything is fed.
     */
    method Import(data: array<byte>) returns (outcome: Outcome)
      requires Valid()
      modifies this, Objects()
      ensures Valid()
      ensures DecodeExport(data[..]).Err? ==> outcome == Fail(DecodeExport(data[..]).error) && State() == old(State())
      ensures DecodeExport(data[..]).Ok? ==>
        outcome == Pass && State() == FeedAll(old(State()), DecodeExport(data[..]).value)
    {
      var decoded := ReadExport(data);
      if decoded.Err? {
        return Fail(decoded.error);
      }
      FeedChunks(decoded.value);
      return Pass;
    }

    /**
     * The reading half of import: the Init byte, then the whole chunk list,
     * read through a buffer over the data; the aggregator is left as it was.
     */
    method ReadExport(data: array<byte>) returns (r: Result<seq<ChunkValue>>)
      ensures r == DecodeExport(data[..]) && State() == old(State())
    {
      var b := new Buffer.Over(data);
      var first := Take(b, W8);
      if first.Err? {
        return Err(first.error);
      }
      if first.value != Init {
        return Err(InvalidBuffer);
      }
      var list := ReadChunkList(b);
      if list.Err? {
        return Err(list.error);
      }
      return Ok(list.value);
    }

    /** The feeding loop of import. */
    method FeedChunks(chunks: seq<ChunkValue>)
      requires Valid()
      modifies this, Objects()
      ensures Valid() && State() == FeedAll(old(State()), chunks)
    {
      var i := 0;
      while i < |chunks|
        invariant 0 <= i <= |chunks| && Valid()
        invariant State() == FeedAll(old(State()), chunks[..i])
        invariant forall o | o in Objects() :: o in old(Objects()) || fresh(o)
      {
        FeedFresh(chunks[i]);
        FeedAllStep(old(State()), chunks, i + 1);
        i := i + 1;
      }
      assert chunks[..i] == chunks;
    }

    /** One step of import's loop: a new Chunk built from the decoded value, then fed. */
    method FeedFresh(v: ChunkValue)
      requires Valid()
      modifies this, Objects()
      ensures Valid() && State() == FeedValue(old(State()), v)
      ensures forall o | o in Objects() :: o in old(Objects()) || fresh(o)
    {
      ghost var st := State();
      var chunk := new Chunk.WithEntries(v.position, v.entries);
      assert State() == st;
      Feed(chunk);
    }

    /** ChunkAggregator.import: a new aggregator fed with the buffer's chunks. */
    static method ImportNew(data: array<byte>) returns (r: Result<ChunkAggregator>)
      ensures DecodeExport(data[..]).Err? ==> r == Err(DecodeExport(data[..]).error)
      ensures DecodeExport(data[..]).Ok? ==>
        r.Ok? && fresh(r.value) && r.value.Valid() && r.value.State() == FeedAll(EmptyStore, DecodeExport(data[..]).value)
    {
      var aggregator := new ChunkAggregator();
      var outcome := aggregator.Import(data);
      if outcome.Fail? {
        return Err(outcome.error);
      }
      return Ok(aggregator);
    }

    lemma ListedIs(vs: seq<ChunkValue>)
      requires Valid() && |vs| == |order|
      requires forall j :: 0 <= j < |order| ==> vs[j] == ChunkValue(internal[order[j]].position, internal[order[j]].data)
      ensures vs == Listed(State())
    {
    }

    lemma StateWellKeyed()
      requires Valid()
      ensures WellKeyed(State())
    {
    }

    /** After the chunk under key changed, every other key still holds what it held. */
    lemma Untouched(key: string, st: Store)
      requires key in internal
      requires forall k :: k in internal <==> k in st.contents || k == key
      requires forall k :: k in st.contents && k != key ==>
        st.contents[k] == ChunkValue(internal[k].position, internal[k].data)
      ensures State().contents == st.contents[key := ChunkValue(internal[key].position, internal[key].data)]
    {
    }

    /** After the key was removed, every other key still holds what it held. */
    lemma Shrunk(key: string, st: Store)
      requires forall k :: k in internal <==> k in st.contents && k != key
      requires forall k :: k in internal ==> st.contents[k] == ChunkValue(internal[k].position, internal[k].data)
      ensures State().contents == st.contents - {key}
    {
    }
  }

  lemma {:induction false} WithoutDistinct(keys: seq<string>, key: string)
    requires Distinct(keys)
    ensures Distinct(Without(keys, key))
  {
    if keys != [] {
      var front := keys[..|keys| - 1];
      assert Distinct(front);
      WithoutDistinct(front, key);
      if keys[|keys| - 1] != key {
        DistinctLast(keys, |keys|);
        DistinctAppend(Without(front, key), keys[|keys| - 1]);
      }
    }
  }

  lemma DistinctAppend(keys: seq<string>, key: string)
    requires Distinct(keys) && key !in keys
    ensures Distinct(keys + [key])
  {
    var r := keys + [key];
    forall i, j | 0 <= i < j < |r| ensures r[i] != r[j] {
      if j == |keys| {
        assert r[i] == keys[i];
      }
    }
  }

  /** Feeding a chunk under a key already stored. */
  lemma FeedKnownKey(st: Store, v: ChunkValue, key: string)
    requires Key(v.position) == key && key in st.contents
    ensures FeedValue(st, v) ==
      Store(st.contents[key := ChunkValue(st.contents[key].position, EatResult(st.contents[key].entries, v.entries))], st.order)
  {
  }
}
