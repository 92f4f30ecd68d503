// ChunkCache: the map scanner's record of rendered chunks in front of a
// ChunkAggregator, with the file paths remembered by open/save.
module ChunkCaching {
  import opened Bytes
  import opened Wrappers
  import opened Vectors
  import opened Chunks
  import opened ChunkCodec
  import opened Aggregation
  import opened SeqFacts

  /** The events a ChunkCache fires, with the chunk an Update renders. */
  datatype CacheEvent = Updated(key: string, chunk: ChunkValue) | Cleared

  /** What `has` is given: a key, a Chunk, or an ExtractedChunk (through the chunk it renders). */
  datatype Probe = ById(id: string) | ByChunk(chunk: ChunkValue) | ByExtracted(rendered: ChunkValue)

  /** The key a probe looks up. */
  function ProbeKey(a: Probe): string
  {
    match a
    case ById(id) => id
    case ByChunk(c) => Key(c.position)
    case ByExtracted(c) => Key(c.position)
  }

  /** What the open dialog answers. */
  datatype OpenDialogResult = OpenDialogResult(canceled: bool, filePaths: seq<string>)

  /** What the save dialog answers. */
  datatype SaveDialogResult = SaveDialogResult(canceled: bool, filePath: string)

  /** A file written by saveTo. */
  datatype FileWrite = FileWrite(path: string, data: seq<byte>)

  /** The keys of a sequence, as a set. */
  function KeySet(keys: seq<string>): (r: set<string>)
    ensures forall k :: k in r <==> k in keys
  {
    if keys == [] then {} else KeySet(keys[..|keys| - 1]) + {keys[|keys| - 1]}
  }

  /** Whether a chunk can be drawn: toPixels throws for an entry whose palette index names no ore. */
  predicate Drawable(v: ChunkValue)
  {
    AllKnownBy(v.entries)
  }

  /** Whether update at key k throws: st holds a chunk there that cannot be drawn. */
  predicate FailsAt(st: Store, k: string)
  {
    k in st.contents && !Drawable(st.contents[k])
  }

  /** Every chunk st holds can be drawn. */
  ghost predicate AllDrawable(st: Store)
  {
    forall k :: k in st.contents ==> Drawable(st.contents[k])
  }

  /** The index of the first key whose update throws, or the length when none does. */
  function FirstFailure(st: Store, keys: seq<string>): (r: nat)
    ensures r <= |keys|
  {
    if keys == [] then 0
    else if FailsAt(st, keys[0]) then 0
    else 1 + FirstFailure(st, keys[1..])
  }

  /** The first failure is one: no key before it throws, and the key at it does. */
  lemma {:induction false} FirstFailureIs(st: Store, keys: seq<string>)
    ensures forall i :: 0 <= i < FirstFailure(st, keys) ==> !FailsAt(st, keys[i])
    ensures FirstFailure(st, keys) < |keys| ==> FailsAt(st, keys[FirstFailure(st, keys)])
  {
    if keys != [] && !FailsAt(st, keys[0]) {
      FirstFailureIs(st, keys[1..]);
      assert forall i :: 1 <= i < |keys| ==> keys[1..][i - 1] == keys[i];
    }
  }

  /** How many keys import's loop updates: up to and including the first that throws. */
  function Tried(st: Store, keys: seq<string>): (r: nat)
    ensures r <= |keys|
    ensures r == |keys| <==> FirstFailure(st, keys) >= |keys| - 1
  {
    if FirstFailure(st, keys) < |keys| then FirstFailure(st, keys) + 1 else |keys|
  }

  /** Over a well-keyed store the loop runs to the end exactly when every chunk can be drawn. */
  lemma AllDrawableIff(st: Store)
    requires WellKeyed(st)
    ensures FirstFailure(st, st.order) == |st.order| <==> AllDrawable(st)
  {
    FirstFailureIs(st, st.order);
    if FirstFailure(st, st.order) < |st.order| {
      assert FailsAt(st, st.order[FirstFailure(st, st.order)]);
    } else {
      forall k | k in st.contents
        ensures Drawable(st.contents[k])
      {
        var i :| 0 <= i < |st.order| && st.order[i] == k;
        assert !FailsAt(st, st.order[i]);
      }
    }
  }

  /**
   * What import's loop leaves, from the record e0 and the events f0: the keys
   * up to and including the first whose chunk cannot be drawn are updated in
   * order, and the loop fails exactly when there is such a key (over a
   * well-keyed store, exactly when not every chunk can be drawn, by
   * AllDrawableIff).
   */
  ghost function ImportResult(e0: map<string, ChunkValue>, f0: seq<CacheEvent>, st: Store): (Outcome, map<string, ChunkValue>, seq<CacheEvent>)
  {
    var n := Tried(st, st.order);
    (if FirstFailure(st, st.order) < |st.order| then Fail(InvalidOreIndex) else Pass, Refreshed(e0, st, st.order[..n]), f0 + UpdateEvents(st, st.order[..n]))
  }

  /** When import's loop passes, every stored chunk is rendered, with one Update per key in key order. */
  lemma ImportResultPasses(e0: map<string, ChunkValue>, f0: seq<CacheEvent>, st: Store)
    requires WellKeyed(st)
    ensures var r := ImportResult(e0, f0, st);
      (r.0.Pass? <==> AllDrawable(st))
      && (r.0.Pass? ==> RenderedAll(e0, r.1, st) && r.2 == f0 + UpdateEvents(st, st.order))
  {
    AllDrawableIff(st);
    if AllDrawable(st) {
      assert st.order[..Tried(st, st.order)] == st.order;
      RefreshedStore(e0, st);
    }
  }

  /** A turn of import's loop that does not throw leaves the first failure ahead. */
  lemma TurnPassed(st: Store, i: nat)
    requires i < |st.order| && i <= FirstFailure(st, st.order) && !FailsAt(st, st.order[i])
    ensures i + 1 <= FirstFailure(st, st.order)
  {
    FirstFailureIs(st, st.order);
    assert FirstFailure(st, st.order) != i;
  }

  /** The first failing key comes no later than any failing key. */
  lemma {:induction false} FirstFailureBefore(st: Store, keys: seq<string>, i: nat)
    requires i < |keys| && FailsAt(st, keys[i])
    ensures FirstFailure(st, keys) <= i
  {
    if i > 0 && !FailsAt(st, keys[0]) {
      FirstFailureBefore(st, keys[1..], i - 1);
    }
  }

  /** A turn of import's loop that throws ends it: i + 1 keys were tried and not every chunk can be drawn. */
  lemma StoppedAt(e0: map<string, ChunkValue>, f0: seq<CacheEvent>, st: Store, i: nat, entries: map<string, ChunkValue>, fired: seq<CacheEvent>)
    requires i < |st.order| && i <= FirstFailure(st, st.order) && FailsAt(st, st.order[i])
    requires entries == Refreshed(e0, st, st.order[..i + 1]) && fired == f0 + UpdateEvents(st, st.order[..i + 1])
    ensures ImportResult(e0, f0, st) == (Fail(InvalidOreIndex), entries, fired)
  {
    FirstFailureBefore(st, st.order, i);
    assert Tried(st, st.order) == i + 1;
  }

  /** A loop that ran through every key has tried them all, and every chunk can be drawn. */
  lemma RanThrough(e0: map<string, ChunkValue>, f0: seq<CacheEvent>, st: Store, entries: map<string, ChunkValue>, fired: seq<CacheEvent>)
    requires WellKeyed(st) && FirstFailure(st, st.order) >= |st.order|
    requires entries == Refreshed(e0, st, st.order[..|st.order|]) && fired == f0 + UpdateEvents(st, st.order[..|st.order|])
    ensures ImportResult(e0, f0, st) == (Pass, entries, fired)
  {
  }

  /** The rendered record after update has run for each key in turn. */
  function Refreshed(entries: map<string, ChunkValue>, st: Store, keys: seq<string>): map<string, ChunkValue>
  {
    if keys == [] then entries
    else RenderedAt(Refreshed(entries, st, keys[..|keys| - 1]), st, keys[|keys| - 1])
  }

  /** The Update events those calls fire, in key order. */
  function UpdateEvents(st: Store, keys: seq<string>): (r: seq<CacheEvent>)
    ensures |r| <= |keys|
  {
    if keys == [] then [] else UpdateEvents(st, keys[..|keys| - 1]) + UpdatesAt(st, keys[|keys| - 1])
  }

  /** Refreshing keys whose chunks can be drawn renders st's chunk under each and leaves every other entry alone. */
  lemma {:induction false} RefreshedKeys(entries: map<string, ChunkValue>, st: Store, keys: seq<string>)
    requires forall k :: k in keys ==> k in st.contents && Drawable(st.contents[k])
    ensures forall k :: k in Refreshed(entries, st, keys) <==> k in entries || k in keys
    ensures forall k :: k in keys ==> Refreshed(entries, st, keys)[k] == st.contents[k]
    ensures forall k :: k in entries && k !in keys ==> Refreshed(entries, st, keys)[k] == entries[k]
  {
    if keys != [] {
      var front := keys[..|keys| - 1];
      assert forall k :: k in keys <==> k in front || k == keys[|keys| - 1] by {
        LastSplit(keys);
      }
      RefreshedKeys(entries, st, front);
    }
  }

  /** When st holds a drawable chunk under every key, one Update fires per key, in key order, with st's chunk. */
  lemma {:induction false} UpdateEventsAll(st: Store, keys: seq<string>)
    requires forall k :: k in keys ==> k in st.contents && Drawable(st.contents[k])
    ensures |UpdateEvents(st, keys)| == |keys|
    ensures forall i :: 0 <= i < |keys| ==> UpdateEvents(st, keys)[i] == Updated(keys[i], st.contents[keys[i]])
  {
    if keys != [] {
      var front := keys[..|keys| - 1];
      assert forall k :: k in front ==> k in keys;
      UpdateEventsAll(st, front);
    }
  }

  /**
   * The rendered record after update has run for every chunk of st: each
   * stored chunk rendered under its key, every other entry left alone.
   */
  ghost predicate RenderedAll(before: map<string, ChunkValue>, after: map<string, ChunkValue>, st: Store)
  {
    (forall k :: k in after <==> k in before || k in st.contents)
    && (forall k :: k in st.contents ==> after[k] == st.contents[k])
    && (forall k :: k in before && k !in st.contents ==> after[k] == before[k])
  }

  /** Refreshing every key of a well-keyed store whose chunks can all be drawn renders all of it, one Update per key. */
  lemma RefreshedStore(entries: map<string, ChunkValue>, st: Store)
    requires WellKeyed(st) && AllDrawable(st)
    ensures RenderedAll(entries, Refreshed(entries, st, st.order), st)
    ensures UpdateEvents(st, st.order) == seq(|st.order|, i requires 0 <= i < |st.order| => Updated(st.order[i], st.contents[st.order[i]]))
  {
    RefreshedKeys(entries, st, st.order);
    UpdateEventsAll(st, st.order);
  }

  /**
   * What update leaves in the record: st's chunk under k, if st holds one.
   * A chunk that cannot be drawn gets no new entry, but an existing entry is
   * repointed to it before the drawing throws.
   */
  function RenderedAt(entries: map<string, ChunkValue>, st: Store, k: string): map<string, ChunkValue>
  {
    if k !in st.contents then entries
    else if Drawable(st.contents[k]) || k in entries then entries[k := st.contents[k]]
    else entries
  }

  /** The events update fires: one Update with st's chunk under k, if st holds one that can be drawn. */
  function UpdatesAt(st: Store, k: string): seq<CacheEvent>
  {
    if k in st.contents && Drawable(st.contents[k]) then [Updated(k, st.contents[k])] else []
  }

  /** The i-th listed chunk sits under its own key. */
  lemma RefreshStep(st: Store, vs: seq<ChunkValue>, i: nat)
    requires WellKeyed(st) && vs == Listed(st) && i < |vs|
    ensures Key(vs[i].position) == st.order[i]
    ensures st.order[i] in st.contents && st.contents[st.order[i]] == vs[i]
  {
  }

  /** Refreshing one key more: that key rendered, and its Update fired, last. */
  lemma RefreshedStep(e0: map<string, ChunkValue>, f0: seq<CacheEvent>, st: Store, keys: seq<string>, i: nat)
    requires i < |keys|
    ensures Refreshed(e0, st, keys[..i + 1]) == RenderedAt(Refreshed(e0, st, keys[..i]), st, keys[i])
    ensures f0 + UpdateEvents(st, keys[..i + 1]) == (f0 + UpdateEvents(st, keys[..i])) + UpdatesAt(st, keys[i])
  {
    assert keys[..i + 1][..i] == keys[..i];
  }

  /** Every probe form looks up the position key. */
  lemma ProbesAgree(c: ChunkValue)
    ensures ProbeKey(ByChunk(c)) == ProbeKey(ById(Key(c.position)))
    ensures ProbeKey(ByExtracted(c)) == ProbeKey(ById(Key(c.position)))
  {
  }

  class ChunkCache {
    /** The extracted chunks by key, as the chunk each one holds. */
    var entries: map<string, ChunkValue>
    const aggregator: ChunkAggregator
    var debugInformation: bool
    var filePath: Option<string>
    /** The events fired so far, in order; the listeners are not modelled. */
    var fired: seq<CacheEvent>

    ghost predicate Valid()
      reads this, aggregator
    {
      aggregator.Valid()
    }

    constructor ()
      ensures Valid() && fresh(aggregator) && aggregator.State() == EmptyStore
      ensures entries == map[] && filePath == None && debugInformation && fired == []
    {
      entries := map[];
      aggregator := new ChunkAggregator();
      filePath := None;
      debugInformation := true;
      fired := [];
    }

    /** debug: sets the flag. */
    method Debug(value: bool)
      modifies this`debugInformation
      ensures debugInformation == value
    {
      debugInformation := value;
    }

    /** clear: empties the record and the aggregator, turns debugging back on, fires Clear. */
    method Clear()
      requires Valid()
      modifies this`entries, this`debugInformation, this`fired, aggregator
      ensures Valid() && aggregator.State() == EmptyStore
      ensures entries == map[] && debugInformation && fired == old(fired) + [Cleared]
      ensures filePath == old(filePath)
    {
      entries := map[];
      aggregator.Clear();
      debugInformation := true;
      fired := fired + [Cleared];
    }

    /**
     * update: renders the aggregator's chunk at that position anew, or does
     * nothing if the aggregator has none there. Drawing a chunk whose palette
     * index names no ore throws: a new key then gets no entry, an existing
     * entry has already been repointed to the chunk, and no Update fires.
     */
    method Update(position: GridVector2) returns (outcome: Outcome)
      requires Valid()
      modifies this`entries, this`fired
      ensures Valid() && aggregator.State() == old(aggregator.State())
      ensures entries == RenderedAt(old(entries), aggregator.State(), Key(position))
      ensures fired == old(fired) + UpdatesAt(aggregator.State(), Key(position))
      ensures outcome == if FailsAt(aggregator.State(), Key(position)) then Fail(InvalidOreIndex) else Pass
    {
      var merged := aggregator.Get(position);
      if merged.None? {
        return Pass;
      }
      var chunk := merged.value;
      outcome := Draw(chunk, Key(chunk.position));
    }

    /**
     * The body of update once the aggregator has a chunk: an existing entry is
     * repointed to it, then it is drawn, which throws if it cannot be; a drawn
     * chunk is (re)entered under key and fires Update.
     */
    method Draw(chunk: Chunk, key: string) returns (outcome: Outcome)
      modifies this`entries, this`fired
      ensures var value := ChunkValue(chunk.position, chunk.data);
        outcome == (if Drawable(value) then Pass else Fail(InvalidOreIndex))
        && entries == (if Drawable(value) || key in old(entries) then old(entries)[key := value] else old(entries))
        && fired == old(fired) + (if Drawable(value) then [Updated(key, value)] else [])
      ensures aggregator.State() == old(aggregator.State()) && aggregator.Valid() == old(aggregator.Valid())
    {
      var value := ChunkValue(chunk.position, chunk.data);
      if key in entries {
        Repoint(key, value);
      }
      var pixels := chunk.ToPixels();
      if pixels.Err? {
        return Fail(pixels.error);
      }
      Render(key, value);
      return Pass;
    }

    /** The first step of ExtractedChunk.update: the existing entry under key now holds the chunk, not yet drawn. */
    method Repoint(key: string, value: ChunkValue)
      modifies this`entries
      ensures entries == old(entries)[key := value]
      ensures aggregator.State() == old(aggregator.State()) && aggregator.Valid() == old(aggregator.Valid())
    {
      entries := entries[key := value];
    }

    /** The rendering half of update, once the chunk is drawn: the entry under key is (re)made and Update fired. */
    method Render(key: string, value: ChunkValue)
      modifies this`entries, this`fired
      ensures entries == old(entries)[key := value] && fired == old(fired) + [Updated(key, value)]
      ensures aggregator.State() == old(aggregator.State()) && aggregator.Valid() == old(aggregator.Valid())
    {
      entries := entries[key := value];
      fired := fired + [Updated(key, value)];
    }

    /** has: a rendered entry exists under the probe's key. */
    method Has(a: Probe) returns (r: bool)
      ensures r <==> ProbeKey(a) in entries
    {
      match a
      case ById(id) =>
        r := id in entries;
      case ByChunk(c) =>
        r := Key(c.position) in entries;
      case ByExtracted(c) =>
        r := Key(c.position) in entries;
    }

    /**
     * feed: the aggregator takes the chunk, then its merged chunk is rendered
     * and one Update fired; if the merged chunk cannot be drawn, feed fails
     * after the aggregator has taken the chunk.
     */
    method Feed(chunk: Chunk) returns (outcome: Outcome)
      requires Valid()
      modifies this`entries, this`fired, aggregator, aggregator.Objects()
      ensures Valid()
      ensures aggregator.State() == FeedValue(old(aggregator.State()), old(ChunkValue(chunk.position, chunk.data)))
      ensures var k := Key(chunk.position);
        k in aggregator.State().contents
        && (Drawable(aggregator.State().contents[k]) ==>
          outcome == Pass
          && entries == old(entries)[k := aggregator.State().contents[k]]
          && fired == old(fired) + [Updated(k, aggregator.State().contents[k])])
        && (!Drawable(aggregator.State().contents[k]) ==>
          outcome == Fail(InvalidOreIndex) && fired == old(fired)
          && entries == if k in old(entries) then old(entries)[k := aggregator.State().contents[k]] else old(entries))
    {
      aggregator.Feed(chunk);
      outcome := Update(chunk.position);
    }

    /**
     * import: the aggregator imports the buffer, then every chunk it holds,
     * old or new, is rendered anew in key order, each with an Update. The
     * loop stops at the first chunk that cannot be drawn, which fails the
     * import after the aggregator has taken every chunk.
     */
    method Import(data: array<byte>) returns (outcome: Outcome)
      requires Valid()
      modifies this`entries, this`fired, aggregator, aggregator.Objects()
      ensures Valid()
      ensures DecodeExport(data[..]).Err? ==>
        outcome == Fail(DecodeExport(data[..]).error) && aggregator.State() == old(aggregator.State())
        && entries == old(entries) && fired == old(fired)
      ensures DecodeExport(data[..]).Ok? ==>
        aggregator.State() == FeedAll(old(aggregator.State()), DecodeExport(data[..]).value)
        && (outcome, entries, fired) == ImportResult(old(entries), old(fired), aggregator.State())
        && (outcome.Pass? <==> AllDrawable(aggregator.State()))
      ensures outcome.Pass? ==>
        RenderedAll(old(entries), entries, aggregator.State())
        && fired == old(fired) + UpdateEvents(aggregator.State(), aggregator.State().order)
    {
      outcome := aggregator.Import(data);
      if outcome.Fail? {
        return;
      }
      var vs := aggregator.Values();
      outcome := RefreshAll(vs);
      aggregator.StateWellKeyed();
      ImportResultPasses(old(entries), old(fired), aggregator.State());
    }

    /** The loop of import: update for each chunk of the aggregator in turn, up to the first that throws. */
    method RefreshAll(vs: seq<ChunkValue>) returns (outcome: Outcome)
      requires Valid() && vs == Listed(aggregator.State())
      modifies this`entries, this`fired
      ensures Valid() && aggregator.State() == old(aggregator.State())
      ensures (outcome, entries, fired) == ImportResult(old(entries), old(fired), aggregator.State())
    {
      ghost var st := aggregator.State();
      aggregator.StateWellKeyed();
      var i := 0;
      while i < |vs|
        invariant 0 <= i <= |vs| && Valid() && aggregator.State() == st
        invariant i <= FirstFailure(st, st.order)
        invariant entries == Refreshed(old(entries), st, st.order[..i])
        invariant fired == old(fired) + UpdateEvents(st, st.order[..i])
      {
        RefreshStep(st, vs, i);
        outcome := RefreshOne(st, vs[i].position, i, old(entries), old(fired));
        if outcome.Fail? {
          return;
        }
        i := i + 1;
      }
      RanThrough(old(entries), old(fired), st, entries, fired);
      return Pass;
    }

    /**
     * One turn of import's loop: update for the i-th chunk. A turn that
     * throws ends the loop with its final result; one that does not leaves
     * the first failure ahead.
     */
    method RefreshOne(ghost st: Store, position: GridVector2, i: nat, ghost e0: map<string, ChunkValue>, ghost f0: seq<CacheEvent>) returns (outcome: Outcome)
      requires Valid() && aggregator.State() == st && WellKeyed(st)
      requires i < |st.order| && Key(position) == st.order[i] && i <= FirstFailure(st, st.order)
      requires entries == Refreshed(e0, st, st.order[..i]) && fired == f0 + UpdateEvents(st, st.order[..i])
      modifies this`entries, this`fired
      ensures Valid() && aggregator.State() == st
      ensures entries == Refreshed(e0, st, st.order[..i + 1]) && fired == f0 + UpdateEvents(st, st.order[..i + 1])
      ensures outcome == if FailsAt(st, st.order[i]) then Fail(InvalidOreIndex) else Pass
      ensures outcome.Pass? ==> i + 1 <= FirstFailure(st, st.order)
      ensures outcome.Fail? ==> (outcome, entries, fired) == ImportResult(e0, f0, st)
    {
      RefreshedStep(e0, f0, st, st.order, i);
      outcome := Update(position);
      if outcome.Fail? {
        StoppedAt(e0, f0, st, i, entries, fired);
      } else {
        TurnPassed(st, i);
      }
    }

    /** new: the same as clear. */
    method New()
      requires Valid()
      modifies this`entries, this`debugInformation, this`fired, aggregator
      ensures Valid() && aggregator.State() == EmptyStore
      ensures entries == map[] && debugInformation && fired == old(fired) + [Cleared]
      ensures filePath == old(filePath)
    {
      Clear();
    }

    /**
     * open: a cancelled dialog, or one with no file chosen, changes nothing;
     * otherwise the first path is remembered before its contents are imported.
     */
    method Open(result: OpenDialogResult, contents: array<byte>) returns (outcome: Outcome)
      requires Valid()
      modifies this`entries, this`fired, this`filePath, aggregator, aggregator.Objects()
      ensures Valid()
      ensures result.canceled || result.filePaths == [] ==>
        outcome == Pass && filePath == old(filePath) && entries == old(entries) && fired == old(fired)
        && aggregator.State() == old(aggregator.State())
      ensures !result.canceled && result.filePaths != [] ==>
        filePath == Some(result.filePaths[0])
        && (outcome.Pass? <==> DecodeExport(contents[..]).Ok? && AllDrawable(aggregator.State()))
    {
      if result.canceled || |result.filePaths| == 0 {
        return Pass;
      }
      filePath := Some(result.filePaths[0]);
      outcome := ImportFrom(result.filePaths[0], contents);
    }

    /** importFrom: imports what the file holds; the read itself is not modelled. */
    method ImportFrom(path: string, contents: array<byte>) returns (outcome: Outcome)
      requires Valid()
      modifies this`entries, this`fired, aggregator, aggregator.Objects()
      ensures Valid()
      ensures outcome.Pass? <==> DecodeExport(contents[..]).Ok? && AllDrawable(aggregator.State())
      ensures DecodeExport(contents[..]).Err? ==> aggregator.State() == old(aggregator.State()) && entries == old(entries) && fired == old(fired)
    {
      outcome := Import(contents);
    }

    /** saveTo: writes the aggregator's export to the path. */
    method SaveTo(path: string) returns (written: FileWrite)
      requires Valid()
      ensures written == FileWrite(path, ExportBytes(Listed(aggregator.State())))
    {
      var data := aggregator.Export();
      written := FileWrite(path, data[..]);
    }

    /** save: to the remembered path, or through saveAs when there is none. */
    method Save(dialog: SaveDialogResult) returns (written: Option<FileWrite>)
      requires Valid()
      modifies this`filePath
      ensures Valid()
      ensures old(filePath).Some? ==>
        filePath == old(filePath) && written == Some(FileWrite(filePath.value, ExportBytes(Listed(aggregator.State()))))
      ensures old(filePath).None? ==> SavedAs(dialog, old(filePath), written)
    {
      if filePath.None? {
        written := SaveAs(dialog);
        return;
      }
      var w := SaveTo(filePath.value);
      written := Some(w);
    }

    /** saveAs: a cancelled dialog changes nothing; otherwise its path is remembered and written. */
    method SaveAs(dialog: SaveDialogResult) returns (written: Option<FileWrite>)
      requires Valid()
      modifies this`filePath
      ensures Valid() && SavedAs(dialog, old(filePath), written)
    {
      if dialog.canceled {
        return None;
      }
      filePath := Some(dialog.filePath);
      var w := SaveTo(dialog.filePath);
      written := Some(w);
    }

    /** What saveAs leaves: the old path and no write on cancel, else the chosen path and its write. */
    ghost predicate SavedAs(dialog: SaveDialogResult, before: Option<string>, written: Option<FileWrite>)
      reads this, aggregator, aggregator.Objects()
    {
      aggregator.Valid() &&
      if dialog.canceled then filePath == before && written == None
      else filePath == Some(dialog.filePath) && written == Some(FileWrite(dialog.filePath, ExportBytes(Listed(aggregator.State()))))
    }
  }
}
