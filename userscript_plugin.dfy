// The userscript webpack plugin: the metadata block it writes at the top of
// every output script (`// @key value` lines between the open and close
// tags, in a fixed key order, values aligned in one column) and the test
// that picks the output files it writes it into.
module UserscriptPlugin {
  import opened Wrappers
  import opened StableSort
  import Vectors

  /** The order of the known header keys; `name` must come first for Tampermonkey. */
  const OrderHeader: seq<string> := [
    "name", "version", "description", "author", "copyright", "icon", "icon64", "grant",
    "homepage", "antifeature", "require", "resource", "include", "match", "exclude", "runAt",
    "sandbox", "connect", "noframes", "license", "namespace", "updateURL", "downloadURL",
    "supportURL", "webRequest", "unwrap"]

  /** The keys whose object values are translations, one line per locale. */
  const I18NKeys: seq<string> := ["name", "description", "antifeature"]

  /** The messages of the two errors header generation can throw. */
  const NullKeys: string := "Cannot convert undefined or null to object"
  const NegativeRepeat: string := "Invalid count value"

  /** HeaderKeyToName: only `runAt` is renamed, to `run-at`; every other key is its own name. */
  function HeaderKeyToName(key: string): (r: string)
    ensures r != key <==> key == "runAt"
    ensures key == "runAt" ==> r == "run-at"
  {
    if key == "runAt" then "run-at" else key
  }

  /** The first position of `key` in `s`, or `|s|` when it does not occur. */
  function IndexOf(s: seq<string>, key: string): (r: nat)
    ensures r <= |s|
    ensures r < |s| ==> s[r] == key
    ensures forall i :: 0 <= i < r ==> s[i] != key
  {
    if s == [] then 0 else if s[0] == key then 0 else 1 + IndexOf(s[1..], key)
  }

  /** The sort key of a header key: its place in OrderHeader, every other key after all of them. */
  function Rank(key: string): int
  {
    IndexOf(OrderHeader, key)
  }

  /** A header value as `addHeaderField` tells them apart; numbers, booleans and `undefined` are Other. */
  datatype Value = Text(s: string) | Record(entries: seq<(string, string)>) | List(items: seq<string>) | Null | Other

  /** A header: its keys, in enumeration order, with their values. */
  type Header = seq<(string, Value)>

  function EntryRank(e: (string, Value)): int
  {
    Rank(e.0)
  }

  /** What `Object.keys` and `for ... in` enumerate on an object or an array: its entries, or its indices with the items. */
  function Entries(v: Value): (r: seq<(string, string)>)
    ensures v.List? ==> |r| == |v.items|
  {
    match v
    case Record(entries) => entries
    case List(items) => seq(|items|, i requires 0 <= i < |items| => (Vectors.IntToString(i), items[i]))
    case _ => []
  }

  /** The options GenerateHeader reads; a missing one is None (the `order` and package-injection options are not modelled). */
  datatype Options = Options(
    prefix: Option<string>,
    suffix: Option<string>,
    openTag: Option<string>,
    closeTag: Option<string>,
    autoAlignment: Option<bool>,
    allowUnknownKeys: bool,
    format: Option<(string, string, Option<string>) -> string>,
    keyToName: Option<string -> Option<string>>)

  const Defaults: Options := Options(None, None, None, None, None, false, None, None)

  function Prefix(o: Options): string { if o.prefix.Some? then o.prefix.value else "// " }
  function Suffix(o: Options): string { if o.suffix.Some? then o.suffix.value else "" }
  function OpenTag(o: Options): string { if o.openTag.Some? then o.openTag.value else "==UserScript==" }
  function CloseTag(o: Options): string { if o.closeTag.Some? then o.closeTag.value else "==/UserScript==" }
  predicate AutoAlign(o: Options) { o.autoAlignment.None? || o.autoAlignment.value }

  function OpenLine(o: Options): string { Prefix(o) + OpenTag(o) + Suffix(o) }
  function CloseLine(o: Options): string { Prefix(o) + CloseTag(o) + Suffix(o) }

  /** With no options the block is framed by the Tampermonkey tags behind `// `. */
  lemma DefaultTags()
    ensures OpenLine(Defaults) == "// ==UserScript==" && CloseLine(Defaults) == "// ==/UserScript=="
  {
  }

  // ---------------------------------------------------------------------
  // The alignment width (maxSize)
  // ---------------------------------------------------------------------

  /** Math.max over the lengths of the known keys: "description" is the longest. */
  const KeyWidth: nat := 11

  lemma KeyWidthIsLongest()
    ensures forall i :: 0 <= i < |OrderHeader| ==> |OrderHeader[i]| <= KeyWidth
    ensures |OrderHeader[2]| == KeyWidth
  {
  }

  /** The room `key:code` takes, one more than needed for the 'default' locale which is written without `:code`. */
  function CodeWidth(key: string, code: string): nat
  {
    |key| + (if code != "default" then |code| else 0) + 1
  }

  /** Math.max of `m` and the widths of every locale code in `entries`. */
  function WidenByCodes(key: string, entries: seq<(string, string)>, m: nat): (r: nat)
    ensures r >= m
    ensures forall i :: 0 <= i < |entries| ==> r >= CodeWidth(key, entries[i].0)
  {
    if entries == [] then m
    else
      var w := CodeWidth(key, entries[0].0);
      WidenByCodes(key, entries[1..], if m < w then w else m)
  }

  /** The value stored under `key`: the first entry with that key. */
  function Lookup(header: Header, key: string): (r: Option<Value>)
    ensures r.None? ==> forall i :: 0 <= i < |header| ==> header[i].0 != key
    ensures r.Some? ==> exists i :: 0 <= i < |header| && header[i] == (key, r.value)
  {
    if header == [] then None
    else if header[0].0 == key then Some(header[0].1)
    else Lookup(header[1..], key)
  }

  /** One step of the width loop: `typeof` is 'object' for null too, and `Object.keys(null)` throws. */
  function WidenFor(header: Header, key: string, m: nat): Result<nat>
  {
    match Lookup(header, key)
    case Some(Null) => Err(NullKeys)
    case Some(v) => Ok(if v.Record? || v.List? then WidenByCodes(key, Entries(v), m) else m)
    case None => Ok(m)
  }

  function WidthFrom(header: Header, keys: seq<string>, m: nat): Result<nat>
  {
    if keys == [] then Ok(m)
    else
      var m' :- WidenFor(header, keys[0], m);
      WidthFrom(header, keys[1..], m')
  }

  /** maxSize: the longest known key, widened for every translation, plus 2. */
  function AlignWidth(header: Header): Result<nat>
  {
    var m :- WidthFrom(header, I18NKeys, KeyWidth);
    Ok(m + 2)
  }

  /** A translation key's value, when it is an object or an array. */
  predicate Translated(header: Header, key: string)
  {
    Lookup(header, key).Some? && (Lookup(header, key).value.Record? || Lookup(header, key).value.List?)
  }

  lemma {:induction false} WidthFromBounds(header: Header, keys: seq<string>, m: nat)
    ensures WidthFrom(header, keys, m).Err? <==> exists j :: 0 <= j < |keys| && Lookup(header, keys[j]) == Some(Null)
    ensures WidthFrom(header, keys, m).Ok? ==> WidthFrom(header, keys, m).value >= m
    ensures WidthFrom(header, keys, m).Ok? ==>
      forall j, i :: 0 <= j < |keys| && Translated(header, keys[j]) && 0 <= i < |Entries(Lookup(header, keys[j]).value)| ==>
        WidthFrom(header, keys, m).value >= CodeWidth(keys[j], Entries(Lookup(header, keys[j]).value)[i].0)
  {
    if keys != [] {
      match WidenFor(header, keys[0], m)
      case Err(_) =>
      case Ok(m') =>
        WidthFromBounds(header, keys[1..], m');
        assert forall j :: 1 <= j < |keys| ==> keys[j] == keys[1..][j - 1];
        if WidthFrom(header, keys, m).Err? {
          var j :| 0 <= j < |keys[1..]| && Lookup(header, keys[1..][j]) == Some(Null);
          assert Lookup(header, keys[j + 1]) == Some(Null);
        }
    }
  }

  /** maxSize throws exactly when a translation key holds null; otherwise it leaves two columns beyond every known key and every `key:code`. */
  lemma AlignWidthBounds(header: Header)
    ensures AlignWidth(header).Err? <==> exists j :: 0 <= j < |I18NKeys| && Lookup(header, I18NKeys[j]) == Some(Null)
    ensures AlignWidth(header).Ok? ==> forall i :: 0 <= i < |OrderHeader| ==> |OrderHeader[i]| + 2 <= AlignWidth(header).value
    ensures AlignWidth(header).Ok? ==>
      forall j, i :: 0 <= j < |I18NKeys| && Translated(header, I18NKeys[j]) && 0 <= i < |Entries(Lookup(header, I18NKeys[j]).value)| ==>
        CodeWidth(I18NKeys[j], Entries(Lookup(header, I18NKeys[j]).value)[i].0) + 2 <= AlignWidth(header).value
  {
    WidthFromBounds(header, I18NKeys, KeyWidth);
    KeyWidthIsLongest();
  }

  // ---------------------------------------------------------------------
  // Rendering one field (renderHeaderField and addHeaderField)
  // ---------------------------------------------------------------------

  function Spaces(n: nat): (r: string)
    ensures |r| == n && forall i :: 0 <= i < n ==> r[i] == ' '
  {
    if n == 0 then "" else " " + Spaces(n - 1)
  }

  /** The locale written after the name: none for the 'default' entry. */
  function CodeOf(code: string): Option<string>
  {
    if code == "default" then None else Some(code)
  }

  function CodeSuffix(code: Option<string>): string
  {
    if code.Some? then ":" + code.value else ""
  }

  /** The default renderer: prefix, '@', name, ':code', padding to the value column, value, suffix; a negative padding throws. */
  function DefaultField(o: Options, width: nat, name: string, value: string, code: Option<string>): Result<string>
  {
    var i18n := CodeSuffix(code);
    if AutoAlign(o) then
      if width < |name| + |i18n| then Err(NegativeRepeat)
      else Ok(Prefix(o) + "@" + name + i18n + Spaces(width - |name| - |i18n|) + value + Suffix(o))
    else Ok(Prefix(o) + "@" + name + i18n + " " + value + Suffix(o))
  }

  /** renderHeaderField: the caller's `format` when given, the default renderer otherwise. */
  function RenderField(o: Options, width: nat, name: string, value: string, code: Option<string>): Result<string>
  {
    if o.format.Some? then Ok(o.format.value(name, value, code)) else DefaultField(o, width, name, value, code)
  }

  /** With the default renderer and alignment, every value starts in the same column, right after `prefix@` and `width` characters; the padding throws exactly when `name:code` is wider than `width`. */
  lemma ValueColumn(o: Options, width: nat, name: string, value: string, code: Option<string>)
    requires o.format.None? && AutoAlign(o)
    ensures RenderField(o, width, name, value, code).Err? <==> width < |name| + |CodeSuffix(code)|
    ensures RenderField(o, width, name, value, code).Ok? ==>
      var l := RenderField(o, width, name, value, code).value;
      |l| == |Prefix(o)| + 1 + width + |value| + |Suffix(o)| &&
      l[..|Prefix(o)| + 1] == Prefix(o) + "@" &&
      l[|Prefix(o)| + 1 + width..] == value + Suffix(o)
  {
    if RenderField(o, width, name, value, code).Ok? {
      var i18n := CodeSuffix(code);
      var pad := Spaces(width - |name| - |i18n|);
      var l := Prefix(o) + "@" + name + i18n + pad + value + Suffix(o);
      assert l == (Prefix(o) + "@") + (name + i18n + pad) + (value + Suffix(o));
    }
  }

  /** Prepends lines to a result, keeping an error as it is. */
  function Then(lines: seq<string>, r: Result<seq<string>>): Result<seq<string>>
  {
    if r.Err? then r else Ok(lines + r.value)
  }

  /** The lines of an object value: one per entry, in enumeration order, stopping at the first that throws. */
  function EntryLines(o: Options, width: nat, name: string, entries: seq<(string, string)>): Result<seq<string>>
  {
    if entries == [] then Ok([])
    else
      var l :- RenderField(o, width, name, entries[0].1, CodeOf(entries[0].0));
      Then([l], EntryLines(o, width, name, entries[1..]))
  }

  /** addHeaderField as written: a string is one line; an object or an array is one line per entry for a translation name and nothing otherwise; everything else is nothing. */
  function FieldLines(o: Options, width: nat, name: string, v: Value): Result<seq<string>>
  {
    match v
    case Text(s) =>
      var l :- RenderField(o, width, name, s, None);
      Ok([l])
    case Record(_) => if name in I18NKeys then EntryLines(o, width, name, Entries(v)) else Ok([])
    case List(_) => if name in I18NKeys then EntryLines(o, width, name, Entries(v)) else Ok([])
    case _ => Ok([])
  }

  /** EntryLines succeeds exactly when every entry renders, with one line per entry, in order. */
  lemma {:induction false} EntryLinesEach(o: Options, width: nat, name: string, entries: seq<(string, string)>)
    ensures EntryLines(o, width, name, entries).Ok? <==>
      forall i :: 0 <= i < |entries| ==> RenderField(o, width, name, entries[i].1, CodeOf(entries[i].0)).Ok?
    ensures EntryLines(o, width, name, entries).Ok? ==>
      |EntryLines(o, width, name, entries).value| == |entries| &&
      forall i :: 0 <= i < |entries| ==>
        RenderField(o, width, name, entries[i].1, CodeOf(entries[i].0)) == Ok(EntryLines(o, width, name, entries).value[i])
  {
    if entries != [] {
      var rest := entries[1..];
      EntryLinesEach(o, width, name, rest);
      assert forall i :: 1 <= i < |entries| ==> entries[i] == rest[i - 1];
      var head := RenderField(o, width, name, entries[0].1, CodeOf(entries[0].0));
      if head.Ok? {
        assert EntryLines(o, width, name, entries) == Then([head.value], EntryLines(o, width, name, rest));
      }
    }
  }

  /** Prepending nothing changes nothing. */
  lemma ThenNothing(r: Result<seq<string>>)
    ensures Then([], r) == r
  {
    if r.Ok? {
      assert [] + r.value == r.value;
    }
  }

  /** Prepending in two steps is prepending the concatenation. */
  lemma ThenThen(a: seq<string>, b: seq<string>, r: Result<seq<string>>)
    ensures Then(a, Then(b, r)) == Then(a + b, r)
  {
    if r.Ok? {
      assert a + (b + r.value) == a + b + r.value;
    }
  }

  /** A string value is exactly one line; an object is one line per entry for name, description and antifeature, the 'default' locale without `:code`, and no line for any other name. */
  lemma FieldShapes(o: Options, width: nat, name: string, v: Value)
    ensures v.Text? ==> (FieldLines(o, width, name, v).Ok? <==> RenderField(o, width, name, v.s, None).Ok?)
    ensures v.Text? && FieldLines(o, width, name, v).Ok? ==>
      FieldLines(o, width, name, v).value == [RenderField(o, width, name, v.s, None).value]
    ensures (v.Record? || v.List?) && name !in I18NKeys ==> FieldLines(o, width, name, v) == Ok([])
    ensures (v.Record? || v.List?) && name in I18NKeys && FieldLines(o, width, name, v).Ok? ==>
      |FieldLines(o, width, name, v).value| == |Entries(v)| &&
      forall i :: 0 <= i < |Entries(v)| ==>
        RenderField(o, width, name, Entries(v)[i].1, CodeOf(Entries(v)[i].0)) == Ok(FieldLines(o, width, name, v).value[i])
    ensures v.Null? || v.Other? ==> FieldLines(o, width, name, v) == Ok([])
  {
    EntryLinesEach(o, width, name, Entries(v));
  }

  /** As written, an array under any name other than a translation name yields no line: `match` and `grant` lists are dropped. */
  lemma ArraysDropped(o: Options, width: nat)
    ensures FieldLines(o, width, "match", List(["https://example.org/*"])) == Ok([])
    ensures FieldLines(o, width, "grant", List(["GM_getValue", "GM_setValue"])) == Ok([])
  {
  }

  /**
   * addHeaderField as evidently intended: an array yields one line per
   * element, in order. The unreachable branch's `for ... in` walks the
   * indices, so it would render "0", "1", ...; each element, not its index,
   * gets its own line, as the branch evidently means.
   */
  function FieldLinesIntended(o: Options, width: nat, name: string, v: Value): Result<seq<string>>
  {
    match v
    case List(items) => EntryLines(o, width, name, seq(|items|, i requires 0 <= i < |items| => ("default", items[i])))
    case _ => FieldLines(o, width, name, v)
  }

  /** Corrected: every element of an array gets its own `@name value` line, in order. */
  lemma ArraysListed(o: Options, width: nat, name: string, items: seq<string>)
    requires forall i :: 0 <= i < |items| ==> RenderField(o, width, name, items[i], None).Ok?
    ensures FieldLinesIntended(o, width, name, List(items)).Ok?
    ensures |FieldLinesIntended(o, width, name, List(items)).value| == |items|
    ensures forall i :: 0 <= i < |items| ==>
      RenderField(o, width, name, items[i], None) == Ok(FieldLinesIntended(o, width, name, List(items)).value[i])
  {
    var entries := seq(|items|, i requires 0 <= i < |items| => ("default", items[i]));
    EntryLinesEach(o, width, name, entries);
  }

  // ---------------------------------------------------------------------
  // The whole block
  // ---------------------------------------------------------------------

  /** The name a key is written under: the caller's keyToName when it gives one, HeaderKeyToName otherwise. */
  function KeyName(o: Options, key: string): string
  {
    if o.keyToName.Some? && o.keyToName.value(key).Some? then o.keyToName.value(key).value else HeaderKeyToName(key)
  }

  /** Whether a key is written at all: known keys always, others only when allowUnknownKeys is set. */
  predicate Emitted(o: Options, known: set<string>, key: string)
  {
    o.allowUnknownKeys || key in known
  }

  function KeyLines(o: Options, width: nat, known: set<string>, e: (string, Value)): Result<seq<string>>
  {
    if Emitted(o, known, e.0) then FieldLines(o, width, KeyName(o, e.0), e.1) else Ok([])
  }

  /** The field lines of the keys in the given order, stopping at the first that throws. */
  function BodyLines(o: Options, width: nat, known: set<string>, entries: Header): Result<seq<string>>
  {
    if entries == [] then Ok([])
    else
      var l :- KeyLines(o, width, known, entries[0]);
      Then(l, BodyLines(o, width, known, entries[1..]))
  }

  /** Keys that are not written leave the body as it is. */
  lemma {:induction false} SkippedKeys(o: Options, width: nat, known: set<string>, entries: Header)
    requires forall i :: 0 <= i < |entries| ==> !Emitted(o, known, entries[i].0)
    ensures BodyLines(o, width, known, entries) == Ok([])
  {
    if entries != [] {
      SkippedKeys(o, width, known, entries[1..]);
      assert KeyLines(o, width, known, entries[0]) == Ok([]);
      ThenNothing(Ok([]));
    }
  }

  /** The lines of the block: the open tag, the fields in key order, the close tag and an empty last line. */
  function HeaderLines(header: Header, o: Options, known: set<string>): Result<seq<string>>
  {
    var width :- AlignWidth(header);
    var body :- BodyLines(o, width, known, SortBy(header, EntryRank));
    Ok([OpenLine(o)] + body + [CloseLine(o), ""])
  }

  /** `Array.prototype.join` with a newline. */
  function Join(lines: seq<string>): string
  {
    if lines == [] then "" else if |lines| == 1 then lines[0] else lines[0] + "\n" + Join(lines[1..])
  }

  /** Each line followed by a newline. */
  function Terminated(lines: seq<string>): string
  {
    if lines == [] then "" else lines[0] + "\n" + Terminated(lines[1..])
  }

  lemma {:induction false} JoinFramed(first: string, body: seq<string>, last: string)
    ensures Join([first] + body + [last, ""]) == first + "\n" + Terminated(body) + last + "\n"
    decreases |body|
  {
    if body == [] {
      assert [first] + body + [last, ""] == [first, last, ""];
      assert Join([last, ""]) == last + "\n" + Join([""]);
    } else {
      var rest := body[1..];
      JoinFramed(body[0], rest, last);
      assert ([first] + body + [last, ""])[1..] == [body[0]] + rest + [last, ""];
    }
  }

  function HeaderText(header: Header, o: Options, known: set<string>): Result<string>
  {
    var lines :- HeaderLines(header, o, known);
    Ok(Join(lines))
  }

  /** GenerateHeader's output: the open line, every field line newline-terminated, the close line and a final newline. */
  lemma HeaderFrame(header: Header, o: Options, known: set<string>)
    ensures HeaderText(header, o, known).Ok? <==>
      AlignWidth(header).Ok? && BodyLines(o, AlignWidth(header).value, known, SortBy(header, EntryRank)).Ok?
    ensures HeaderText(header, o, known).Ok? ==>
      HeaderText(header, o, known).value ==
        OpenLine(o) + "\n" + Terminated(BodyLines(o, AlignWidth(header).value, known, SortBy(header, EntryRank)).value)
        + CloseLine(o) + "\n"
  {
    if HeaderText(header, o, known).Ok? {
      var body := BodyLines(o, AlignWidth(header).value, known, SortBy(header, EntryRank)).value;
      JoinFramed(OpenLine(o), body, CloseLine(o));
    }
  }

  /** Only `name` ranks 0; a key ranks after all of OrderHeader exactly when it is not in it. */
  lemma RankFacts(key: string)
    ensures Rank(key) == 0 <==> key == "name"
    ensures Rank(key) == |OrderHeader| <==> key !in OrderHeader
  {
    IndexOfFacts(OrderHeader, key);
  }

  /** The position found is 0 exactly for the first element, and the length exactly for a missing key. */
  lemma IndexOfFacts(s: seq<string>, key: string)
    requires s != []
    ensures IndexOf(s, key) == 0 <==> s[0] == key
    ensures IndexOf(s, key) == |s| <==> key !in s
  {
    if key in s {
      var i :| 0 <= i < |s| && s[i] == key;
      assert IndexOf(s, key) <= i;
    }
  }

  /** Keys are distinct, as the keys of an object are. */
  predicate DistinctKeys(header: Header)
  {
    forall i, j :: 0 <= i < j < |header| ==> header[i].0 != header[j].0
  }

  /** The `name` entry is written first whatever the order of the header's keys. */
  lemma NameFirst(header: Header, i: nat)
    requires DistinctKeys(header) && i < |header| && header[i].0 == "name"
    ensures SortBy(header, EntryRank)[0] == header[i]
  {
    forall j | 0 <= j < |header| && j != i
      ensures EntryRank(header[i]) < EntryRank(header[j])
    {
      RankFacts(header[j].0);
      RankFacts(header[i].0);
    }
    SmallestFirst(header, i, EntryRank);
  }

  /** Keys outside OrderHeader come after all known ones, in the order the header lists them. */
  lemma UnknownKeysLast(header: Header)
    ensures SortedBy(SortBy(header, EntryRank), EntryRank)
    ensures multiset(SortBy(header, EntryRank)) == multiset(header)
    ensures Ties(SortBy(header, EntryRank), EntryRank, |OrderHeader|) == Ties(header, EntryRank, |OrderHeader|)
    ensures forall e: (string, Value) :: EntryRank(e) == |OrderHeader| <==> e.0 !in OrderHeader
  {
    SortBySorted(header, EntryRank);
    SortByKeepsTies(header, EntryRank, |OrderHeader|);
    forall e: (string, Value)
      ensures EntryRank(e) == |OrderHeader| <==> e.0 !in OrderHeader
    {
      RankFacts(e.0);
    }
  }

  // ---------------------------------------------------------------------
  // GenerateHeader, step by step
  // ---------------------------------------------------------------------

  /** addHeaderField: pushes the lines of one key, stopping at the first that throws. */
  method AddHeaderField(o: Options, width: nat, name: string, v: Value) returns (r: Result<seq<string>>)
    ensures r == FieldLines(o, width, name, v)
  {
    if v.Text? {
      var l := RenderField(o, width, name, v.s, None);
      if l.Err? {
        return Err(l.error);
      }
      return Ok([l.value]);
    }
    if !((v.Record? || v.List?) && name in I18NKeys) {
      return Ok([]);
    }
    var entries := Entries(v);
    var lines: seq<string> := [];
    assert entries[0..] == entries;
    ThenNothing(EntryLines(o, width, name, entries));
    for i := 0 to |entries|
      invariant EntryLines(o, width, name, entries) == Then(lines, EntryLines(o, width, name, entries[i..]))
    {
      var rest := entries[i..];
      assert rest[0] == entries[i] && rest[1..] == entries[i + 1..];
      var l := RenderField(o, width, name, entries[i].1, CodeOf(entries[i].0));
      if l.Err? {
        return Err(l.error);
      }
      ThenThen(lines, [l.value], EntryLines(o, width, name, entries[i + 1..]));
      lines := lines + [l.value];
    }
    assert lines + [] == lines;
    r := Ok(lines);
  }

  /** The width computation of GenerateHeader: Math.max over the known keys, then the translation loop, plus 2. */
  method ComputeWidth(header: Header) returns (r: Result<nat>)
    ensures r == AlignWidth(header)
  {
    var m := WidthLoop(header, I18NKeys, KeyWidth);
    if m.Err? {
      return Err(m.error);
    }
    r := Ok(m.value + 2);
  }

  /** The loop over the translation keys, widening for each one's locale codes and stopping at the first that throws. */
  method WidthLoop(header: Header, keys: seq<string>, m0: nat) returns (r: Result<nat>)
    ensures r == WidthFrom(header, keys, m0)
  {
    var m := m0;
    assert keys[0..] == keys;
    for k := 0 to |keys|
      invariant WidthFrom(header, keys, m0) == WidthFrom(header, keys[k..], m)
    {
      var rest := keys[k..];
      assert rest[0] == keys[k] && rest[1..] == keys[k + 1..];
      var step := WidenStep(header, keys[k], m);
      if step.Err? {
        return Err(step.error);
      }
      m := step.value;
    }
    r := Ok(m);
  }

  /** One translation key's turn in the width loop. */
  method WidenStep(header: Header, key: string, m: nat) returns (r: Result<nat>)
    ensures r == WidenFor(header, key, m)
  {
    var v := Lookup(header, key);
    if v == Some(Null) {
      return Err(NullKeys);
    }
    if v.Some? && (v.value.Record? || v.value.List?) {
      var w := WidenLoop(key, Entries(v.value), m);
      return Ok(w);
    }
    return Ok(m);
  }

  /** The inner Math.max over one translation's locale codes. */
  method WidenLoop(key: string, entries: seq<(string, string)>, m0: nat) returns (m: nat)
    ensures m == WidenByCodes(key, entries, m0)
  {
    m := m0;
    assert entries[0..] == entries;
    for i := 0 to |entries|
      invariant WidenByCodes(key, entries, m0) == WidenByCodes(key, entries[i..], m)
    {
      assert entries[i..][0] == entries[i] && entries[i..][1..] == entries[i + 1..];
      var w := CodeWidth(key, entries[i].0);
      if m < w {
        m := w;
      }
    }
  }

  /** The field loop of GenerateHeader: each key in order, skipped when not written, stopping at the first that throws. */
  method AddFields(o: Options, width: nat, known: set<string>, ordered: Header) returns (r: Result<seq<string>>)
    ensures r == BodyLines(o, width, known, ordered)
  {
    var lines: seq<string> := [];
    assert ordered[0..] == ordered;
    ThenNothing(BodyLines(o, width, known, ordered));
    for i := 0 to |ordered|
      invariant BodyLines(o, width, known, ordered) == Then(lines, BodyLines(o, width, known, ordered[i..]))
    {
      var rest := ordered[i..];
      assert rest[0] == ordered[i] && rest[1..] == ordered[i + 1..];
      var key := ordered[i].0;
      var field: Result<seq<string>> := Ok([]);
      if Emitted(o, known, key) {
        field := AddHeaderField(o, width, KeyName(o, key), ordered[i].1);
      }
      if field.Err? {
        return Err(field.error);
      }
      ThenThen(lines, field.value, BodyLines(o, width, known, ordered[i + 1..]));
      lines := lines + field.value;
    }
    assert lines + [] == lines;
    r := Ok(lines);
  }

  /** GenerateHeader (without package injection): the width, the open line, the sorted fields, the close line, the join. */
  method GenerateHeader(header: Header, o: Options, known: set<string>) returns (r: Result<string>)
    ensures r == HeaderText(header, o, known)
  {
    var width := ComputeWidth(header);
    if width.Err? {
      return Err(width.error);
    }
    var result := [OpenLine(o)];
    var ordered := SortBy(header, EntryRank);
    var fields := AddFields(o, width.value, known, ordered);
    if fields.Err? {
      return Err(fields.error);
    }
    result := result + fields.value + [CloseLine(o), ""];
    r := Ok(Join(result));
  }

  // ---------------------------------------------------------------------
  // Output file selection (match)
  // ---------------------------------------------------------------------

  /** The `extension` option: one suffix or several (regular expressions are not modelled). */
  datatype Extension = Ending(ext: string) | Endings(exts: seq<string>)

  /** `String.prototype.endsWith`. */
  predicate EndsWith(file: string, ext: string)
  {
    |ext| <= |file| && file[|file| - |ext|..] == ext
  }

  /** match: a file is written into when it ends with the extension, '.user.js' by default, or with any of several. */
  method Match(file: string, extension: Option<Extension>) returns (r: bool)
    ensures extension.None? ==> (r <==> EndsWith(file, ".user.js"))
    ensures extension.Some? && extension.value.Ending? ==> (r <==> EndsWith(file, extension.value.ext))
    ensures extension.Some? && extension.value.Endings? ==>
      (r <==> exists i :: 0 <= i < |extension.value.exts| && EndsWith(file, extension.value.exts[i]))
  {
    var ext := if extension.Some? then extension.value else Ending(".user.js");
    if ext.Ending? {
      return EndsWith(file, ext.ext);
    }
    for i := 0 to |ext.exts|
      invariant forall j :: 0 <= j < i ==> !EndsWith(file, ext.exts[j])
    {
      if EndsWith(file, ext.exts[i]) {
        return true;
      }
    }
    return false;
  }

  /** A name made by appending an extension ends with it; a file ends with '.user.js' only when its last eight characters are those. */
  lemma EndsWithAppended(base: string, ext: string)
    ensures EndsWith(base + ext, ext)
    ensures EndsWith(base, ".user.js") <==> |base| >= 8 && base[|base| - 8..] == ".user.js"
  {
    assert (base + ext)[|base + ext| - |ext|..] == ext;
  }
}
