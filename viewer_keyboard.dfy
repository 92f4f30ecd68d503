// The viewer's keyboard: the keys held down, by key name, each with the
// modifier state of its keydown event.
module ViewerKeyboard {
  import opened Wrappers
  import opened KeyOptions

  /** A keydown event as recorded. */
  datatype KeyRecord = KeyRecord(key: string, ctrl: bool, shift: bool, alt: bool, repeat: bool)

  /** The option names isDown accepts. */
  datatype Prop = Ctrl | Shift | Alt | Repeat

  /** The field of a record an option names. */
  function Field(k: KeyRecord, p: Prop): bool
  {
    match p
    case Ctrl => k.ctrl
    case Shift => k.shift
    case Alt => k.alt
    case Repeat => k.repeat
  }

  /** The options that ask for exactly a record's modifier state. */
  function ExactOptions(k: KeyRecord): map<Prop, Option<bool>>
  {
    map[Ctrl := Some(k.ctrl), Shift := Some(k.shift), Alt := Some(k.alt), Repeat := Some(k.repeat)]
  }

  /** Asking with every option set identifies the modifier state: both directions. */
  lemma ExactOptionsIdentify(k: KeyRecord, wanted: KeyRecord)
    ensures Matches(Field, k, ExactOptions(wanted))
      <==> k.ctrl == wanted.ctrl && k.shift == wanted.shift && k.alt == wanted.alt && k.repeat == wanted.repeat
  {
    if Matches(Field, k, ExactOptions(wanted)) {
      assert ExactOptions(wanted)[Ctrl] == Some(Field(k, Ctrl));
      assert ExactOptions(wanted)[Shift] == Some(Field(k, Shift));
      assert ExactOptions(wanted)[Alt] == Some(Field(k, Alt));
      assert ExactOptions(wanted)[Repeat] == Some(Field(k, Repeat));
    }
  }

  datatype KeyboardFired = KeyDown(e: KeyRecord) | KeyUp(e: KeyRecord)

  class Keyboard {
    var keys: map<string, KeyRecord>
    /** The events fired so far, in order; the listeners are not modelled. */
    var fired: seq<KeyboardFired>

    /** Every record sits under its own key name. */
    ghost predicate Valid()
      reads this
    {
      forall name :: name in keys ==> keys[name].key == name
    }

    constructor ()
      ensures Valid() && keys == map[] && fired == []
    {
      keys := map[];
      fired := [];
    }

    /** keydown: the event replaces whatever was recorded under its key, then KeyDown fires with it. */
    method KeyDownEvent(e: KeyRecord)
      requires Valid()
      modifies this
      ensures Valid() && keys == old(keys)[e.key := e]
      ensures fired == old(fired) + [KeyDown(e)]
    {
      keys := keys[e.key := e];
      fired := fired + [KeyDown(e)];
    }

    /** keyup: a key never recorded is ignored; otherwise its record goes and KeyUp fires with it. */
    method KeyUpEvent(key: string)
      requires Valid()
      modifies this
      ensures Valid()
      ensures key !in old(keys) ==> keys == old(keys) && fired == old(fired)
      ensures key in old(keys) ==> keys == old(keys) - {key} && fired == old(fired) + [KeyUp(old(keys)[key])]
    {
      if key !in keys {
        return;
      }
      var record := keys[key];
      keys := keys - {key};
      fired := fired + [KeyUp(record)];
    }

    /** isDown: the key is held and every option given equals its recorded field. */
    method IsDown(key: string, options: map<Prop, Option<bool>>) returns (r: bool)
      ensures r <==> key in keys && Matches(Field, keys[key], options)
    {
      if key !in keys {
        return false;
      }
      r := AllMatch(Field, keys[key], options);
    }
  }

  /** A key pressed then released is no longer down, whatever was recorded before, and other keys are untouched. */
  lemma PressThenRelease(keys: map<string, KeyRecord>, e: KeyRecord)
    ensures e.key !in (keys[e.key := e] - {e.key})
    ensures forall name :: name != e.key ==> (name in keys[e.key := e] - {e.key} <==> name in keys)
  {
  }
}
