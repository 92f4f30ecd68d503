// The tiny viewer's keyboard: the SDL key events held down, by scancode.
module TinyKeyboard {
  import opened Wrappers
  import opened KeyOptions

  /** An SDL key event, reduced to its scancode and the flags isDown can ask about. */
  datatype SdlKey = SdlKey(scancode: int, ctrl: bool, shift: bool, alt: bool, altgr: bool, repeat: bool, capslock: bool, numlock: bool)

  /** The option names isDown accepts. */
  datatype Prop = Ctrl | Shift | Alt | AltGr | Repeat | CapsLock | NumLock

  /** The field of an event an option names. */
  function Field(k: SdlKey, p: Prop): bool
  {
    match p
    case Ctrl => k.ctrl
    case Shift => k.shift
    case Alt => k.alt
    case AltGr => k.altgr
    case Repeat => k.repeat
    case CapsLock => k.capslock
    case NumLock => k.numlock
  }

  datatype KeyboardFired = KeyDown(e: SdlKey) | KeyUp(e: SdlKey)

  class Keyboard {
    var keys: map<int, SdlKey>
    /** The events fired so far, in order; the listeners are not modelled. */
    var fired: seq<KeyboardFired>

    /** Every event sits under its own scancode. */
    ghost predicate Valid()
      reads this
    {
      forall code :: code in keys ==> keys[code].scancode == code
    }

    constructor ()
      ensures Valid() && keys == map[] && fired == []
    {
      keys := map[];
      fired := [];
    }

    /** keyDown: the event replaces whatever was held under its scancode, then KeyDown fires with it. */
    method KeyDownEvent(e: SdlKey)
      requires Valid()
      modifies this
      ensures Valid() && keys == old(keys)[e.scancode := e]
      ensures fired == old(fired) + [KeyDown(e)]
    {
      keys := keys[e.scancode := e];
      fired := fired + [KeyDown(e)];
    }

    /** keyUp: the scancode's entry goes, and KeyUp fires with the up event even when nothing was held. */
    method KeyUpEvent(e: SdlKey)
      requires Valid()
      modifies this
      ensures Valid() && keys == old(keys) - {e.scancode}
      ensures fired == old(fired) + [KeyUp(e)]
    {
      keys := keys - {e.scancode};
      fired := fired + [KeyUp(e)];
    }

    /** isDown: the scancode is held and every option given equals its recorded field. */
    method IsDown(scancode: int, options: map<Prop, Option<bool>>) returns (r: bool)
      ensures r <==> scancode in keys && Matches(Field, keys[scancode], options)
    {
      if scancode !in keys {
        return false;
      }
      r := AllMatch(Field, keys[scancode], options);
    }
  }
}
