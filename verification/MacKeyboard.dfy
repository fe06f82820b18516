/**
 * The macOS keyboard hook of `KeyboardImplementation`: a CoreGraphics event
 * tap at the session level reports key downs and ups, translating the
 * native key code through the code registry; keys are injected as
 * CoreGraphics keyboard events (see `MacInjection`); nothing tracks which
 * keys are held. Native handles are parameters: the tap and run-loop source
 * the system hands back, and the run loop the hook thread finds.
 */
module MacKeyboard {
  import opened Wrappers
  import opened Tracking
  import opened MacInjection
  import Keys
  import Casts
  import Registry

  const kCGEventKeyDown: int := 10
  const kCGEventKeyUp: int := 11
  const kCGSessionEventTap: int := 1

  /**
   * The edge a tap notification reports: a key down or up for the key the
   * registry finds for the native code (read as a 64-bit field and cast to
   * `int`), and nothing for any other event type.
   */
  function KeyEvent(table: Registry.Table, eventType: int, keyCode: int): (r: Option<Transition<Keys.KeyboardKey>>)
    ensures r.Some? ==> r.value.item == Registry.FromPlatformCode(table, Registry.OSX, Casts.ToInt32(keyCode))
  {
    var key := Registry.FromPlatformCode(table, Registry.OSX, Casts.ToInt32(keyCode));
    if eventType == kCGEventKeyDown then Some(Down(key))
    else if eventType == kCGEventKeyUp then Some(Up(key))
    else None
  }

  /** Exactly the key-down and key-up types report an edge, a down exactly for key-down. */
  lemma KeyEventIff(table: Registry.Table, eventType: int, keyCode: int)
    ensures KeyEvent(table, eventType, keyCode).Some? <==> (eventType == kCGEventKeyDown || eventType == kCGEventKeyUp)
    ensures KeyEvent(table, eventType, keyCode).Some? ==>
              (KeyEvent(table, eventType, keyCode).value.Down? <==> eventType == kCGEventKeyDown)
  {
  }

  /**
   * A native code comes back as the key registered for it: when the key's
   * field is the first whose macOS attribute carries the code, the
   * notification names that key.
   */
  lemma KeyEventRoundTrip(table: Registry.Table, i: int, eventType: int)
    requires Registry.DistinctKeys(table) && 0 <= i < |table|
    requires Registry.Attribute(table[i], Registry.OSX).Some?
    requires forall j :: 0 <= j < i ==> Registry.Attribute(table[j], Registry.OSX) != Registry.Attribute(table[i], Registry.OSX)
    requires Casts.ToInt32(Registry.ToPlatformCode(table, Registry.OSX, table[i].key)) == Registry.ToPlatformCode(table, Registry.OSX, table[i].key)
    requires eventType == kCGEventKeyDown || eventType == kCGEventKeyUp
    ensures KeyEvent(table, eventType, Registry.ToPlatformCode(table, Registry.OSX, table[i].key)).value.item == table[i].key
  {
    Registry.RoundTrip(table, Registry.OSX, i);
  }

  /** With the enumeration as declared, without code attributes, every key is reported as `KeyboardKey.None`. */
  lemma DeclaredReportsNone(eventType: int, keyCode: int)
    requires eventType == kCGEventKeyDown || eventType == kCGEventKeyUp
    ensures KeyEvent(Registry.DeclaredTable(), eventType, keyCode).value.item == Keys.None
  {
    Registry.DeclaredEnumIsUnmapped(Registry.OSX, Casts.ToInt32(keyCode), Keys.None);
  }

  /**
   * The calls of `TryCreateEventTap`: the session-level tap is created; when
   * it exists its run-loop source is created; a missing source releases the
   * tap, and otherwise the tap is enabled.
   */
  function SetupCalls(tap: int, source: int): seq<CGCall>
  {
    [CreateTap(kCGSessionEventTap, tap)] +
    (if tap == 0 then []
     else [CreateRunLoopSource(tap, source)] + (if source == 0 then [Release(tap)] else [TapEnable(tap, true)]))
  }

  /**
   * Setup never leaks the tap and never enables a tap it gives up: a tap
   * that was created is released exactly when its source is missing, and
   * enabled exactly when it is kept.
   */
  lemma SetupBalanced(tap: int, source: int)
    ensures tap != 0 ==> (Release(tap) in SetupCalls(tap, source) <==> source == 0)
    ensures tap != 0 ==> (TapEnable(tap, true) in SetupCalls(tap, source) <==> source != 0)
    ensures tap == 0 ==> SetupCalls(tap, source) == [CreateTap(kCGSessionEventTap, 0)]
    ensures |SetupCalls(tap, source)| == if tap == 0 then 1 else 3
  {
  }

  /**
   * The calls of `Dispose`: the run loop stopped when the hook thread
   * started it; the tap disabled and released; the source released. A zero
   * handle is skipped.
   */
  function Teardown(runLoop: int, tap: int, source: int): seq<CGCall>
  {
    (if runLoop != 0 then [RunLoopStop(runLoop)] else []) +
    (if tap != 0 then [TapEnable(tap, false), Release(tap)] else []) +
    (if source != 0 then [Release(source)] else [])
  }

  /**
   * `Dispose` releases the tap and the source, each once and only when it
   * exists, and creates and posts no event.
   */
  lemma TeardownHandles(runLoop: int, tap: int, source: int, kind: CallKind)
    ensures Handles(Teardown(runLoop, tap, source), kind)
         == if kind == Released then (if tap != 0 then [tap] else []) + (if source != 0 then [source] else []) else []
  {
    var stop: seq<CGCall> := if runLoop != 0 then [RunLoopStop(runLoop)] else [];
    var off: seq<CGCall> := if tap != 0 then [TapEnable(tap, false), Release(tap)] else [];
    var free: seq<CGCall> := if source != 0 then [Release(source)] else [];
    var hs := Handles(stop, kind);
    var ho := Handles(off, kind);
    var hf := Handles(free, kind);
    assert hs == [] by {
      if runLoop != 0 {
        Single(RunLoopStop(runLoop), kind);
      }
    }
    assert ho == (if tap != 0 && kind == Released then [tap] else []) by {
      if tap != 0 {
        Single(TapEnable(tap, false), kind);
        Single(Release(tap), kind);
        HandlesAppend([TapEnable(tap, false)], [Release(tap)], kind);
        assert off == [TapEnable(tap, false)] + [Release(tap)];
      }
    }
    assert hf == (if source != 0 && kind == Released then [source] else []) by {
      if source != 0 {
        Single(Release(source), kind);
      }
    }
    assert Handles(stop + off + free, kind) == hs + ho + hf by {
      HandlesAppend(stop + off, free, kind);
      HandlesAppend(stop, off, kind);
    }
    assert hs + ho + hf == ho + hf;
  }

  /** `Dispose` stops the run loop before anything else and disables the tap immediately before releasing it. */
  lemma TeardownOrder(runLoop: int, tap: int, source: int)
    ensures runLoop != 0 ==> Teardown(runLoop, tap, source)[0] == RunLoopStop(runLoop)
    ensures tap != 0 ==>
              var k := if runLoop != 0 then 1 else 0;
              Teardown(runLoop, tap, source)[k] == TapEnable(tap, false) && Teardown(runLoop, tap, source)[k + 1] == Release(tap)
  {
  }

  class MacKeyboardHook {
    /** `_disposed` */
    var disposed: bool
    /** `_eventTap`, the tap created at setup. */
    var eventTap: int
    /** `_runLoopSource`, the tap's run-loop source. */
    var runLoopSource: int
    /** `_runLoop`, set by the hook thread once it runs; 0 until then. */
    var runLoop: int
    /** The code registry the callback translates native codes with. */
    const table: Registry.Table

    /** The constructor, once setup has produced a tap and its source. */
    constructor (eventTap: int, runLoopSource: int, table: Registry.Table)
      ensures !disposed && this.eventTap == eventTap && this.runLoopSource == runLoopSource && runLoop == 0
      ensures this.table == table
    {
      disposed := false;
      this.eventTap := eventTap;
      this.runLoopSource := runLoopSource;
      runLoop := 0;
      this.table := table;
    }

    /**
     * Construction: on any system but macOS it fails before touching the
     * system; otherwise the tap is set up, and a missing tap or source is
     * reported as missing accessibility permission.
     */
    static method Open(isOSX: bool, table: Registry.Table, tap: int, source: int)
      returns (r: Result<MacKeyboardHook>, calls: seq<CGCall>)
      ensures !isOSX ==> r == Failure(PlatformNotSupported) && calls == []
      ensures isOSX ==> calls == SetupCalls(tap, source)
      ensures isOSX && (tap == 0 || source == 0) ==> r == Failure(UnauthorizedAccess)
      ensures r.Success? <==> isOSX && tap != 0 && source != 0
      ensures r.Success? ==> fresh(r.value) && !r.value.disposed && r.value.eventTap == tap &&
                             r.value.runLoopSource == source && r.value.runLoop == 0 && r.value.table == table
    {
      calls := [];
      if !isOSX {
        return Failure(PlatformNotSupported), calls;
      }
      calls := calls + [CreateTap(kCGSessionEventTap, tap)];
      if tap == 0 {
        return Failure(UnauthorizedAccess), calls;
      }
      calls := calls + [CreateRunLoopSource(tap, source)];
      if source == 0 {
        calls := calls + [Release(tap)];
        return Failure(UnauthorizedAccess), calls;
      }
      calls := calls + [TapEnable(tap, true)];
      var hook := new MacKeyboardHook(tap, source, table);
      return Success(hook), calls;
    }

    /** The hook thread records the run loop it runs on. */
    method RunLoopStarted(loop: int)
      modifies this
      ensures runLoop == loop
      ensures disposed == old(disposed) && eventTap == old(eventTap) && runLoopSource == old(runLoopSource)
    {
      runLoop := loop;
    }

    /** `EventCallback`: fires the reported edge, if any, and hands the event back unchanged. */
    method EventCallback(eventType: int, eventRef: int, keyCode: int)
      returns (result: int, fired: Option<Transition<Keys.KeyboardKey>>)
      ensures result == eventRef
      ensures fired == KeyEvent(table, eventType, keyCode)
    {
      fired := None;
      if eventType == kCGEventKeyDown || eventType == kCGEventKeyUp {
        var key := Registry.FromPlatformCode(table, Registry.OSX, Casts.ToInt32(keyCode));
        if eventType == kCGEventKeyDown {
          fired := Some(Down(key));
        } else {
          fired := Some(Up(key));
        }
      }
      result := eventRef;
    }

    /** `SendKey`: refused after disposal; otherwise one stroke of the key's raw value. */
    method SendKey(key: Keys.KeyboardKey, alloc: nat -> int) returns (r: Result<()>, calls: seq<CGCall>)
      ensures disposed ==> r == Failure(ObjectDisposed) && calls == []
      ensures !disposed ==> r == Success(()) && calls == StrokeCalls(key, alloc(0), alloc(1))
    {
      if disposed {
        return Failure(ObjectDisposed), [];
      }
      calls := PostStroke(key, alloc);
      r := Success(());
    }

    /** `SendKeyCombo`: refused after disposal; otherwise the combo's presses and releases. */
    method SendKeyCombo(keys: seq<Keys.KeyboardKey>, alloc: nat -> int) returns (r: Result<()>, calls: seq<CGCall>)
      ensures disposed ==> r == Failure(ObjectDisposed) && calls == []
      ensures !disposed ==> r == Success(()) && calls == ComboCalls(keys, alloc)
    {
      if disposed {
        return Failure(ObjectDisposed), [];
      }
      calls := PostCombo(keys, alloc);
      r := Success(());
    }

    /** `GetPressedKeys`: this hook keeps no pressed set and reports none. */
    method GetPressedKeys() returns (r: seq<Keys.KeyboardKey>)
      ensures r == []
    {
      r := [];
    }

    /**
     * `Dispose`: the first call marks the hook disposed and tears down what
     * exists; any later call does nothing. The handles keep their values.
     */
    method Dispose() returns (calls: seq<CGCall>)
      modifies this
      ensures old(disposed) ==> calls == []
      ensures !old(disposed) ==> calls == Teardown(old(runLoop), old(eventTap), old(runLoopSource))
      ensures disposed
      ensures eventTap == old(eventTap) && runLoopSource == old(runLoopSource) && runLoop == old(runLoop)
    {
      calls := [];
      if disposed {
        return;
      }
      disposed := true;
      if runLoop != 0 {
        calls := calls + [RunLoopStop(runLoop)];
      }
      if eventTap != 0 {
        calls := calls + [TapEnable(eventTap, false), Release(eventTap)];
      }
      if runLoopSource != 0 {
        calls := calls + [Release(runLoopSource)];
      }
    }
  }

  /**
   * Disposing twice releases the tap and the source once: the second call
   * makes no call, and sending afterwards is refused.
   */
  method DisposeTwice(hook: MacKeyboardHook, key: Keys.KeyboardKey, alloc: nat -> int)
    returns (second: seq<CGCall>, sent: Result<()>, sentCalls: seq<CGCall>)
    modifies hook
    ensures second == [] && sent == Failure(ObjectDisposed) && sentCalls == []
  {
    var first := hook.Dispose();
    second := hook.Dispose();
    sent, sentCalls := hook.SendKey(key, alloc);
  }
}
