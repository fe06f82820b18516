/**
 * The earlier macOS keyboard hook of `Implementation`: it tries the event
 * tap at the session, HID and annotated-session locations in turn and keeps
 * the first that the system grants; it reports the native key code cast
 * straight to the enumeration; it injects keys exactly as the later hook
 * does (see `MacInjection`); and its `Dispose` always ends with every handle
 * cleared, whatever the teardown calls do. Native handles are parameters:
 * `tapAt(location)` is the tap the system grants at a location (0 when it
 * refuses), `source` the run-loop source it hands back.
 */
module MacKeyboardLegacy {
  import opened Wrappers
  import opened Tracking
  import opened MacInjection
  import Keys
  import Casts

  const kCGEventKeyDown: int := 10
  const kCGEventKeyUp: int := 11
  const kCGHIDEventTap: int := 0
  const kCGSessionEventTap: int := 1

  /** The tap locations tried, in order. */
  const TapLocations: seq<int> := [kCGSessionEventTap, kCGHIDEventTap, kCGAnnotatedSessionEventTap]

  /** The tap creations the `foreach` makes: one per location, up to and including the first that succeeds. */
  function Attempts(tapAt: int -> int, locs: seq<int>): seq<CGCall>
    decreases |locs|
  {
    if locs == [] then []
    else [CreateTap(locs[0], tapAt(locs[0]))] + (if tapAt(locs[0]) != 0 then [] else Attempts(tapAt, locs[1..]))
  }

  /** The tap the `foreach` leaves in `_eventTap`: the first one granted, or 0 when none is. */
  function FirstTap(tapAt: int -> int, locs: seq<int>): int
    decreases |locs|
  {
    if locs == [] then 0
    else if tapAt(locs[0]) != 0 then tapAt(locs[0])
    else FirstTap(tapAt, locs[1..])
  }

  /** The position of the first location that grants a tap, or the number of locations when none does. */
  function FirstGranted(tapAt: int -> int, locs: seq<int>): (r: nat)
    ensures r <= |locs|
    ensures forall k :: 0 <= k < r ==> tapAt(locs[k]) == 0
    ensures r < |locs| ==> tapAt(locs[r]) != 0
    decreases |locs|
  {
    if locs == [] then 0
    else if tapAt(locs[0]) != 0 then 0
    else 1 + FirstGranted(tapAt, locs[1..])
  }

  /**
   * The fallback is first-success: the tap kept is the one granted at the
   * first location that grants one, and 0 exactly when every location
   * refuses; one creation is attempted per location up to that one, and none
   * after it.
   */
  lemma {:induction false} FallbackIsFirstSuccess(tapAt: int -> int, locs: seq<int>)
    ensures FirstTap(tapAt, locs)
         == if FirstGranted(tapAt, locs) < |locs| then tapAt(locs[FirstGranted(tapAt, locs)]) else 0
    ensures |Attempts(tapAt, locs)|
         == if FirstGranted(tapAt, locs) < |locs| then FirstGranted(tapAt, locs) + 1 else |locs|
    ensures forall k :: 0 <= k < |Attempts(tapAt, locs)| ==> Attempts(tapAt, locs)[k] == CreateTap(locs[k], tapAt(locs[k]))
    decreases |locs|
  {
    if locs != [] && tapAt(locs[0]) == 0 {
      var rest := locs[1..];
      FallbackIsFirstSuccess(tapAt, rest);
      var a := Attempts(tapAt, rest);
      assert Attempts(tapAt, locs) == [CreateTap(locs[0], 0)] + a;
      forall k | 0 <= k < |Attempts(tapAt, locs)|
        ensures Attempts(tapAt, locs)[k] == CreateTap(locs[k], tapAt(locs[k]))
      {
        if k > 0 {
          assert Attempts(tapAt, locs)[k] == a[k - 1];
          assert locs[k] == rest[k - 1];
        }
      }
    }
  }

  /**
   * Trying location `i` after the creations `done`: a granted tap ends the
   * attempts and is the tap kept; a refused one adds its creation and moves
   * on to the next location.
   */
  lemma FallbackStep(tapAt: int -> int, locs: seq<int>, i: int, done: seq<CGCall>)
    requires 0 <= i < |locs|
    requires Attempts(tapAt, locs) == done + Attempts(tapAt, locs[i..])
    requires FirstTap(tapAt, locs) == FirstTap(tapAt, locs[i..])
    ensures tapAt(locs[i]) != 0 ==> Attempts(tapAt, locs) == done + [CreateTap(locs[i], tapAt(locs[i]))]
    ensures tapAt(locs[i]) != 0 ==> FirstTap(tapAt, locs) == tapAt(locs[i])
    ensures tapAt(locs[i]) == 0 ==> Attempts(tapAt, locs) == (done + [CreateTap(locs[i], 0)]) + Attempts(tapAt, locs[i + 1..])
    ensures tapAt(locs[i]) == 0 ==> FirstTap(tapAt, locs) == FirstTap(tapAt, locs[i + 1..])
  {
    assert locs[i..][1..] == locs[i + 1..];
    if tapAt(locs[i]) == 0 {
      assert Attempts(tapAt, locs[i..]) == [CreateTap(locs[i], 0)] + Attempts(tapAt, locs[i + 1..]);
    }
  }

  /** A tap granted at the session level is kept at once: one creation, no fallback. */
  lemma SessionTapPreferred(tapAt: int -> int)
    requires tapAt(kCGSessionEventTap) != 0
    ensures FirstTap(tapAt, TapLocations) == tapAt(kCGSessionEventTap)
    ensures Attempts(tapAt, TapLocations) == [CreateTap(kCGSessionEventTap, tapAt(kCGSessionEventTap))]
  {
  }

  /** A refused session tap falls back to the HID level. */
  lemma HidTapFallback(tapAt: int -> int)
    requires tapAt(kCGSessionEventTap) == 0 && tapAt(kCGHIDEventTap) != 0
    ensures FirstTap(tapAt, TapLocations) == tapAt(kCGHIDEventTap)
    ensures Attempts(tapAt, TapLocations) == [CreateTap(kCGSessionEventTap, 0), CreateTap(kCGHIDEventTap, tapAt(kCGHIDEventTap))]
  {
    assert TapLocations[1..] == [kCGHIDEventTap, kCGAnnotatedSessionEventTap];
  }

  /** With every location refused, all three are tried and no tap is kept. */
  lemma NoTapAnywhere(tapAt: int -> int)
    requires tapAt(kCGSessionEventTap) == 0 && tapAt(kCGHIDEventTap) == 0 && tapAt(kCGAnnotatedSessionEventTap) == 0
    ensures FirstTap(tapAt, TapLocations) == 0
    ensures Attempts(tapAt, TapLocations)
         == [CreateTap(kCGSessionEventTap, 0), CreateTap(kCGHIDEventTap, 0), CreateTap(kCGAnnotatedSessionEventTap, 0)]
  {
    var last := [kCGAnnotatedSessionEventTap];
    var rest := [kCGHIDEventTap, kCGAnnotatedSessionEventTap];
    assert last[1..] == [];
    assert Attempts(tapAt, last) == [CreateTap(kCGAnnotatedSessionEventTap, 0)];
    assert rest[1..] == last;
    assert Attempts(tapAt, rest) == [CreateTap(kCGHIDEventTap, 0), CreateTap(kCGAnnotatedSessionEventTap, 0)];
    assert TapLocations[1..] == rest;
    assert FirstTap(tapAt, last) == 0;
    assert FirstTap(tapAt, rest) == 0;
  }

  /**
   * The calls of `TryCreateEventTap`: the tap attempts; then, when a tap was
   * kept, its run-loop source; a missing source releases the tap, and
   * otherwise the tap is enabled.
   */
  function SetupCalls(tapAt: int -> int, source: int): seq<CGCall>
  {
    var tap := FirstTap(tapAt, TapLocations);
    Attempts(tapAt, TapLocations) +
    (if tap == 0 then []
     else [CreateRunLoopSource(tap, source)] + (if source == 0 then [Release(tap)] else [TapEnable(tap, true)]))
  }

  /**
   * The edge a tap notification reports: a key down or up for the native
   * code cast to `int` and then, unchecked, to the enumeration; nothing for
   * any other event type.
   */
  function KeyEvent(eventType: int, keyCode: int): (r: Option<Transition<Keys.KeyboardKey>>)
    ensures r.Some? <==> (eventType == kCGEventKeyDown || eventType == kCGEventKeyUp)
    ensures r.Some? ==> (r.value.Down? <==> eventType == kCGEventKeyDown)
    ensures r.Some? && -0x8000_0000 <= keyCode < 0x8000_0000 ==> r.value.item as int == keyCode
  {
    var key := Casts.ToInt32(keyCode) as Keys.KeyboardKey;
    if eventType == kCGEventKeyDown then Some(Down(key))
    else if eventType == kCGEventKeyUp then Some(Up(key))
    else None
  }

  /**
   * The calls of `Dispose`'s `try` block: the run loop stopped; the tap
   * disabled, invalidated and released; the source released. A zero handle
   * is skipped.
   */
  function Teardown(runLoop: int, tap: int, source: int): seq<CGCall>
  {
    (if runLoop != 0 then [RunLoopStop(runLoop)] else []) +
    (if tap != 0 then [TapEnable(tap, false), Invalidate(tap), Release(tap)] else []) +
    (if source != 0 then [Release(source)] else [])
  }

  /**
   * The calls made when the call at position `n` throws, if one does: that
   * call and the ones before it; the rest of the `try` block is skipped.
   */
  function Attempted(calls: seq<CGCall>, failAt: Option<nat>): (r: seq<CGCall>)
    ensures r <= calls
    ensures failAt.None? ==> r == calls
    ensures failAt.Some? && failAt.value < |calls| ==> |r| == failAt.value + 1
  {
    match failAt
    case None => calls
    case Some(n) => if n < |calls| then calls[..n + 1] else calls
  }

  /** Disabling, invalidating and releasing a tap releases it once and creates and posts nothing. */
  lemma TapOffHandles(tap: int, kind: CallKind)
    ensures Handles([TapEnable(tap, false), Invalidate(tap), Release(tap)], kind) == if kind == Released then [tap] else []
  {
    Single(TapEnable(tap, false), kind);
    Single(Invalidate(tap), kind);
    Single(Release(tap), kind);
    HandlesAppend([TapEnable(tap, false)], [Invalidate(tap)], kind);
    HandlesAppend([TapEnable(tap, false)] + [Invalidate(tap)], [Release(tap)], kind);
    assert [TapEnable(tap, false)] + [Invalidate(tap)] + [Release(tap)] == [TapEnable(tap, false), Invalidate(tap), Release(tap)];
  }

  /**
   * A teardown that runs through releases the tap and the source once each
   * when they exist, after disabling and invalidating the tap, and creates
   * and posts no event.
   */
  lemma TeardownHandles(runLoop: int, tap: int, source: int, kind: CallKind)
    ensures Handles(Teardown(runLoop, tap, source), kind)
         == if kind == Released then (if tap != 0 then [tap] else []) + (if source != 0 then [source] else []) else []
  {
    var stop: seq<CGCall> := if runLoop != 0 then [RunLoopStop(runLoop)] else [];
    var off: seq<CGCall> := if tap != 0 then [TapEnable(tap, false), Invalidate(tap), Release(tap)] else [];
    var free: seq<CGCall> := if source != 0 then [Release(source)] else [];
    var hs := Handles(stop, kind);
    var ho := Handles(off, kind);
    var hf := Handles(free, kind);
    assert hs == [] by {
      if runLoop != 0 {
        Single(RunLoopStop(runLoop), kind);
      }
    }
    assert ho == (if tap != 0 && kind == Released then [tap] else []) by {
      if tap != 0 {
        TapOffHandles(tap, kind);
      }
    }
    assert hf == (if source != 0 && kind == Released then [source] else []) by {
      if source != 0 {
        Single(Release(source), kind);
      }
    }
    assert Handles(stop + off + free, kind) == hs + ho + hf by {
      HandlesAppend(stop + off, free, kind);
      HandlesAppend(stop, off, kind);
    }
    assert hs + ho + hf == ho + hf;
  }

  class MacKeyboardHook {
    /** `_disposed` */
    var disposed: bool
    /** `_eventTap`, the tap kept at setup; 0 once disposed. */
    var eventTap: int
    /** `_runLoopSource`, the tap's run-loop source; 0 once disposed. */
    var runLoopSource: int
    /** `_runLoop`, set by the hook thread once it runs; 0 until then and once disposed. */
    var runLoop: int

    /** The fields before setup: no handle and not disposed. */
    constructor ()
      ensures !disposed && eventTap == 0 && runLoopSource == 0 && runLoop == 0
    {
      disposed := false;
      eventTap := 0;
      runLoopSource := 0;
      runLoop := 0;
    }

    /**
     * The `foreach` of `TryCreateEventTap`: asks for a tap at each location
     * in turn and stops at the first that is granted, leaving it (or 0) in
     * `eventTap`.
     */
    method TryLocations(tapAt: int -> int, locs: seq<int>) returns (calls: seq<CGCall>)
      modifies this
      ensures calls == Attempts(tapAt, locs)
      ensures eventTap == FirstTap(tapAt, locs)
      ensures disposed == old(disposed) && runLoop == old(runLoop) && runLoopSource == old(runLoopSource)
    {
      calls := [];
      var i := 0;
      eventTap := 0;
      while i < |locs|
        invariant 0 <= i <= |locs|
        invariant eventTap == 0
        invariant Attempts(tapAt, locs) == calls + Attempts(tapAt, locs[i..])
        invariant FirstTap(tapAt, locs) == FirstTap(tapAt, locs[i..])
        invariant disposed == old(disposed) && runLoop == old(runLoop) && runLoopSource == old(runLoopSource)
      {
        var location := locs[i];
        FallbackStep(tapAt, locs, i, calls);
        eventTap := tapAt(location);
        calls := calls + [CreateTap(location, eventTap)];
        if eventTap != 0 {
          break;
        }
        i := i + 1;
      }
      if eventTap == 0 {
        assert locs[i..] == [];
      }
    }

    /**
     * `TryCreateEventTap`: tries each location until one grants a tap; with a
     * tap, creates its source, and on a missing source releases the tap and
     * clears it; with both, enables the tap.
     */
    method TryCreateEventTap(tapAt: int -> int, source: int) returns (ok: bool, calls: seq<CGCall>)
      modifies this
      ensures calls == SetupCalls(tapAt, source)
      ensures ok <==> FirstTap(tapAt, TapLocations) != 0 && source != 0
      ensures eventTap == (if ok then FirstTap(tapAt, TapLocations) else 0)
      ensures runLoopSource == (if FirstTap(tapAt, TapLocations) != 0 then source else old(runLoopSource))
      ensures disposed == old(disposed) && runLoop == old(runLoop)
    {
      calls := TryLocations(tapAt, TapLocations);
      if eventTap == 0 {
        return false, calls;
      }
      runLoopSource := source;
      calls := calls + [CreateRunLoopSource(eventTap, source)];
      if runLoopSource == 0 {
        calls := calls + [Release(eventTap)];
        eventTap := 0;
        return false, calls;
      }
      calls := calls + [TapEnable(eventTap, true)];
      return true, calls;
    }

    /**
     * Construction: on any system but macOS it fails before touching the
     * system; otherwise the tap is set up, and a failed setup is reported as
     * missing accessibility permission.
     */
    static method Open(isOSX: bool, tapAt: int -> int, source: int) returns (r: Result<MacKeyboardHook>, calls: seq<CGCall>)
      ensures !isOSX ==> r == Failure(PlatformNotSupported) && calls == []
      ensures isOSX ==> calls == SetupCalls(tapAt, source)
      ensures r.Success? <==> isOSX && FirstTap(tapAt, TapLocations) != 0 && source != 0
      ensures r.Failure? && isOSX ==> r.error == InvalidOperation
      ensures r.Success? ==> fresh(r.value) && !r.value.disposed && r.value.eventTap == FirstTap(tapAt, TapLocations) &&
                             r.value.runLoopSource == source && r.value.runLoop == 0
    {
      if !isOSX {
        return Failure(PlatformNotSupported), [];
      }
      var hook := new MacKeyboardHook();
      var ok;
      ok, calls := hook.TryCreateEventTap(tapAt, source);
      if !ok {
        return Failure(InvalidOperation), calls;
      }
      return Success(hook), calls;
    }

    /** The hook thread records the run loop it runs on. */
    method RunLoopStarted(loop: int)
      modifies this
      ensures runLoop == loop
      ensures disposed == old(disposed) && eventTap == old(eventTap) && runLoopSource == old(runLoopSource)
    {
      runLoop := loop;
    }

    /** `EventCallback`: fires the reported edge, if any, and hands the event back unchanged. */
    method EventCallback(eventType: int, eventRef: int, keyCode: int)
      returns (result: int, fired: Option<Transition<Keys.KeyboardKey>>)
      ensures result == eventRef
      ensures fired == KeyEvent(eventType, keyCode)
    {
      fired := None;
      if eventType == kCGEventKeyDown || eventType == kCGEventKeyUp {
        var key := Casts.ToInt32(keyCode) as Keys.KeyboardKey;
        if eventType == kCGEventKeyDown {
          fired := Some(Down(key));
        } else {
          fired := Some(Up(key));
        }
      }
      result := eventRef;
    }

    /** `SendKey`: refused after disposal; otherwise one stroke of the key's raw value. */
    method SendKey(key: Keys.KeyboardKey, alloc: nat -> int) returns (r: Result<()>, calls: seq<CGCall>)
      ensures disposed ==> r == Failure(ObjectDisposed) && calls == []
      ensures !disposed ==> r == Success(()) && calls == StrokeCalls(key, alloc(0), alloc(1))
    {
      if disposed {
        return Failure(ObjectDisposed), [];
      }
      calls := PostStroke(key, alloc);
      r := Success(());
    }

    /** `SendKeyCombo`: refused after disposal; otherwise the combo's presses and releases. */
    method SendKeyCombo(keys: seq<Keys.KeyboardKey>, alloc: nat -> int) returns (r: Result<()>, calls: seq<CGCall>)
      ensures disposed ==> r == Failure(ObjectDisposed) && calls == []
      ensures !disposed ==> r == Success(()) && calls == ComboCalls(keys, alloc)
    {
      if disposed {
        return Failure(ObjectDisposed), [];
      }
      calls := PostCombo(keys, alloc);
      r := Success(());
    }

    /** `GetPressedKeys`: this hook keeps no pressed set and reports none. */
    method GetPressedKeys() returns (r: seq<Keys.KeyboardKey>)
      ensures r == []
    {
      r := [];
    }

    /**
     * `Dispose`: after disposal it does nothing; otherwise it runs the
     * teardown, which stops at the call that throws when one does (the
     * exception is caught), and in every case clears every handle and marks
     * the hook disposed.
     */
    method Dispose(failAt: Option<nat>) returns (calls: seq<CGCall>)
      modifies this
      ensures old(disposed) ==> calls == [] && eventTap == old(eventTap) && runLoopSource == old(runLoopSource) && runLoop == old(runLoop)
      ensures !old(disposed) ==> calls == Attempted(Teardown(old(runLoop), old(eventTap), old(runLoopSource)), failAt)
      ensures !old(disposed) ==> eventTap == 0 && runLoopSource == 0 && runLoop == 0
      ensures disposed
    {
      calls := [];
      if disposed {
        return;
      }
      var teardown := Teardown(runLoop, eventTap, runLoopSource);
      // try
      calls := Attempted(teardown, failAt);
      // finally
      eventTap := 0;
      runLoopSource := 0;
      runLoop := 0;
      disposed := true;
    }
  }

  /**
   * However the first teardown ends, disposing again makes no call, and
   * sending afterwards is refused.
   */
  method DisposeTwice(hook: MacKeyboardHook, failAt: Option<nat>, key: Keys.KeyboardKey, alloc: nat -> int)
    returns (second: seq<CGCall>, sent: Result<()>, sentCalls: seq<CGCall>)
    modifies hook
    ensures second == [] && sent == Failure(ObjectDisposed) && sentCalls == []
    ensures !old(hook.disposed) ==> hook.eventTap == 0 && hook.runLoopSource == 0 && hook.runLoop == 0
  {
    var first := hook.Dispose(failAt);
    second := hook.Dispose(None);
    sent, sentCalls := hook.SendKey(key, alloc);
  }
}
