/**
 * `MacMouseHook`: a CoreGraphics event tap on the mouse buttons. The tap
 * callback classifies an event type (and, for the "other" button, the
 * button number) into a button edge, re-enables a tap the system disabled,
 * and always hands the event back; injection creates, posts and releases
 * one CoreGraphics event per edge. Handles are integers and the calls into
 * CoreGraphics are returned as a trace.
 */
module MacMouse {
  import opened Wrappers
  import opened Tracking
  import opened Injection
  import opened Buttons

  // CGEventType
  const LeftMouseDown: int := 1
  const LeftMouseUp: int := 2
  const RightMouseDown: int := 3
  const RightMouseUp: int := 4
  const OtherMouseDown: int := 25
  const OtherMouseUp: int := 26
  const TapDisabledByTimeout: int := 0xFFFF_FFFE
  const TapDisabledByUserInput: int := 0xFFFF_FFFF

  // CGMouseButton
  const kCGMouseButtonLeft: int := 0
  const kCGMouseButtonRight: int := 1
  const kCGMouseButtonCenter: int := 2

  // CGEventTapLocation
  const kCGHIDEventTap: int := 0

  /** The callback's switch: the edge an event type reports, the "other" button counting only as number 2. */
  function Classify(eventType: int, buttonNumber: int): Option<Transition<MouseButton>>
  {
    if eventType == LeftMouseDown then Some(Down(Left))
    else if eventType == LeftMouseUp then Some(Up(Left))
    else if eventType == RightMouseDown then Some(Down(Right))
    else if eventType == RightMouseUp then Some(Up(Right))
    else if eventType == OtherMouseDown || eventType == OtherMouseUp then
      (if buttonNumber == 2 then Some(if eventType == OtherMouseDown then Down(Middle) else Up(Middle)) else None)
    else None
  }

  /** Whether an event type tells that the system disabled the tap. */
  predicate IsTapDisabled(eventType: int)
  {
    eventType == TapDisabledByTimeout || eventType == TapDisabledByUserInput
  }

  /**
   * Classification both ways: an event reports an edge exactly for the left
   * and right button types, and for the other-button types with button
   * number 2; the edge is a press exactly for the three down types, and it
   * is never about X1, X2 or the wheel.
   */
  lemma ClassifyIff(eventType: int, buttonNumber: int)
    ensures Classify(eventType, buttonNumber).Some? <==>
              eventType in {LeftMouseDown, LeftMouseUp, RightMouseDown, RightMouseUp} ||
              (eventType in {OtherMouseDown, OtherMouseUp} && buttonNumber == 2)
    ensures Classify(eventType, buttonNumber).Some? ==>
              (Classify(eventType, buttonNumber).value.Down? <==> eventType in {LeftMouseDown, RightMouseDown, OtherMouseDown}) &&
              Classify(eventType, buttonNumber).value.item in {Left, Right, Middle}
  {
  }

  /** A tap-disabled notification is no button event. */
  lemma TapDisabledIsNoButton(eventType: int, buttonNumber: int)
    requires IsTapDisabled(eventType)
    ensures Classify(eventType, buttonNumber) == None
  {
  }

  /** The native button and the down and up event types `SendButton` uses; none for the buttons it cannot send. */
  function NativeButton(b: MouseButton): Option<(int, int, int)>
  {
    match b
    case Left => Some((kCGMouseButtonLeft, LeftMouseDown, LeftMouseUp))
    case Right => Some((kCGMouseButtonRight, RightMouseDown, RightMouseUp))
    case Middle => Some((kCGMouseButtonCenter, OtherMouseDown, OtherMouseUp))
    case _ => None
  }

  /**
   * The injection table is the inverse of the callback's: the events posted
   * for a press and a release of a button, with the native button as their
   * button number, are classified back as that press and that release; only
   * X1, X2 and the wheel buttons have no entry.
   */
  lemma NativeRoundTrip(b: MouseButton)
    ensures NativeButton(b).None? <==> b in {X1, X2, WheelUp, WheelDown}
    ensures NativeButton(b).Some? ==>
              Classify(NativeButton(b).value.1, NativeButton(b).value.0) == Some(Down(b)) &&
              Classify(NativeButton(b).value.2, NativeButton(b).value.0) == Some(Up(b))
  {
  }

  /** A call the hook makes into CoreGraphics. */
  datatype CGCall =
    | CreateMouseEvent(eventType: int, button: int)
    | Post(location: int, eventType: int, button: int)
    | Release(eventType: int, button: int)
    | TapEnable(tap: int, enable: bool)
    | RunLoopStop(runLoop: int)

  /** One edge: create the event, post it at the HID level and release it; nothing for a button without an entry. */
  function ButtonCall(e: Transition<MouseButton>): seq<CGCall>
  {
    match NativeButton(e.item)
    case None => []
    case Some((nb, downType, upType)) =>
      var t := if e.Down? then downType else upType;
      [CreateMouseEvent(t, nb), Post(kCGHIDEventTap, t, nb), Release(t, nb)]
  }

  /** The edges of several strokes, one after the other: each button pressed and released before the next. */
  function Strokes(bs: seq<MouseButton>): (r: seq<Transition<MouseButton>>)
    ensures |r| == 2 * |bs|
    decreases |bs|
  {
    if bs == [] then [] else Strokes(bs[..|bs| - 1]) + [Down(bs[|bs| - 1]), Up(bs[|bs| - 1])]
  }

  /** Button `k` of a run of strokes is pressed at edge `2 * k` and released at edge `2 * k + 1`. */
  lemma {:induction false} StrokesShape(bs: seq<MouseButton>)
    ensures forall k :: 0 <= k < |bs| ==> Strokes(bs)[2 * k] == Down(bs[k]) && Strokes(bs)[2 * k + 1] == Up(bs[k])
    decreases |bs|
  {
    if bs != [] {
      var init := bs[..|bs| - 1];
      StrokesShape(init);
      forall k | 0 <= k < |bs|
        ensures Strokes(bs)[2 * k] == Down(bs[k]) && Strokes(bs)[2 * k + 1] == Up(bs[k])
      {
        if k < |init| {
          assert bs[k] == init[k];
        }
      }
    }
  }

  /**
   * Strokes do not nest: with two buttons or more, the first button is
   * released before the second is pressed, unlike a combo; and, like a
   * combo, they leave none of their buttons held.
   */
  lemma StrokesAreNotCombo(held: set<MouseButton>, bs: seq<MouseButton>)
    ensures |bs| >= 2 ==> Strokes(bs)[1] == Up(bs[0]) && Combo(bs)[1] == Down(bs[1]) && Strokes(bs) != Combo(bs)
    ensures Replay(held, Strokes(bs)) == held - (set b | b in bs)
  {
    StrokesShape(bs);
    StrokesRelease(held, bs);
  }

  /** After a run of strokes none of its buttons is held, and every other button is as it was. */
  lemma {:induction false} StrokesRelease(held: set<MouseButton>, bs: seq<MouseButton>)
    ensures Replay(held, Strokes(bs)) == held - (set b | b in bs)
    decreases |bs|
  {
    if bs != [] {
      var init := bs[..|bs| - 1];
      var last := bs[|bs| - 1];
      StrokesRelease(held, init);
      ReplayConcat(held, Strokes(init), [Down(last), Up(last)]);
      var before := Replay(held, Strokes(init));
      assert [Down(last), Up(last)][..1] == [Down(last)];
      assert Replay(before, [Down(last)]) == before + {last};
      assert Replay(before, [Down(last), Up(last)]) == before + {last} - {last};
      assert (set b | b in bs) == (set b | b in init) + {last} by {
        assert bs == init + [last];
      }
    }
  }

  /** One more stroke appends the calls of that button's press and release. */
  lemma StrokeStep(bs: seq<MouseButton>, i: int)
    requires 0 <= i < |bs|
    ensures Emit(ButtonCall, Strokes(bs[..i + 1])) == Emit(ButtonCall, Strokes(bs[..i])) + Emit(ButtonCall, Combo([bs[i]]))
  {
    assert bs[..i + 1][..i] == bs[..i];
    StrokeIsCombo(bs[i]);
    EmitConcat(ButtonCall, Strokes(bs[..i]), [Down(bs[i]), Up(bs[i])]);
  }

  class MacMouseHook {
    /** `_isDisposed` */
    var isDisposed: bool
    /** The event tap, 0 when it could not be created. */
    var tapPort: int
    /** The hook thread's run loop, 0 when it never started. */
    var runLoop: int

    /** The constructor, with the handles the hook thread obtained. */
    constructor (tapPort: int, runLoop: int)
      ensures !isDisposed && this.tapPort == tapPort && this.runLoop == runLoop
    {
      isDisposed := false;
      this.tapPort := tapPort;
      this.runLoop := runLoop;
    }

    /**
     * `HookCallback`: after disposal it only hands the event back; a
     * tap-disabled notification re-enables the tap and fires nothing; any
     * other event fires its classified edge. The event is always returned
     * unchanged.
     */
    method HookCallback(eventType: int, eventRef: int, buttonNumber: int)
      returns (result: int, calls: seq<CGCall>, fired: Option<Transition<MouseButton>>)
      ensures result == eventRef
      ensures isDisposed ==> calls == [] && fired == None
      ensures !isDisposed && IsTapDisabled(eventType) ==> calls == [TapEnable(tapPort, true)] && fired == None
      ensures !isDisposed && !IsTapDisabled(eventType) ==> calls == [] && fired == Classify(eventType, buttonNumber)
    {
      calls := [];
      fired := None;
      if isDisposed {
        return eventRef, calls, fired;
      }
      if eventType == TapDisabledByTimeout || eventType == TapDisabledByUserInput {
        calls := [TapEnable(tapPort, true)];
        return eventRef, calls, fired;
      }
      var isDown := false;
      var btn: Option<MouseButton> := None;
      if eventType == LeftMouseDown {
        btn := Some(Left);
        isDown := true;
      } else if eventType == LeftMouseUp {
        btn := Some(Left);
        isDown := false;
      } else if eventType == RightMouseDown {
        btn := Some(Right);
        isDown := true;
      } else if eventType == RightMouseUp {
        btn := Some(Right);
        isDown := false;
      } else if eventType == OtherMouseDown || eventType == OtherMouseUp {
        if buttonNumber == 2 {
          btn := Some(Middle);
          isDown := eventType == OtherMouseDown;
        }
      }
      if btn.Some? {
        fired := Some(if isDown then Down(btn.value) else Up(btn.value));
      }
      result := eventRef;
    }

    /** `SendButton`: for Left, Right and Middle a posted press and then a posted release; other buttons send nothing. */
    method SendButton(button: MouseButton) returns (calls: seq<CGCall>)
      ensures calls == Emit(ButtonCall, Combo([button]))
      ensures NativeButton(button).None? ==> calls == []
      ensures NativeButton(button).Some? ==>
                |calls| == 6 &&
                calls[1] == Post(kCGHIDEventTap, NativeButton(button).value.1, NativeButton(button).value.0) &&
                calls[4] == Post(kCGHIDEventTap, NativeButton(button).value.2, NativeButton(button).value.0)
    {
      StrokeIsCombo(button);
      EmitSnoc(ButtonCall, [Down(button)], Up(button));
      assert [Down(button)] == [] + [Down(button)];
      EmitSnoc(ButtonCall, [], Down(button));
      var nativeButton, downType, upType;
      match button {
        case Left =>
          nativeButton, downType, upType := kCGMouseButtonLeft, LeftMouseDown, LeftMouseUp;
        case Right =>
          nativeButton, downType, upType := kCGMouseButtonRight, RightMouseDown, RightMouseUp;
        case Middle =>
          nativeButton, downType, upType := kCGMouseButtonCenter, OtherMouseDown, OtherMouseUp;
        case _ =>
          return [];
      }
      calls := [CreateMouseEvent(downType, nativeButton), Post(kCGHIDEventTap, downType, nativeButton), Release(downType, nativeButton)];
      calls := calls + [CreateMouseEvent(upType, nativeButton), Post(kCGHIDEventTap, upType, nativeButton), Release(upType, nativeButton)];
    }

    /** `SendButtonCombo`: one full stroke per button, in argument order. */
    method SendButtonCombo(buttons: seq<MouseButton>) returns (calls: seq<CGCall>)
      ensures calls == Emit(ButtonCall, Strokes(buttons))
    {
      calls := [];
      var i := 0;
      while i < |buttons|
        invariant 0 <= i <= |buttons|
        invariant calls == Emit(ButtonCall, Strokes(buttons[..i]))
      {
        var stroke := SendButton(buttons[i]);
        StrokeStep(buttons, i);
        calls := calls + stroke;
        i := i + 1;
      }
      assert buttons[..i] == buttons;
    }

    /**
     * `Dispose`: the first call marks the hook disposed, stops the run loop
     * and disables the tap (each only when its handle is non-zero); later
     * calls do nothing.
     */
    method Dispose() returns (calls: seq<CGCall>)
      modifies this
      ensures isDisposed && tapPort == old(tapPort) && runLoop == old(runLoop)
      ensures old(isDisposed) ==> calls == []
      ensures !old(isDisposed) ==>
                calls == (if runLoop != 0 then [RunLoopStop(runLoop)] else []) +
                         (if tapPort != 0 then [TapEnable(tapPort, false)] else [])
    {
      if isDisposed {
        return [];
      }
      isDisposed := true;
      calls := [];
      if runLoop != 0 {
        calls := calls + [RunLoopStop(runLoop)];
      }
      if tapPort != 0 {
        calls := calls + [TapEnable(tapPort, false)];
      }
    }
  }

  /** Disposing twice acts only the first time, and afterwards the callback is silent. */
  method DisposeTwice(hook: MacMouseHook, eventType: int, eventRef: int, buttonNumber: int)
    returns (second: seq<CGCall>, result: int, fired: Option<Transition<MouseButton>>)
    modifies hook
    ensures second == [] && result == eventRef && fired == None
  {
    var first := hook.Dispose();
    second := hook.Dispose();
    var calls;
    result, calls, fired := hook.HookCallback(eventType, eventRef, buttonNumber);
  }
}
