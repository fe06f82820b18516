/**
 * `LinuxMouseHook`: XInput2 button events from the X server, classified by
 * `ConvertButton` into button edges that update the set of held buttons;
 * injection goes through XTest with the code table of `Send`. The X
 * connection is an integer handle, and the calls into X are returned as a
 * trace.
 */
module LinuxMouse {
  import opened Wrappers
  import opened Tracking
  import opened Injection
  import opened Buttons

  const GenericEvent: int := 35
  const XI_ButtonPress: int := 3
  const XI_ButtonRelease: int := 4

  /** `ConvertButton`: the X button number of the five real buttons; wheel and other numbers are none. */
  function ConvertButton(btn: int): Option<MouseButton>
  {
    if btn == 1 then Some(Left)
    else if btn == 2 then Some(Middle)
    else if btn == 3 then Some(Right)
    else if btn == 8 then Some(X1)
    else if btn == 9 then Some(X2)
    else None
  }

  /** The X button number `Send` injects for a button (0 would mean "send nothing"). */
  function ButtonCode(b: MouseButton): int
  {
    match b
    case Left => 1
    case Middle => 2
    case Right => 3
    case X1 => 8
    case X2 => 9
    case WheelUp => 4
    case WheelDown => 5
  }

  /**
   * The two tables agree: a button other than the wheel comes back from its
   * own code, the wheel codes convert to none, and whatever a number
   * converts to is sent with that same number.
   */
  lemma ConvertRoundTrip(b: MouseButton, btn: int)
    ensures b != WheelUp && b != WheelDown ==> ConvertButton(ButtonCode(b)) == Some(b)
    ensures b == WheelUp || b == WheelDown ==> ConvertButton(ButtonCode(b)) == None
    ensures ConvertButton(btn).Some? ==> ButtonCode(ConvertButton(btn).value) == btn
  {
  }

  /** Exactly the numbers 1, 2, 3, 8 and 9 are recognised. */
  lemma ConvertDomain(btn: int)
    ensures ConvertButton(btn).Some? <==> btn in {1, 2, 3, 8, 9}
  {
  }

  /** Every button has its own non-zero code, so `Send` always sends and no two buttons are confused. */
  lemma ButtonCodeInjective(b: MouseButton, c: MouseButton)
    ensures ButtonCode(b) != 0
    ensures ButtonCode(b) == ButtonCode(c) <==> b == c
  {
  }

  /** The edge a button event reports: a press or release of the converted button, or nothing for an unknown number. */
  function ButtonEdge(isPress: bool, btn: int): Option<Transition<MouseButton>>
  {
    match ConvertButton(btn)
    case None => None
    case Some(b) => Some(if isPress then Down(b) else Up(b))
  }

  /**
   * The event loop's dispatch of one X event: only a generic event whose
   * cookie data could be fetched, of type button press or button release,
   * reaches `HandleButton`.
   */
  function EventEdge(evType: int, gotData: bool, evtype: int, btn: int): Option<Transition<MouseButton>>
  {
    if evType == GenericEvent && gotData then
      (if evtype == XI_ButtonPress then ButtonEdge(true, btn)
       else if evtype == XI_ButtonRelease then ButtonEdge(false, btn)
       else None)
    else None
  }

  /**
   * Dispatch both ways: an event reports an edge exactly when it is a
   * generic button press or release whose number is recognised, and the
   * edge is a press exactly for a press event.
   */
  lemma EventEdgeIff(evType: int, gotData: bool, evtype: int, btn: int)
    ensures EventEdge(evType, gotData, evtype, btn).Some? <==>
              evType == GenericEvent && gotData && evtype in {XI_ButtonPress, XI_ButtonRelease} && ConvertButton(btn).Some?
    ensures EventEdge(evType, gotData, evtype, btn).Some? ==>
              EventEdge(evType, gotData, evtype, btn).value.item == ConvertButton(btn).value &&
              (EventEdge(evType, gotData, evtype, btn).value.Down? <==> evtype == XI_ButtonPress)
  {
  }

  /** A call the hook makes into X. */
  datatype XCall = FakeButtonEvent(button: int, isPress: bool) | Flush

  /** `Send` for one edge: the button's code, pressed or released, then a flush; nothing for code 0. */
  function ButtonCall(e: Transition<MouseButton>): seq<XCall>
  {
    var code := ButtonCode(e.item);
    if code == 0 then [] else [FakeButtonEvent(code, e.Down?), Flush]
  }

  /** Every edge becomes exactly one injection followed by one flush. */
  lemma {:induction false} EmitPairs(ts: seq<Transition<MouseButton>>)
    ensures |Emit(ButtonCall, ts)| == 2 * |ts|
    ensures forall i :: 0 <= i < |ts| ==>
              Emit(ButtonCall, ts)[2 * i] == FakeButtonEvent(ButtonCode(ts[i].item), ts[i].Down?) &&
              Emit(ButtonCall, ts)[2 * i + 1] == Flush
    decreases |ts|
  {
    if ts != [] {
      var init := ts[..|ts| - 1];
      EmitPairs(init);
      ButtonCodeInjective(ts[|ts| - 1].item, ts[|ts| - 1].item);
      forall i | 0 <= i < |ts|
        ensures Emit(ButtonCall, ts)[2 * i] == FakeButtonEvent(ButtonCode(ts[i].item), ts[i].Down?)
        ensures Emit(ButtonCall, ts)[2 * i + 1] == Flush
      {
        if i < |init| {
          assert ts[i] == init[i];
        }
      }
    }
  }

  /**
   * The calls of a combo: button `k` is pressed at call `2 * k` and released
   * at call `2 * (2 * |bs| - 1 - k)`, so the releases run from the last
   * button to the first, and every injection is followed by a flush.
   */
  lemma ComboCalls(bs: seq<MouseButton>)
    ensures |Emit(ButtonCall, Combo(bs))| == 4 * |bs|
    ensures forall k :: 0 <= k < |bs| ==> Emit(ButtonCall, Combo(bs))[2 * k] == FakeButtonEvent(ButtonCode(bs[k]), true)
    ensures forall k :: 0 <= k < |bs| ==>
              Emit(ButtonCall, Combo(bs))[2 * (2 * |bs| - 1 - k)] == FakeButtonEvent(ButtonCode(bs[k]), false)
    ensures forall i :: 0 <= i < 2 * |bs| ==> Emit(ButtonCall, Combo(bs))[2 * i + 1] == Flush
  {
    EmitPairs(Combo(bs));
    forall k | 0 <= k < |bs|
      ensures Emit(ButtonCall, Combo(bs))[2 * (2 * |bs| - 1 - k)] == FakeButtonEvent(ButtonCode(bs[k]), false)
    {
      assert Combo(bs)[2 * |bs| - 1 - k] == Releases(bs)[|bs| - 1 - k];
    }
  }

  class LinuxMouseHook {
    /** The X display connection, `_display`. */
    var display: int
    /** Whether the event thread should keep running. */
    var running: bool
    /** The buttons held down, `_pressed`. */
    var pressed: set<MouseButton>

    /** The constructor, once the display is open and XInput2 selected. */
    constructor (display: int)
      requires display != 0
      ensures this.display == display && running && pressed == {}
    {
      this.display := display;
      running := true;
      pressed := {};
    }

    /**
     * Construction: a display of 0 (no X server) is an error, and so is a
     * server without the XInput extension; either way nothing is started.
     */
    static method Open(display: int, hasXInput: bool) returns (r: Result<LinuxMouseHook>)
      ensures display == 0 ==> r == Failure(DisplayUnavailable)
      ensures display != 0 && !hasXInput ==> r == Failure(ExtensionUnavailable)
      ensures r.Success? <==> display != 0 && hasXInput
      ensures r.Success? ==> fresh(r.value) && r.value.display == display && r.value.running && r.value.pressed == {}
    {
      if display == 0 {
        return Failure(DisplayUnavailable);
      }
      if !hasXInput {
        return Failure(ExtensionUnavailable);
      }
      var hook := new LinuxMouseHook(display);
      return Success(hook);
    }

    /**
     * `HandleButton`: a recognised button is added on a press and removed on
     * a release before its event fires; an unknown number changes nothing
     * and fires nothing.
     */
    method HandleButton(isPress: bool, btn: int) returns (fired: Option<Transition<MouseButton>>)
      modifies this
      ensures fired == ButtonEdge(isPress, btn)
      ensures pressed == if fired.Some? then Apply(old(pressed), fired.value) else old(pressed)
      ensures fired.Some? ==> (fired.value.item in pressed <==> fired.value.Down?)
      ensures display == old(display) && running == old(running)
    {
      var b := ConvertButton(btn);
      if b.None? {
        return None;
      }
      if isPress {
        pressed := pressed + {b.value};
        fired := Some(Down(b.value));
      } else {
        pressed := pressed - {b.value};
        fired := Some(Up(b.value));
      }
    }

    /** One turn of the event loop: the event, if it is a button event, goes to `HandleButton`. */
    method OnEvent(evType: int, gotData: bool, evtype: int, btn: int) returns (fired: Option<Transition<MouseButton>>)
      modifies this
      ensures fired == EventEdge(evType, gotData, evtype, btn)
      ensures pressed == if fired.Some? then Apply(old(pressed), fired.value) else old(pressed)
      ensures display == old(display) && running == old(running)
    {
      fired := None;
      if evType == GenericEvent && gotData {
        if evtype == XI_ButtonPress {
          fired := HandleButton(true, btn);
        } else if evtype == XI_ButtonRelease {
          fired := HandleButton(false, btn);
        }
      }
    }

    /** `GetPressedButtons`: every held button exactly once, copied out of the set. */
    method GetPressedButtons() returns (r: seq<MouseButton>)
      ensures forall b :: b in r <==> b in pressed
      ensures forall i, j :: 0 <= i < j < |r| ==> r[i] != r[j]
      ensures |r| == |pressed|
    {
      r := Snapshot(pressed);
    }

    /** `Send`: the calls for one press or release of a button. */
    method Send(btn: MouseButton, down: bool) returns (calls: seq<XCall>)
      ensures calls == ButtonCall(if down then Down(btn) else Up(btn))
    {
      var code := 0;
      if btn == Left { code := 1; }
      else if btn == Middle { code := 2; }
      else if btn == Right { code := 3; }
      else if btn == X1 { code := 8; }
      else if btn == X2 { code := 9; }
      else if btn == WheelUp { code := 4; }
      else if btn == WheelDown { code := 5; }
      if code == 0 {
        return [];
      }
      calls := [FakeButtonEvent(code, down), Flush];
    }

    /** `SendButton`: a press and a release of the same button. */
    method SendButton(button: MouseButton) returns (calls: seq<XCall>)
      ensures calls == Emit(ButtonCall, Combo([button]))
      ensures calls == [FakeButtonEvent(ButtonCode(button), true), Flush, FakeButtonEvent(ButtonCode(button), false), Flush]
    {
      var pressCalls := Send(button, true);
      var releaseCalls := Send(button, false);
      calls := pressCalls + releaseCalls;
      StrokeIsCombo(button);
      EmitSnoc(ButtonCall, [Down(button)], Up(button));
      assert [Down(button)] == [] + [Down(button)];
      EmitSnoc(ButtonCall, [], Down(button));
    }

    /** `SendButtonCombo`: the presses in argument order, then the releases in reverse order. */
    method SendButtonCombo(buttons: seq<MouseButton>) returns (calls: seq<XCall>)
      ensures calls == Emit(ButtonCall, Combo(buttons))
    {
      calls := [];
      var i := 0;
      while i < |buttons|
        invariant 0 <= i <= |buttons|
        invariant calls == Emit(ButtonCall, Presses(buttons[..i]))
      {
        PressStep(ButtonCall, buttons, i);
        var sent := Send(buttons[i], true);
        calls := calls + sent;
        i := i + 1;
      }
      assert i == |buttons|;
      ComboLoopEnds(ButtonCall, buttons);
      i := |buttons| - 1;
      while i >= 0
        invariant -1 <= i < |buttons|
        invariant calls == Emit(ButtonCall, Presses(buttons) + Releases(buttons)[..|buttons| - 1 - i])
      {
        ReleaseStep(ButtonCall, buttons, i);
        var sent := Send(buttons[i], false);
        calls := calls + sent;
        i := i - 1;
      }
      assert i == -1;
    }

    /**
     * `Dispose` as written: stops the event loop and closes a non-zero
     * display, but leaves the handle in `display`.
     */
    method DisposeAsWritten() returns (closed: Option<int>)
      modifies this
      ensures !running && display == old(display) && pressed == old(pressed)
      ensures closed == (if old(display) != 0 then Some(old(display)) else None)
    {
      running := false;
      closed := None;
      if display != 0 {
        closed := Some(display);
      }
    }

    /**
     * `Dispose` as intended: stops the event loop and closes the display
     * once, zeroing the handle so that a later call closes nothing.
     */
    method Dispose() returns (closed: Option<int>)
      modifies this
      ensures !running && display == 0 && pressed == old(pressed)
      ensures closed == (if old(display) != 0 then Some(old(display)) else None)
    {
      running := false;
      closed := None;
      if display != 0 {
        closed := Some(display);
        display := 0;
      }
    }
  }

  /**
   * As written, disposing twice closes the same display connection twice:
   * the second `XCloseDisplay` receives a handle that is already closed.
   */
  method DoubleCloseAsWritten(hook: LinuxMouseHook) returns (first: Option<int>, second: Option<int>)
    requires hook.display != 0
    modifies hook
    ensures first == second == Some(old(hook.display))
  {
    first := hook.DisposeAsWritten();
    second := hook.DisposeAsWritten();
  }

  /** With the handle zeroed, disposing twice closes the display only the first time. */
  method DisposeTwice(hook: LinuxMouseHook) returns (first: Option<int>, second: Option<int>)
    modifies hook
    ensures first == (if old(hook.display) != 0 then Some(old(hook.display)) else None)
    ensures second == None
  {
    first := hook.Dispose();
    second := hook.Dispose();
  }
}
