/**
 * `WindowsMouseHook`: a low-level mouse hook. Button messages are classified
 * into button edges that update the set of held buttons; a wheel message
 * fires a press of a wheel button and leaves the set alone. Injection goes
 * through `mouse_event` with the flags `GetMouseEventFlags` chooses.
 */
module WindowsMouse {
  import opened Wrappers
  import opened Tracking
  import opened Injection
  import opened Buttons
  import Casts

  const WM_LBUTTONDOWN: int := 0x0201
  const WM_LBUTTONUP: int := 0x0202
  const WM_RBUTTONDOWN: int := 0x0204
  const WM_RBUTTONUP: int := 0x0205
  const WM_MBUTTONDOWN: int := 0x0207
  const WM_MBUTTONUP: int := 0x0208
  const WM_XBUTTONDOWN: int := 0x020B
  const WM_XBUTTONUP: int := 0x020C
  const WM_MOUSEWHEEL: int := 0x020A

  const MOUSEEVENTF_LEFTDOWN: int := 0x0002
  const MOUSEEVENTF_LEFTUP: int := 0x0004
  const MOUSEEVENTF_RIGHTDOWN: int := 0x0008
  const MOUSEEVENTF_RIGHTUP: int := 0x0010
  const MOUSEEVENTF_MIDDLEDOWN: int := 0x0020
  const MOUSEEVENTF_MIDDLEUP: int := 0x0040
  const MOUSEEVENTF_XDOWN: int := 0x0080
  const MOUSEEVENTF_XUP: int := 0x0100
  const MOUSEEVENTF_WHEEL: int := 0x0800

  /** The wheel "button" a wheel message presses: up for a positive signed delta, down otherwise. */
  function WheelButton(mouseData: int): MouseButton
  {
    if Casts.SignedHighWord(mouseData) > 0 then WheelUp else WheelDown
  }

  /** The button a (non-wheel) message names; an X message names X1 or X2 by the high word of `mouseData`. */
  function MessageButton(msg: int, mouseData: int): Option<MouseButton>
  {
    if msg == WM_LBUTTONDOWN || msg == WM_LBUTTONUP then Some(Left)
    else if msg == WM_RBUTTONDOWN || msg == WM_RBUTTONUP then Some(Right)
    else if msg == WM_MBUTTONDOWN || msg == WM_MBUTTONUP then Some(Middle)
    else if msg == WM_XBUTTONDOWN || msg == WM_XBUTTONUP then
      (if Casts.HighWord(mouseData) == 1 then Some(X1)
       else if Casts.HighWord(mouseData) == 2 then Some(X2)
       else None)
    else None
  }

  /** Whether a message is one of the four button-down messages. */
  predicate IsDownMessage(msg: int)
  {
    msg == WM_LBUTTONDOWN || msg == WM_RBUTTONDOWN || msg == WM_MBUTTONDOWN || msg == WM_XBUTTONDOWN
  }

  /** The event a notification fires, if any. */
  function Classify(nCode: int, msg: int, mouseData: int): Option<Transition<MouseButton>>
  {
    if nCode < 0 then None
    else if msg == WM_MOUSEWHEEL then Some(Down(WheelButton(mouseData)))
    else match MessageButton(msg, mouseData)
      case None => None
      case Some(b) => Some(if IsDownMessage(msg) then Down(b) else Up(b))
  }

  /** Whether a notification's event also updates the held set: every one except a wheel message's. */
  predicate Tracked(msg: int)
  {
    msg != WM_MOUSEWHEEL
  }

  /**
   * A wheel message with `nCode >= 0` always fires a press, never a
   * release, of `WheelUp` exactly when the signed delta is positive and of
   * `WheelDown` otherwise, zero included.
   */
  lemma WheelFiresPress(nCode: int, mouseData: int)
    requires nCode >= 0
    ensures Classify(nCode, WM_MOUSEWHEEL, mouseData).Some?
    ensures Classify(nCode, WM_MOUSEWHEEL, mouseData).value.Down?
    ensures Classify(nCode, WM_MOUSEWHEEL, mouseData).value.item == WheelUp <==> Casts.SignedHighWord(mouseData) > 0
    ensures Classify(nCode, WM_MOUSEWHEEL, mouseData).value.item == WheelDown <==> Casts.SignedHighWord(mouseData) <= 0
  {
  }

  /** One notch forward (+120 in the high word) is `WheelUp`; one notch back, and a zero delta, are `WheelDown`. */
  lemma WheelNotches()
    ensures Classify(0, WM_MOUSEWHEEL, 120 * 0x1_0000) == Some(Down(WheelUp))
    ensures Classify(0, WM_MOUSEWHEEL, -120 * 0x1_0000) == Some(Down(WheelDown))
    ensures Classify(0, WM_MOUSEWHEEL, 0) == Some(Down(WheelDown))
  {
  }

  /**
   * An X-button message fires an event exactly when the high word of
   * `mouseData` is 1 (for `X1`) or 2 (for `X2`); any other value fires
   * nothing.
   */
  lemma XButtonIff(nCode: int, msg: int, mouseData: int)
    requires nCode >= 0 && (msg == WM_XBUTTONDOWN || msg == WM_XBUTTONUP)
    ensures Classify(nCode, msg, mouseData).Some? <==> Casts.HighWord(mouseData) in {1, 2}
    ensures (Classify(nCode, msg, mouseData) == Some(if msg == WM_XBUTTONDOWN then Down(X1) else Up(X1)))
              <==> Casts.HighWord(mouseData) == 1
    ensures (Classify(nCode, msg, mouseData) == Some(if msg == WM_XBUTTONDOWN then Down(X2) else Up(X2)))
              <==> Casts.HighWord(mouseData) == 2
  {
  }

  /** A negative `nCode`, or a message that is no button or wheel message, fires nothing. */
  lemma IgnoredNotifications(nCode: int, msg: int, mouseData: int)
    requires nCode < 0 || msg !in {WM_LBUTTONDOWN, WM_LBUTTONUP, WM_RBUTTONDOWN, WM_RBUTTONUP,
                                   WM_MBUTTONDOWN, WM_MBUTTONUP, WM_XBUTTONDOWN, WM_XBUTTONUP, WM_MOUSEWHEEL}
    ensures Classify(nCode, msg, mouseData) == None
  {
  }

  /**
   * The notification Windows sends for an edge, as a message and its
   * `mouseData`: none for the release of a wheel button, which no message
   * reports.
   */
  function Notification(t: Transition<MouseButton>): Option<(int, int)>
  {
    match t
    case Down(Left) => Some((WM_LBUTTONDOWN, 0))
    case Up(Left) => Some((WM_LBUTTONUP, 0))
    case Down(Right) => Some((WM_RBUTTONDOWN, 0))
    case Up(Right) => Some((WM_RBUTTONUP, 0))
    case Down(Middle) => Some((WM_MBUTTONDOWN, 0))
    case Up(Middle) => Some((WM_MBUTTONUP, 0))
    case Down(X1) => Some((WM_XBUTTONDOWN, 1 * 0x1_0000))
    case Up(X1) => Some((WM_XBUTTONUP, 1 * 0x1_0000))
    case Down(X2) => Some((WM_XBUTTONDOWN, 2 * 0x1_0000))
    case Up(X2) => Some((WM_XBUTTONUP, 2 * 0x1_0000))
    case Down(WheelUp) => Some((WM_MOUSEWHEEL, 120 * 0x1_0000))
    case Down(WheelDown) => Some((WM_MOUSEWHEEL, -120 * 0x1_0000))
    case Up(_) => None
  }

  /**
   * Every edge a notification can carry is classified back to itself, and
   * the only edges no notification carries are the releases of the wheel
   * buttons.
   */
  lemma NotificationRoundTrip(t: Transition<MouseButton>)
    ensures Notification(t).Some? ==> Classify(0, Notification(t).value.0, Notification(t).value.1) == Some(t)
    ensures Notification(t).None? <==> t.Up? && (t.item == WheelUp || t.item == WheelDown)
  {
  }

  /** `GetMouseEventFlags`: the `(down, up)` flags for a button; the wheel has no up flag. */
  function EventFlags(b: MouseButton): (int, int)
  {
    match b
    case Left => (MOUSEEVENTF_LEFTDOWN, MOUSEEVENTF_LEFTUP)
    case Right => (MOUSEEVENTF_RIGHTDOWN, MOUSEEVENTF_RIGHTUP)
    case Middle => (MOUSEEVENTF_MIDDLEDOWN, MOUSEEVENTF_MIDDLEUP)
    case X1 => (MOUSEEVENTF_XDOWN, MOUSEEVENTF_XUP)
    case X2 => (MOUSEEVENTF_XDOWN, MOUSEEVENTF_XUP)
    case WheelUp => (MOUSEEVENTF_WHEEL, 0)
    case WheelDown => (MOUSEEVENTF_WHEEL, 0)
  }

  /** Whether a button is one of the two wheel directions. */
  predicate IsWheel(b: MouseButton)
  {
    b == WheelUp || b == WheelDown
  }

  /**
   * The flag table: every button has a non-zero down flag; the up flag is 0
   * exactly for the wheel buttons and is otherwise the down flag's next bit;
   * X1 and X2 share their flags, as do the two wheel buttons; all other
   * buttons have distinct down flags.
   */
  lemma EventFlagsTable(b: MouseButton, c: MouseButton)
    ensures EventFlags(b).0 != 0
    ensures EventFlags(b).1 == 0 <==> IsWheel(b)
    ensures !IsWheel(b) ==> EventFlags(b).1 == 2 * EventFlags(b).0
    ensures EventFlags(X1) == EventFlags(X2) && EventFlags(WheelUp) == EventFlags(WheelDown)
    ensures EventFlags(b).0 == EventFlags(c).0 <==>
              b == c || ({b, c} == {X1, X2}) || (IsWheel(b) && IsWheel(c))
  {
  }

  /** A call into user32 that injects one mouse action. */
  datatype MouseCall = MouseEvent(dwFlags: int)

  /** The `mouse_event` calls for one edge: the down flag for a press, the up flag for a release unless it is 0. */
  function ButtonCall(e: Transition<MouseButton>): seq<MouseCall>
  {
    match e
    case Down(b) => [MouseEvent(EventFlags(b).0)]
    case Up(b) => if EventFlags(b).1 != 0 then [MouseEvent(EventFlags(b).1)] else []
  }

  /** The buttons of a run other than the wheel buttons, in order. */
  function WithoutWheel(bs: seq<MouseButton>): (r: seq<MouseButton>)
    ensures forall b :: b in r <==> b in bs && !IsWheel(b)
    ensures |r| <= |bs|
    decreases |bs|
  {
    if bs == [] then []
    else if IsWheel(bs[0]) then WithoutWheel(bs[1..])
    else [bs[0]] + WithoutWheel(bs[1..])
  }

  /** The releases of the wheel buttons make no calls: the releases of a combo call as those of its other buttons. */
  lemma {:induction false} ReleasesSkipWheel(bs: seq<MouseButton>)
    ensures Emit(ButtonCall, Releases(bs)) == Emit(ButtonCall, Releases(WithoutWheel(bs)))
    decreases |bs|
  {
    if bs != [] {
      var rest := bs[1..];
      assert Releases(bs) == Releases(rest) + [Up(bs[0])];
      EmitSnoc(ButtonCall, Releases(rest), Up(bs[0]));
      ReleasesSkipWheel(rest);
      if IsWheel(bs[0]) {
        assert ButtonCall(Up(bs[0])) == [];
      } else {
        var w := WithoutWheel(rest);
        assert Releases([bs[0]] + w) == Releases(w) + [Up(bs[0])];
        EmitSnoc(ButtonCall, Releases(w), Up(bs[0]));
      }
    }
  }

  /** The presses of a run make one call each, its button's down flag. */
  lemma DownCalls(bs: seq<MouseButton>)
    ensures |Emit(ButtonCall, Presses(bs))| == |bs|
    ensures forall i :: 0 <= i < |bs| ==> Emit(ButtonCall, Presses(bs))[i] == MouseEvent(EventFlags(bs[i]).0)
  {
    EmitOneEach(ButtonCall, Presses(bs));
  }

  /** The releases of a run without wheel buttons make one call each, the up flags from the last button to the first. */
  lemma UpCalls(w: seq<MouseButton>)
    requires forall b :: b in w ==> !IsWheel(b)
    ensures |Emit(ButtonCall, Releases(w))| == |w|
    ensures forall i :: 0 <= i < |w| ==> Emit(ButtonCall, Releases(w))[i] == MouseEvent(EventFlags(w[|w| - 1 - i]).1)
  {
    forall i | 0 <= i < |w|
      ensures |ButtonCall(Releases(w)[i])| == 1
    {
      assert w[|w| - 1 - i] in w;
    }
    EmitOneEach(ButtonCall, Releases(w));
  }

  /** No expansion of a run carries flag 0. */
  lemma {:induction false} NoZeroFlag(ts: seq<Transition<MouseButton>>)
    ensures forall c :: c in Emit(ButtonCall, ts) ==> c.dwFlags != 0
    decreases |ts|
  {
    if ts != [] {
      NoZeroFlag(ts[..|ts| - 1]);
      EventFlagsTable(ts[|ts| - 1].item, ts[|ts| - 1].item);
    }
  }

  /**
   * The calls of a combo: one down flag per button in argument order, then
   * the up flags of the buttons other than the wheel buttons, last button
   * first; no call carries flag 0.
   */
  lemma ComboCalls(bs: seq<MouseButton>)
    ensures |Emit(ButtonCall, Combo(bs))| == |bs| + |WithoutWheel(bs)|
    ensures forall i :: 0 <= i < |bs| ==> Emit(ButtonCall, Combo(bs))[i] == MouseEvent(EventFlags(bs[i]).0)
    ensures forall i :: |bs| <= i < |bs| + |WithoutWheel(bs)| ==>
              Emit(ButtonCall, Combo(bs))[i] ==
                MouseEvent(EventFlags(WithoutWheel(bs)[|WithoutWheel(bs)| - 1 - (i - |bs|)]).1)
    ensures forall c :: c in Emit(ButtonCall, Combo(bs)) ==> c.dwFlags != 0
  {
    var w := WithoutWheel(bs);
    var downs := Emit(ButtonCall, Presses(bs));
    var ups := Emit(ButtonCall, Releases(w));
    assert Emit(ButtonCall, Combo(bs)) == downs + ups by {
      EmitConcat(ButtonCall, Presses(bs), Releases(bs));
      ReleasesSkipWheel(bs);
    }
    assert |downs| == |bs| && forall i :: 0 <= i < |bs| ==> downs[i] == MouseEvent(EventFlags(bs[i]).0) by {
      DownCalls(bs);
    }
    assert |ups| == |w| && forall i :: 0 <= i < |w| ==> ups[i] == MouseEvent(EventFlags(w[|w| - 1 - i]).1) by {
      UpCalls(w);
    }
    NoZeroFlag(Combo(bs));
  }

  /** The pass-through every notification ends with, `CallNextHookEx`. */
  datatype NextHook = CallNextHookEx(hook: int, nCode: int, wParam: int)

  class WindowsMouseHook {
    /** The buttons held down, `_pressedButtons`. */
    var pressedButtons: set<MouseButton>
    /** The handle `SetWindowsHookEx` returned. */
    const hookId: int

    /** The constructor, once the hook is installed: nothing is held yet. */
    constructor (hookId: int)
      ensures pressedButtons == {} && this.hookId == hookId
    {
      pressedButtons := {};
      this.hookId := hookId;
    }

    /**
     * `HookCallback`: the classified event fires; a button event first
     * updates the held set (a press adds, a release removes), so a handler
     * sees the button held exactly when the event is a press; a wheel event
     * leaves the set as it was. Every notification is passed on.
     */
    method HookCallback(nCode: int, msg: int, mouseData: int)
      returns (fired: Option<Transition<MouseButton>>, next: NextHook)
      modifies this
      ensures fired == Classify(nCode, msg, mouseData)
      ensures pressedButtons ==
                if fired.Some? && Tracked(msg) then Apply(old(pressedButtons), fired.value) else old(pressedButtons)
      ensures fired.Some? && Tracked(msg) ==> (fired.value.item in pressedButtons <==> fired.value.Down?)
      ensures next == CallNextHookEx(hookId, nCode, msg)
    {
      fired := None;
      if nCode >= 0 {
        var btn: Option<MouseButton> := None;
        if msg == WM_MOUSEWHEEL {
          var delta := Casts.ToInt16(Casts.HighWord(mouseData));
          if delta > 0 {
            btn := Some(WheelUp);
          } else {
            btn := Some(WheelDown);
          }
          fired := Some(Down(btn.value));
        } else {
          if msg == WM_LBUTTONDOWN || msg == WM_LBUTTONUP {
            btn := Some(Left);
          } else if msg == WM_RBUTTONDOWN || msg == WM_RBUTTONUP {
            btn := Some(Right);
          } else if msg == WM_MBUTTONDOWN || msg == WM_MBUTTONUP {
            btn := Some(Middle);
          } else if msg == WM_XBUTTONDOWN || msg == WM_XBUTTONUP {
            var xbtn := Casts.HighWord(mouseData);
            if xbtn == 1 {
              btn := Some(X1);
            } else if xbtn == 2 {
              btn := Some(X2);
            }
          }
          if btn.Some? {
            var isDown := msg == WM_LBUTTONDOWN || msg == WM_RBUTTONDOWN ||
                          msg == WM_MBUTTONDOWN || msg == WM_XBUTTONDOWN;
            if isDown {
              pressedButtons := pressedButtons + {btn.value};
              fired := Some(Down(btn.value));
            } else {
              pressedButtons := pressedButtons - {btn.value};
              fired := Some(Up(btn.value));
            }
          }
        }
      }
      next := CallNextHookEx(hookId, nCode, msg);
    }

    /** `GetPressedButtons`: every held button exactly once, copied out of the set. */
    method GetPressedButtons() returns (r: seq<MouseButton>)
      ensures forall b :: b in r <==> b in pressedButtons
      ensures forall i, j :: 0 <= i < j < |r| ==> r[i] != r[j]
      ensures |r| == |pressedButtons|
    {
      r := Snapshot(pressedButtons);
    }

    /** `SendButton`: the down flag, then the up flag unless it is 0. */
    method SendButton(button: MouseButton) returns (calls: seq<MouseCall>)
      ensures calls == Emit(ButtonCall, Combo([button]))
      ensures calls == [MouseEvent(EventFlags(button).0)] +
                       (if EventFlags(button).1 != 0 then [MouseEvent(EventFlags(button).1)] else [])
    {
      var (downFlag, upFlag) := EventFlags(button);
      calls := [MouseEvent(downFlag)];
      if upFlag != 0 {
        calls := calls + [MouseEvent(upFlag)];
      }
      StrokeIsCombo(button);
      EmitSnoc(ButtonCall, [Down(button)], Up(button));
      assert [Down(button)] == [] + [Down(button)];
      EmitSnoc(ButtonCall, [], Down(button));
    }

    /** `SendButtonCombo`: the down flags in argument order, then the non-zero up flags in reverse order. */
    method SendButtonCombo(buttons: seq<MouseButton>) returns (calls: seq<MouseCall>)
      ensures calls == Emit(ButtonCall, Combo(buttons))
    {
      calls := [];
      var i := 0;
      while i < |buttons|
        invariant 0 <= i <= |buttons|
        invariant calls == Emit(ButtonCall, Presses(buttons[..i]))
      {
        assert calls + ButtonCall(Down(buttons[i])) == Emit(ButtonCall, Presses(buttons[..i + 1])) by {
          PressStep(ButtonCall, buttons, i);
        }
        var (downFlag, upFlag) := EventFlags(buttons[i]);
        calls := calls + [MouseEvent(downFlag)];
        i := i + 1;
      }
      assert i == |buttons|;
      assert calls == Emit(ButtonCall, Presses(buttons) + Releases(buttons)[..|buttons| - 1 - (|buttons| - 1)]) by {
        ComboLoopEnds(ButtonCall, buttons);
      }
      i := |buttons| - 1;
      while i >= 0
        invariant -1 <= i < |buttons|
        invariant calls == Emit(ButtonCall, Presses(buttons) + Releases(buttons)[..|buttons| - 1 - i])
      {
        assert calls + ButtonCall(Up(buttons[i]))
            == Emit(ButtonCall, Presses(buttons) + Releases(buttons)[..|buttons| - 1 - (i - 1)]) by {
          ReleaseStep(ButtonCall, buttons, i);
        }
        var (downFlag, upFlag) := EventFlags(buttons[i]);
        if upFlag != 0 {
          calls := calls + [MouseEvent(upFlag)];
        }
        i := i - 1;
      }
      assert i == -1;
      assert calls == Emit(ButtonCall, Combo(buttons)) by {
        ComboLoopEnds(ButtonCall, buttons);
      }
    }
  }
}
