/**
 * `WindowsKeyboardHook`: a low-level keyboard hook. Each notification is
 * classified into a key edge, which updates the set of held keys before the
 * event fires; injection goes through `keybd_event`. The native hook handle
 * and the calls into user32 are values: the callback returns the
 * pass-through call it makes and the injection methods return their calls.
 */
module WindowsKeyboard {
  import opened Wrappers
  import opened Tracking
  import opened Injection
  import Keys
  import Casts

  const WM_KEYDOWN: int := 0x0100
  const WM_KEYUP: int := 0x0101
  const WM_SYSKEYDOWN: int := 0x0104
  const WM_SYSKEYUP: int := 0x0105
  const KEYEVENTF_KEYUP: int := 0x0002

  /**
   * The edge a notification reports: with `nCode >= 0`, a key-down or
   * system-key-down message presses the key numbered `vkCode`, a key-up or
   * system-key-up message releases it, and anything else reports nothing.
   */
  function Classify(nCode: int, wParam: int, vkCode: int): Option<Transition<Keys.KeyboardKey>>
  {
    if nCode < 0 then None
    else if wParam == WM_KEYDOWN || wParam == WM_SYSKEYDOWN then Some(Down(vkCode as Keys.KeyboardKey))
    else if wParam == WM_KEYUP || wParam == WM_SYSKEYUP then Some(Up(vkCode as Keys.KeyboardKey))
    else None
  }

  /** The message that reports an edge: the plain or the system variant. */
  function Message(t: Transition<Keys.KeyboardKey>, system: bool): (m: int)
    ensures m in {WM_KEYDOWN, WM_KEYUP, WM_SYSKEYDOWN, WM_SYSKEYUP}
  {
    match t
    case Down(_) => if system then WM_SYSKEYDOWN else WM_KEYDOWN
    case Up(_) => if system then WM_SYSKEYUP else WM_KEYUP
  }

  /**
   * Every edge is recognised again from its own message and key number,
   * whichever variant carries it: the key reported is the raw number, with
   * no registry lookup.
   */
  lemma ClassifyMessage(t: Transition<Keys.KeyboardKey>, system: bool, nCode: int)
    requires nCode >= 0
    ensures Classify(nCode, Message(t, system), t.item as int) == Some(t)
  {
  }

  /**
   * Classification both ways: a notification reports an edge exactly when
   * `nCode` is not negative and the message is one of the four key messages,
   * the edge is about the raw key number, and it is a press exactly for the
   * two down messages.
   */
  lemma ClassifyIff(nCode: int, wParam: int, vkCode: int)
    ensures Classify(nCode, wParam, vkCode).Some? <==>
              nCode >= 0 && wParam in {WM_KEYDOWN, WM_KEYUP, WM_SYSKEYDOWN, WM_SYSKEYUP}
    ensures Classify(nCode, wParam, vkCode).Some? ==>
              Classify(nCode, wParam, vkCode).value.item as int == vkCode &&
              (Classify(nCode, wParam, vkCode).value.Down? <==> wParam in {WM_KEYDOWN, WM_SYSKEYDOWN})
  {
  }

  /** A call into user32 that injects one key edge. */
  datatype KeybdCall = KeybdEvent(bVk: int, dwFlags: int)

  /** The `keybd_event` call for one edge: the key number cast to a byte, flag 0 to press, `KEYEVENTF_KEYUP` to release. */
  function KeyCall(e: Transition<Keys.KeyboardKey>): seq<KeybdCall>
  {
    match e
    case Down(k) => [KeybdEvent(Casts.ToByte(k as int), 0)]
    case Up(k) => [KeybdEvent(Casts.ToByte(k as int), KEYEVENTF_KEYUP)]
  }

  /**
   * The calls of a combo: the first half presses the keys in argument
   * order, the second half releases them from the last to the first; the
   * virtual-key byte of a named key is its own number.
   */
  lemma KeyCallsOrder(keys: seq<Keys.KeyboardKey>)
    ensures |Emit(KeyCall, Combo(keys))| == 2 * |keys|
    ensures forall i :: 0 <= i < |keys| ==>
              Emit(KeyCall, Combo(keys))[i] == KeybdEvent(Casts.ToByte(keys[i] as int), 0)
    ensures forall i :: |keys| <= i < 2 * |keys| ==>
              Emit(KeyCall, Combo(keys))[i] == KeybdEvent(Casts.ToByte(keys[2 * |keys| - 1 - i] as int), KEYEVENTF_KEYUP)
    ensures forall i :: 0 <= i < |keys| && Keys.IsNamed(keys[i]) ==>
              Emit(KeyCall, Combo(keys))[i].bVk == keys[i] as int
  {
    ComboOneEach(KeyCall, keys);
    forall i | 0 <= i < |keys| && Keys.IsNamed(keys[i])
      ensures Emit(KeyCall, Combo(keys))[i].bVk == keys[i] as int
    {
      Keys.NamedFitsByte(keys[i]);
    }
  }

  /** The pass-through every notification ends with, `CallNextHookEx`. */
  datatype NextHook = CallNextHookEx(hook: int, nCode: int, wParam: int)

  class WindowsKeyboardHook {
    /** The keys held down, `_pressedKeys`. */
    var pressedKeys: set<Keys.KeyboardKey>
    /** The handle `SetWindowsHookEx` returned. */
    const hookId: int

    /** The constructor, once the hook is installed: nothing is held yet. */
    constructor (hookId: int)
      ensures pressedKeys == {} && this.hookId == hookId
    {
      pressedKeys := {};
      this.hookId := hookId;
    }

    /**
     * Construction: without a main module for the current process the hook
     * cannot be installed and construction fails with `InvalidOperationException`.
     */
    static method Open(hasMainModule: bool, hookId: int) returns (r: Result<WindowsKeyboardHook>)
      ensures !hasMainModule <==> r == Failure(InvalidOperation)
      ensures r.Success? ==> fresh(r.value) && r.value.pressedKeys == {} && r.value.hookId == hookId
    {
      if !hasMainModule {
        return Failure(InvalidOperation);
      }
      var hook := new WindowsKeyboardHook(hookId);
      return Success(hook);
    }

    /**
     * `HookCallback`: the classified edge updates the held set (a press adds
     * the key, a release removes it) and is the event that fires; the set a
     * handler sees already holds the key exactly when the edge is a press.
     * Every notification is passed on.
     */
    method HookCallback(nCode: int, wParam: int, vkCode: int)
      returns (fired: Option<Transition<Keys.KeyboardKey>>, next: NextHook)
      modifies this
      ensures fired == Classify(nCode, wParam, vkCode)
      ensures pressedKeys == if fired.Some? then Apply(old(pressedKeys), fired.value) else old(pressedKeys)
      ensures fired.Some? ==> (fired.value.item in pressedKeys <==> fired.value.Down?)
      ensures next == CallNextHookEx(hookId, nCode, wParam)
    {
      fired := None;
      if nCode >= 0 {
        var key := vkCode as Keys.KeyboardKey;
        if wParam == WM_KEYDOWN || wParam == WM_SYSKEYDOWN {
          pressedKeys := pressedKeys + {key};
          fired := Some(Down(key));
        } else if wParam == WM_KEYUP || wParam == WM_SYSKEYUP {
          pressedKeys := pressedKeys - {key};
          fired := Some(Up(key));
        }
      }
      next := CallNextHookEx(hookId, nCode, wParam);
    }

    /** `GetPressedKeys`: every held key exactly once, in the order the set enumerates them. */
    method GetPressedKeys() returns (r: seq<Keys.KeyboardKey>)
      ensures forall k :: k in r <==> k in pressedKeys
      ensures forall i, j :: 0 <= i < j < |r| ==> r[i] != r[j]
      ensures |r| == |pressedKeys|
    {
      r := Snapshot(pressedKeys);
    }

    /** `SendKey`: a press and a release of the key's virtual-key byte. */
    method SendKey(key: Keys.KeyboardKey) returns (calls: seq<KeybdCall>)
      ensures calls == Emit(KeyCall, Combo([key]))
      ensures calls == [KeybdEvent(Casts.ToByte(key as int), 0), KeybdEvent(Casts.ToByte(key as int), KEYEVENTF_KEYUP)]
    {
      var keyCode := key as int;
      calls := [KeybdEvent(Casts.ToByte(keyCode), 0)];
      calls := calls + [KeybdEvent(Casts.ToByte(keyCode), KEYEVENTF_KEYUP)];
      StrokeIsCombo(key);
      EmitSnoc(KeyCall, [Down(key)], Up(key));
      assert [Down(key)] == [] + [Down(key)];
      EmitSnoc(KeyCall, [], Down(key));
    }

    /** `SendKeyCombo`: the presses in argument order, then the releases in reverse order. */
    method SendKeyCombo(keyCodes: seq<Keys.KeyboardKey>) returns (calls: seq<KeybdCall>)
      ensures calls == Emit(KeyCall, Combo(keyCodes))
    {
      calls := [];
      var i := 0;
      while i < |keyCodes|
        invariant 0 <= i <= |keyCodes|
        invariant calls == Emit(KeyCall, Presses(keyCodes[..i]))
      {
        assert calls + KeyCall(Down(keyCodes[i])) == Emit(KeyCall, Presses(keyCodes[..i + 1])) by {
          PressStep(KeyCall, keyCodes, i);
        }
        calls := calls + [KeybdEvent(Casts.ToByte(keyCodes[i] as int), 0)];
        i := i + 1;
      }
      assert i == |keyCodes|;
      assert calls == Emit(KeyCall, Presses(keyCodes) + Releases(keyCodes)[..|keyCodes| - 1 - (|keyCodes| - 1)]) by {
        ComboLoopEnds(KeyCall, keyCodes);
      }
      i := |keyCodes| - 1;
      while i >= 0
        invariant -1 <= i < |keyCodes|
        invariant calls == Emit(KeyCall, Presses(keyCodes) + Releases(keyCodes)[..|keyCodes| - 1 - i])
      {
        assert calls + KeyCall(Up(keyCodes[i]))
            == Emit(KeyCall, Presses(keyCodes) + Releases(keyCodes)[..|keyCodes| - 1 - (i - 1)]) by {
          ReleaseStep(KeyCall, keyCodes, i);
        }
        calls := calls + [KeybdEvent(Casts.ToByte(keyCodes[i] as int), KEYEVENTF_KEYUP)];
        i := i - 1;
      }
      assert i == -1;
      assert calls == Emit(KeyCall, Combo(keyCodes)) by {
        ComboLoopEnds(KeyCall, keyCodes);
      }
    }
  }

  /**
   * Two downs for the same key, the second one a system-key message, fire
   * two press events but hold the key once.
   */
  method RepeatedPress(hook: WindowsKeyboardHook, vkCode: int)
    returns (first: Option<Transition<Keys.KeyboardKey>>, second: Option<Transition<Keys.KeyboardKey>>)
    modifies hook
    ensures first == second == Some(Down(vkCode as Keys.KeyboardKey))
    ensures hook.pressedKeys == old(hook.pressedKeys) + {vkCode as Keys.KeyboardKey}
  {
    var next;
    first, next := hook.HookCallback(0, WM_KEYDOWN, vkCode);
    second, next := hook.HookCallback(0, WM_SYSKEYDOWN, vkCode);
    RepeatedDown(old(hook.pressedKeys), vkCode as Keys.KeyboardKey);
  }
}
