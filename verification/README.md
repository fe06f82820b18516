# KeyboardHook, modelled in Dafny

KeyboardHook is a C# library that hooks the keyboard and the mouse on Windows, Linux (X11) and
macOS. Each hook raises down and up events for keys or buttons, reports what is currently held,
and injects single strokes and combinations. This project models the platform-independent core
of each hook and proves the promises the code makes:

- the code registry: the `KeyboardKey` enumeration and the attribute lookups that translate keys
  to and from native key codes;
- the held-set trackers of the Windows keyboard and mouse hooks and of the Linux mouse hook;
- the Linux keyboard hook's 32-byte keymap polling diff;
- the order in which every hook injects strokes and combinations, and the native codes and flags
  it sends;
- the macOS hooks' event-callback classification, the creation, posting and release of
  CoreGraphics events, the tap-location fallback of the older keyboard hook, and the `Dispose`
  state machines.

Every native call is modelled as a value. A hook method returns the calls it makes as a trace,
and what the system hands back (a display connection, a tap, an event handle) is a parameter.

| file | models |
|---|---|
| `Wrappers.dfy` | `Option`, `Result` and the exceptions the hooks throw |
| `Casts.dfy` | the unchecked C# integer casts, written out |
| `Keys.dfy` | the `KeyboardKey` enumeration |
| `Registry.dfy` | `KeyboardKeyExtensions` |
| `Tracking.dfy` | down/up edges and the held set (`HashSet.Add`/`Remove`) |
| `Injection.dfy` | stroke and combo order, shared by every hook |
| `Buttons.dfy` | the `MouseButton` enumeration |
| `WindowsKeyboard.dfy` | `WindowsKeyboardHook` |
| `WindowsMouse.dfy` | `WindowsMouseHook` |
| `LinuxKeyboard.dfy` | `LinuxKeyboardHook` |
| `LinuxMouse.dfy` | `LinuxMouseHook` |
| `MacMouse.dfy` | `MacMouseHook` |
| `MacInjection.dfy` | key injection through CoreGraphics, shared by both macOS keyboard hooks |
| `MacKeyboard.dfy` | `KeyboardImplementation/MacKeyboardHook` |
| `MacKeyboardLegacy.dfy` | the older `Implementation/MacKeyboardHook` |

Where the code and its documentation disagree, the model follows the code. In particular:

- The Windows keyboard hook, the legacy macOS keyboard hook and the Linux `GetPressedKeys` report
  raw casts of native codes. They do not use the registry.
- The current macOS keyboard hook does use the registry. With the enumeration as declared, which
  carries no code attributes, it reports every key as `None` (`MacKeyboard.DeclaredReportsNone`).

## Model

| member | source | states |
|---|---|---|
| Casts.ToByte | KeyboardHook/Implementation/WindowsKeyboardHook.cs:86-87 | `(byte)x` lies in 0..255 and leaves a value that already fits unchanged |
| Casts.ToUInt16 | KeyboardHook/Implementation/KeyboardImplementation/MacKeyboardHook.cs:136-137 | `(ushort)x` lies in 0..65535 and leaves a value that already fits unchanged |
| Casts.ToUInt32 | KeyboardHook/Implementation/KeyboardImplementation/LinuxKeyboardHook.cs:113-114 | `(uint)x` lies in 0..2^32-1 and leaves a value that already fits unchanged |
| Casts.ToInt16 | KeyboardHook/Implementation/MouseImplementation/WindowsMouseHook.cs:58 | `(short)x` is a signed 16-bit value congruent to `x` modulo 2^16, and is `x` itself when `x` fits |
| Casts.ToInt32 | KeyboardHook/Implementation/MacKeyboardHook.cs:136-137 | `(int)` of a `long` is a signed 32-bit value congruent to it modulo 2^32, and is the value itself when it fits |
| Casts.SignedHighWord | KeyboardHook/Implementation/MouseImplementation/WindowsMouseHook.cs:58 | the wheel delta is a signed 16-bit value |
| Casts.HighWord | KeyboardHook/Implementation/MouseImplementation/WindowsMouseHook.cs:103 | `(x >> 16) & 0xffff` lies in 0..65535 and is `x / 65536` for a non-negative 32-bit `x` |
| Keys.NamedFitsByte | KeyboardHook/Common/KeyboardKey.cs:3-144 | `None` is member 0, and every member's number is below 256, so the `(byte)` and `(ushort)` casts leave a named key unchanged |
| Keys.DigitsContiguous | KeyboardHook/Common/KeyboardKey.cs:30-39 | `D0`..`D9` are 0x30..0x39 and every number between them is a member |
| Keys.LettersContiguous | KeyboardHook/Common/KeyboardKey.cs:42-48 | `A`..`Z` are 0x41..0x5A and every number between them is a member |
| Keys.FunctionKeysContiguous | KeyboardHook/Common/KeyboardKey.cs:75-80 | `F1`..`F24` are 0x70..0x87 and every number between them is a member |
| Registry.Attribute | KeyboardHook/Extensions/KeyboardKeyExtensions.cs:30-47 | on an unrecognised system no attribute is read |
| Registry.FieldOf | KeyboardHook/Extensions/KeyboardKeyExtensions.cs:54-55 | `GetField(key.ToString())` finds a field holding the key, or none when no field holds it |
| Registry.FromPlatformCodeFirstMatch | KeyboardHook/Extensions/KeyboardKeyExtensions.cs:25-47 | `FromPlatformCode` returns the key of the first field, in declaration order, whose attribute carries the code |
| Registry.FromPlatformCodeFallback | KeyboardHook/Extensions/KeyboardKeyExtensions.cs:25-49 | with no field carrying the code the result is `None`; otherwise it is the key of some field that carries the code |
| Registry.UnattributedNeverMatches | KeyboardHook/Extensions/KeyboardKeyExtensions.cs:33-45 | a field without the attribute never matches (`attr?.Code == platformCode` is false on null) |
| Registry.LaterDuplicateShadowed | KeyboardHook/Extensions/KeyboardKeyExtensions.cs:26-47 | when two fields carry the same code, the later one is never returned |
| Registry.FirstCarrier | KeyboardHook/Extensions/KeyboardKeyExtensions.cs:26-47 | if some field carries a code, a first such field exists, and it is no later than any carrier |
| Registry.GetCodeOfField | KeyboardHook/Extensions/KeyboardKeyExtensions.cs:52-70 | `Get*Code` of a declared key is its attribute's code, or 0 without the attribute |
| Registry.UnnamedKeyHasNoCode | KeyboardHook/Extensions/KeyboardKeyExtensions.cs:52-70 | a value with no field gets code 0 (`field?` is null) |
| Registry.OtherPlatform | KeyboardHook/Extensions/KeyboardKeyExtensions.cs:11-50 | on an unrecognised system `ToPlatformCode` is 0 and `FromPlatformCode` is `None` |
| Registry.RoundTrip | KeyboardHook/Extensions/KeyboardKeyExtensions.cs:11-50 | a key whose attribute code no earlier field carries comes back from `FromPlatformCode(ToPlatformCode(k))` |
| Registry.UnattributedTable | KeyboardHook/Extensions/KeyboardKeyExtensions.cs:23-70 | with no attributes at all, every code maps to `None` and every key to 0 |
| Registry.DeclaredTable | KeyboardHook/Common/KeyboardKey.cs:3-144 | the enumeration's fields in declaration order, one per member, none of them with an attribute |
| Registry.DeclaredEnumIsUnmapped | KeyboardHook/Common/KeyboardKey.cs:3-144 | with the enumeration as declared, `FromPlatformCode` is always `None` and `ToPlatformCode` always 0 |
| Tracking.Apply | KeyboardHook/Implementation/WindowsKeyboardHook.cs:55-66 | after `Add`, the item is held; after `Remove`, it is not held; no other item changes |
| Tracking.ReplayMembership | KeyboardHook/Implementation/MouseImplementation/WindowsMouseHook.cs:121-134 | after a run of edges an item is held exactly when its last edge was a down, or it was held and no edge names it |
| Tracking.ReplayConcat | KeyboardHook/Implementation/MouseImplementation/LinuxMouseHook.cs:95-104 | tracking two runs in turn is tracking their concatenation |
| Tracking.RepeatedDown | KeyboardHook/Implementation/WindowsKeyboardHook.cs:55-59 | a repeated down for a held item leaves the set unchanged |
| Tracking.Snapshot | KeyboardHook/Implementation/WindowsKeyboardHook.cs:75-81 | copying out the set gives every element exactly once and nothing else |
| Injection.Presses | KeyboardHook/Implementation/WindowsKeyboardHook.cs:92-93 | the forward loop presses item `i` at position `i` |
| Injection.Releases | KeyboardHook/Implementation/WindowsKeyboardHook.cs:95-96 | the reverse loop releases the items last first |
| Injection.StrokeIsCombo | KeyboardHook/Implementation/WindowsKeyboardHook.cs:83-88 | a single stroke is the one-item combo, a press and then a release |
| Injection.ComboNesting | KeyboardHook/Implementation/WindowsKeyboardHook.cs:90-97 | combos nest like brackets: the first item opens and closes the combo of the rest |
| Injection.ThreeKeyCombo | KeyboardHook/Implementation/WindowsKeyboardHook.cs:90-97 | a, b, c go down in order and come up c, b, a |
| Injection.EmitConcat | KeyboardHook/Implementation/MouseImplementation/LinuxMouseHook.cs:139-146 | expanding a concatenation of edges into native calls concatenates the expansions |
| Injection.ComboOneEach | KeyboardHook/Implementation/WindowsKeyboardHook.cs:90-97 | with one native call per edge, call `i` presses item `i` and the second half releases the items last first |
| Injection.PressesHoldAll | KeyboardHook/Implementation/MouseImplementation/LinuxMouseHook.cs:141-142 | after the presses of a combo, all its items are held and nothing else changes |
| Injection.ReleasesDropAll | KeyboardHook/Implementation/MouseImplementation/LinuxMouseHook.cs:144-145 | after the releases of a combo, none of its items is held and nothing else changes |
| Injection.ComboReleasesAll | KeyboardHook/Implementation/MouseImplementation/LinuxMouseHook.cs:139-146 | a whole combo leaves none of its items held, whatever was held before |
| WindowsKeyboard.Message | KeyboardHook/Implementation/WindowsKeyboardHook.cs:21-24 | every edge is carried by one of the four key messages |
| WindowsKeyboard.ClassifyMessage | KeyboardHook/Implementation/WindowsKeyboardHook.cs:49-66 | the plain and the system message of an edge are both classified back to that edge, on the raw key number |
| WindowsKeyboard.ClassifyIff | KeyboardHook/Implementation/WindowsKeyboardHook.cs:49-66 | an edge is reported exactly when `nCode >= 0` and the message is a key message; it names `(KeyboardKey)vkCode`; it is a press exactly for the two down messages |
| WindowsKeyboard.KeyCallsOrder | KeyboardHook/Implementation/WindowsKeyboardHook.cs:90-97 | the combo's `keybd_event` calls press the key bytes in order and release them in reverse order; a named key's byte is its own number |
| WindowsKeyboard.WindowsKeyboardHook.constructor | KeyboardHook/Implementation/WindowsKeyboardHook.cs:18-33 | no key is held after construction |
| WindowsKeyboard.WindowsKeyboardHook.Open | KeyboardHook/Implementation/WindowsKeyboardHook.cs:35-45 | without a main module, construction fails with `InvalidOperationException` |
| WindowsKeyboard.WindowsKeyboardHook.HookCallback | KeyboardHook/Implementation/WindowsKeyboardHook.cs:47-70 | the set is updated before the event fires, so the key is held exactly when the event is a down; other notifications change nothing; every notification is passed on |
| WindowsKeyboard.WindowsKeyboardHook.GetPressedKeys | KeyboardHook/Implementation/WindowsKeyboardHook.cs:75-81 | exactly the held keys, each once |
| WindowsKeyboard.WindowsKeyboardHook.SendKey | KeyboardHook/Implementation/WindowsKeyboardHook.cs:83-88 | a press and then a release of the key's byte: the one-key combo |
| WindowsKeyboard.WindowsKeyboardHook.SendKeyCombo | KeyboardHook/Implementation/WindowsKeyboardHook.cs:90-97 | presses in argument order, then releases in reverse order |
| WindowsKeyboard.RepeatedPress | KeyboardHook/Implementation/WindowsKeyboardHook.cs:55-59 | a down and then a system down for one key fire two presses and hold the key once |
| WindowsMouse.WheelFiresPress | KeyboardHook/Implementation/MouseImplementation/WindowsMouseHook.cs:55-76 | a wheel message fires a press of `WheelUp` for a positive delta and of `WheelDown` otherwise, zero included; it is always a press, never a release |
| WindowsMouse.WheelNotches | KeyboardHook/Implementation/MouseImplementation/WindowsMouseHook.cs:58-66 | one notch forward is `WheelUp`; one notch back and a zero delta are `WheelDown` |
| WindowsMouse.XButtonIff | KeyboardHook/Implementation/MouseImplementation/WindowsMouseHook.cs:99-116 | an X-button message fires exactly when its high word is 1 (`X1`) or 2 (`X2`) |
| WindowsMouse.IgnoredNotifications | KeyboardHook/Implementation/MouseImplementation/WindowsMouseHook.cs:50-114 | a negative `nCode` or an unknown message fires nothing |
| WindowsMouse.NotificationRoundTrip | KeyboardHook/Implementation/MouseImplementation/WindowsMouseHook.cs:48-140 | every edge except a wheel release has a notification that is classified back to it |
| WindowsMouse.EventFlagsTable | KeyboardHook/Implementation/MouseImplementation/WindowsMouseHook.cs:180-220 | every down flag is non-zero; the up flag is 0 exactly for the wheel; X1 and X2 share flags, as do the wheel buttons |
| WindowsMouse.WithoutWheel | KeyboardHook/Implementation/MouseImplementation/WindowsMouseHook.cs:171-177 | the buttons whose release makes a call: exactly the non-wheel buttons of the run |
| WindowsMouse.ReleasesSkipWheel | KeyboardHook/Implementation/MouseImplementation/WindowsMouseHook.cs:171-177 | a wheel button's release makes no call |
| WindowsMouse.ComboCalls | KeyboardHook/Implementation/MouseImplementation/WindowsMouseHook.cs:162-178 | one down flag per button in order, then the up flags of the non-wheel buttons last first; no call carries flag 0 |
| WindowsMouse.WindowsMouseHook.constructor | KeyboardHook/Implementation/MouseImplementation/WindowsMouseHook.cs:15-36 | no button is held after construction |
| WindowsMouse.WindowsMouseHook.HookCallback | KeyboardHook/Implementation/MouseImplementation/WindowsMouseHook.cs:48-140 | fires the classified edge; a button edge updates the set before it fires; a wheel edge leaves the set alone; every notification is passed on |
| WindowsMouse.WindowsMouseHook.GetPressedButtons | KeyboardHook/Implementation/MouseImplementation/WindowsMouseHook.cs:142-147 | exactly the held buttons, each once |
| WindowsMouse.WindowsMouseHook.SendButton | KeyboardHook/Implementation/MouseImplementation/WindowsMouseHook.cs:149-160 | the down flag, then the up flag only when it is non-zero |
| WindowsMouse.WindowsMouseHook.SendButtonCombo | KeyboardHook/Implementation/MouseImplementation/WindowsMouseHook.cs:162-178 | the downs in order, then the non-zero ups in reverse order |
| LinuxKeyboard.BitIsMask | KeyboardHook/Implementation/KeyboardImplementation/LinuxKeyboardHook.cs:89-90 | the bit test of the model is the source's `(b & (1 << bit)) != 0` |
| LinuxKeyboard.CodeTransition | KeyboardHook/Implementation/KeyboardImplementation/LinuxKeyboardHook.cs:89-103 | each code raises at most one edge per sample |
| LinuxKeyboard.KeyPressedAt | KeyboardHook/Implementation/KeyboardImplementation/LinuxKeyboardHook.cs:87-91 | code `i*8+bit` is bit `bit` of byte `i` |
| LinuxKeyboard.UnchangedByteIsQuiet | KeyboardHook/Implementation/KeyboardImplementation/LinuxKeyboardHook.cs:85 | a byte equal in both samples raises no edge |
| LinuxKeyboard.EventsReportDiff | KeyboardHook/Implementation/KeyboardImplementation/LinuxKeyboardHook.cs:80-106 | the events of the nested loops are the diff's edges, each code translated through the registry |
| LinuxKeyboard.TransitionsBelow | KeyboardHook/Implementation/KeyboardImplementation/LinuxKeyboardHook.cs:80-91 | the first `n` codes only raise edges below `n` |
| LinuxKeyboard.DownIff | KeyboardHook/Implementation/KeyboardImplementation/LinuxKeyboardHook.cs:94-98 | a down is raised for a code exactly when its bit is set now and was clear before |
| LinuxKeyboard.UpIff | KeyboardHook/Implementation/KeyboardImplementation/LinuxKeyboardHook.cs:99-103 | an up is raised for a code exactly when its bit is clear now and was set before |
| LinuxKeyboard.TransitionsAscending | KeyboardHook/Implementation/KeyboardImplementation/LinuxKeyboardHook.cs:80-91 | the edges come in strictly ascending code order, so there is at most one per code |
| LinuxKeyboard.SameSampleIsQuiet | KeyboardHook/Implementation/KeyboardImplementation/LinuxKeyboardHook.cs:85-108 | a sample equal to the stored one raises nothing |
| LinuxKeyboard.LastEdgeOfDiff | KeyboardHook/Implementation/KeyboardImplementation/LinuxKeyboardHook.cs:87-103 | a code's last edge is a down when its bit was set, an up when it was cleared, none when it stayed |
| LinuxKeyboard.DiffReplaysToSample | KeyboardHook/Implementation/KeyboardImplementation/LinuxKeyboardHook.cs:78-109 | tracking the diff's edges from the old sample's held set gives exactly the new sample's held set |
| LinuxKeyboard.PressedKeysMembership | KeyboardHook/Implementation/KeyboardImplementation/LinuxKeyboardHook.cs:133-146 | a key is listed exactly when it is a raw code whose bit is set |
| LinuxKeyboard.PressedKeysAscending | KeyboardHook/Implementation/KeyboardImplementation/LinuxKeyboardHook.cs:136-143 | the list is in strictly ascending code order |
| LinuxKeyboard.KeyStroke | KeyboardHook/Implementation/KeyboardImplementation/LinuxKeyboardHook.cs:113-114 | a one-key combo is a fake press and a fake release of the same code |
| LinuxKeyboard.XCodes | KeyboardHook/Implementation/KeyboardImplementation/LinuxKeyboardHook.cs:122-127 | key `i` of the combo is sent as `(uint)ToPlatformCode(key)` |
| LinuxKeyboard.KeyCallsOrder | KeyboardHook/Implementation/KeyboardImplementation/LinuxKeyboardHook.cs:118-131 | the combo's fake key events press the codes in order and release them in reverse order |
| LinuxKeyboard.LinuxKeyboardHook.constructor | KeyboardHook/Implementation/KeyboardImplementation/LinuxKeyboardHook.cs:21-55 | running, with an all-zero previous sample |
| LinuxKeyboard.LinuxKeyboardHook.Open | KeyboardHook/Implementation/KeyboardImplementation/LinuxKeyboardHook.cs:44-46 | a display of 0 is an error |
| LinuxKeyboard.LinuxKeyboardHook.ProcessKeymapChanges | KeyboardHook/Implementation/KeyboardImplementation/LinuxKeyboardHook.cs:78-109 | the events fired are the registry-translated diff of the two samples, and afterwards the stored sample is the new one |
| LinuxKeyboard.LinuxKeyboardHook.GetPressedKeys | KeyboardHook/Implementation/KeyboardImplementation/LinuxKeyboardHook.cs:133-146 | the raw codes of the set bits of the stored sample, in ascending order |
| LinuxKeyboard.LinuxKeyboardHook.SendKey | KeyboardHook/Implementation/KeyboardImplementation/LinuxKeyboardHook.cs:111-116 | a press and a release of the same code, then one flush |
| LinuxKeyboard.LinuxKeyboardHook.SendKeyCombo | KeyboardHook/Implementation/KeyboardImplementation/LinuxKeyboardHook.cs:118-131 | presses in argument order, releases in reverse order, then one flush |
| LinuxKeyboard.LinuxKeyboardHook.Dispose | KeyboardHook/Implementation/KeyboardImplementation/LinuxKeyboardHook.cs:148-158 | stops polling, closes a non-zero display and leaves 0 behind |
| LinuxKeyboard.DisposeTwice | KeyboardHook/Implementation/KeyboardImplementation/LinuxKeyboardHook.cs:148-158 | a second `Dispose` closes nothing |
| LinuxMouse.ConvertRoundTrip | KeyboardHook/Implementation/MouseImplementation/LinuxMouseHook.cs:116-158 | converting a button's `Send` code gives the button back, except for the wheel codes 4 and 5, which convert to none; a recognised number is its button's code |
| LinuxMouse.ConvertDomain | KeyboardHook/Implementation/MouseImplementation/LinuxMouseHook.cs:116-124 | exactly 1, 2, 3, 8 and 9 are recognised |
| LinuxMouse.ButtonCodeInjective | KeyboardHook/Implementation/MouseImplementation/LinuxMouseHook.cs:148-160 | every button has its own non-zero code, so `Send` never returns early |
| LinuxMouse.EventEdgeIff | KeyboardHook/Implementation/MouseImplementation/LinuxMouseHook.cs:63-105 | an X event reports an edge exactly when it is a generic button press or release with data and a recognised number; it is a press exactly for a press event |
| LinuxMouse.EmitPairs | KeyboardHook/Implementation/MouseImplementation/LinuxMouseHook.cs:160-163 | every edge becomes one fake button event followed by one flush |
| LinuxMouse.ComboCalls | KeyboardHook/Implementation/MouseImplementation/LinuxMouseHook.cs:139-146 | the combo presses the codes in order and releases them in reverse order, each call followed by a flush |
| LinuxMouse.LinuxMouseHook.constructor | KeyboardHook/Implementation/MouseImplementation/LinuxMouseHook.cs:18-31 | running, with no button held |
| LinuxMouse.LinuxMouseHook.Open | KeyboardHook/Implementation/MouseImplementation/LinuxMouseHook.cs:22-38 | no display, or no XInput extension, is an error, and each has its own |
| LinuxMouse.LinuxMouseHook.HandleButton | KeyboardHook/Implementation/MouseImplementation/LinuxMouseHook.cs:89-105 | a press adds and a release removes before the event fires; an unknown number changes nothing and fires nothing |
| LinuxMouse.LinuxMouseHook.OnEvent | KeyboardHook/Implementation/MouseImplementation/LinuxMouseHook.cs:63-86 | dispatching one X event fires its edge and updates the set accordingly |
| LinuxMouse.LinuxMouseHook.GetPressedButtons | KeyboardHook/Implementation/MouseImplementation/LinuxMouseHook.cs:126-131 | exactly the held buttons, each once |
| LinuxMouse.LinuxMouseHook.Send | KeyboardHook/Implementation/MouseImplementation/LinuxMouseHook.cs:148-164 | one fake button event with the button's code, then a flush |
| LinuxMouse.LinuxMouseHook.SendButton | KeyboardHook/Implementation/MouseImplementation/LinuxMouseHook.cs:133-137 | a press then a release of the same code |
| LinuxMouse.LinuxMouseHook.SendButtonCombo | KeyboardHook/Implementation/MouseImplementation/LinuxMouseHook.cs:139-146 | presses in order, then releases in reverse order |
| LinuxMouse.LinuxMouseHook.DisposeAsWritten | KeyboardHook/Implementation/MouseImplementation/LinuxMouseHook.cs:166-172 | stops the loop and closes a non-zero display, but keeps the handle |
| LinuxMouse.LinuxMouseHook.Dispose | KeyboardHook/Implementation/MouseImplementation/LinuxMouseHook.cs:166-172 | stops the loop, closes a non-zero display once, and zeroes the handle |
| LinuxMouse.DoubleCloseAsWritten | KeyboardHook/Implementation/MouseImplementation/LinuxMouseHook.cs:166-172 | as written, a second `Dispose` closes the same display again |
| LinuxMouse.DisposeTwice | KeyboardHook/Implementation/MouseImplementation/LinuxMouseHook.cs:166-172 | with the handle zeroed, a second `Dispose` closes nothing |
| MacMouse.ClassifyIff | KeyboardHook/Implementation/MouseImplementation/MacMouseHook.cs:86-118 | left and right types always report, the other-button types only for button number 2; a press exactly for the down types; never X1, X2 or the wheel |
| MacMouse.TapDisabledIsNoButton | KeyboardHook/Implementation/MouseImplementation/MacMouseHook.cs:80-84 | a tap-disabled notification is no button event |
| MacMouse.NativeRoundTrip | KeyboardHook/Implementation/MouseImplementation/MacMouseHook.cs:144-163 | the events posted for a button's press and release are classified back to that press and release; only X1, X2 and the wheel have no entry |
| MacMouse.Strokes | KeyboardHook/Implementation/MouseImplementation/MacMouseHook.cs:177-180 | one press and one release per button |
| MacMouse.StrokesShape | KeyboardHook/Implementation/MouseImplementation/MacMouseHook.cs:177-180 | button `k` is pressed at position `2k` and released at `2k+1` |
| MacMouse.StrokesAreNotCombo | KeyboardHook/Implementation/MouseImplementation/MacMouseHook.cs:177-180 | the combo does not nest: the first button is released before the second is pressed |
| MacMouse.StrokesRelease | KeyboardHook/Implementation/MouseImplementation/MacMouseHook.cs:177-180 | after the strokes none of the buttons is held and nothing else changes |
| MacMouse.MacMouseHook.constructor | KeyboardHook/Implementation/MouseImplementation/MacMouseHook.cs:23-75 | not disposed, holding the tap and the run loop the thread created |
| MacMouse.MacMouseHook.HookCallback | KeyboardHook/Implementation/MouseImplementation/MacMouseHook.cs:76-137 | after disposal it only hands the event back; a tap-disabled notification re-enables the tap and fires nothing; otherwise the classified edge fires; the event is always returned |
| MacMouse.MacMouseHook.SendButton | KeyboardHook/Implementation/MouseImplementation/MacMouseHook.cs:139-175 | Left, Right and Middle are pressed and then released, each event posted at the HID level; other buttons send nothing |
| MacMouse.MacMouseHook.SendButtonCombo | KeyboardHook/Implementation/MouseImplementation/MacMouseHook.cs:177-180 | one full stroke per button, in order |
| MacMouse.MacMouseHook.Dispose | KeyboardHook/Implementation/MouseImplementation/MacMouseHook.cs:182-189 | the first call stops the run loop and disables the tap; later calls do nothing |
| MacMouse.DisposeTwice | KeyboardHook/Implementation/MouseImplementation/MacMouseHook.cs:182-189 | a second `Dispose` makes no call, and afterwards the callback is silent |
| MacInjection.Live | KeyboardHook/Implementation/KeyboardImplementation/MacKeyboardHook.cs:166-180 | the events kept are the non-null ones, at most one per creation |
| MacInjection.KeyCodes | KeyboardHook/Implementation/KeyboardImplementation/MacKeyboardHook.cs:166-177 | key `i` is created as `(ushort)key` |
| MacInjection.CreatePostBookkeeping | KeyboardHook/Implementation/KeyboardImplementation/MacKeyboardHook.cs:166-172 | one creation posts its event exactly when it exists, and releases nothing |
| MacInjection.PostingHandles | KeyboardHook/Implementation/KeyboardImplementation/MacKeyboardHook.cs:164-184 | the events posted are exactly the ones created that exist, in order; nothing is released yet |
| MacInjection.PostingRequests | KeyboardHook/Implementation/KeyboardImplementation/MacKeyboardHook.cs:164-184 | one creation is requested per edge, with the edge's direction and key code |
| MacInjection.ReleaseEachHandles | KeyboardHook/Implementation/KeyboardImplementation/MacKeyboardHook.cs:186-193 | the `finally` loop releases each kept event once, in order, and creates and posts nothing |
| MacInjection.ReleaseEachRequests | KeyboardHook/Implementation/KeyboardImplementation/MacKeyboardHook.cs:186-193 | the `finally` loop creates no event |
| MacInjection.PostingReleasesNothing | KeyboardHook/Implementation/KeyboardImplementation/MacKeyboardHook.cs:161-185 | no call of the `try` block is a release |
| MacInjection.ReleaseEachOnlyReleases | KeyboardHook/Implementation/KeyboardImplementation/MacKeyboardHook.cs:186-193 | every call of the `finally` loop is a release |
| MacInjection.ComboHandles | KeyboardHook/Implementation/KeyboardImplementation/MacKeyboardHook.cs:159-193 | every event `SendKeyCombo` creates is posted and released exactly once, in creation order; failed creations are skipped |
| MacInjection.ComboRequests | KeyboardHook/Implementation/KeyboardImplementation/MacKeyboardHook.cs:164-184 | `SendKeyCombo` asks for the combo's edges, downs in order and ups in reverse order, whether or not creation succeeds |
| MacInjection.ComboReleasesLast | KeyboardHook/Implementation/KeyboardImplementation/MacKeyboardHook.cs:161-193 | once the releases start, only releases follow |
| MacInjection.StrokeHandles | KeyboardHook/Implementation/KeyboardImplementation/MacKeyboardHook.cs:131-151 | every event `SendKey` creates is posted and released exactly once, down first |
| MacInjection.StrokeRequests | KeyboardHook/Implementation/KeyboardImplementation/MacKeyboardHook.cs:136-137 | `SendKey` asks for the key's press, then its release |
| MacInjection.PostStroke | KeyboardHook/Implementation/KeyboardImplementation/MacKeyboardHook.cs:131-151 | both events created; each that exists posted, then each that exists released |
| MacInjection.PostEvent | KeyboardHook/Implementation/KeyboardImplementation/MacKeyboardHook.cs:166-172 | an event that exists is posted and kept; a null one is skipped |
| MacInjection.PostPresses | KeyboardHook/Implementation/KeyboardImplementation/MacKeyboardHook.cs:164-173 | the forward loop creates the presses in order and keeps the ones that exist |
| MacInjection.PostReleases | KeyboardHook/Implementation/KeyboardImplementation/MacKeyboardHook.cs:175-184 | the reverse loop creates the releases last key first and keeps the ones that exist |
| MacInjection.ReleaseEvents | KeyboardHook/Implementation/KeyboardImplementation/MacKeyboardHook.cs:186-193 | every kept event is released, in the order kept |
| MacInjection.PostCombo | KeyboardHook/Implementation/KeyboardImplementation/MacKeyboardHook.cs:157-194 | nothing for an empty combo; otherwise the creations, posts and releases of `ComboCalls` |
| MacKeyboard.KeyEvent | KeyboardHook/Implementation/KeyboardImplementation/MacKeyboardHook.cs:114-117 | the key reported is the registry's key for `(int)` of the native code |
| MacKeyboard.KeyEventIff | KeyboardHook/Implementation/KeyboardImplementation/MacKeyboardHook.cs:112-125 | exactly types 10 and 11 report an edge, a down exactly for type 10 |
| MacKeyboard.KeyEventRoundTrip | KeyboardHook/Implementation/KeyboardImplementation/MacKeyboardHook.cs:116-117 | a key whose macOS code no earlier field carries is reported as itself |
| MacKeyboard.DeclaredReportsNone | KeyboardHook/Implementation/KeyboardImplementation/MacKeyboardHook.cs:117 | with the enumeration as declared, every key is reported as `None` |
| MacKeyboard.SetupBalanced | KeyboardHook/Implementation/KeyboardImplementation/MacKeyboardHook.cs:54-79 | a created tap is released exactly when its source is missing and enabled exactly when it is kept |
| MacKeyboard.TeardownHandles | KeyboardHook/Implementation/KeyboardImplementation/MacKeyboardHook.cs:205-219 | `Dispose` releases the tap and the source, each once and only when it exists |
| MacKeyboard.TeardownOrder | KeyboardHook/Implementation/KeyboardImplementation/MacKeyboardHook.cs:205-214 | the run loop is stopped first, and the tap is disabled right before it is released |
| MacKeyboard.MacKeyboardHook.constructor | KeyboardHook/Implementation/KeyboardImplementation/MacKeyboardHook.cs:31-37 | not disposed, holding the tap and source of setup, with no run loop yet |
| MacKeyboard.MacKeyboardHook.Open | KeyboardHook/Implementation/KeyboardImplementation/MacKeyboardHook.cs:31-79 | off macOS, `PlatformNotSupportedException`; a missing tap or source, `UnauthorizedAccessException`; otherwise a hook holding both |
| MacKeyboard.MacKeyboardHook.RunLoopStarted | KeyboardHook/Implementation/KeyboardImplementation/MacKeyboardHook.cs:87 | the hook thread records its run loop and nothing else changes |
| MacKeyboard.MacKeyboardHook.EventCallback | KeyboardHook/Implementation/KeyboardImplementation/MacKeyboardHook.cs:112-125 | fires the reported edge and returns the event unchanged |
| MacKeyboard.MacKeyboardHook.SendKey | KeyboardHook/Implementation/KeyboardImplementation/MacKeyboardHook.cs:127-152 | `ObjectDisposedException` after disposal; otherwise one stroke |
| MacKeyboard.MacKeyboardHook.SendKeyCombo | KeyboardHook/Implementation/KeyboardImplementation/MacKeyboardHook.cs:154-194 | `ObjectDisposedException` after disposal; otherwise the combo's calls |
| MacKeyboard.MacKeyboardHook.GetPressedKeys | KeyboardHook/Implementation/KeyboardImplementation/MacKeyboardHook.cs:196-199 | always empty |
| MacKeyboard.MacKeyboardHook.Dispose | KeyboardHook/Implementation/KeyboardImplementation/MacKeyboardHook.cs:200-220 | the first call marks the hook disposed and tears down; later calls do nothing |
| MacKeyboard.DisposeTwice | KeyboardHook/Implementation/KeyboardImplementation/MacKeyboardHook.cs:200-220 | a second `Dispose` makes no call, and sending afterwards is refused |
| MacKeyboardLegacy.FirstGranted | KeyboardHook/Implementation/MacKeyboardHook.cs:64-80 | the first location that grants a tap: every earlier one refused |
| MacKeyboardLegacy.FallbackIsFirstSuccess | KeyboardHook/Implementation/MacKeyboardHook.cs:64-85 | the tap kept is the one granted at the first granting location, 0 when none does; one creation is tried per location up to it, and none after |
| MacKeyboardLegacy.SessionTapPreferred | KeyboardHook/Implementation/MacKeyboardHook.cs:62-79 | a session-level tap is kept after a single creation |
| MacKeyboardLegacy.HidTapFallback | KeyboardHook/Implementation/MacKeyboardHook.cs:62-79 | a refused session tap falls back to the HID level |
| MacKeyboardLegacy.NoTapAnywhere | KeyboardHook/Implementation/MacKeyboardHook.cs:62-85 | with every location refused, all three are tried in the order session, HID, annotated session, and no tap is kept |
| MacKeyboardLegacy.KeyEvent | KeyboardHook/Implementation/MacKeyboardHook.cs:134-147 | exactly types 10 and 11 report an edge, a down exactly for 10, about the raw native code |
| MacKeyboardLegacy.Attempted | KeyboardHook/Implementation/MacKeyboardHook.cs:236-272 | the calls of a `try` block that throws at a call: that call and the ones before it |
| MacKeyboardLegacy.TeardownHandles | KeyboardHook/Implementation/MacKeyboardHook.cs:241-258 | a full teardown releases the tap and the source, each once and only when it exists |
| MacKeyboardLegacy.MacKeyboardHook.constructor | KeyboardHook/Implementation/MacKeyboardHook.cs:14-19 | no handle held and not disposed |
| MacKeyboardLegacy.MacKeyboardHook.TryLocations | KeyboardHook/Implementation/MacKeyboardHook.cs:64-80 | the `foreach` leaves the first granted tap, or 0, and tries nothing after it |
| MacKeyboardLegacy.MacKeyboardHook.TryCreateEventTap | KeyboardHook/Implementation/MacKeyboardHook.cs:57-99 | false when no location grants a tap; a missing source releases the tap, zeroes it and gives false; otherwise the tap is enabled and kept |
| MacKeyboardLegacy.MacKeyboardHook.Open | KeyboardHook/Implementation/MacKeyboardHook.cs:30-55 | off macOS, `PlatformNotSupportedException`; on macOS the setup calls are made, and a missing tap or source gives `InvalidOperationException`; otherwise a hook holding the first granted tap and the source, with no run loop yet |
| MacKeyboardLegacy.MacKeyboardHook.RunLoopStarted | KeyboardHook/Implementation/MacKeyboardHook.cs:116 | the hook thread records its run loop and nothing else changes |
| MacKeyboardLegacy.MacKeyboardHook.EventCallback | KeyboardHook/Implementation/MacKeyboardHook.cs:130-155 | fires the reported edge and returns the event unchanged |
| MacKeyboardLegacy.MacKeyboardHook.SendKey | KeyboardHook/Implementation/MacKeyboardHook.cs:157-182 | `ObjectDisposedException` after disposal; otherwise one stroke |
| MacKeyboardLegacy.MacKeyboardHook.SendKeyCombo | KeyboardHook/Implementation/MacKeyboardHook.cs:184-225 | `ObjectDisposedException` after disposal; otherwise the combo's calls |
| MacKeyboardLegacy.MacKeyboardHook.GetPressedKeys | KeyboardHook/Implementation/MacKeyboardHook.cs:227-230 | always empty |
| MacKeyboardLegacy.MacKeyboardHook.Dispose | KeyboardHook/Implementation/MacKeyboardHook.cs:232-281 | the first call runs the teardown up to the call that throws, if one does, and zeroes every handle whatever happens; later calls make no call and change nothing; the hook always ends disposed |
| MacKeyboardLegacy.DisposeTwice | KeyboardHook/Implementation/MacKeyboardHook.cs:232-281 | a second `Dispose` makes no call and sending afterwards is refused; when the first call found the hook live, every handle is zero |

## Left out

- Threads, run loops, `Thread.Sleep`, `Thread.Join`, `Task.Run` and the polling and event loops themselves are not modelled. Each loop is modelled by the one step it repeats (`ProcessKeymapChanges`, `LinuxMouse.LinuxMouseHook.OnEvent`, the callbacks). Races between a callback and `Dispose` are not modelled.
- The run loop that the macOS hook threads find is not modelled as an assignment by a thread. It enters as a call to `RunLoopStarted`.
- Native calls are modelled as trace values, and the handles they return are parameters. For the event creations of `SendKey` and `SendKeyCombo`, the `alloc` function gives the handle of the `n`-th creation. For the legacy tap, `tapAt` gives the tap granted at each location. The results of P/Invoke calls other than these handles (`XFlush`, `CFRelease`, `CallNextHookEx`, `keybd_event`, `mouse_event`) are not modelled.
- Exceptions thrown by native calls are modelled in one place only: the legacy `Dispose`, which catches them. A throw inside the legacy `EventCallback` cannot change its result and is not modelled. Exceptions thrown by event handlers are not modelled.
- Console output is left out.
- The pairwise distinctness of the `KeyboardKey` member values is left out, because it costs too much to prove for 141 members.
- The codes carried by the `WindowsCode`, `LinuxCode` and `MacosCode` attributes are abstract. The enumeration as declared carries none, and the registry is proved correct for every table.
- The `MouseButton` enumeration declaration is not part of this model. It is modelled as the seven buttons the hooks name.
- `KeyboardHookFactory`, `MouseHookFactory`, the interfaces and the example applications are left out. They select and wire the hooks and hold no logic of their own.
- A `null` array passed to `SendKeyCombo` or `SendButtonCombo` is not modelled, because Dafny sequences cannot be null. The macOS keyboard hooks treat it like an empty array.
- The Windows hooks' `Dispose` (a single `UnhookWindowsHookEx`) and `SetWindowsHookEx` are left out. The Windows mouse hook's constructor is modelled only as starting with nothing held.
- The XInput2 event-mask setup of the Linux mouse hook is left out. Only the presence of the extension is modelled, because it decides whether construction fails.
- `CGPoint` and event coordinates are left out. The hooks always use (0, 0).
- MacMouse.MacMouseHook.SendButton: does not model a failed `CGEventCreateMouseEvent`, which the source posts and releases unchecked.
- MacKeyboardLegacy.MacKeyboardHook.Dispose: the `try` block's failure point is a parameter (`failAt`). The model does not say which call throws.
- The `tapAt` and `alloc` functions are total and deterministic, so the model cannot express a system that grants a location's tap on one attempt and refuses it on the next. Each location and each creation is asked only once, so nothing is lost.

## Findings

| source | as written | input that shows it | evidently intended | confidence | as-written member | corrected member |
|---|---|---|---|---|---|---|
| KeyboardHook/Implementation/MouseImplementation/LinuxMouseHook.cs:166-172 | `Dispose` closes a non-zero display but never zeroes `_display` | two calls of `Dispose` on a hook whose display is non-zero: `XCloseDisplay` receives the same, already closed, handle twice | close the display once and zero the handle, as `LinuxKeyboardHook.Dispose` does | not executed | LinuxMouse.DoubleCloseAsWritten | LinuxMouse.DisposeTwice |
