/**
 * The X11 keyboard hook. A polling thread asks X for the 256-bit keymap (32
 * bytes, one bit per key code) and compares it with the previous sample;
 * injection goes through the XTest extension. The thread, the display
 * connection and the X calls are outside the model: a sample is an input,
 * and the calls a method makes are returned as a trace.
 */
module LinuxKeyboard {
  import opened Wrappers
  import opened Tracking
  import opened Injection
  import Keys
  import Casts
  import Registry

  /** A C# `byte`. */
  newtype byte = x: int | 0 <= x < 0x100

  /**
   * Whether bit `bit` of `b` is set, read as a binary digit (`BitIsMask`
   * shows it is the source's test `(b & (1 << bit)) != 0`).
   */
  predicate Bit(b: byte, bit: nat)
    requires bit < 8
  {
    if bit == 0 then b % 2 == 1
    else if bit == 1 then b / 2 % 2 == 1
    else if bit == 2 then b / 4 % 2 == 1
    else if bit == 3 then b / 8 % 2 == 1
    else if bit == 4 then b / 16 % 2 == 1
    else if bit == 5 then b / 32 % 2 == 1
    else if bit == 6 then b / 64 % 2 == 1
    else b / 128 % 2 == 1
  }

  /** `Bit` is the source's mask test. */
  lemma BitIsMask(b: byte, bit: nat)
    requires bit < 8
    ensures Bit(b, bit) <==> (b as bv8) & (1 << bit) != 0
  {
  }

  /** A keymap sample, as `XQueryKeymap` fills it. */
  predicate IsKeymap(s: seq<byte>)
  {
    |s| == 32
  }

  /** The byte that holds key code `code` (`ByteAndBit` shows it is `code / 8`). */
  function ByteOf(code: nat): (r: nat)
    ensures r * 8 <= code
  {
    if code < 8 then 0 else ByteOf(code - 8) + 1
  }

  /** The bit of its byte that holds key code `code` (`ByteAndBit` shows it is `code % 8`). */
  function BitOf(code: nat): (r: nat)
    ensures r < 8
  {
    if code < 8 then code else BitOf(code - 8)
  }

  /** `ByteOf` and `BitOf` are the quotient and remainder the source computes with `i * 8 + bit`. */
  lemma {:induction false} ByteAndBit(code: nat)
    ensures ByteOf(code) == code / 8 && BitOf(code) == code % 8
  {
    if code >= 8 {
      ByteAndBit(code - 8);
    }
  }

  /** Whether key code `code` is down in the sample: bit `code % 8` of byte `code / 8`. */
  predicate KeyPressed(s: seq<byte>, code: nat)
    requires IsKeymap(s) && code < 256
  {
    Bit(s[ByteOf(code)], BitOf(code))
  }

  /** The edge code `code` reports between two samples: a down when its bit was set, an up when it was cleared. */
  function CodeTransition(prev: seq<byte>, cur: seq<byte>, code: nat): (r: seq<Transition<nat>>)
    requires IsKeymap(prev) && IsKeymap(cur) && code < 256
    ensures |r| <= 1
  {
    var was := KeyPressed(prev, code);
    var now := KeyPressed(cur, code);
    if now && !was then [Down(code)]
    else if !now && was then [Up(code)]
    else []
  }

  /** The edges for key codes `0 .. n-1`, in ascending code order. */
  function Transitions(prev: seq<byte>, cur: seq<byte>, n: nat): seq<Transition<nat>>
    requires IsKeymap(prev) && IsKeymap(cur) && n <= 256
  {
    if n == 0 then [] else Transitions(prev, cur, n - 1) + CodeTransition(prev, cur, n - 1)
  }

  /** The edges of a whole sample. */
  function KeymapDiff(prev: seq<byte>, cur: seq<byte>): seq<Transition<nat>>
    requires IsKeymap(prev) && IsKeymap(cur)
  {
    Transitions(prev, cur, 256)
  }

  /** An edge about a key code, reported as the key the registry names for it. */
  function Relabel(t: Registry.Table, os: Registry.Platform, e: Transition<nat>): Transition<Keys.KeyboardKey>
  {
    match e
    case Down(c) => Down(Registry.FromPlatformCode(t, os, c))
    case Up(c) => Up(Registry.FromPlatformCode(t, os, c))
  }

  /** The events raised for a run of edges: each one relabelled, in order. */
  function Report(t: Registry.Table, os: Registry.Platform, es: seq<Transition<nat>>): seq<Transition<Keys.KeyboardKey>>
    decreases |es|
  {
    if es == [] then [] else Report(t, os, es[..|es| - 1]) + [Relabel(t, os, es[|es| - 1])]
  }

  /** The set of key codes a sample holds down. */
  function PressedSet(s: seq<byte>): set<nat>
    requires IsKeymap(s)
  {
    set code: nat | code < 256 && KeyPressed(s, code)
  }

  /** The key codes down in the sample among `0 .. n-1`, ascending, each cast to a key. */
  function PressedKeys(s: seq<byte>, n: nat): seq<Keys.KeyboardKey>
    requires IsKeymap(s) && n <= 256
  {
    if n == 0 then []
    else PressedKeys(s, n - 1) + (if KeyPressed(s, n - 1) then [(n - 1) as Keys.KeyboardKey] else [])
  }

  /** Key code `i * 8 + bit` is bit `bit` of byte `i`. */
  lemma {:induction false} CodeSplit(i: nat, bit: nat)
    requires bit < 8
    ensures ByteOf(i * 8 + bit) == i && BitOf(i * 8 + bit) == bit
  {
    if i > 0 {
      CodeSplit(i - 1, bit);
      assert (i - 1) * 8 + bit == i * 8 + bit - 8;
    }
  }

  /** Whether the code's bit is set, read off its byte and bit position. */
  lemma KeyPressedAt(s: seq<byte>, code: nat, i: nat)
    requires IsKeymap(s) && i < 32 && i * 8 <= code < i * 8 + 8
    ensures KeyPressed(s, code) == Bit(s[i], code - i * 8)
  {
    CodeSplit(i, code - i * 8);
    assert i * 8 + (code - i * 8) == code;
  }

  /** A byte that did not change between samples raises nothing for its eight codes. */
  lemma UnchangedByteIsQuiet(t: Registry.Table, os: Registry.Platform, prev: seq<byte>, cur: seq<byte>, i: nat)
    requires IsKeymap(prev) && IsKeymap(cur) && i < 32 && prev[i] == cur[i]
    ensures Events(t, os, prev, cur, (i + 1) * 8) == Events(t, os, prev, cur, i * 8)
  {
    UnchangedBitsAreQuiet(t, os, prev, cur, i, (i + 1) * 8);
  }

  /** The codes of an unchanged byte below `n` raise nothing. */
  lemma {:induction false} UnchangedBitsAreQuiet(t: Registry.Table, os: Registry.Platform, prev: seq<byte>, cur: seq<byte>, i: nat, n: nat)
    requires IsKeymap(prev) && IsKeymap(cur) && i < 32 && i * 8 <= n <= i * 8 + 8 && prev[i] == cur[i]
    ensures Events(t, os, prev, cur, n) == Events(t, os, prev, cur, i * 8)
    decreases n
  {
    if n > i * 8 {
      UnchangedBitsAreQuiet(t, os, prev, cur, i, n - 1);
      KeyPressedAt(prev, n - 1, i);
      KeyPressedAt(cur, n - 1, i);
      var d := Events(t, os, prev, cur, n - 1);
      assert Events(t, os, prev, cur, n) == d + [];
      assert d + [] == d;
    }
  }

  /** Reporting a run extended by at most one edge appends that edge's event. */
  lemma ReportExtend(t: Registry.Table, os: Registry.Platform, a: seq<Transition<nat>>, b: seq<Transition<nat>>)
    requires |b| <= 1
    ensures Report(t, os, a + b) == Report(t, os, a) + Report(t, os, b)
  {
    if b == [] {
      assert a + b == a;
    } else {
      assert (a + b)[..|a + b| - 1] == a;
      assert Report(t, os, b) == [] + [Relabel(t, os, b[0])];
    }
  }

  /** The event one key raises, given whether it was and is down: the branches of the scan. */
  function KeyEdge(wasPressed: bool, isPressed: bool, key: Keys.KeyboardKey): seq<Transition<Keys.KeyboardKey>>
  {
    if isPressed && !wasPressed then [Down(key)]
    else if !isPressed && wasPressed then [Up(key)]
    else []
  }

  /**
   * The events the scan raises for the codes below `n`, one `KeyEdge` per
   * code in ascending order: what the source's loop body computes.
   */
  function Events(t: Registry.Table, os: Registry.Platform, prev: seq<byte>, cur: seq<byte>, n: nat): seq<Transition<Keys.KeyboardKey>>
    requires IsKeymap(prev) && IsKeymap(cur) && n <= 256
  {
    if n == 0 then []
    else Events(t, os, prev, cur, n - 1)
         + KeyEdge(KeyPressed(prev, n - 1), KeyPressed(cur, n - 1), Registry.FromPlatformCode(t, os, n - 1))
  }

  /** The scan's events are the diff, each edge reported as the key the registry names. */
  lemma {:induction false} EventsReportDiff(t: Registry.Table, os: Registry.Platform, prev: seq<byte>, cur: seq<byte>, n: nat)
    requires IsKeymap(prev) && IsKeymap(cur) && n <= 256
    ensures Events(t, os, prev, cur, n) == Report(t, os, Transitions(prev, cur, n))
  {
    if n > 0 {
      EventsReportDiff(t, os, prev, cur, n - 1);
      var d := Transitions(prev, cur, n - 1);
      var e := CodeTransition(prev, cur, n - 1);
      assert Transitions(prev, cur, n) == d + e;
      ReportExtend(t, os, d, e);
    }
  }

  /** One step of the scan: code `i * 8 + bit` adds its own event, if any. */
  lemma DiffStep(t: Registry.Table, os: Registry.Platform, prev: seq<byte>, cur: seq<byte>, i: nat, bit: nat, before: byte, now: byte)
    requires IsKeymap(prev) && IsKeymap(cur) && i < 32 && bit < 8 && before == prev[i] && now == cur[i]
    ensures Events(t, os, prev, cur, i * 8 + (bit + 1))
         == Events(t, os, prev, cur, i * 8 + bit)
            + KeyEdge(Bit(before, bit), Bit(now, bit), Registry.FromPlatformCode(t, os, i * 8 + bit))
  {
    var code := i * 8 + bit;
    assert i * 8 + (bit + 1) == code + 1;
    KeyPressedAt(prev, code, i);
    KeyPressedAt(cur, code, i);
  }

  /** One step of `GetPressedKeys`: code `i * 8 + bit` is listed when its bit is set. */
  lemma PressedStep(s: seq<byte>, i: nat, bit: nat)
    requires IsKeymap(s) && i < 32 && bit < 8
    ensures PressedKeys(s, i * 8 + (bit + 1))
         == PressedKeys(s, i * 8 + bit) + (if Bit(s[i], bit) then [(i * 8 + bit) as Keys.KeyboardKey] else [])
  {
    var code := i * 8 + bit;
    assert i * 8 + (bit + 1) == code + 1;
    KeyPressedAt(s, code, i);
    assert PressedKeys(s, code + 1) == PressedKeys(s, code) + (if KeyPressed(s, code) then [code as Keys.KeyboardKey] else []);
  }

  /** Every edge in the diff of codes below `n` is about a code below `n`. */
  lemma {:induction false} TransitionsBelow(prev: seq<byte>, cur: seq<byte>, n: nat)
    requires IsKeymap(prev) && IsKeymap(cur) && n <= 256
    ensures forall e :: e in Transitions(prev, cur, n) ==> e.item < n
  {
    if n > 0 {
      TransitionsBelow(prev, cur, n - 1);
    }
  }

  /**
   * A key down is raised for a code exactly when its bit is set in the new
   * sample and clear in the previous one.
   */
  lemma {:induction false} DownIff(prev: seq<byte>, cur: seq<byte>, n: nat, code: nat)
    requires IsKeymap(prev) && IsKeymap(cur) && n <= 256
    ensures Down(code) in Transitions(prev, cur, n) <==>
              code < n && KeyPressed(cur, code) && !KeyPressed(prev, code)
  {
    if n > 0 {
      DownIff(prev, cur, n - 1, code);
      TransitionsBelow(prev, cur, n - 1);
    }
  }

  /**
   * A key up is raised for a code exactly when its bit is clear in the new
   * sample and set in the previous one.
   */
  lemma {:induction false} UpIff(prev: seq<byte>, cur: seq<byte>, n: nat, code: nat)
    requires IsKeymap(prev) && IsKeymap(cur) && n <= 256
    ensures Up(code) in Transitions(prev, cur, n) <==>
              code < n && !KeyPressed(cur, code) && KeyPressed(prev, code)
  {
    if n > 0 {
      UpIff(prev, cur, n - 1, code);
      TransitionsBelow(prev, cur, n - 1);
    }
  }

  /** The edges come in strictly ascending code order, so each code raises at most one. */
  lemma {:induction false} TransitionsAscending(prev: seq<byte>, cur: seq<byte>, n: nat)
    requires IsKeymap(prev) && IsKeymap(cur) && n <= 256
    ensures forall i, j :: 0 <= i < j < |Transitions(prev, cur, n)| ==>
              Transitions(prev, cur, n)[i].item < Transitions(prev, cur, n)[j].item
  {
    if n > 0 {
      TransitionsAscending(prev, cur, n - 1);
      TransitionsBelow(prev, cur, n - 1);
      var d := Transitions(prev, cur, n - 1);
      forall i, j | 0 <= i < j < |Transitions(prev, cur, n)|
        ensures Transitions(prev, cur, n)[i].item < Transitions(prev, cur, n)[j].item
      {
        if j >= |d| {
          assert Transitions(prev, cur, n)[i] in d;
        }
      }
    }
  }

  /** Comparing a sample with itself raises nothing. */
  lemma {:induction false} SameSampleIsQuiet(s: seq<byte>, n: nat)
    requires IsKeymap(s) && n <= 256
    ensures Transitions(s, s, n) == []
  {
    if n > 0 {
      SameSampleIsQuiet(s, n - 1);
    }
  }

  /**
   * The last edge the diff of codes below `n` raises for `code`: a down when
   * the code's bit was set, an up when it was cleared, none when it stayed.
   */
  lemma {:induction false} LastEdgeOfDiff(prev: seq<byte>, cur: seq<byte>, n: nat, code: nat)
    requires IsKeymap(prev) && IsKeymap(cur) && n <= 256
    ensures LastEdge(Transitions(prev, cur, n), code)
         == (if code < n && KeyPressed(cur, code) != KeyPressed(prev, code) then Some(KeyPressed(cur, code)) else None)
  {
    if n > 0 {
      LastEdgeOfDiff(prev, cur, n - 1, code);
      var d := Transitions(prev, cur, n - 1);
      var e := CodeTransition(prev, cur, n - 1);
      assert Transitions(prev, cur, n) == d + e;
      if e == [] {
        assert d + e == d;
      } else {
        assert e == [e[0]];
        LastEdgeSnoc(d, e[0], code);
      }
    }
  }

  /**
   * The diff is exact: replaying its edges on the keys down in the previous
   * sample gives the keys down in the new one.
   */
  lemma DiffReplaysToSample(prev: seq<byte>, cur: seq<byte>)
    requires IsKeymap(prev) && IsKeymap(cur)
    ensures Replay(PressedSet(prev), KeymapDiff(prev, cur)) == PressedSet(cur)
  {
    var d := KeymapDiff(prev, cur);
    forall code: nat
      ensures code in Replay(PressedSet(prev), d) <==> code in PressedSet(cur)
    {
      ReplayMembership(PressedSet(prev), d, code);
      LastEdgeOfDiff(prev, cur, 256, code);
    }
  }

  /** The keys reported by `GetPressedKeys` are exactly the codes down in the sample. */
  lemma {:induction false} PressedKeysMembership(s: seq<byte>, n: nat, k: Keys.KeyboardKey)
    requires IsKeymap(s) && n <= 256
    ensures k in PressedKeys(s, n) <==> 0 <= k < n as Keys.KeyboardKey && KeyPressed(s, k as nat)
  {
    if n > 0 {
      PressedKeysMembership(s, n - 1, k);
    }
  }

  /** `GetPressedKeys` lists the codes in strictly ascending order. */
  lemma {:induction false} PressedKeysAscending(s: seq<byte>, n: nat)
    requires IsKeymap(s) && n <= 256
    ensures forall i, j :: 0 <= i < j < |PressedKeys(s, n)| ==> PressedKeys(s, n)[i] < PressedKeys(s, n)[j]
  {
    if n > 0 {
      PressedKeysAscending(s, n - 1);
      var p := PressedKeys(s, n - 1);
      forall i, j | 0 <= i < j < |PressedKeys(s, n)|
        ensures PressedKeys(s, n)[i] < PressedKeys(s, n)[j]
      {
        if j >= |p| {
          PressedKeysMembership(s, n - 1, p[i]);
        }
      }
    }
  }

  /** A call the hook makes into X. */
  datatype XCall = FakeKeyEvent(keycode: int, press: bool) | Flush

  /** The XTest call for one edge about a (32-bit unsigned) key code. */
  function KeyCall(e: Transition<int>): seq<XCall>
  {
    match e
    case Down(c) => [FakeKeyEvent(c, true)]
    case Up(c) => [FakeKeyEvent(c, false)]
  }

  /** The calls of a single stroke: the key's press, then its release. */
  lemma KeyStroke(code: int)
    ensures Emit(KeyCall, Combo([code])) == [FakeKeyEvent(code, true), FakeKeyEvent(code, false)]
  {
    assert Combo([code]) == [Down(code), Up(code)];
    EmitSnoc(KeyCall, [Down(code)], Up(code));
    assert [Down(code)] == [] + [Down(code)];
    EmitSnoc(KeyCall, [], Down(code));
  }

  /** The code XTest receives for a key: its platform code cast to `uint`. */
  function XCode(t: Registry.Table, os: Registry.Platform, k: Keys.KeyboardKey): int
  {
    Casts.ToUInt32(Registry.ToPlatformCode(t, os, k))
  }

  /** The codes of the keys of a combo, in argument order. */
  function XCodes(t: Registry.Table, os: Registry.Platform, keys: seq<Keys.KeyboardKey>): (r: seq<int>)
    ensures |r| == |keys|
    ensures forall i :: 0 <= i < |keys| ==> r[i] == XCode(t, os, keys[i])
  {
    seq(|keys|, i requires 0 <= i < |keys| => XCode(t, os, keys[i]))
  }

  /**
   * The calls of a combo of codes: the presses in argument order, then the
   * releases in reverse order, one call per edge.
   */
  lemma KeyCallsOrder(codes: seq<int>)
    ensures |Emit(KeyCall, Combo(codes))| == 2 * |codes|
    ensures forall i :: 0 <= i < |codes| ==> Emit(KeyCall, Combo(codes))[i] == FakeKeyEvent(codes[i], true)
    ensures forall i :: |codes| <= i < 2 * |codes| ==>
              Emit(KeyCall, Combo(codes))[i] == FakeKeyEvent(codes[2 * |codes| - 1 - i], false)
  {
    ComboOneEach(KeyCall, codes);
  }

  class LinuxKeyboardHook {
    /** The X display connection; 0 once closed. */
    var display: int
    /** Whether the polling thread should keep running. */
    var running: bool
    /** The last keymap sample, `_previousKeys`. */
    const previousKeys: array<byte>
    /** The code registry and the system it runs on. */
    const table: Registry.Table
    const os: Registry.Platform

    ghost predicate Valid()
      reads this
    {
      previousKeys.Length == 32
    }

    /** The constructor, once `XOpenDisplay` has returned a connection. */
    constructor (display: int, table: Registry.Table, os: Registry.Platform)
      requires display != 0
      ensures Valid() && fresh(previousKeys)
      ensures this.display == display && running
      ensures this.table == table && this.os == os
      ensures forall i :: 0 <= i < 32 ==> previousKeys[i] == 0
    {
      this.display := display;
      running := true;
      previousKeys := new byte[32](_ => 0);
      this.table := table;
      this.os := os;
    }

    /** Construction: a display of 0 (no X server) is an error and nothing is started. */
    static method Open(display: int, table: Registry.Table, os: Registry.Platform)
      returns (r: Result<LinuxKeyboardHook>)
      ensures display == 0 <==> r == Failure(DisplayUnavailable)
      ensures r.Success? ==> fresh(r.value) && r.value.Valid() && r.value.running && r.value.display == display
    {
      if display == 0 {
        return Failure(DisplayUnavailable);
      }
      var hook := new LinuxKeyboardHook(display, table, os);
      return Success(hook);
    }

    /**
     * `ProcessKeymapChanges`: the events raised for a new sample are the
     * diff against the stored one, relabelled by the registry, and the new
     * sample replaces the stored one.
     */
    method ProcessKeymapChanges(current: array<byte>) returns (fired: seq<Transition<Keys.KeyboardKey>>)
      requires Valid() && current.Length == 32
      modifies previousKeys
      ensures Valid()
      ensures fired == Report(table, os, KeymapDiff(old(previousKeys[..]), old(current[..])))
      ensures previousKeys[..] == old(current[..])
    {
      ghost var prev := previousKeys[..];
      ghost var cur := current[..];
      fired := [];
      var i := 0;
      while i < 32
        invariant 0 <= i <= 32
        invariant previousKeys[..] == prev && current[..] == cur
        invariant fired == Events(table, os, prev, cur, i * 8)
      {
        var now := current[i];
        var before := previousKeys[i];
        assert before == prev[i] && now == cur[i];
        if now != before {
          var bit := 0;
          while bit < 8
            modifies {}
            invariant 0 <= bit <= 8
            invariant fired == Events(table, os, prev, cur, i * 8 + bit)
          {
            var wasPressed := Bit(before, bit);
            var isPressed := Bit(now, bit);
            var keyCode := i * 8 + bit;
            var key := Registry.FromPlatformCode(table, os, keyCode);
            DiffStep(table, os, prev, cur, i, bit, before, now);
            ghost var scanned := fired;
            if isPressed && !wasPressed {
              fired := fired + [Down(key)];
            } else if !isPressed && wasPressed {
              fired := fired + [Up(key)];
            }
            assert fired == scanned + KeyEdge(wasPressed, isPressed, key);
            bit := bit + 1;
          }
          assert i * 8 + 8 == (i + 1) * 8;
        } else {
          UnchangedByteIsQuiet(table, os, prev, cur, i);
        }
        i := i + 1;
      }
      EventsReportDiff(table, os, prev, cur, 256);
      var j := 0;
      while j < 32
        invariant 0 <= j <= 32
        invariant previousKeys[..j] == cur[..j]
        invariant current[..] == cur
      {
        previousKeys[j] := current[j];
        j := j + 1;
      }
      assert previousKeys[..] == previousKeys[..32];
    }

    /** `GetPressedKeys`: the codes down in the stored sample, ascending, as raw casts. */
    method GetPressedKeys() returns (r: seq<Keys.KeyboardKey>)
      requires Valid()
      ensures r == PressedKeys(previousKeys[..], 256)
    {
      r := [];
      var i := 0;
      while i < previousKeys.Length
        invariant 0 <= i <= 32
        invariant r == PressedKeys(previousKeys[..], i * 8)
      {
        var b := previousKeys[i];
        var bit := 0;
        while bit < 8
          invariant 0 <= bit <= 8
          invariant r == PressedKeys(previousKeys[..], i * 8 + bit)
        {
          PressedStep(previousKeys[..], i, bit);
          if Bit(b, bit) {
            r := r + [(i * 8 + bit) as Keys.KeyboardKey];
          }
          bit := bit + 1;
        }
        assert i * 8 + 8 == (i + 1) * 8;
        i := i + 1;
      }
    }

    /** `SendKey`: a press and a release of the key's platform code, then a flush. */
    method SendKey(key: Keys.KeyboardKey) returns (calls: seq<XCall>)
      ensures calls == Emit(KeyCall, Combo([XCode(table, os, key)])) + [Flush]
      ensures calls == [FakeKeyEvent(XCode(table, os, key), true), FakeKeyEvent(XCode(table, os, key), false), Flush]
    {
      var code := XCode(table, os, key);
      calls := [FakeKeyEvent(code, true)];
      calls := calls + [FakeKeyEvent(code, false)];
      calls := calls + [Flush];
      KeyStroke(code);
    }

    /** `SendKeyCombo`: the presses in argument order, the releases in reverse order, then one flush. */
    method SendKeyCombo(keyCodes: seq<Keys.KeyboardKey>) returns (calls: seq<XCall>)
      ensures calls == Emit(KeyCall, Combo(XCodes(table, os, keyCodes))) + [Flush]
    {
      ghost var codes := XCodes(table, os, keyCodes);
      calls := [];
      var i := 0;
      while i < |keyCodes|
        invariant 0 <= i <= |codes|
        invariant calls == Emit(KeyCall, Presses(codes[..i]))
      {
        assert calls + [FakeKeyEvent(codes[i], true)] == Emit(KeyCall, Presses(codes[..i + 1])) by {
          PressStep(KeyCall, codes, i);
        }
        calls := calls + [FakeKeyEvent(XCode(table, os, keyCodes[i]), true)];
        i := i + 1;
      }
      assert i == |codes|;
      assert calls == Emit(KeyCall, Presses(codes) + Releases(codes)[..|codes| - 1 - (|codes| - 1)]) by {
        ComboLoopEnds(KeyCall, codes);
      }
      i := |keyCodes| - 1;
      while i >= 0
        invariant -1 <= i < |codes|
        invariant calls == Emit(KeyCall, Presses(codes) + Releases(codes)[..|codes| - 1 - i])
      {
        assert calls + [FakeKeyEvent(codes[i], false)]
            == Emit(KeyCall, Presses(codes) + Releases(codes)[..|codes| - 1 - (i - 1)]) by {
          ReleaseStep(KeyCall, codes, i);
        }
        calls := calls + [FakeKeyEvent(XCode(table, os, keyCodes[i]), false)];
        i := i - 1;
      }
      assert i == -1;
      assert calls == Emit(KeyCall, Combo(codes)) by {
        ComboLoopEnds(KeyCall, codes);
      }
      calls := calls + [Flush];
    }

    /**
     * `Dispose`: stops the polling loop and closes the display once, zeroing
     * the handle so that a later call closes nothing.
     */
    method Dispose() returns (closed: Option<int>)
      modifies this
      ensures !running && display == 0
      ensures closed == (if old(display) != 0 then Some(old(display)) else None)
    {
      running := false;
      closed := None;
      if display != 0 {
        closed := Some(display);
        display := 0;
      }
    }
  }

  /** Disposing twice closes the display only the first time. */
  method DisposeTwice(hook: LinuxKeyboardHook) returns (first: Option<int>, second: Option<int>)
    modifies hook
    ensures first == (if old(hook.display) != 0 then Some(old(hook.display)) else None)
    ensures second == None
  {
    first := hook.Dispose();
    second := hook.Dispose();
  }
}
