/**
 * The `KeyboardKey` enumeration. It is an `int`-backed enum: a cast such as
 * `(KeyboardKey)vkCode` produces a value whether or not a member carries that
 * number, so a key is an integer and each member is a named constant.
 */
module Keys {
  import Casts

  /** A key value; any integer, named or not. */
  newtype KeyboardKey = int

  const None: KeyboardKey := 0

  // Control keys
  const Backspace: KeyboardKey := 0x08
  const Tab: KeyboardKey := 0x09
  const Enter: KeyboardKey := 0x0D
  const Pause: KeyboardKey := 0x13
  const CapsLock: KeyboardKey := 0x14
  const Escape: KeyboardKey := 0x1B
  const Space: KeyboardKey := 0x20

  const PageUp: KeyboardKey := 0x21
  const PageDown: KeyboardKey := 0x22
  const End: KeyboardKey := 0x23
  const Home: KeyboardKey := 0x24
  const Left: KeyboardKey := 0x25
  const Up: KeyboardKey := 0x26
  const Right: KeyboardKey := 0x27
  const Down: KeyboardKey := 0x28

  const PrintScreen: KeyboardKey := 0x2C
  const Insert: KeyboardKey := 0x2D
  const Delete: KeyboardKey := 0x2E

  // Digits
  const D0: KeyboardKey := 0x30
  const D1: KeyboardKey := 0x31
  const D2: KeyboardKey := 0x32
  const D3: KeyboardKey := 0x33
  const D4: KeyboardKey := 0x34
  const D5: KeyboardKey := 0x35
  const D6: KeyboardKey := 0x36
  const D7: KeyboardKey := 0x37
  const D8: KeyboardKey := 0x38
  const D9: KeyboardKey := 0x39

  // Letters
  const A: KeyboardKey := 0x41
  const B: KeyboardKey := 0x42
  const C: KeyboardKey := 0x43
  const D: KeyboardKey := 0x44
  const E: KeyboardKey := 0x45
  const F: KeyboardKey := 0x46
  const G: KeyboardKey := 0x47
  const H: KeyboardKey := 0x48
  const I: KeyboardKey := 0x49
  const J: KeyboardKey := 0x4A
  const K: KeyboardKey := 0x4B
  const L: KeyboardKey := 0x4C
  const M: KeyboardKey := 0x4D
  const N: KeyboardKey := 0x4E
  const O: KeyboardKey := 0x4F
  const P: KeyboardKey := 0x50
  const Q: KeyboardKey := 0x51
  const R: KeyboardKey := 0x52
  const S: KeyboardKey := 0x53
  const T: KeyboardKey := 0x54
  const U: KeyboardKey := 0x55
  const V: KeyboardKey := 0x56
  const W: KeyboardKey := 0x57
  const X: KeyboardKey := 0x58
  const Y: KeyboardKey := 0x59
  const Z: KeyboardKey := 0x5A

  // Windows keys
  const LWin: KeyboardKey := 0x5B
  const RWin: KeyboardKey := 0x5C
  const Apps: KeyboardKey := 0x5D

  // Numeric keypad
  const NumPad0: KeyboardKey := 0x60
  const NumPad1: KeyboardKey := 0x61
  const NumPad2: KeyboardKey := 0x62
  const NumPad3: KeyboardKey := 0x63
  const NumPad4: KeyboardKey := 0x64
  const NumPad5: KeyboardKey := 0x65
  const NumPad6: KeyboardKey := 0x66
  const NumPad7: KeyboardKey := 0x67
  const NumPad8: KeyboardKey := 0x68
  const NumPad9: KeyboardKey := 0x69

  const Multiply: KeyboardKey := 0x6A
  const Add: KeyboardKey := 0x6B
  const Separator: KeyboardKey := 0x6C
  const Subtract: KeyboardKey := 0x6D
  const Decimal: KeyboardKey := 0x6E
  const Divide: KeyboardKey := 0x6F

  // Function keys
  const F1: KeyboardKey := 0x70
  const F2: KeyboardKey := 0x71
  const F3: KeyboardKey := 0x72
  const F4: KeyboardKey := 0x73
  const F5: KeyboardKey := 0x74
  const F6: KeyboardKey := 0x75
  const F7: KeyboardKey := 0x76
  const F8: KeyboardKey := 0x77
  const F9: KeyboardKey := 0x78
  const F10: KeyboardKey := 0x79
  const F11: KeyboardKey := 0x7A
  const F12: KeyboardKey := 0x7B
  const F13: KeyboardKey := 0x7C
  const F14: KeyboardKey := 0x7D
  const F15: KeyboardKey := 0x7E
  const F16: KeyboardKey := 0x7F
  const F17: KeyboardKey := 0x80
  const F18: KeyboardKey := 0x81
  const F19: KeyboardKey := 0x82
  const F20: KeyboardKey := 0x83
  const F21: KeyboardKey := 0x84
  const F22: KeyboardKey := 0x85
  const F23: KeyboardKey := 0x86
  const F24: KeyboardKey := 0x87

  // Locks
  const NumLock: KeyboardKey := 0x90
  const ScrollLock: KeyboardKey := 0x91

  // Shift/Ctrl/Alt – left/right
  const LShift: KeyboardKey := 0xA0
  const RShift: KeyboardKey := 0xA1
  const LControl: KeyboardKey := 0xA2
  const RControl: KeyboardKey := 0xA3
  const LAlt: KeyboardKey := 0xA4
  const RAlt: KeyboardKey := 0xA5

  // Browser keys
  const BrowserBack: KeyboardKey := 0xA6
  const BrowserForward: KeyboardKey := 0xA7
  const BrowserRefresh: KeyboardKey := 0xA8
  const BrowserStop: KeyboardKey := 0xA9
  const BrowserSearch: KeyboardKey := 0xAA
  const BrowserFavorites: KeyboardKey := 0xAB
  const BrowserHome: KeyboardKey := 0xAC

  // Volume / media
  const VolumeMute: KeyboardKey := 0xAD
  const VolumeDown: KeyboardKey := 0xAE
  const VolumeUp: KeyboardKey := 0xAF

  const MediaNextTrack: KeyboardKey := 0xB0
  const MediaPreviousTrack: KeyboardKey := 0xB1
  const MediaStop: KeyboardKey := 0xB2
  const MediaPlayPause: KeyboardKey := 0xB3

  // Launch keys
  const LaunchMail: KeyboardKey := 0xB4
  const LaunchMediaSelect: KeyboardKey := 0xB5
  const LaunchApp1: KeyboardKey := 0xB6
  const LaunchApp2: KeyboardKey := 0xB7

  // OEM keys (language/keyboard dependent)
  const OEM1: KeyboardKey := 0xBA
  const OEMPlus: KeyboardKey := 0xBB
  const OEMComma: KeyboardKey := 0xBC
  const OEMMinus: KeyboardKey := 0xBD
  const OEMPeriod: KeyboardKey := 0xBE
  const OEM2: KeyboardKey := 0xBF
  const OEM3: KeyboardKey := 0xC0

  const OEM4: KeyboardKey := 0xDB
  const OEM5: KeyboardKey := 0xDC
  const OEM6: KeyboardKey := 0xDD
  const OEM7: KeyboardKey := 0xDE
  const OEM8: KeyboardKey := 0xDF

  // Additional OEM / special
  const OEM102: KeyboardKey := 0xE2

  // System keys
  const ProcessKey: KeyboardKey := 0xE5
  const Packet: KeyboardKey := 0xE7

  // Power management
  const Sleep: KeyboardKey := 0x5F
  const Wake: KeyboardKey := 0xE3

  /** The members in declaration order, the order in which reflection lists the enum's fields. */
  const Declared: seq<KeyboardKey> := [
    None, Backspace, Tab, Enter, Pause, CapsLock, Escape, Space, PageUp, PageDown, End,
    Home, Left, Up, Right, Down, PrintScreen, Insert, Delete, D0, D1, D2, D3, D4, D5, D6,
    D7, D8, D9, A, B, C, D, E, F, G, H, I, J, K, L, M, N, O, P, Q, R, S, T, U, V, W, X,
    Y, Z, LWin, RWin, Apps, NumPad0, NumPad1, NumPad2, NumPad3, NumPad4, NumPad5, NumPad6,
    NumPad7, NumPad8, NumPad9, Multiply, Add, Separator, Subtract, Decimal, Divide, F1,
    F2, F3, F4, F5, F6, F7, F8, F9, F10, F11, F12, F13, F14, F15, F16, F17, F18, F19, F20,
    F21, F22, F23, F24, NumLock, ScrollLock, LShift, RShift, LControl, RControl, LAlt,
    RAlt, BrowserBack, BrowserForward, BrowserRefresh, BrowserStop, BrowserSearch, BrowserFavorites,
    BrowserHome, VolumeMute, VolumeDown, VolumeUp, MediaNextTrack, MediaPreviousTrack,
    MediaStop, MediaPlayPause, LaunchMail, LaunchMediaSelect, LaunchApp1, LaunchApp2, OEM1,
    OEMPlus, OEMComma, OEMMinus, OEMPeriod, OEM2, OEM3, OEM4, OEM5, OEM6, OEM7, OEM8, OEM102,
    ProcessKey, Packet, Sleep, Wake
  ]

  /** Whether `k` is the number of a declared member (what `Enum.IsDefined` answers). */
  predicate IsNamed(k: KeyboardKey)
  {
    k in {
      None, Backspace, Tab, Enter, Pause, CapsLock, Escape, Space, PageUp, PageDown, End,
      Home, Left, Up, Right, Down, PrintScreen, Insert, Delete, D0, D1, D2, D3, D4, D5, D6,
      D7, D8, D9, A, B, C, D, E, F, G, H, I, J, K, L, M, N, O, P, Q, R, S, T, U, V, W, X,
      Y, Z, LWin, RWin, Apps, NumPad0, NumPad1, NumPad2, NumPad3, NumPad4, NumPad5, NumPad6,
      NumPad7, NumPad8, NumPad9, Multiply, Add, Separator, Subtract, Decimal, Divide, F1,
      F2, F3, F4, F5, F6, F7, F8, F9, F10, F11, F12, F13, F14, F15, F16, F17, F18, F19, F20,
      F21, F22, F23, F24, NumLock, ScrollLock, LShift, RShift, LControl, RControl, LAlt,
      RAlt, BrowserBack, BrowserForward, BrowserRefresh, BrowserStop, BrowserSearch, BrowserFavorites,
      BrowserHome, VolumeMute, VolumeDown, VolumeUp, MediaNextTrack, MediaPreviousTrack,
      MediaStop, MediaPlayPause, LaunchMail, LaunchMediaSelect, LaunchApp1, LaunchApp2, OEM1,
      OEMPlus, OEMComma, OEMMinus, OEMPeriod, OEM2, OEM3, OEM4, OEM5, OEM6, OEM7, OEM8, OEM102,
      ProcessKey, Packet, Sleep, Wake
    }
  }

  /**
   * `None` is the member numbered zero, and every member's number fits a byte,
   * so the `(byte)` cast on Windows and the `(ushort)` casts on macOS leave a
   * named key unchanged.
   */
  lemma NamedFitsByte(k: KeyboardKey)
    requires IsNamed(k)
    ensures IsNamed(None) && None == 0
    ensures 0 <= k < 0x100
    ensures Casts.ToByte(k as int) == k as int && Casts.ToUInt16(k as int) == k as int
  {
  }

  /** `D0`..`D9` are the ten consecutive numbers `0x30`..`0x39`, all of them named. */
  lemma DigitsContiguous()
    ensures D0 == 0x30 && D9 == D0 + 9
    ensures forall k :: D0 <= k <= D9 ==> IsNamed(k)
  {
  }

  /** `A`..`Z` are the 26 consecutive numbers `0x41`..`0x5A`, all of them named. */
  lemma LettersContiguous()
    ensures A == 0x41 && Z == A + 25
    ensures forall k :: A <= k <= Z ==> IsNamed(k)
  {
  }

  /** `F1`..`F24` are the 24 consecutive numbers `0x70`..`0x87`, all of them named. */
  lemma FunctionKeysContiguous()
    ensures F1 == 0x70 && F24 == F1 + 23
    ensures forall k :: F1 <= k <= F24 ==> IsNamed(k)
  {
  }
}
