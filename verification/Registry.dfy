/**
 * The code registry: `KeyboardKeyExtensions` translates between enum members
 * and native key codes by reading the `WindowsCode`, `LinuxCode` and
 * `MacosCode` attributes of the enum's fields through reflection. The
 * registry is modelled over a table holding each field's value and the code
 * each attribute carries, in declaration order.
 */
module Registry {
  import opened Wrappers
  import Keys

  /** The operating system `RuntimeInformation.IsOSPlatform` reports. */
  datatype Platform = Windows | Linux | OSX | Other

  /** One field of the enumeration: its value and the codes its attributes carry, if any. */
  datatype Field = Field(key: Keys.KeyboardKey, windows: Option<int>, linux: Option<int>, macos: Option<int>)

  /** The enum's fields in declaration order, as `GetFields` lists them. */
  type Table = seq<Field>

  /** The code the field's attribute for `os` carries; no attribute is read on any other system. */
  function Attribute(f: Field, os: Platform): (r: Option<int>)
    ensures os == Other ==> r == None
  {
    match os
    case Windows => f.windows
    case Linux => f.linux
    case OSX => f.macos
    case Other => None
  }

  /** Whether the field's attribute for `os` carries exactly `code` (`attr?.Code == platformCode`). */
  predicate Carries(f: Field, os: Platform, code: int)
  {
    Attribute(f, os) == Some(code)
  }

  /**
   * `FromPlatformCode`: the value of the first field, in declaration order,
   * whose attribute carries `code`, and `KeyboardKey.None` when there is none.
   */
  function FromPlatformCode(t: Table, os: Platform, code: int): Keys.KeyboardKey
    decreases |t|
  {
    if t == [] then Keys.None
    else if Carries(t[0], os, code) then t[0].key
    else FromPlatformCode(t[1..], os, code)
  }

  /** The field `GetField(key.ToString())` finds: the first one holding the value, if any. */
  function FieldOf(t: Table, k: Keys.KeyboardKey): (r: Option<Field>)
    ensures r.Some? ==> r.value in t && r.value.key == k
    ensures r.None? ==> forall f :: f in t ==> f.key != k
    decreases |t|
  {
    if t == [] then None
    else if t[0].key == k then Some(t[0])
    else FieldOf(t[1..], k)
  }

  /** `GetWindowsCode`, `GetLinuxCode` and `GetMacOsCode`: the attribute's code, or 0 (`attr?.Code ?? 0`). */
  function GetCode(t: Table, os: Platform, k: Keys.KeyboardKey): int
  {
    match FieldOf(t, k)
    case None => 0
    case Some(f) =>
      match Attribute(f, os)
      case None => 0
      case Some(c) => c
  }

  /** `ToPlatformCode`: the code for the running system, and 0 on a system it does not know. */
  function ToPlatformCode(t: Table, os: Platform, k: Keys.KeyboardKey): int
  {
    if os == Other then 0 else GetCode(t, os, k)
  }

  /**
   * The first field carrying `code` decides the result: when field `i`
   * carries it and no earlier field does, the answer is field `i`'s value.
   */
  lemma {:induction false} FromPlatformCodeFirstMatch(t: Table, os: Platform, code: int, i: int)
    requires 0 <= i < |t| && Carries(t[i], os, code)
    requires forall j :: 0 <= j < i ==> !Carries(t[j], os, code)
    ensures FromPlatformCode(t, os, code) == t[i].key
    decreases i
  {
    if i > 0 {
      FromPlatformCodeFirstMatch(t[1..], os, code, i - 1);
    }
  }

  /**
   * The search never fails: with no field carrying `code` it answers
   * `KeyboardKey.None`, and otherwise it answers the value of a field that
   * carries it.
   */
  lemma {:induction false} FromPlatformCodeFallback(t: Table, os: Platform, code: int)
    ensures (forall f :: f in t ==> !Carries(f, os, code)) ==> FromPlatformCode(t, os, code) == Keys.None
    ensures (exists f :: f in t && Carries(f, os, code)) ==>
              exists f :: f in t && Carries(f, os, code) && FromPlatformCode(t, os, code) == f.key
    decreases |t|
  {
    if t != [] {
      FromPlatformCodeFallback(t[1..], os, code);
      if !Carries(t[0], os, code) {
        assert forall f :: f in t[1..] ==> f in t;
        assert forall f :: f in t && f != t[0] ==> f in t[1..];
      }
    }
  }

  /** A field without an attribute for `os` is never the answer's source, whatever the code, 0 included. */
  lemma UnattributedNeverMatches(f: Field, os: Platform, code: int)
    requires Attribute(f, os).None?
    ensures !Carries(f, os, code)
  {
  }

  /** Whether no two fields hold the same value. */
  predicate DistinctKeys(t: Table)
  {
    forall i, j :: 0 <= i < j < |t| ==> t[i].key != t[j].key
  }

  /**
   * When two fields carry the same code, the later one is never returned:
   * the search stops at an earlier field first.
   */
  lemma LaterDuplicateShadowed(t: Table, os: Platform, code: int, i: int, j: int)
    requires DistinctKeys(t)
    requires 0 <= i < j < |t| && Carries(t[i], os, code) && Carries(t[j], os, code)
    ensures FromPlatformCode(t, os, code) != t[j].key
  {
    var m := FirstCarrier(t, os, code, i);
    FromPlatformCodeFirstMatch(t, os, code, m);
  }

  /** The index of the first field carrying `code`, given that field `i` carries it. */
  lemma {:induction false} FirstCarrier(t: Table, os: Platform, code: int, i: int) returns (m: int)
    requires 0 <= i < |t| && Carries(t[i], os, code)
    ensures 0 <= m <= i && Carries(t[m], os, code)
    ensures forall j :: 0 <= j < m ==> !Carries(t[j], os, code)
    decreases i
  {
    if exists j :: 0 <= j < i && Carries(t[j], os, code) {
      var j :| 0 <= j < i && Carries(t[j], os, code);
      m := FirstCarrier(t, os, code, j);
    } else {
      m := i;
    }
  }

  /** The code of a key is the one its own field's attribute carries, and 0 when it has none. */
  lemma {:induction false} GetCodeOfField(t: Table, os: Platform, i: int)
    requires DistinctKeys(t) && 0 <= i < |t|
    ensures GetCode(t, os, t[i].key) == (if Attribute(t[i], os).Some? then Attribute(t[i], os).value else 0)
    decreases i
  {
    if i > 0 {
      assert DistinctKeys(t[1..]);
      GetCodeOfField(t[1..], os, i - 1);
    }
  }

  /** A value no field holds has code 0 on every system. */
  lemma UnnamedKeyHasNoCode(t: Table, os: Platform, k: Keys.KeyboardKey)
    requires forall f :: f in t ==> f.key != k
    ensures ToPlatformCode(t, os, k) == 0
  {
  }

  /** On a system the registry does not know, every key has code 0 and every code names `None`. */
  lemma OtherPlatform(t: Table, k: Keys.KeyboardKey, code: int)
    ensures ToPlatformCode(t, Other, k) == 0
    ensures FromPlatformCode(t, Other, code) == Keys.None
  {
    FromPlatformCodeFallback(t, Other, code);
  }

  /**
   * Round trip: a key whose field carries an attribute, and which is the first
   * field carrying that code, comes back from its own platform code.
   */
  lemma RoundTrip(t: Table, os: Platform, i: int)
    requires DistinctKeys(t) && 0 <= i < |t|
    requires Attribute(t[i], os).Some?
    requires forall j :: 0 <= j < i ==> Attribute(t[j], os) != Attribute(t[i], os)
    ensures FromPlatformCode(t, os, ToPlatformCode(t, os, t[i].key)) == t[i].key
  {
    GetCodeOfField(t, os, i);
    FromPlatformCodeFirstMatch(t, os, Attribute(t[i], os).value, i);
  }

  /** Whether no field carries any attribute. */
  predicate Unattributed(t: Table)
  {
    forall f :: f in t ==> f.windows.None? && f.linux.None? && f.macos.None?
  }

  /**
   * With no attribute anywhere, every lookup falls back: every code names
   * `None` and every key has code 0.
   */
  lemma UnattributedTable(t: Table, os: Platform, code: int, k: Keys.KeyboardKey)
    requires Unattributed(t)
    ensures FromPlatformCode(t, os, code) == Keys.None
    ensures ToPlatformCode(t, os, k) == 0
  {
    FromPlatformCodeFallback(t, os, code);
  }

  /** The enum as declared: every member, in order, with no code attribute. */
  function DeclaredTable(): (t: Table)
    ensures |t| == |Keys.Declared|
    ensures Unattributed(t)
  {
    seq(|Keys.Declared|, i requires 0 <= i < |Keys.Declared| => Field(Keys.Declared[i], None, None, None))
  }

  /**
   * The enum as declared carries no attributes, so on every system every
   * code is reported as `None` and every key is sent as code 0.
   */
  lemma DeclaredEnumIsUnmapped(os: Platform, code: int, k: Keys.KeyboardKey)
    ensures FromPlatformCode(DeclaredTable(), os, code) == Keys.None
    ensures ToPlatformCode(DeclaredTable(), os, k) == 0
  {
    UnattributedTable(DeclaredTable(), os, code, k);
  }
}
