/**
 * Key injection in both macOS keyboard hooks, whose `SendKey` and
 * `SendKeyCombo` bodies are the same: every edge creates a CoreGraphics
 * keyboard event, which may fail (a zero handle); an event that exists is
 * posted at the annotated-session level, and every event that exists is
 * released exactly once in the `finally` block. The handles that successive
 * creations return are a parameter, `alloc(i)` for the `i`-th creation.
 */
module MacInjection {
  import opened Tracking
  import opened Injection
  import Keys
  import Casts

  const kCGAnnotatedSessionEventTap: int := 2

  /** A call the hooks make into CoreGraphics and CoreFoundation. */
  datatype CGCall =
    | CreateKeyboardEvent(virtualKey: int, keyDown: bool, handle: int)
    | Post(tap: int, ev: int)
    | Release(ref: int)
    | CreateTap(location: int, handle: int)
    | CreateRunLoopSource(tap: int, handle: int)
    | TapEnable(port: int, enable: bool)
    | Invalidate(port: int)
    | RunLoopStop(runLoop: int)

  /** The virtual key code a key is sent as, `(ushort)key`. */
  function KeyCode(k: Keys.KeyboardKey): int
  {
    Casts.ToUInt16(k as int)
  }

  /** The handles among the first `n` creations that exist, in creation order. */
  function Live(alloc: nat -> int, n: nat): (r: seq<int>)
    ensures forall k :: 0 <= k < |r| ==> r[k] != 0
    ensures |r| <= n
  {
    if n == 0 then []
    else Live(alloc, n - 1) + (if alloc(n - 1) != 0 then [alloc(n - 1)] else [])
  }

  /** One creation of a combo: the event is created and, when it exists, posted. */
  function CreatePost(e: Transition<Keys.KeyboardKey>, h: int): seq<CGCall>
  {
    [CreateKeyboardEvent(KeyCode(e.item), e.Down?, h)] + (if h != 0 then [Post(kCGAnnotatedSessionEventTap, h)] else [])
  }

  /** The creating and posting of a run of edges, the `i`-th edge getting handle `alloc(i)`. */
  function Posting(ts: seq<Transition<Keys.KeyboardKey>>, alloc: nat -> int): seq<CGCall>
    decreases |ts|
  {
    if ts == [] then [] else Posting(ts[..|ts| - 1], alloc) + CreatePost(ts[|ts| - 1], alloc(|ts| - 1))
  }

  /** The `finally` loop: a release for every handle in the list that is not zero. */
  function ReleaseEach(hs: seq<int>): seq<CGCall>
    decreases |hs|
  {
    if hs == [] then []
    else ReleaseEach(hs[..|hs| - 1]) + (if hs[|hs| - 1] != 0 then [Release(hs[|hs| - 1])] else [])
  }

  /** The calls of `SendKeyCombo` on a non-empty combo. */
  function ComboCalls(keys: seq<Keys.KeyboardKey>, alloc: nat -> int): seq<CGCall>
  {
    Posting(Combo(keys), alloc) + ReleaseEach(Live(alloc, 2 * |keys|))
  }

  /** A call made only when its handle exists. */
  function Maybe(c: CGCall, present: bool): seq<CGCall>
  {
    if present then [c] else []
  }

  /**
   * The calls of `SendKey`: both events created; each that exists posted,
   * the down first; then each that exists released, the down first.
   */
  function StrokeCalls(key: Keys.KeyboardKey, down: int, up: int): seq<CGCall>
  {
    [CreateKeyboardEvent(KeyCode(key), true, down), CreateKeyboardEvent(KeyCode(key), false, up)] +
    ((Maybe(Post(kCGAnnotatedSessionEventTap, down), down != 0) + Maybe(Post(kCGAnnotatedSessionEventTap, up), up != 0)) +
     (Maybe(Release(down), down != 0) + Maybe(Release(up), up != 0)))
  }

  /** The kinds of call the bookkeeping counts. */
  datatype CallKind = Created | Posted | Released

  /** The handle a call creates (when it exists), posts or releases, as a list of zero or one. */
  function HandleOf(c: CGCall, kind: CallKind): seq<int>
  {
    match kind
    case Created => if c.CreateKeyboardEvent? && c.handle != 0 then [c.handle] else []
    case Posted => if c.Post? then [c.ev] else []
    case Released => if c.Release? then [c.ref] else []
  }

  /** The event handles a trace creates, posts or releases, in order. */
  function Handles(calls: seq<CGCall>, kind: CallKind): seq<int>
    decreases |calls|
  {
    if calls == [] then [] else Handles(calls[..|calls| - 1], kind) + HandleOf(calls[|calls| - 1], kind)
  }

  /** The events a trace asks CoreGraphics to create, as edges about key codes, in order. */
  function Requests(calls: seq<CGCall>): seq<Transition<int>>
    decreases |calls|
  {
    if calls == [] then []
    else
      var c := calls[|calls| - 1];
      Requests(calls[..|calls| - 1]) +
      (if c.CreateKeyboardEvent? then [if c.keyDown then Down(c.virtualKey) else Up(c.virtualKey)] else [])
  }

  /** The key codes of a run of keys, in order. */
  function KeyCodes(keys: seq<Keys.KeyboardKey>): (r: seq<int>)
    ensures |r| == |keys|
    ensures forall i :: 0 <= i < |keys| ==> r[i] == KeyCode(keys[i])
  {
    seq(|keys|, i requires 0 <= i < |keys| => KeyCode(keys[i]))
  }

  /** The handles of a concatenation are the handles of its parts, in order. */
  lemma {:induction false} HandlesAppend(a: seq<CGCall>, b: seq<CGCall>, kind: CallKind)
    ensures Handles(a + b, kind) == Handles(a, kind) + Handles(b, kind)
    decreases |b|
  {
    if b == [] {
      assert a + b == a;
    } else {
      var init := b[..|b| - 1];
      assert (a + b)[..|a + b| - 1] == a + init;
      assert (a + b)[|a + b| - 1] == b[|b| - 1];
      HandlesAppend(a, init, kind);
    }
  }

  /** The requests of a concatenation are the requests of its parts, in order. */
  lemma {:induction false} RequestsAppend(a: seq<CGCall>, b: seq<CGCall>)
    ensures Requests(a + b) == Requests(a) + Requests(b)
    decreases |b|
  {
    if b == [] {
      assert a + b == a;
    } else {
      var init := b[..|b| - 1];
      assert (a + b)[..|a + b| - 1] == a + init;
      assert (a + b)[|a + b| - 1] == b[|b| - 1];
      RequestsAppend(a, init);
    }
  }

  /** The bookkeeping of a concatenation is the concatenation of the bookkeeping. */
  lemma HandlesConcat(a: seq<CGCall>, b: seq<CGCall>, kind: CallKind)
    ensures Handles(a + b, kind) == Handles(a, kind) + Handles(b, kind)
    ensures Requests(a + b) == Requests(a) + Requests(b)
  {
    HandlesAppend(a, b, kind);
    RequestsAppend(a, b);
  }

  /** One more creation: its handle joins the list when it exists. */
  lemma LiveStep(alloc: nat -> int, n: nat)
    ensures Live(alloc, n + 1) == Live(alloc, n) + (if alloc(n) != 0 then [alloc(n)] else [])
  {
  }

  /** The edge of a combo that the reverse loop reaches at key `i`: that key's release. */
  lemma ComboUpAt<T>(keys: seq<T>, i: int, m: int)
    requires 0 <= i < |keys| && m == 2 * |keys| - 1 - i
    ensures 0 <= m < |Combo(keys)| && Combo(keys)[m] == Up(keys[i])
  {
    assert Combo(keys)[m] == Releases(keys)[m - |keys|];
  }

  /** One more edge of a combo: its creation and post follow those of the edges before it. */
  lemma PostingStep(ts: seq<Transition<Keys.KeyboardKey>>, alloc: nat -> int, m: nat)
    requires m < |ts|
    ensures Posting(ts[..m + 1], alloc) == Posting(ts[..m], alloc) + CreatePost(ts[m], alloc(m))
  {
    assert ts[..m + 1][..m] == ts[..m];
  }

  /** One step of the forward loop of `SendKeyCombo`: the press of key `i` is created and posted next. */
  lemma DownStep(keys: seq<Keys.KeyboardKey>, alloc: nat -> int, i: nat)
    requires i < |keys|
    ensures i < |Combo(keys)|
    ensures Posting(Combo(keys)[..i + 1], alloc) == Posting(Combo(keys)[..i], alloc) + CreatePost(Down(keys[i]), alloc(i))
  {
    assert Combo(keys)[i] == Down(keys[i]);
    PostingStep(Combo(keys), alloc, i);
  }

  /**
   * One step of the reverse loop of `SendKeyCombo`: with `m` events created
   * so far, the release of key `i` is created and posted next.
   */
  lemma UpStep(keys: seq<Keys.KeyboardKey>, alloc: nat -> int, i: int, m: nat)
    requires 0 <= i < |keys| && m == 2 * |keys| - 1 - i
    ensures m < |Combo(keys)|
    ensures Posting(Combo(keys)[..m + 1], alloc) == Posting(Combo(keys)[..m], alloc) + CreatePost(Up(keys[i]), alloc(m))
  {
    ComboUpAt(keys, i, m);
    PostingStep(Combo(keys), alloc, m);
  }

  /** The bookkeeping of a single call. */
  lemma Single(c: CGCall, kind: CallKind)
    ensures Handles([c], kind) == HandleOf(c, kind)
    ensures Requests([c]) == (if c.CreateKeyboardEvent? then [if c.keyDown then Down(c.virtualKey) else Up(c.virtualKey)] else [])
  {
    assert [c][..0] == [];
  }

  /** One creation: an event that exists is created and posted, and nothing is released. */
  lemma CreatePostBookkeeping(e: Transition<Keys.KeyboardKey>, h: int, kind: CallKind)
    ensures Handles(CreatePost(e, h), kind) == (if h != 0 && kind != Released then [h] else [])
    ensures Requests(CreatePost(e, h)) == [if e.Down? then Down(KeyCode(e.item)) else Up(KeyCode(e.item))]
  {
    var c := CreateKeyboardEvent(KeyCode(e.item), e.Down?, h);
    Single(c, kind);
    if h != 0 {
      var p := Post(kCGAnnotatedSessionEventTap, h);
      Single(p, kind);
      HandlesConcat([c], [p], kind);
    } else {
      assert CreatePost(e, h) == [c];
    }
  }

  /**
   * Creating and posting a run of edges: the created events that exist are
   * exactly the ones posted, in creation order, and nothing is released yet.
   */
  lemma {:induction false} PostingHandles(ts: seq<Transition<Keys.KeyboardKey>>, alloc: nat -> int, kind: CallKind)
    ensures Handles(Posting(ts, alloc), kind) == if kind == Released then [] else Live(alloc, |ts|)
    decreases |ts|
  {
    if ts != [] {
      var init := ts[..|ts| - 1];
      PostingHandles(init, alloc, kind);
      HandlesConcat(Posting(init, alloc), CreatePost(ts[|ts| - 1], alloc(|ts| - 1)), kind);
      CreatePostBookkeeping(ts[|ts| - 1], alloc(|ts| - 1), kind);
    }
  }

  /** The events a run of edges asks for are the edges themselves, relabelled by key code. */
  lemma {:induction false} PostingRequests(ts: seq<Transition<Keys.KeyboardKey>>, alloc: nat -> int)
    ensures |Requests(Posting(ts, alloc))| == |ts|
    ensures forall i :: 0 <= i < |ts| ==>
              Requests(Posting(ts, alloc))[i] == (if ts[i].Down? then Down(KeyCode(ts[i].item)) else Up(KeyCode(ts[i].item)))
    decreases |ts|
  {
    if ts != [] {
      var init := ts[..|ts| - 1];
      var last := ts[|ts| - 1];
      PostingRequests(init, alloc);
      HandlesConcat(Posting(init, alloc), CreatePost(last, alloc(|ts| - 1)), Created);
      CreatePostBookkeeping(last, alloc(|ts| - 1), Created);
      var r0 := Requests(Posting(init, alloc));
      var rl := Requests(CreatePost(last, alloc(|ts| - 1)));
      assert Requests(Posting(ts, alloc)) == r0 + rl;
      forall i | 0 <= i < |ts|
        ensures Requests(Posting(ts, alloc))[i] == (if ts[i].Down? then Down(KeyCode(ts[i].item)) else Up(KeyCode(ts[i].item)))
      {
        if i < |init| {
          assert ts[i] == init[i];
          assert (r0 + rl)[i] == r0[i];
        } else {
          assert (r0 + rl)[i] == rl[0];
        }
      }
    }
  }

  /** Releasing a list of existing handles releases each of them once, in order. */
  lemma {:induction false} ReleaseEachReleases(hs: seq<int>)
    requires forall k :: 0 <= k < |hs| ==> hs[k] != 0
    ensures Handles(ReleaseEach(hs), Released) == hs
    decreases |hs|
  {
    if hs != [] {
      var init := hs[..|hs| - 1];
      var h := hs[|hs| - 1];
      var r := ReleaseEach(init);
      assert ReleaseEach(hs) == r + [Release(h)];
      ReleaseEachReleases(init);
      assert Handles(r + [Release(h)], Released) == Handles(r, Released) + [h] by {
        HandlesAppend(r, [Release(h)], Released);
        Single(Release(h), Released);
      }
      assert hs == init + [h];
    }
  }

  /** The `finally` loop creates and posts nothing. */
  lemma {:induction false} ReleaseEachOnlyFrees(hs: seq<int>, kind: CallKind)
    requires kind != Released
    ensures Handles(ReleaseEach(hs), kind) == []
    decreases |hs|
  {
    if hs != [] {
      var init := hs[..|hs| - 1];
      var last: seq<CGCall> := if hs[|hs| - 1] != 0 then [Release(hs[|hs| - 1])] else [];
      ReleaseEachOnlyFrees(init, kind);
      HandlesAppend(ReleaseEach(init), last, kind);
      if last != [] {
        Single(last[0], kind);
        assert last == [last[0]];
      }
    }
  }

  /** Releasing a list of existing handles releases each of them once, in order, and creates and posts nothing. */
  lemma ReleaseEachHandles(hs: seq<int>, kind: CallKind)
    requires forall k :: 0 <= k < |hs| ==> hs[k] != 0
    ensures Handles(ReleaseEach(hs), kind) == if kind == Released then hs else []
  {
    if kind == Released {
      ReleaseEachReleases(hs);
    } else {
      ReleaseEachOnlyFrees(hs, kind);
    }
  }

  /** The `finally` loop asks for no event to be created. */
  lemma {:induction false} ReleaseEachRequests(hs: seq<int>)
    ensures Requests(ReleaseEach(hs)) == []
    decreases |hs|
  {
    if hs != [] {
      var init := hs[..|hs| - 1];
      var last: seq<CGCall> := if hs[|hs| - 1] != 0 then [Release(hs[|hs| - 1])] else [];
      ReleaseEachRequests(init);
      RequestsAppend(ReleaseEach(init), last);
      if last != [] {
        Single(last[0], Created);
        assert last == [last[0]];
      }
    }
  }

  /** No call of the creating and posting phase is a release. */
  lemma {:induction false} PostingReleasesNothing(ts: seq<Transition<Keys.KeyboardKey>>, alloc: nat -> int)
    ensures forall k :: 0 <= k < |Posting(ts, alloc)| ==> !Posting(ts, alloc)[k].Release?
    decreases |ts|
  {
    if ts != [] {
      var init := Posting(ts[..|ts| - 1], alloc);
      var last := CreatePost(ts[|ts| - 1], alloc(|ts| - 1));
      PostingReleasesNothing(ts[..|ts| - 1], alloc);
      var all: seq<CGCall> := init + last;
      forall k | 0 <= k < |all|
        ensures !all[k].Release?
      {
        if k < |init| {
          assert all[k] == init[k];
        }
      }
    }
  }

  /** Every call of the `finally` loop is a release. */
  lemma {:induction false} ReleaseEachOnlyReleases(hs: seq<int>)
    ensures forall k :: 0 <= k < |ReleaseEach(hs)| ==> ReleaseEach(hs)[k].Release?
    decreases |hs|
  {
    if hs != [] {
      var init := ReleaseEach(hs[..|hs| - 1]);
      var last: seq<CGCall> := if hs[|hs| - 1] != 0 then [Release(hs[|hs| - 1])] else [];
      ReleaseEachOnlyReleases(hs[..|hs| - 1]);
      var all: seq<CGCall> := init + last;
      forall k | 0 <= k < |all|
        ensures all[k].Release?
      {
        if k < |init| {
          assert all[k] == init[k];
        }
      }
    }
  }

  /**
   * The bookkeeping of `SendKeyCombo`: every event that exists is created,
   * posted and released exactly once, in creation order.
   */
  lemma ComboHandles(keys: seq<Keys.KeyboardKey>, alloc: nat -> int, kind: CallKind)
    ensures Handles(ComboCalls(keys, alloc), kind) == Live(alloc, 2 * |keys|)
  {
    var edges := Combo(keys);
    var live := Live(alloc, 2 * |keys|);
    var posting := Posting(edges, alloc);
    var releasing := ReleaseEach(live);
    assert |edges| == 2 * |keys|;
    assert Handles(posting, kind) == if kind == Released then [] else live by {
      PostingHandles(edges, alloc, kind);
    }
    assert Handles(releasing, kind) == if kind == Released then live else [] by {
      ReleaseEachHandles(live, kind);
    }
    assert Handles(posting + releasing, kind) == Handles(posting, kind) + Handles(releasing, kind) by {
      HandlesConcat(posting, releasing, kind);
    }
    if kind == Released {
      assert [] + live == live;
    } else {
      assert live + [] == live;
    }
  }

  /**
   * The events `SendKeyCombo` asks for are the combo's edges on the key
   * codes, presses in argument order and then releases in reverse order,
   * whether or not their creation succeeds.
   */
  lemma ComboRequests(keys: seq<Keys.KeyboardKey>, alloc: nat -> int)
    ensures Requests(ComboCalls(keys, alloc)) == Combo(KeyCodes(keys))
  {
    var edges := Combo(keys);
    var live := Live(alloc, 2 * |keys|);
    var posting := Posting(edges, alloc);
    var releasing := ReleaseEach(live);
    assert Requests(releasing) == [] by {
      ReleaseEachRequests(live);
    }
    assert Requests(posting + releasing) == Requests(posting) + Requests(releasing) by {
      HandlesConcat(posting, releasing, Created);
    }
    var r := Requests(posting);
    var codes := KeyCodes(keys);
    PostingRequests(edges, alloc);
    assert |r| == |Combo(codes)|;
    forall i | 0 <= i < |r|
      ensures r[i] == Combo(codes)[i]
    {
      if i < |keys| {
        assert edges[i] == Down(keys[i]);
      } else {
        assert edges[i] == Releases(keys)[i - |keys|];
        assert Combo(codes)[i] == Releases(codes)[i - |keys|];
      }
    }
    assert r + [] == r;
  }

  /** Once the releases of `SendKeyCombo` start, nothing but releases follows. */
  lemma ComboReleasesLast(keys: seq<Keys.KeyboardKey>, alloc: nat -> int)
    ensures forall i, j :: 0 <= i < j < |ComboCalls(keys, alloc)| && ComboCalls(keys, alloc)[i].Release? ==>
              ComboCalls(keys, alloc)[j].Release?
  {
    var posting := Posting(Combo(keys), alloc);
    var releasing := ReleaseEach(Live(alloc, 2 * |keys|));
    PostingReleasesNothing(Combo(keys), alloc);
    ReleaseEachOnlyReleases(Live(alloc, 2 * |keys|));
    var calls := posting + releasing;
    forall i, j | 0 <= i < j < |calls| && calls[i].Release?
      ensures calls[j].Release?
    {
      assert |posting| <= i;
      assert calls[j] == releasing[j - |posting|];
    }
  }

  /** The bookkeeping of a call made only when its handle exists. */
  lemma MaybeBookkeeping(c: CGCall, present: bool, kind: CallKind)
    requires !c.CreateKeyboardEvent?
    ensures Handles(Maybe(c, present), kind) == if present then HandleOf(c, kind) else []
    ensures Requests(Maybe(c, present)) == []
  {
    if present {
      Single(c, kind);
    }
  }

  /** The bookkeeping of two calls each made only when its handle exists. */
  lemma MaybePair(c1: CGCall, p1: bool, c2: CGCall, p2: bool, kind: CallKind)
    requires !c1.CreateKeyboardEvent? && !c2.CreateKeyboardEvent?
    ensures Handles(Maybe(c1, p1) + Maybe(c2, p2), kind)
         == (if p1 then HandleOf(c1, kind) else []) + (if p2 then HandleOf(c2, kind) else [])
    ensures Requests(Maybe(c1, p1) + Maybe(c2, p2)) == []
  {
    MaybeBookkeeping(c1, p1, kind);
    MaybeBookkeeping(c2, p2, kind);
    HandlesConcat(Maybe(c1, p1), Maybe(c2, p2), kind);
  }

  /** The bookkeeping of the posts and releases of `SendKey`. */
  lemma StrokeTail(d: int, u: int, kind: CallKind)
    ensures Handles((Maybe(Post(kCGAnnotatedSessionEventTap, d), d != 0) + Maybe(Post(kCGAnnotatedSessionEventTap, u), u != 0)) +
                    (Maybe(Release(d), d != 0) + Maybe(Release(u), u != 0)), kind)
         == if kind == Created then [] else (if d != 0 then [d] else []) + (if u != 0 then [u] else [])
    ensures Requests((Maybe(Post(kCGAnnotatedSessionEventTap, d), d != 0) + Maybe(Post(kCGAnnotatedSessionEventTap, u), u != 0)) +
                     (Maybe(Release(d), d != 0) + Maybe(Release(u), u != 0))) == []
  {
    var posts := Maybe(Post(kCGAnnotatedSessionEventTap, d), d != 0) + Maybe(Post(kCGAnnotatedSessionEventTap, u), u != 0);
    var releases := Maybe(Release(d), d != 0) + Maybe(Release(u), u != 0);
    var both := (if d != 0 then [d] else []) + (if u != 0 then [u] else []);
    MaybePair(Post(kCGAnnotatedSessionEventTap, d), d != 0, Post(kCGAnnotatedSessionEventTap, u), u != 0, kind);
    MaybePair(Release(d), d != 0, Release(u), u != 0, kind);
    HandlesConcat(posts, releases, kind);
    match kind
    case Created =>
      assert Handles(posts, kind) == [] && Handles(releases, kind) == [];
    case Posted =>
      assert Handles(posts, kind) == both && Handles(releases, kind) == [];
      assert both + [] == both;
    case Released =>
      assert Handles(posts, kind) == [] && Handles(releases, kind) == both;
      assert [] + both == both;
  }

  /** The bookkeeping of the two creations of `SendKey`. */
  lemma StrokeHead(key: Keys.KeyboardKey, d: int, u: int, kind: CallKind)
    ensures Handles([CreateKeyboardEvent(KeyCode(key), true, d), CreateKeyboardEvent(KeyCode(key), false, u)], kind)
         == if kind == Created then (if d != 0 then [d] else []) + (if u != 0 then [u] else []) else []
    ensures Requests([CreateKeyboardEvent(KeyCode(key), true, d), CreateKeyboardEvent(KeyCode(key), false, u)])
         == [Down(KeyCode(key)), Up(KeyCode(key))]
  {
    var c1 := CreateKeyboardEvent(KeyCode(key), true, d);
    var c2 := CreateKeyboardEvent(KeyCode(key), false, u);
    Single(c1, kind);
    Single(c2, kind);
    HandlesConcat([c1], [c2], kind);
    assert [c1, c2] == [c1] + [c2];
  }

  /**
   * The handles of `SendKey`: every event that exists is created, posted
   * and released exactly once, in creation order, as in the one-key combo;
   * the stroke only creates both events before posting either.
   */
  lemma StrokeHandles(key: Keys.KeyboardKey, alloc: nat -> int, kind: CallKind)
    ensures Handles(StrokeCalls(key, alloc(0), alloc(1)), kind) == Live(alloc, 2)
  {
    var d := alloc(0);
    var u := alloc(1);
    var hd := if d != 0 then [d] else [];
    var hu := if u != 0 then [u] else [];
    assert Live(alloc, 2) == hd + hu by {
      LiveStep(alloc, 0);
      LiveStep(alloc, 1);
    }
    var head := [CreateKeyboardEvent(KeyCode(key), true, d), CreateKeyboardEvent(KeyCode(key), false, u)];
    var tail := (Maybe(Post(kCGAnnotatedSessionEventTap, d), d != 0) + Maybe(Post(kCGAnnotatedSessionEventTap, u), u != 0)) +
                (Maybe(Release(d), d != 0) + Maybe(Release(u), u != 0));
    StrokeHead(key, d, u, kind);
    StrokeTail(d, u, kind);
    HandlesConcat(head, tail, kind);
    if kind == Created {
      assert hd + hu + [] == hd + hu;
    } else {
      assert [] + (hd + hu) == hd + hu;
    }
  }

  /** `SendKey` asks for the two events of the one-key combo: the key's press, then its release. */
  lemma StrokeRequests(key: Keys.KeyboardKey, alloc: nat -> int)
    ensures Requests(StrokeCalls(key, alloc(0), alloc(1))) == Combo(KeyCodes([key]))
  {
    var d := alloc(0);
    var u := alloc(1);
    var head := [CreateKeyboardEvent(KeyCode(key), true, d), CreateKeyboardEvent(KeyCode(key), false, u)];
    var tail := (Maybe(Post(kCGAnnotatedSessionEventTap, d), d != 0) + Maybe(Post(kCGAnnotatedSessionEventTap, u), u != 0)) +
                (Maybe(Release(d), d != 0) + Maybe(Release(u), u != 0));
    assert Requests(head) == [Down(KeyCode(key)), Up(KeyCode(key))] by {
      StrokeHead(key, d, u, Created);
    }
    assert Requests(tail) == [] by {
      StrokeTail(d, u, Created);
    }
    assert Requests(head + tail) == Requests(head) + Requests(tail) by {
      HandlesConcat(head, tail, Created);
    }
    assert KeyCodes([key]) == [KeyCode(key)];
    StrokeIsCombo(KeyCode(key));
  }

  /** The body of `SendKey` once the disposed check has passed. */
  method PostStroke(key: Keys.KeyboardKey, alloc: nat -> int) returns (calls: seq<CGCall>)
    ensures calls == StrokeCalls(key, alloc(0), alloc(1))
  {
    var downEvent := 0;
    var upEvent := 0;
    downEvent := alloc(0);
    upEvent := alloc(1);
    calls := [CreateKeyboardEvent(KeyCode(key), true, downEvent), CreateKeyboardEvent(KeyCode(key), false, upEvent)];
    if downEvent != 0 {
      calls := calls + [Post(kCGAnnotatedSessionEventTap, downEvent)];
    }
    if upEvent != 0 {
      calls := calls + [Post(kCGAnnotatedSessionEventTap, upEvent)];
    }
    // finally
    if downEvent != 0 {
      calls := calls + [Release(downEvent)];
    }
    if upEvent != 0 {
      calls := calls + [Release(upEvent)];
    }
  }

  /**
   * One edge of `SendKeyCombo`: the event `evt` created for it is posted and
   * kept when it exists.
   */
  method PostEvent(e: Transition<Keys.KeyboardKey>, evt: int) returns (step: seq<CGCall>, kept: seq<int>)
    ensures step == CreatePost(e, evt)
    ensures kept == if evt != 0 then [evt] else []
  {
    step := [CreateKeyboardEvent(KeyCode(e.item), e.Down?, evt)];
    kept := [];
    if evt != 0 {
      kept := [evt];
      step := step + [Post(kCGAnnotatedSessionEventTap, evt)];
    }
  }

  /** The forward loop of `SendKeyCombo`: each key's press created and, when it exists, posted and kept. */
  method PostPresses(keys: seq<Keys.KeyboardKey>, alloc: nat -> int) returns (calls: seq<CGCall>, events: seq<int>)
    ensures calls == Posting(Combo(keys)[..|keys|], alloc)
    ensures events == Live(alloc, |keys|)
  {
    calls := [];
    events := [];
    var i := 0;
    while i < |keys|
      invariant 0 <= i <= |keys|
      invariant calls == Posting(Combo(keys)[..i], alloc)
      invariant events == Live(alloc, i)
    {
      var step, kept := PostEvent(Down(keys[i]), alloc(i));
      assert calls + step == Posting(Combo(keys)[..i + 1], alloc) by {
        DownStep(keys, alloc, i);
      }
      assert events + kept == Live(alloc, i + 1) by {
        LiveStep(alloc, i);
      }
      events := events + kept;
      calls := calls + step;
      i := i + 1;
    }
  }

  /**
   * The reverse loop of `SendKeyCombo`: after the presses, each key's
   * release, last key first, created and, when it exists, posted and kept.
   */
  method PostReleases(keys: seq<Keys.KeyboardKey>, alloc: nat -> int, ghost edges: seq<Transition<Keys.KeyboardKey>>,
                      pressed: seq<CGCall>, kept: seq<int>)
    returns (calls: seq<CGCall>, events: seq<int>)
    requires |edges| == 2 * |keys|
    requires forall k :: 0 <= k < |keys| ==> edges[2 * |keys| - 1 - k] == Up(keys[k])
    requires pressed == Posting(edges[..|keys|], alloc)
    requires kept == Live(alloc, |keys|)
    ensures calls == Posting(edges, alloc)
    ensures events == Live(alloc, 2 * |keys|)
  {
    calls := pressed;
    events := kept;
    var created: nat := |keys|;
    var i := |keys| - 1;
    while i >= 0
      invariant -1 <= i < |keys|
      invariant created == 2 * |keys| - 1 - i
      invariant calls == Posting(edges[..created], alloc)
      invariant events == Live(alloc, created)
    {
      var step, kept := PostEvent(Up(keys[i]), alloc(created));
      assert calls + step == Posting(edges[..created + 1], alloc) by {
        assert edges[created] == Up(keys[i]);
        PostingStep(edges, alloc, created);
      }
      assert events + kept == Live(alloc, created + 1) by {
        LiveStep(alloc, created);
      }
      events := events + kept;
      calls := calls + step;
      created := created + 1;
      i := i - 1;
    }
    assert edges[..created] == edges;
  }

  /** The `finally` loop of `SendKeyCombo`: every kept event released, in the order kept. */
  method ReleaseEvents(posted: seq<CGCall>, events: seq<int>) returns (calls: seq<CGCall>)
    ensures calls == posted + ReleaseEach(events)
  {
    calls := posted;
    var j := 0;
    while j < |events|
      invariant 0 <= j <= |events|
      invariant calls == posted + ReleaseEach(events[..j])
    {
      assert events[..j + 1][..j] == events[..j];
      if events[j] != 0 {
        calls := calls + [Release(events[j])];
      }
      j := j + 1;
    }
    assert events[..j] == events;
  }

  /**
   * The body of `SendKeyCombo` once the disposed check has passed: nothing
   * for an empty combo; otherwise the downs in argument order and the ups in
   * reverse order, each posted when it exists and kept in `events`, and then
   * every kept event released.
   */
  method PostCombo(keys: seq<Keys.KeyboardKey>, alloc: nat -> int) returns (calls: seq<CGCall>)
    ensures calls == ComboCalls(keys, alloc)
  {
    if |keys| == 0 {
      return [];
    }
    var pressed, kept := PostPresses(keys, alloc);
    forall k | 0 <= k < |keys|
      ensures Combo(keys)[2 * |keys| - 1 - k] == Up(keys[k])
    {
      ComboUpAt(keys, k, 2 * |keys| - 1 - k);
    }
    var posted, events := PostReleases(keys, alloc, Combo(keys), pressed, kept);
    calls := ReleaseEvents(posted, events);
  }
}
