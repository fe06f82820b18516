/**
 * The order in which the hooks inject input. `SendKey` and `SendButton` press
 * an item and release it; `SendKeyCombo` and `SendButtonCombo` press every
 * item in argument order and then release them in reverse order. Each
 * backend expands every edge into its own native calls, so a combo is
 * described once as a run of edges and each backend as a function from an
 * edge to the calls it makes.
 */
module Injection {
  import opened Tracking

  /** The presses of a combo: every item goes down, in argument order. */
  function Presses<T>(xs: seq<T>): (r: seq<Transition<T>>)
    ensures |r| == |xs|
    ensures forall i :: 0 <= i < |xs| ==> r[i] == Down(xs[i])
  {
    seq(|xs|, i requires 0 <= i < |xs| => Down(xs[i]))
  }

  /** The releases of a combo: every item comes up, last argument first. */
  function Releases<T>(xs: seq<T>): (r: seq<Transition<T>>)
    ensures |r| == |xs|
    ensures forall i :: 0 <= i < |xs| ==> r[i] == Up(xs[|xs| - 1 - i])
  {
    seq(|xs|, i requires 0 <= i < |xs| => Up(xs[|xs| - 1 - i]))
  }

  /** A combo: all presses in argument order, then all releases in reverse order. */
  function Combo<T>(xs: seq<T>): seq<Transition<T>>
  {
    Presses(xs) + Releases(xs)
  }

  /** The calls a backend makes for a run of edges: each edge expanded by `f`, in order. */
  function Emit<T, U>(f: Transition<T> -> seq<U>, ts: seq<Transition<T>>): seq<U>
    decreases |ts|
  {
    if ts == [] then [] else Emit(f, ts[..|ts| - 1]) + f(ts[|ts| - 1])
  }

  /** A single key or button stroke is the one-item combo: press, then release. */
  lemma StrokeIsCombo<T>(x: T)
    ensures Combo([x]) == [Down(x), Up(x)]
  {
  }

  /**
   * Combos nest like brackets: the first item's press opens the combo, its
   * release closes it, and the combo of the remaining items sits in between.
   */
  lemma ComboNesting<T>(xs: seq<T>)
    requires |xs| > 0
    ensures Combo(xs) == [Down(xs[0])] + Combo(xs[1..]) + [Up(xs[0])]
  {
    var rest := xs[1..];
    assert Presses(xs) == [Down(xs[0])] + Presses(rest);
    assert Releases(xs) == Releases(rest) + [Up(xs[0])];
  }

  /** Three keys pressed together come up in the opposite order. */
  lemma ThreeKeyCombo<T>(a: T, b: T, c: T)
    ensures Combo([a, b, c]) == [Down(a), Down(b), Down(c), Up(c), Up(b), Up(a)]
  {
  }

  /** Expanding a concatenation is concatenating the expansions. */
  lemma {:induction false} EmitConcat<T, U>(f: Transition<T> -> seq<U>, a: seq<Transition<T>>, b: seq<Transition<T>>)
    ensures Emit(f, a + b) == Emit(f, a) + Emit(f, b)
    decreases |b|
  {
    if b == [] {
      assert a + b == a;
    } else {
      assert (a + b)[..|a + b| - 1] == a + b[..|b| - 1];
      EmitConcat(f, a, b[..|b| - 1]);
    }
  }

  /** Expanding one more edge appends that edge's calls. */
  lemma EmitSnoc<T, U>(f: Transition<T> -> seq<U>, a: seq<Transition<T>>, t: Transition<T>)
    ensures Emit(f, a + [t]) == Emit(f, a) + f(t)
  {
    assert (a + [t])[..|a + [t]| - 1] == a;
  }

  /** One step of the forward loop: pressing item `i` extends the presses of the items before it. */
  lemma PressStep<T, U>(f: Transition<T> -> seq<U>, xs: seq<T>, i: int)
    requires 0 <= i < |xs|
    ensures Emit(f, Presses(xs[..i + 1])) == Emit(f, Presses(xs[..i])) + f(Down(xs[i]))
  {
    assert Presses(xs[..i + 1]) == Presses(xs[..i]) + [Down(xs[i])];
    EmitSnoc(f, Presses(xs[..i]), Down(xs[i]));
  }

  /**
   * One step of the reverse loop: releasing item `i` extends the releases of
   * the items after it (stated for the loop's counter after `i--`).
   */
  lemma ReleaseStep<T, U>(f: Transition<T> -> seq<U>, xs: seq<T>, i: int)
    requires 0 <= i < |xs|
    ensures Emit(f, Presses(xs) + Releases(xs)[..|xs| - 1 - (i - 1)])
         == Emit(f, Presses(xs) + Releases(xs)[..|xs| - 1 - i]) + f(Up(xs[i]))
  {
    var done := Presses(xs) + Releases(xs)[..|xs| - 1 - i];
    assert Presses(xs) + Releases(xs)[..|xs| - 1 - (i - 1)] == done + [Up(xs[i])];
    EmitSnoc(f, done, Up(xs[i]));
  }

  /** The state of the loops before the reverse loop starts, and after it ends. */
  lemma ComboLoopEnds<T, U>(f: Transition<T> -> seq<U>, xs: seq<T>)
    ensures Emit(f, Presses(xs[..|xs|])) == Emit(f, Presses(xs) + Releases(xs)[..|xs| - 1 - (|xs| - 1)])
    ensures Emit(f, Presses(xs) + Releases(xs)[..|xs| - 1 - -1]) == Emit(f, Combo(xs))
  {
    assert xs[..|xs|] == xs;
    assert Presses(xs) + Releases(xs)[..|xs| - 1 - (|xs| - 1)] == Presses(xs);
    assert Releases(xs)[..|xs| - 1 - -1] == Releases(xs);
  }

  /**
   * A run whose every edge expands to exactly one call: the calls are the
   * edges' calls, position by position.
   */
  lemma {:induction false} EmitOneEach<T, U>(f: Transition<T> -> seq<U>, ts: seq<Transition<T>>)
    requires forall i :: 0 <= i < |ts| ==> |f(ts[i])| == 1
    ensures |Emit(f, ts)| == |ts|
    ensures forall i :: 0 <= i < |ts| ==> Emit(f, ts)[i] == f(ts[i])[0]
    decreases |ts|
  {
    if ts != [] {
      EmitOneEach(f, ts[..|ts| - 1]);
    }
  }

  /**
   * The calls of a combo under a one-call-per-edge backend: position `i` of
   * the first half presses item `i`, and the second half releases the items
   * from the last to the first.
   */
  lemma ComboOneEach<T, U>(f: Transition<T> -> seq<U>, xs: seq<T>)
    requires forall t :: |f(t)| == 1
    ensures |Emit(f, Combo(xs))| == 2 * |xs|
    ensures forall i :: 0 <= i < |xs| ==> Emit(f, Combo(xs))[i] == f(Down(xs[i]))[0]
    ensures forall i :: |xs| <= i < 2 * |xs| ==> Emit(f, Combo(xs))[i] == f(Up(xs[2 * |xs| - 1 - i]))[0]
  {
    EmitOneEach(f, Combo(xs));
  }

  /** After the presses of a combo every item is held; nothing else changes. */
  lemma {:induction false} PressesHoldAll<T(!new)>(held: set<T>, xs: seq<T>)
    ensures Replay(held, Presses(xs)) == held + (set x | x in xs)
    decreases |xs|
  {
    if xs != [] {
      var init := xs[..|xs| - 1];
      assert Presses(xs)[..|xs| - 1] == Presses(init);
      PressesHoldAll(held, init);
      assert (set x | x in xs) == (set x | x in init) + {xs[|xs| - 1]} by {
        assert xs == init + [xs[|xs| - 1]];
      }
    }
  }

  /** After the releases of a combo no item of it is held; nothing else changes. */
  lemma {:induction false} ReleasesDropAll<T(!new)>(held: set<T>, xs: seq<T>)
    ensures Replay(held, Releases(xs)) == held - (set x | x in xs)
    decreases |xs|
  {
    if xs != [] {
      var tail := xs[1..];
      assert Releases(xs)[..|xs| - 1] == Releases(tail);
      ReleasesDropAll(held, tail);
      assert (set x | x in xs) == (set x | x in tail) + {xs[0]} by {
        assert xs == [xs[0]] + tail;
      }
    }
  }

  /**
   * A whole combo leaves none of its items held, whatever was held before,
   * and every other item as it was.
   */
  lemma ComboReleasesAll<T(!new)>(held: set<T>, xs: seq<T>)
    ensures Replay(held, Combo(xs)) == held - (set x | x in xs)
  {
    ReplayConcat(held, Presses(xs), Releases(xs));
    PressesHoldAll(held, xs);
    ReleasesDropAll(held + (set x | x in xs), xs);
  }
}
