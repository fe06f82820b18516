/**
 * The pressed-set bookkeeping shared by the callback hooks: every hook turns
 * a native notification into a down or up edge for a key or button, and the
 * Windows and Linux mouse and Windows keyboard hooks keep a hash set of the
 * items currently held down.
 */
module Tracking {
  import opened Wrappers

  /** One edge a hook reports: an item (a key or a button) went down or came up. */
  datatype Transition<T> = Down(item: T) | Up(item: T)

  /**
   * The held set after one edge: `HashSet.Add` for a down, `HashSet.Remove`
   * for an up. The edge decides the membership of its own item and nothing
   * else changes.
   */
  function Apply<T(!new)>(held: set<T>, t: Transition<T>): (r: set<T>)
    ensures t.item in r <==> t.Down?
    ensures forall y :: y != t.item ==> (y in r <==> y in held)
  {
    match t
    case Down(x) => held + {x}
    case Up(x) => held - {x}
  }

  /** The held set after a run of edges, applied in order. */
  function Replay<T(!new)>(held: set<T>, ts: seq<Transition<T>>): set<T>
    decreases |ts|
  {
    if ts == [] then held else Apply(Replay(held, ts[..|ts| - 1]), ts[|ts| - 1])
  }

  /** The direction of the last edge in `ts` about `x` (`true` for a down), if there is one. */
  function LastEdge<T(==)>(ts: seq<Transition<T>>, x: T): Option<bool>
    decreases |ts|
  {
    if ts == [] then None
    else if ts[|ts| - 1].item == x then Some(ts[|ts| - 1].Down?)
    else LastEdge(ts[..|ts| - 1], x)
  }

  /** The last edge about `x` after one more edge: that edge when it is about `x`. */
  lemma LastEdgeSnoc<T>(ts: seq<Transition<T>>, t: Transition<T>, x: T)
    ensures LastEdge(ts + [t], x) == if t.item == x then Some(t.Down?) else LastEdge(ts, x)
  {
    assert (ts + [t])[..|ts + [t]| - 1] == ts;
  }

  /**
   * After a run of edges an item is held exactly when its last edge was a
   * down, or, when no edge mentions it, when it was held before.
   */
  lemma {:induction false} ReplayMembership<T(!new)>(held: set<T>, ts: seq<Transition<T>>, x: T)
    ensures x in Replay(held, ts) <==>
              (if LastEdge(ts, x).Some? then LastEdge(ts, x).value else x in held)
    decreases |ts|
  {
    if ts != [] {
      ReplayMembership(held, ts[..|ts| - 1], x);
    }
  }

  /** Replaying two runs one after the other is replaying their concatenation. */
  lemma {:induction false} ReplayConcat<T(!new)>(held: set<T>, a: seq<Transition<T>>, b: seq<Transition<T>>)
    ensures Replay(held, a + b) == Replay(Replay(held, a), b)
    decreases |b|
  {
    if b == [] {
      assert a + b == a;
    } else {
      assert (a + b)[..|a + b| - 1] == a + b[..|b| - 1];
      ReplayConcat(held, a, b[..|b| - 1]);
    }
  }

  /** Two downs for the same item hold it once: the set ignores the repeat. */
  lemma RepeatedDown<T(!new)>(held: set<T>, x: T)
    ensures Apply(Apply(held, Down(x)), Down(x)) == Apply(held, Down(x))
    ensures x in held ==> Apply(held, Down(x)) == held
  {
  }

  /**
   * A copy of a hash set as an array, built by enumerating it (`foreach` or
   * `CopyTo`): every element exactly once, in an order the set chooses.
   */
  method Snapshot<T(==)>(held: set<T>) returns (r: seq<T>)
    ensures forall x :: x in r <==> x in held
    ensures forall i, j :: 0 <= i < j < |r| ==> r[i] != r[j]
    ensures |r| == |held|
  {
    r := [];
    var rest := held;
    while rest != {}
      invariant forall x :: x in held <==> x in rest || x in r
      invariant forall x :: x in r ==> x !in rest
      invariant forall i, j :: 0 <= i < j < |r| ==> r[i] != r[j]
      invariant |r| + |rest| == |held|
      decreases |rest|
    {
      var x :| x in rest;
      r := r + [x];
      rest := rest - {x};
    }
  }
}
