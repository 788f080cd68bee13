/** The bounded history of visited states kept by `StateMachine`. */
module History {
  import opened Values

  /**
   * The most entries a history holds: `maxStates`, but never fewer than
   * one, because a push removes at most one old entry.
   */
  function Capacity(maxStates: int): (k: nat)
    ensures k >= 1 && k >= maxStates
    ensures maxStates >= 1 ==> k == maxStates
  {
    if maxStates < 1 then 1 else maxStates
  }

  /**
   * The history after `_pushState(v)`: `v` is appended and, when the log is
   * then longer than `maxStates`, its oldest entry is dropped once.
   */
  function Pushed(h: seq<Ref>, maxStates: int, v: Ref): seq<Ref> {
    var grown := h + [v];
    if |grown| > maxStates then grown[1..] else grown
  }

  /**
   * A push keeps a non-empty history within its bound, makes `v` the newest
   * entry and keeps a suffix of the old history before it.
   */
  lemma PushedShape(h: seq<Ref>, maxStates: int, v: Ref)
    requires 1 <= |h|
    ensures var r := Pushed(h, maxStates, v);
      |h| <= |r| <= |h| + 1 && r[|r| - 1] == v && r[..|r| - 1] == h[|h| + 1 - |r|..] &&
      (|h| <= Capacity(maxStates) ==> |r| <= Capacity(maxStates))
  {
    var grown := h + [v];
    if |grown| > maxStates {
      assert grown[1..] == h[1..] + [v];
      assert (h[1..] + [v])[..|h| - 1] == h[1..];
    } else {
      assert grown[..|h|] == h;
    }
  }

  /** The `k` newest entries of `s` (all of them when there are fewer). */
  function Newest(s: seq<Ref>, k: nat): (r: seq<Ref>)
    ensures |r| == if |s| <= k then |s| else k
  {
    if |s| <= k then s else s[|s| - k..]
  }

  /** The history after pushing every state of `vs`, in order. */
  function PushAll(h: seq<Ref>, maxStates: int, vs: seq<Ref>): seq<Ref> {
    if vs == [] then h
    else Pushed(PushAll(h, maxStates, vs[..|vs| - 1]), maxStates, vs[|vs| - 1])
  }

  /**
   * However many states are pushed, a history within its bound retains
   * exactly the newest `Capacity(maxStates)` of all the states it has seen.
   */
  lemma {:induction false} PushAllKeepsNewest(h: seq<Ref>, maxStates: int, vs: seq<Ref>)
    requires 1 <= |h| <= Capacity(maxStates)
    ensures PushAll(h, maxStates, vs) == Newest(h + vs, Capacity(maxStates))
  {
    var cap := Capacity(maxStates);
    if vs == [] {
      assert h + vs == h;
    } else {
      var w, v := vs[..|vs| - 1], vs[|vs| - 1];
      PushAllKeepsNewest(h, maxStates, w);
      var p := PushAll(h, maxStates, w);
      var all := h + vs;
      assert all == (h + w) + [v];
      if |h + w| < cap {
        assert maxStates >= 1 && p == h + w;
        assert Pushed(p, maxStates, v) == p + [v];
      } else {
        assert p == (h + w)[|h + w| - cap..] && |p| == cap;
        assert Pushed(p, maxStates, v) == (p + [v])[1..];
        assert (p + [v])[1..] == p[1..] + [v];
        assert p[1..] == (h + w)[|h + w| - cap + 1..];
        assert all[|all| - cap..] == (h + w)[|h + w| - cap + 1..] + [v];
      }
    }
  }
}
