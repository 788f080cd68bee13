/**
 * Transition resolution and the execution plan of `StateMachine`: which
 * handler decides the destination, which handlers run and in what order,
 * and what running them yields.
 */
module Transition {
  import opened Values
  import opened Registry
  import Seqs

  /** The handler reacts to `change` requested in state `from`. */
  predicate Triggers(h: Handler, change: string, from: Ref) {
    h.from == from && h.change == change
  }

  /** The index of the first handler, in registration order, that reacts to `change` in `from`. */
  function Find(hs: seq<Handler>, change: string, from: Ref): (r: Option<nat>)
    ensures r.Some? ==> r.value < |hs| && Triggers(hs[r.value], change, from)
    ensures r.Some? ==> forall j :: 0 <= j < r.value ==> !Triggers(hs[j], change, from)
    ensures r.None? ==> forall j :: 0 <= j < |hs| ==> !Triggers(hs[j], change, from)
  {
    if hs == [] then None
    else if Triggers(hs[0], change, from) then Some(0)
    else
      match Find(hs[1..], change, from)
      case None => None
      case Some(k) => Some(k + 1)
  }

  /**
   * The destination `initState(change)` moves to from `from`, or `None`
   * when the request is rejected.
   */
  function Resolve(hs: seq<Handler>, from: Ref, change: string): (r: Option<Ref>)
    ensures r.None? <==> IsCore(change) || forall j :: 0 <= j < |hs| ==> !Triggers(hs[j], change, from)
    ensures r.Some? ==> exists j :: 0 <= j < |hs| && Triggers(hs[j], change, from) && r.value == hs[j].to
  {
    if IsCore(change) then None
    else
      match Find(hs, change, from)
      case None => None
      case Some(i) => Some(hs[i].to)
  }

  /**
   * In a consistent registry the destination does not depend on which
   * reacting handler is found first: every one of them leads there.
   */
  lemma ResolveDestination(hs: seq<Handler>, from: Ref, change: string, j: nat)
    requires Consistent(hs) && !IsCore(change)
    requires j < |hs| && Triggers(hs[j], change, from)
    ensures Resolve(hs, from, change) == Some(hs[j].to)
  {
  }

  /** The handler takes part in the transition `from --change--> to`. */
  predicate Applies(h: Handler, change: string, from: Ref, to: Ref) {
    Triggers(h, change, from) ||
    (h.change == Leave && h.from == from) ||
    (h.change == Enter && h.to == to)
  }

  function AppliesTo(change: string, from: Ref, to: Ref): Handler -> bool {
    h => Applies(h, change, from, to)
  }

  /** The handlers of a transition, in registration order. */
  function Select(hs: seq<Handler>, change: string, from: Ref, to: Ref): seq<Handler> {
    Seqs.Filter(hs, AppliesTo(change, from, to))
  }

  function HasPriority(p: int): Handler -> bool {
    (h: Handler) => h.priority == p
  }

  /** The handlers of priority `p`, in their order in `s`. */
  function AtPriority(s: seq<Handler>, p: int): seq<Handler> {
    Seqs.Filter(s, HasPriority(p))
  }

  ghost predicate Sorted(s: seq<Handler>) {
    forall i, j :: 0 <= i < j < |s| ==> s[i].priority <= s[j].priority
  }

  /** Puts `x` before the first element of `s` whose priority is not lower. */
  function Insert(x: Handler, s: seq<Handler>): seq<Handler> {
    if s == [] || x.priority <= s[0].priority then [x] + s
    else [s[0]] + Insert(x, s[1..])
  }

  lemma {:induction false} InsertPermutes(x: Handler, s: seq<Handler>)
    ensures multiset(Insert(x, s)) == multiset(s) + multiset{x}
  {
    if s != [] && s[0].priority < x.priority {
      assert s == [s[0]] + s[1..];
      InsertPermutes(x, s[1..]);
    }
  }

  lemma {:induction false} InsertSorted(x: Handler, s: seq<Handler>)
    requires Sorted(s)
    ensures Sorted(Insert(x, s))
  {
    if s != [] && s[0].priority < x.priority {
      InsertSorted(x, s[1..]);
      InsertPermutes(x, s[1..]);
      var rest := Insert(x, s[1..]);
      forall y | y in rest ensures s[0].priority <= y.priority {
        assert y in multiset(rest);
      }
    }
  }

  /** Insertion sort by ascending priority, the stable sort `Array.prototype.sort` performs. */
  function SortByPriority(s: seq<Handler>): seq<Handler> {
    if s == [] then [] else Insert(s[0], SortByPriority(s[1..]))
  }

  /** The sort orders by ascending priority and rearranges without adding or losing a handler. */
  lemma {:induction false} SortSorts(s: seq<Handler>)
    ensures Sorted(SortByPriority(s))
    ensures multiset(SortByPriority(s)) == multiset(s)
  {
    if s != [] {
      SortSorts(s[1..]);
      InsertSorted(s[0], SortByPriority(s[1..]));
      InsertPermutes(s[0], SortByPriority(s[1..]));
      assert s == [s[0]] + s[1..];
    }
  }

  /** The handlers of priority `p` in a sequence with a known first element. */
  lemma AtPriorityCons(x: Handler, s: seq<Handler>, p: int)
    ensures AtPriority([x] + s, p) == (if x.priority == p then [x] else []) + AtPriority(s, p)
  {
    assert ([x] + s)[1..] == s;
  }

  lemma {:induction false} InsertStable(x: Handler, s: seq<Handler>, p: int)
    ensures AtPriority(Insert(x, s), p) == (if x.priority == p then [x] else []) + AtPriority(s, p)
  {
    if s == [] || x.priority <= s[0].priority {
      AtPriorityCons(x, s, p);
    } else {
      var rest := Insert(x, s[1..]);
      var head := if s[0].priority == p then [s[0]] else [];
      var mine := if x.priority == p then [x] else [];
      assert Insert(x, s) == [s[0]] + rest;
      InsertStable(x, s[1..], p);
      AtPriorityCons(s[0], rest, p);
      assert s == [s[0]] + s[1..];
      AtPriorityCons(s[0], s[1..], p);
      assert AtPriority(Insert(x, s), p) == head + (mine + AtPriority(s[1..], p));
      assert AtPriority(s, p) == head + AtPriority(s[1..], p);
      assert head == [] || mine == [];
    }
  }

  /**
   * The sort is stable: the handlers of each priority keep their relative
   * order, so ties run in registration order.
   */
  lemma {:induction false} SortStable(s: seq<Handler>, p: int)
    ensures AtPriority(SortByPriority(s), p) == AtPriority(s, p)
  {
    if s != [] {
      SortStable(s[1..], p);
      InsertStable(s[0], SortByPriority(s[1..]), p);
      assert s == [s[0]] + s[1..];
    }
  }

  /** The handlers `_goToNextState` runs, in the order it runs them. */
  function Plan(hs: seq<Handler>, change: string, from: Ref, to: Ref): seq<Handler> {
    SortByPriority(Select(hs, change, from, to))
  }

  /**
   * The plan holds each applicable handler exactly as often as the registry
   * does and no other, in ascending priority, ties in registration order.
   */
  lemma PlanOrder(hs: seq<Handler>, change: string, from: Ref, to: Ref)
    ensures forall h :: multiset(Plan(hs, change, from, to))[h] ==
                        if Applies(h, change, from, to) then multiset(hs)[h] else 0
    ensures Sorted(Plan(hs, change, from, to))
    ensures forall p :: AtPriority(Plan(hs, change, from, to), p) == AtPriority(Select(hs, change, from, to), p)
  {
    Seqs.FilterCount(hs, AppliesTo(change, from, to));
    SortSorts(Select(hs, change, from, to));
    forall p ensures AtPriority(Plan(hs, change, from, to), p) == AtPriority(Select(hs, change, from, to), p) {
      SortStable(Select(hs, change, from, to), p);
    }
  }

  /** A callback raises when it is missing or belongs to the callbacks that fail. */
  predicate Raises(callback: Option<CallbackId>, faulty: set<CallbackId>) {
    callback.None? || callback.value in faulty
  }

  /** One handler run: the handler, and whether its callback raised (and was caught). */
  datatype Invocation = Invocation(handler: Handler, raised: bool)

  /**
   * Running a plan: every handler's callback is invoked once, in plan order,
   * whichever of them raise.
   */
  function Executed(plan: seq<Handler>, faulty: set<CallbackId>): (r: seq<Invocation>)
    ensures |r| == |plan|
    ensures forall i :: 0 <= i < |r| ==> r[i].handler == plan[i] && r[i].raised == Raises(plan[i].callback, faulty)
  {
    if plan == [] then []
    else [Invocation(plan[0], Raises(plan[0].callback, faulty))] + Executed(plan[1..], faulty)
  }
}
