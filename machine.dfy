/**
 * The engine: a `StateMachine` owns its history of states and its handler
 * registry, and drives transitions by running the planned handlers.
 */
module Machine {
  import opened Values
  import opened Registry
  import opened History
  import opened Transition
  import Seqs

  class StateMachine {
    /** Visited states, newest last. */
    var states: seq<Ref>
    /** The configured length of the history. */
    var maxStates: int
    /** Registered handlers, in registration order. */
    var handlers: seq<Handler>

    /** The history is never empty and within its bound; the registry is consistent. */
    ghost predicate Valid()
      reads this
    {
      1 <= |states| <= Capacity(maxStates) && Consistent(handlers)
    }

    /**
     * A machine in state `init` ("idle" when undefined) whose history holds
     * `maxStates` entries (1000 when undefined), with no handlers.
     */
    constructor (init: Ref, maxStates: Option<int>)
      ensures Valid()
      ensures states == [if init == Undefined then Name("idle") else init]
      ensures this.maxStates == (if maxStates.Some? then maxStates.value else 1000)
      ensures handlers == []
    {
      states := [if init == Undefined then Name("idle") else init];
      this.maxStates := if maxStates.Some? then maxStates.value else 1000;
      handlers := [];
    }

    /** The state `countFromEnd` entries back (1 is the current state); `undefined` out of range. */
    function ReadState(countFromEnd: int): (r: Ref)
      reads this
      ensures 1 <= countFromEnd <= |states| ==> r == states[|states| - countFromEnd]
      ensures countFromEnd < 1 || |states| < countFromEnd ==> r == Undefined
    {
      if 1 <= countFromEnd <= |states| then states[|states| - countFromEnd] else Undefined
    }

    /** Records `value` as the current state, evicting the oldest entry when the history is full. */
    method PushState(value: Ref) returns (r: Ref)
      requires Valid()
      modifies this`states
      ensures Valid()
      ensures states == Pushed(old(states), maxStates, value)
      ensures r == value && ReadState(1) == value
      ensures forall k :: 2 <= k <= |states| ==> ReadState(k) == old(ReadState(k - 1))
    {
      PushedShape(states, maxStates, value);
      states := states + [value];
      if |states| > maxStates {
        states := states[1..];
      }
      r := value;
    }

    /** Registers a handler unless it contradicts the destination registered for its change and source. */
    method AddStateHandler(spec: HandlerSpec)
      requires Valid()
      modifies this`handlers
      ensures Valid()
      ensures handlers == Register(old(handlers), spec)
    {
      RegisterPreservesConsistency(handlers, spec);
      if !IsCore(spec.change) {
        var isSameTo := SameDestination(handlers, spec.change, spec.from, spec.to);
        if !isSameTo {
          return;
        }
      }
      var stateHandler := Compose(spec);
      handlers := handlers + [stateHandler];
    }

    /** Removes every handler that meets all the criteria given; does nothing when none is given. */
    method RemoveStateHandler(criteria: Criteria)
      requires Valid()
      modifies this`handlers
      ensures Valid()
      ensures handlers == Remaining(old(handlers), criteria)
    {
      if !Provided(criteria) {
        return;
      }
      RemovalPreservesConsistency(handlers, criteria);
      var all, keep: seq<Handler> := handlers, [];
      var i := 0;
      while i < |all|
        invariant 0 <= i <= |all|
        invariant keep == Seqs.Filter(all[..i], Survives(criteria))
      {
        var handler := all[i];
        assert all[..i + 1] == all[..i] + [handler];
        Seqs.FilterConcat(all[..i], [handler], Survives(criteria));
        assert Seqs.Filter([handler], Survives(criteria)) == if Matches(handler, criteria) then [] else [handler];
        if !Matches(handler, criteria) {
          keep := keep + [handler];
        }
        i := i + 1;
      }
      assert all[..i] == all;
      handlers := keep;
    }

    /**
     * Runs the handlers of the transition `from --change--> to` in plan
     * order; a callback that raises is caught and the run goes on.
     * Callbacks in `faulty` (and missing callbacks) raise.
     */
    method GoToNextState(change: string, from: Ref, to: Ref, faulty: set<CallbackId>) returns (trace: seq<Invocation>)
      ensures trace == Executed(Plan(handlers, change, from, to), faulty)
    {
      var plan := Plan(handlers, change, from, to);
      trace := [];
      for i := 0 to |plan|
        invariant |trace| == i
        invariant forall k :: 0 <= k < i ==> trace[k] == Invocation(plan[k], Raises(plan[k].callback, faulty))
      {
        var raised := Raises(plan[i].callback, faulty);
        trace := trace + [Invocation(plan[i], raised)];
      }
    }

    /**
     * Requests `change` in the current state. A core change or a change no
     * handler reacts to in this state is ignored; otherwise the planned
     * handlers run and the destination becomes the current state.
     */
    method InitState(change: string, faulty: set<CallbackId>) returns (state: Ref, trace: seq<Invocation>)
      requires Valid()
      modifies this`states
      ensures Valid()
      ensures Resolve(handlers, old(ReadState(1)), change).None? ==>
                state == old(ReadState(1)) && states == old(states) && trace == []
      ensures Resolve(handlers, old(ReadState(1)), change).Some? ==>
                state == Resolve(handlers, old(ReadState(1)), change).value &&
                states == Pushed(old(states), maxStates, state) &&
                trace == Executed(Plan(handlers, change, old(ReadState(1)), state), faulty)
    {
      var from := ReadState(1);
      if IsCore(change) {
        assert Resolve(handlers, from, change).None?;
        return from, [];
      }
      var found := Find(handlers, change, from);
      if found.None? {
        assert Resolve(handlers, from, change).None?;
        return from, [];
      }
      var to := handlers[found.value].to;
      assert Resolve(handlers, from, change) == Some(to);
      trace := GoToNextState(change, from, to, faulty);
      ghost var planned := Executed(Plan(handlers, change, from, to), faulty);
      assert trace == planned;
      var pushed := PushState(to);
      state := to;
      assert trace == planned;
      assert from == old(ReadState(1));
      assert states == Pushed(old(states), maxStates, state);
      assert Valid();
      assert Resolve(handlers, old(ReadState(1)), change).Some?;
    }
  }
}
