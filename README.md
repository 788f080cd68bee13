# A verified model of the `StateMachine` engine

`StateMachine` (src/script.js) is a small finite-state-machine engine.
Callers register **handlers**. Each handler reacts to a named **change**
requested in a source state (`from`), or to the two **core changes** that
the engine fires itself: `enter` into a state and `leave` out of a state.
Callers drive the machine with `initState(change)`. The engine does four
things:

- It resolves the destination from the first handler that matches the
  change and the current state.
- It runs the matching custom handlers, the `leave` handlers of the source
  state and the `enter` handlers of the destination. They run in ascending
  priority, ties in registration order, and a callback that raises is
  caught so the next one still runs.
- It records the destination in a bounded history of visited states.
- It validates registrations, so that a custom change has one destination
  per source state.

The model is in Dafny, one module per part of the engine:

- `values.dfy` (`Values`): JavaScript values in state positions. `Ref` is a
  state name, `null` or `undefined`. The two stay apart because the engine
  compares with `===` and stores `null` itself: `from` for `enter` handlers,
  `to` for `leave` handlers. Callbacks are opaque identities.
- `seqs.dfy` (`Seqs`): `Filter`, the order-preserving filter that the
  engine's `filter` and `reduce` calls perform, with its counting lemmas.
- `registry.dfy` (`Registry`): the handler record, the registration check,
  the default priorities, the registry invariant (`Consistent`) and removal
  by criteria.
- `history.dfy` (`History`): the bounded history and its eviction rule.
- `transition.dfy` (`Transition`): destination resolution, the selection of
  the handlers of a transition, the stable priority sort, and the record of
  a run (`Executed`).
- `machine.dfy` (`Machine`): the class `StateMachine` with fields `states`,
  `maxStates` and `handlers`. Its methods update them in place, as the
  source does. Every method keeps `Valid()`: the history is non-empty and
  within its bound, and the registry is consistent. Each method is proved
  against the functions above.
- `scenario.dfy` (`Scenario`): the example machine of the driver script
  (src/script.js:223-325), worked through the model.
- `inherited_names.dfy` (`InheritedNames`): the code's core-change test as
  written. See Findings.

Which callbacks raise is a parameter, `faulty`. A missing callback always
raises, as calling `undefined` does. A run returns the sequence of
invocations it made. That sequence is how the model states the execution
order and fault isolation.

The doc comment at src/script.js:50 gives the default priorities the other
way round. The model follows the table at src/script.js:15-18: `enter` is
1, `leave` is 0 and any other change is -1. So by default, custom-change
handlers run first, then `leave` handlers, then `enter` handlers.

With the driver's registrations, the second `switch` (from `on`) runs the
`switch` action, then the `leave on` handler, then the `enter off` handler
registered at src/script.js:229 (`Scenario.DriverSwitchFromOn`).

The filter `"to" in handler` (src/script.js:69) is always true, because
every stored handler has a `to` key. The model leaves it out for that
reason.

## Model

| member | source | states |
|---|---|---|
| `Registry.SameDestination` | src/script.js:64-70 | true exactly when every registered handler with the given change and source state has the given destination |
| `Registry.RegisterRejectsConflict` | src/script.js:62-77 | a custom-change registration whose destination differs from that of a registered handler with the same change and source leaves the registry unchanged |
| `Registry.RegisterOutcome` | src/script.js:62-96 | a registration is accepted exactly when its change is core or no handler with the same change and source has another destination; an accepted one appends exactly one handler at the end, keeps all earlier ones, and stores `from = null` for `enter`, `to = null` for `leave`, otherwise the supplied fields; a rejected one changes nothing |
| `Registry.ComposedPriority` | src/script.js:89-93 | an explicit numeric priority is kept; otherwise `enter` gets 1, `leave` 0 and any other change -1 (the table at lines 15-18), so custom < leave < enter by default |
| `Registry.RegisterPreservesConsistency` | src/script.js:62-96 | adding a handler keeps the invariant that all handlers of one custom change and source state share one destination |
| `Registry.RemovalPartition` | src/script.js:115-135 | with no criterion given (every value undefined) the registry is unchanged; otherwise the kept and the removed handlers together are the old registry, every removed handler matches every criterion key (undefined-valued keys too) and every kept one fails one |
| `Registry.RemovalPreservesConsistency` | src/script.js:125-135 | removal keeps the registry invariant |
| `History.PushedShape` | src/script.js:34-41 | a push on a non-empty history within its bound stays within it, makes the pushed state the newest entry, and keeps a suffix of the old history before it |
| `History.PushAllKeepsNewest` | src/script.js:34-41 | after any sequence of pushes, the history holds exactly the newest `maxStates` states it has seen (just one when `maxStates` < 1) |
| `Transition.Find` | src/script.js:162-164 | the index of the first handler, in registration order, whose change and source match; none exactly when no handler matches |
| `Transition.Resolve` | src/script.js:150-175 | a request is rejected exactly when the change is core or no handler matches it in the current state; otherwise the destination is the `to` of a matching handler |
| `Transition.ResolveDestination` | src/script.js:162-175 | in a consistent registry every matching handler leads to the resolved destination |
| `Transition.InsertSorted` | src/script.js:195 | inserting a handler into a priority-sorted sequence keeps it sorted |
| `Transition.SortSorts` | src/script.js:195 | the priority sort returns a sequence in ascending priority with the same handlers and multiplicities |
| `Transition.SortStable` | src/script.js:195 | the sort is stable: for every priority, the handlers of that priority keep their relative order |
| `Transition.PlanOrder` | src/script.js:189-195 | the planned handlers are exactly the custom handlers matching the change and source, the `leave` handlers of the source and the `enter` handlers of the destination, each as often as registered, in ascending priority with ties in registration order |
| `Transition.Executed` | src/script.js:202-217 | a run invokes every planned handler exactly once, in plan order, whether or not any callback raises; each invocation records whether its callback raised |
| `Machine.StateMachine.constructor` | src/script.js:2-19 | a new machine's history is the initial state (`"idle"` when undefined), its bound is `maxStates` (1000 when undefined), and it has no handlers |
| `Machine.StateMachine.ReadState` | src/script.js:26-32 | `ReadState(k)` is the entry `k` back from the newest (1 is the current state), `undefined` out of range |
| `Machine.StateMachine.PushState` | src/script.js:34-41 | the history becomes the pushed history, the pushed state is current and returned, older entries move one place back, and the history stays within its bound |
| `Machine.StateMachine.AddStateHandler` | src/script.js:54-102 | the registry becomes the one the registration check and record give, and stays consistent |
| `Machine.StateMachine.RemoveStateHandler` | src/script.js:115-143 | the registry becomes the subsequence of handlers that fail some criterion, in the original order, and is unchanged when no criterion is given |
| `Machine.StateMachine.GoToNextState` | src/script.js:188-220 | the returned run is the planned handlers executed one by one, each exactly once |
| `Machine.StateMachine.InitState` | src/script.js:150-186 | a rejected request returns the current state with history unchanged and nothing run; an accepted one runs the plan, pushes the destination and returns it; handlers never change |
| `Scenario.DriverRegistrations` | src/script.js:229-300 | all eight registrations of the example are accepted and build the expected records |
| `Scenario.DriverRemoval` | src/script.js:302-306 | removing by change, source and callback drops exactly the eighth registration |
| `Scenario.DriverSwitchFromOff` | src/script.js:311 | from `off`, `switch` leads to `on` and runs the `enter on` handler of priority -5, the `switch` action, the `leave off` handler, then the default `enter on` handler |
| `Scenario.DriverSwitchFromOn` | src/script.js:313 | from `on`, `switch` leads to `off` and runs the `switch` action, the `leave on` handler, then the `enter off` handler |
| `Scenario.DriverIgnored` | src/script.js:315-318 | in `off`, the requests `on`, `off`, `enter` and `leave` are rejected |
| `InheritedNames.InheritedNameActsAsCore` | src/script.js:155-161 | as written, a change named `toString` counts as core: its request is rejected although a handler matches, and a contradicting registration of it is accepted and breaks the registry invariant |

## Findings

| source | as written | input that shows it | evidently intended | confidence | as-written member | corrected member |
|---|---|---|---|---|---|---|
| src/script.js:155 | `change in this._core` is also true for names inherited from `Object.prototype`, so `initState` rejects such a change as core | a handler for `toString` from `a` to `b`; `initState("toString")` in `a` | only `enter` and `leave` are core; the machine moves to `b` | high; not executed | `InheritedNames.InheritedNameActsAsCore` | `Transition.Resolve` |
| src/script.js:62 | the same test skips the destination check for such a change (and line 92 then takes an inherited function as the priority) | a handler for `toString` from `a` to `b`; registering `toString` from `a` to `c` | the second registration is rejected and the registry stays consistent | high; not executed | `InheritedNames.InheritedNameActsAsCore` | `Registry.RegisterPreservesConsistency` |

## Left out

- Debug logging: `_debugLog`, every `console.debug` message and its number formatting (src/script.js:21-24, 203-211). It only observes and never affects control flow. The `debug` and `name` options and the random default name exist only for it, so the class has no such fields.
- Callback bodies and JavaScript exceptions. A callback is an opaque identity, and whether it raises is the `faulty` parameter. What a callback does to the outside world is not modelled.
- Re-entrant calls: a callback that calls `initState`, `addStateHandler` or `removeStateHandler` on the same machine while a transition runs. The source does not guard against it.
- Priorities are integers. Floating-point and NaN priorities are not modelled. The `a.priority - b.priority` comparator is modelled as integer comparison inside a stable insertion sort.
- Handlers are values. Two registrations with identical fields are indistinguishable in the model, while the source keeps two objects. Removal and selection compare fields, so they behave the same. "Exactly once" is stated as multiplicity.
- A change name is always a string. An `undefined` change in `addStateHandler` is not modelled.
- Removal criteria have the six documented keys. Any other key is not modelled. A missing criteria object is modelled as one with no keys, which is also a no-op.
- `maxStates` is an integer or undefined. Other JavaScript values (null, strings) are not modelled.
- Machine.StateMachine.GoToNextState: does not return `to`, because its one caller ignores the value (src/script.js:177, 219).
- The driver script (src/script.js:223-325) is not part of the engine. Only its registrations and requests appear, as the scenario lemmas. Its final history is not stated.
- archive/utils.js (`getDeep`/`setDeep`) is not part of this model. It is a generic path helper over untyped objects, unrelated to the state machine.
