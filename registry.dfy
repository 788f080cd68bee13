/**
 * The handler registry of `StateMachine`: the handler record, how a
 * registration is validated and composed, and which handlers a removal
 * keeps.
 */
module Registry {
  import opened Values
  import Seqs

  const Enter: string := "enter"
  const Leave: string := "leave"

  /** The two changes the engine fires itself, on entering and on leaving a state. */
  predicate IsCore(change: string) {
    change == Enter || change == Leave
  }

  /** A registered handler, as `addStateHandler` stores it. */
  datatype Handler = Handler(
    change: string,
    from: Ref,
    to: Ref,
    callback: Option<CallbackId>,
    priority: int,
    comment: Option<string>)

  /** The argument of `addStateHandler`; `priority` is `None` when it is not a number. */
  datatype HandlerSpec = HandlerSpec(
    change: string,
    from: Ref,
    to: Ref,
    callback: Option<CallbackId>,
    priority: Option<int>,
    comment: Option<string>)

  /** The priority a handler gets when none is given: the core table, else -1. */
  function DefaultPriority(change: string): int {
    if change == Enter then 1 else if change == Leave then 0 else -1
  }

  /** The handler record built from a registration. */
  function Compose(spec: HandlerSpec): Handler {
    Handler(
      spec.change,
      if spec.change == Enter then Null else spec.from,
      if spec.change == Leave then Null else spec.to,
      spec.callback,
      if spec.priority.Some? then spec.priority.value else DefaultPriority(spec.change),
      spec.comment)
  }

  /** True when every handler registered for `(change, from)` leads to `to`. */
  function SameDestination(hs: seq<Handler>, change: string, from: Ref, to: Ref): (ok: bool)
    ensures ok <==> forall i :: 0 <= i < |hs| && hs[i].change == change && hs[i].from == from ==> hs[i].to == to
  {
    if hs == [] then true
    else
      (hs[0].change != change || hs[0].from != from || hs[0].to == to) &&
      SameDestination(hs[1..], change, from, to)
  }

  /** Core registrations are always accepted; others must agree with the registered destination. */
  predicate Accepts(hs: seq<Handler>, spec: HandlerSpec) {
    IsCore(spec.change) || SameDestination(hs, spec.change, spec.from, spec.to)
  }

  /** The registry after `addStateHandler(spec)`. */
  function Register(hs: seq<Handler>, spec: HandlerSpec): seq<Handler> {
    if Accepts(hs, spec) then hs + [Compose(spec)] else hs
  }

  /**
   * The registry invariant: two handlers of the same custom change and
   * source state have the same destination.
   */
  ghost predicate Consistent(hs: seq<Handler>) {
    forall a, b :: a in hs && b in hs && !IsCore(a.change) && a.change == b.change && a.from == b.from ==> a.to == b.to
  }

  /** A registration that disagrees with a registered destination leaves the registry as it was. */
  lemma RegisterRejectsConflict(hs: seq<Handler>, spec: HandlerSpec, i: nat)
    requires !IsCore(spec.change)
    requires i < |hs| && hs[i].change == spec.change && hs[i].from == spec.from && hs[i].to != spec.to
    ensures Register(hs, spec) == hs
  {
  }

  /**
   * Whether a registration is accepted (core changes always are, custom
   * ones exactly when no handler for the same change and source state has
   * another destination), and what an accepted one appends.
   */
  lemma RegisterOutcome(hs: seq<Handler>, spec: HandlerSpec)
    ensures var accepted := IsCore(spec.change) ||
              forall i :: 0 <= i < |hs| && hs[i].change == spec.change && hs[i].from == spec.from ==> hs[i].to == spec.to;
      if accepted then
        var r := Register(hs, spec);
        |r| == |hs| + 1 && r[..|hs|] == hs &&
        r[|hs|].change == spec.change && r[|hs|].callback == spec.callback && r[|hs|].comment == spec.comment &&
        r[|hs|].from == (if spec.change == Enter then Null else spec.from) &&
        r[|hs|].to == (if spec.change == Leave then Null else spec.to)
      else Register(hs, spec) == hs
  {
  }

  /**
   * An explicit priority is kept; otherwise `enter` gets 1, `leave` 0 and
   * every other change -1, so that by default custom-change handlers run
   * before `leave` handlers, which run before `enter` handlers.
   */
  lemma ComposedPriority(spec: HandlerSpec)
    ensures spec.priority.Some? ==> Compose(spec).priority == spec.priority.value
    ensures spec.priority.None? && spec.change == Enter ==> Compose(spec).priority == 1
    ensures spec.priority.None? && spec.change == Leave ==> Compose(spec).priority == 0
    ensures spec.priority.None? && !IsCore(spec.change) ==> Compose(spec).priority == -1
    ensures DefaultPriority("") < DefaultPriority(Leave) < DefaultPriority(Enter)
  {
  }

  /** Adding a handler keeps the registry invariant. */
  lemma RegisterPreservesConsistency(hs: seq<Handler>, spec: HandlerSpec)
    requires Consistent(hs)
    ensures Consistent(Register(hs, spec))
  {
  }

  /** One criterion of `removeStateHandler`: the key is absent, or present with a value (maybe `undefined`). */
  datatype Criterion<T> = Unset | Given(value: T)

  /**
   * The criteria object of `removeStateHandler`. Every value is a
   * JavaScript value that may be `undefined`: `None`, or `Undefined` for
   * the state fields.
   */
  datatype Criteria = Criteria(
    change: Criterion<Option<string>>,
    from: Criterion<Ref>,
    to: Criterion<Ref>,
    callback: Criterion<Option<CallbackId>>,
    priority: Criterion<Option<int>>,
    comment: Criterion<Option<string>>)

  /** Some key of the criteria holds a value other than `undefined`. */
  predicate Provided(c: Criteria) {
    (c.change.Given? && c.change.value.Some?) ||
    (c.from.Given? && c.from.value != Undefined) ||
    (c.to.Given? && c.to.value != Undefined) ||
    (c.callback.Given? && c.callback.value.Some?) ||
    (c.priority.Given? && c.priority.value.Some?) ||
    (c.comment.Given? && c.comment.value.Some?)
  }

  /** Every key present in the criteria, `undefined` ones included, equals the handler's field. */
  predicate Matches(h: Handler, c: Criteria) {
    (c.change.Given? ==> c.change.value == Some(h.change)) &&
    (c.from.Given? ==> c.from.value == h.from) &&
    (c.to.Given? ==> c.to.value == h.to) &&
    (c.callback.Given? ==> c.callback.value == h.callback) &&
    (c.priority.Given? ==> c.priority.value == Some(h.priority)) &&
    (c.comment.Given? ==> c.comment.value == h.comment)
  }

  function Doomed(c: Criteria): Handler -> bool {
    h => Matches(h, c)
  }

  function Survives(c: Criteria): Handler -> bool {
    h => !Matches(h, c)
  }

  /** The registry after `removeStateHandler(c)`. */
  function Remaining(hs: seq<Handler>, c: Criteria): seq<Handler> {
    if Provided(c) then Seqs.Filter(hs, Survives(c)) else hs
  }

  /** The handlers `removeStateHandler(c)` drops. */
  function Removed(hs: seq<Handler>, c: Criteria): seq<Handler> {
    if Provided(c) then Seqs.Filter(hs, Doomed(c)) else []
  }

  /**
   * Removal splits the registry: the kept and the removed handlers make up
   * the old registry, each removed handler matches every criterion, each
   * kept one fails some criterion; with no criterion given nothing changes.
   */
  lemma RemovalPartition(hs: seq<Handler>, c: Criteria)
    ensures multiset(Remaining(hs, c)) + multiset(Removed(hs, c)) == multiset(hs)
    ensures forall h :: h in Removed(hs, c) ==> Matches(h, c)
    ensures Provided(c) ==> forall h :: h in Remaining(hs, c) ==> !Matches(h, c)
    ensures !Provided(c) ==> Remaining(hs, c) == hs
  {
    if Provided(c) {
      Seqs.FilterPartition(hs, Survives(c), Doomed(c));
      Seqs.FilterCount(hs, Survives(c));
      Seqs.FilterCount(hs, Doomed(c));
    }
  }

  /** Removing handlers keeps the registry invariant. */
  lemma RemovalPreservesConsistency(hs: seq<Handler>, c: Criteria)
    requires Consistent(hs)
    ensures Consistent(Remaining(hs, c))
  {
    if Provided(c) {
      Seqs.FilterCount(hs, Survives(c));
    }
  }
}
