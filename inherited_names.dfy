/**
 * The engine decides whether a change is core with `change in this._core`
 * (src/script.js:62, 91, 155). JavaScript's `in` also finds the names
 * every object inherits from `Object.prototype`, so the code as written
 * treats a change named, say, "toString" as core. This module models that
 * test and exhibits what it does; the rest of the model uses `IsCore`,
 * which holds of "enter" and "leave" only.
 */
module InheritedNames {
  import opened Values
  import opened Registry
  import opened Transition

  /** The properties a plain object inherits from `Object.prototype`. */
  const ObjectPrototypeNames: set<string> := {
    "constructor", "hasOwnProperty", "isPrototypeOf", "propertyIsEnumerable",
    "toLocaleString", "toString", "valueOf", "__proto__",
    "__defineGetter__", "__defineSetter__", "__lookupGetter__", "__lookupSetter__"
  }

  /** `change in this._core` as written: an own key of the table or an inherited one. */
  predicate InCoreTable(change: string) {
    IsCore(change) || change in ObjectPrototypeNames
  }

  /** The registration check of `addStateHandler` as written. */
  predicate AcceptsAsWritten(hs: seq<Handler>, spec: HandlerSpec) {
    InCoreTable(spec.change) || SameDestination(hs, spec.change, spec.from, spec.to)
  }

  /** The resolution of `initState` as written. */
  function ResolveAsWritten(hs: seq<Handler>, from: Ref, change: string): Option<Ref> {
    if InCoreTable(change) then None else Resolve(hs, from, change)
  }

  /**
   * With a handler registered for "toString" from `a` to `b`, requesting
   * "toString" in `a` is rejected as a core change, and a second
   * registration from `a` to `c` is accepted although it contradicts the
   * first, which breaks the registry invariant. With `IsCore` the request
   * moves to `b` and the contradicting registration is rejected.
   */
  lemma InheritedNameActsAsCore()
    ensures var h := Handler("toString", Name("a"), Name("b"), Some(0), -1, None);
      ResolveAsWritten([h], Name("a"), "toString") == None &&
      Resolve([h], Name("a"), "toString") == Some(Name("b"))
    ensures var h := Handler("toString", Name("a"), Name("b"), Some(0), -1, None);
      var spec := HandlerSpec("toString", Name("a"), Name("c"), Some(1), None, None);
      AcceptsAsWritten([h], spec) && !Consistent([h, Compose(spec)]) &&
      Register([h], spec) == [h]
  {
  }
}
