/**
 * The example machine that the driver script wires up (two states, `off`
 * and `on`, toggled by `switch`), worked through the model.
 */
module Scenario {
  import opened Values
  import opened Registry
  import opened Transition

  const Off: Ref := Name("off")
  const On: Ref := Name("on")
  const Switch: string := "switch"

  /** The driver's eight registrations; callback `k` is the one registered `k`-th. */
  const Registrations: seq<HandlerSpec> := [
    HandlerSpec(Enter, Undefined, Off, Some(1), None, None),
    HandlerSpec(Leave, Off, Undefined, Some(2), None, None),
    HandlerSpec(Switch, Off, On, Some(3), None, Some("off-switch-on")),
    HandlerSpec(Enter, Undefined, On, Some(4), None, None),
    HandlerSpec(Enter, Undefined, On, Some(5), Some(-5), None),
    HandlerSpec(Leave, On, Undefined, Some(6), None, None),
    HandlerSpec(Switch, On, Off, Some(7), None, Some("on-switch-off")),
    HandlerSpec(Switch, On, Off, Some(8), None, Some("on-switch-off"))
  ]

  /** The driver's removal: `switch` handlers from `on` with the eighth callback. */
  const Removal: Criteria := Criteria(Given(Some(Switch)), Given(On), Unset, Given(Some(8)), Unset, Unset)

  /** The registry after registering `specs` in order. */
  function RegisterAll(hs: seq<Handler>, specs: seq<HandlerSpec>): seq<Handler>
    decreases specs
  {
    if specs == [] then hs else RegisterAll(Register(hs, specs[0]), specs[1..])
  }

  /** The callbacks of a plan, in plan order. */
  function Callbacks(plan: seq<Handler>): seq<Option<CallbackId>> {
    seq(|plan|, i requires 0 <= i < |plan| => plan[i].callback)
  }

  /** The registry the driver builds, as records. */
  const Expected: seq<Handler> := [
    Handler(Enter, Null, Off, Some(1), 1, None),
    Handler(Leave, Off, Null, Some(2), 0, None),
    Handler(Switch, Off, On, Some(3), -1, Some("off-switch-on")),
    Handler(Enter, Null, On, Some(4), 1, None),
    Handler(Enter, Null, On, Some(5), -5, None),
    Handler(Leave, On, Null, Some(6), 0, None),
    Handler(Switch, On, Off, Some(7), -1, Some("on-switch-off"))
  ]

  const Eighth: Handler := Handler(Switch, On, Off, Some(8), -1, Some("on-switch-off"))

  /** The `k`-th registration of the driver is accepted and appends its record. */
  lemma DriverStep(k: nat)
    requires k < 8
    ensures Register((Expected + [Eighth])[..k], Registrations[k]) == (Expected + [Eighth])[..k + 1]
  {
    var r, e := Registrations, Expected + [Eighth];
    assert Compose(r[k]) == e[k];
    if k == 2 || k == 6 || k == 7 {
      assert Accepts(e[..k], r[k]);
    }
    assert e[..k + 1] == e[..k] + [e[k]];
  }

  /** Registering the driver's specifications from the `k`-th on completes the registry. */
  lemma {:induction false} DriverRegistrations(k: nat)
    requires k <= 8
    decreases 8 - k
    ensures RegisterAll((Expected + [Eighth])[..k], Registrations[k..]) == Expected + [Eighth]
  {
    var r, e := Registrations, Expected + [Eighth];
    if k == 8 {
      assert r[k..] == [] && e[..k] == e;
    } else {
      DriverStep(k);
      DriverRegistrations(k + 1);
      assert r[k..][0] == r[k] && r[k..][1..] == r[k + 1..];
    }
  }

  /** The driver's removal drops the eighth registration and nothing else. */
  lemma DriverRemoval()
    ensures Remaining(Expected + [Eighth], Removal) == Expected
  {
    var keep := Survives(Removal);
    Seqs.FilterConcat(Expected, [Eighth], keep);
    Seqs.FilterKeepsAll(Expected, keep);
    assert Seqs.Filter([Eighth], keep) == [];
  }

  /** The handlers the driver's first `switch` involves, in registration order. */
  lemma SelectFromOff()
    ensures Select(Expected, Switch, Off, On) == [Expected[1], Expected[2], Expected[3], Expected[4]]
  {
    var e := Expected;
    var f := AppliesTo(Switch, Off, On);
    assert e == [e[0]] + [e[1], e[2], e[3], e[4]] + [e[5], e[6]];
    Seqs.FilterConcat([e[0]] + [e[1], e[2], e[3], e[4]], [e[5], e[6]], f);
    Seqs.FilterConcat([e[0]], [e[1], e[2], e[3], e[4]], f);
    Seqs.FilterKeepsAll([e[1], e[2], e[3], e[4]], f);
    Seqs.FilterDropsAll([e[0]], f);
    Seqs.FilterDropsAll([e[5], e[6]], f);
  }

  /** Sorting the handlers of the first `switch` by priority. */
  lemma SortFromOff()
    ensures SortByPriority([Expected[1], Expected[2], Expected[3], Expected[4]]) ==
            [Expected[4], Expected[2], Expected[1], Expected[3]]
  {
    var e := Expected;
    var a, b, c, d := e[1], e[2], e[3], e[4];
    assert a.priority == 0 && b.priority == -1 && c.priority == 1 && d.priority == -5;
    var s := [a, b, c, d];
    assert s[1..] == [b, c, d] && s[2..] == [c, d] && s[3..] == [d];
    assert SortByPriority([d]) == [d];
    assert Insert(c, [d]) == [d, c];
    assert SortByPriority([c, d]) == [d, c];
    assert Insert(b, [d, c]) == [d] + Insert(b, [c]);
    assert SortByPriority([b, c, d]) == [d, b, c];
    assert Insert(a, [d, b, c]) == [d] + Insert(a, [b, c]);
    assert Insert(a, [b, c]) == [b] + Insert(a, [c]);
  }

  /**
   * From `off`, `switch` leads to `on` and runs, in order: the `enter on`
   * handler of priority -5, the `switch` action (-1), the `leave off`
   * handler (0) and the default `enter on` handler (1).
   */
  lemma DriverSwitchFromOff()
    ensures Resolve(Expected, Off, Switch) == Some(On)
    ensures Callbacks(Plan(Expected, Switch, Off, On)) == [Some(5), Some(3), Some(2), Some(4)]
  {
    SelectFromOff();
    SortFromOff();
    var e := Expected;
    var plan := [e[4], e[2], e[1], e[3]];
    assert Plan(Expected, Switch, Off, On) == plan;
  }

  /** The handlers the driver's second `switch` involves, in registration order. */
  lemma SelectFromOn()
    ensures Select(Expected, Switch, On, Off) == [Expected[0], Expected[5], Expected[6]]
  {
    var e := Expected;
    var f := AppliesTo(Switch, On, Off);
    assert e == [e[0]] + [e[1], e[2], e[3], e[4]] + [e[5], e[6]];
    Seqs.FilterConcat([e[0]] + [e[1], e[2], e[3], e[4]], [e[5], e[6]], f);
    Seqs.FilterConcat([e[0]], [e[1], e[2], e[3], e[4]], f);
    Seqs.FilterKeepsAll([e[0]], f);
    Seqs.FilterKeepsAll([e[5], e[6]], f);
    Seqs.FilterDropsAll([e[1], e[2], e[3], e[4]], f);
  }

  /**
   * From `on`, `switch` leads back to `off` and runs the `switch` action
   * (-1), the `leave on` handler (0) and the `enter off` handler (1).
   */
  lemma DriverSwitchFromOn()
    ensures Resolve(Expected, On, Switch) == Some(Off)
    ensures Callbacks(Plan(Expected, Switch, On, Off)) == [Some(7), Some(6), Some(1)]
  {
    SelectFromOn();
    var e := Expected;
    var a, b, c := e[0], e[5], e[6];
    assert a.priority == 1 && b.priority == 0 && c.priority == -1;
    assert SortByPriority([c]) == [c];
    assert [a, b, c][1..] == [b, c] && [b, c][1..] == [c];
    assert Insert(b, [c]) == [c] + Insert(b, []);
    assert SortByPriority([b, c]) == [c, b];
    assert Insert(a, [c, b]) == [c] + Insert(a, [b]);
    assert Plan(Expected, Switch, On, Off) == [c, b, a];
  }

  /** The driver's requests `on`, `off`, `enter` and `leave` in state `off` are all ignored. */
  lemma DriverIgnored()
    ensures Resolve(Expected, Off, "on") == None
    ensures Resolve(Expected, Off, "off") == None
    ensures Resolve(Expected, Off, Enter) == None
    ensures Resolve(Expected, Off, Leave) == None
  {
  }
}
