/**
  The part of the state machine the dispatch handler relies on: the registry
  entries, the machine built from them, the triggers valid from a state
  (`get_triggers`) and the firing of a trigger.

  Callbacks (`conditions`, `unless`, `before`, `after`, `prepare`, `on_enter`,
  `on_exit`) are opaque no-ops here, so every condition holds and the first
  registered transition for a (trigger, source) pair is the one taken.
*/
module StateMachine {
  import opened Util

  /** One `add_transition` entry: trigger pattern, source state name, destination state name. */
  datatype Transition = Transition(trigger: string, source: string, dest: string)

  /**
    The machine, built once from the registry as it stood at construction time.
    Only `transitions` drives dispatch; `states` is kept as the snapshot the
    library validates state names against, which this model does not check.
  */
  datatype Machine = Machine(states: seq<string>, transitions: seq<Transition>)

  /** `tr` is a transition for `trigger` out of `state`. */
  predicate Selects(tr: Transition, trigger: string, state: string)
  {
    tr.trigger == trigger && tr.source == state
  }

  /** Some entry of `ts` uses `trigger`. */
  predicate Declares(ts: seq<Transition>, trigger: string)
  {
    exists i | 0 <= i < |ts| :: ts[i].trigger == trigger
  }

  /** Some entry of `ts` is a transition for `trigger` out of `state`. */
  predicate HasTransition(ts: seq<Transition>, trigger: string, state: string)
  {
    exists i | 0 <= i < |ts| :: Selects(ts[i], trigger, state)
  }

  /** The machine's events: each trigger name once, in order of first registration. */
  function Events(ts: seq<Transition>): seq<string>
  {
    if ts == [] then []
    else
      var e := Events(ts[..|ts| - 1]);
      var t := ts[|ts| - 1].trigger;
      if t in e then e else e + [t]
  }

  /** Every declared trigger is an event, exactly once. */
  lemma {:induction false} EventsSpec(ts: seq<Transition>)
    ensures Distinct(Events(ts))
    ensures forall t :: t in Events(ts) <==> Declares(ts, t)
  {
    if ts != [] {
      var n := |ts| - 1;
      var front := ts[..n];
      EventsSpec(front);
      forall t ensures Declares(ts, t) <==> Declares(front, t) || ts[n].trigger == t {
        if Declares(front, t) {
          var i :| 0 <= i < |front| && front[i].trigger == t;
          assert ts[i].trigger == t;
        }
        if Declares(ts, t) && ts[n].trigger != t {
          var i :| 0 <= i < |ts| && ts[i].trigger == t;
          assert front[i].trigger == t;
        }
      }
    }
  }

  /** Every transition for `b` is preceded by a transition for `a`. */
  predicate RegisteredBefore(ts: seq<Transition>, a: string, b: string)
  {
    forall p | 0 <= p < |ts| && ts[p].trigger == b :: exists q | 0 <= q < p :: ts[q].trigger == a
  }

  /** The entries of `s` appear in order of first registration in `ts`. */
  predicate InRegistrationOrder(s: seq<string>, ts: seq<Transition>)
  {
    forall i, j | 0 <= i < j < |s| :: RegisteredBefore(ts, s[i], s[j])
  }

  /** Appending an entry keeps an order unless it is the first entry for `b`. */
  lemma RegisteredBeforeSnoc(front: seq<Transition>, x: Transition, a: string, b: string)
    requires RegisteredBefore(front, a, b) && (x.trigger == b ==> Declares(front, b))
    ensures RegisteredBefore(front + [x], a, b)
  {
    var ts := front + [x];
    forall p | 0 <= p < |ts| && ts[p].trigger == b ensures exists q | 0 <= q < p :: ts[q].trigger == a {
      var p' := p;
      if p == |front| {
        p' :| 0 <= p' < |front| && front[p'].trigger == b;
      }
      assert front[p'].trigger == b;
      var q :| 0 <= q < p' && front[q].trigger == a;
      assert ts[q] == front[q];
    }
  }

  /** A trigger first registered by the appended entry comes after every trigger registered so far. */
  lemma RegisteredBeforeNew(front: seq<Transition>, x: Transition, a: string)
    requires Declares(front, a) && !Declares(front, x.trigger)
    ensures RegisteredBefore(front + [x], a, x.trigger)
  {
    var ts := front + [x];
    var q :| 0 <= q < |front| && front[q].trigger == a;
    assert ts[q] == front[q];
    forall p | 0 <= p < |front| ensures ts[p].trigger != x.trigger {
      assert ts[p] == front[p];
    }
  }

  /** The machine enumerates its events in order of first registration. */
  lemma {:induction false} EventsOrder(ts: seq<Transition>)
    ensures InRegistrationOrder(Events(ts), ts)
  {
    if ts != [] {
      var n := |ts| - 1;
      var front := ts[..n];
      var e := Events(front);
      var x := ts[n];
      assert ts == front + [x];
      EventsOrder(front);
      EventsSpec(front);
      var ev := Events(ts);
      forall i, j | 0 <= i < j < |ev| ensures RegisteredBefore(ts, ev[i], ev[j]) {
        assert ev[i] == e[i] && e[i] in e;
        if j < |e| {
          assert ev[j] == e[j] && e[j] in e;
          RegisteredBeforeSnoc(front, x, e[i], e[j]);
        } else {
          RegisteredBeforeNew(front, x, e[i]);
        }
      }
    }
  }

  /** The events of `events` that have a transition out of `state`, in the same order. */
  function Offered(events: seq<string>, ts: seq<Transition>, state: string): seq<string>
  {
    if events == [] then []
    else
      var o := Offered(events[..|events| - 1], ts, state);
      var t := events[|events| - 1];
      if HasTransition(ts, t, state) then o + [t] else o
  }

  lemma {:induction false} OfferedSpec(events: seq<string>, ts: seq<Transition>, state: string)
    requires Distinct(events)
    ensures Distinct(Offered(events, ts, state))
    ensures forall t :: t in Offered(events, ts, state) <==> t in events && HasTransition(ts, t, state)
  {
    if events != [] {
      var n := |events| - 1;
      OfferedSpec(events[..n], ts, state);
      assert events == events[..n] + [events[n]];
    }
  }

  /** Filtering only drops events. */
  lemma {:induction false} OfferedSubset(events: seq<string>, ts: seq<Transition>, state: string)
    ensures forall t | t in Offered(events, ts, state) :: t in events
  {
    if events != [] {
      var n := |events| - 1;
      OfferedSubset(events[..n], ts, state);
      assert events == events[..n] + [events[n]];
    }
  }

  /** Filtering keeps the registration order of the events. */
  lemma {:induction false} OfferedOrder(events: seq<string>, ts: seq<Transition>, state: string)
    requires InRegistrationOrder(events, ts)
    ensures InRegistrationOrder(Offered(events, ts, state), ts)
  {
    if events != [] {
      var n := |events| - 1;
      var front := events[..n];
      var t := events[n];
      assert InRegistrationOrder(front, ts) by {
        forall i, j | 0 <= i < j < n ensures RegisteredBefore(ts, front[i], front[j]) {
          assert front[i] == events[i] && front[j] == events[j];
        }
      }
      OfferedOrder(front, ts, state);
      OfferedSubset(front, ts, state);
      var o := Offered(front, ts, state);
      if HasTransition(ts, t, state) {
        var o' := o + [t];
        forall i, j | 0 <= i < j < |o'| ensures RegisteredBefore(ts, o'[i], o'[j]) {
          assert o'[i] == o[i];
          if j < |o| {
            assert o'[j] == o[j];
          } else {
            assert o[i] in front;
            var k :| 0 <= k < n && front[k] == o[i];
            assert events[k] == o'[i] && events[n] == o'[j];
          }
        }
      }
    }
  }

  /**
    `get_triggers(state)`: the triggers valid from `state`, each once, in the
    order the machine enumerates its events.
  */
  function TriggersFrom(ts: seq<Transition>, state: string): seq<string>
  {
    Offered(Events(ts), ts, state)
  }

  /** `get_triggers` lists each trigger once, and exactly those with a transition out of the state. */
  lemma TriggersFromSpec(ts: seq<Transition>, state: string)
    ensures Distinct(TriggersFrom(ts, state))
    ensures forall t :: t in TriggersFrom(ts, state) <==> HasTransition(ts, t, state)
  {
    EventsSpec(ts);
    OfferedSpec(Events(ts), ts, state);
    assert forall t | HasTransition(ts, t, state) :: Declares(ts, t);
  }

  /** `get_triggers` lists the triggers in order of first registration. */
  lemma TriggersFromOrder(ts: seq<Transition>, state: string)
    ensures InRegistrationOrder(TriggersFrom(ts, state), ts)
  {
    EventsSpec(ts);
    EventsOrder(ts);
    OfferedOrder(Events(ts), ts, state);
  }

  /** Firing `trigger` in `state`: the destination of the first registered matching transition, if any. */
  function Fire(ts: seq<Transition>, trigger: string, state: string): Option<string>
  {
    if ts == [] then None
    else if Selects(ts[0], trigger, state) then Some(ts[0].dest)
    else Fire(ts[1..], trigger, state)
  }

  /**
    A trigger fires iff it has a transition out of the state, and then the
    destination is that of the earliest such transition.
  */
  lemma {:induction false} FireSpec(ts: seq<Transition>, trigger: string, state: string)
    ensures Fire(ts, trigger, state).Some? <==> HasTransition(ts, trigger, state)
    ensures forall i | 0 <= i < |ts| && Selects(ts[i], trigger, state) &&
        (forall j | 0 <= j < i :: !Selects(ts[j], trigger, state)) ::
      Fire(ts, trigger, state) == Some(ts[i].dest)
  {
    if ts != [] {
      FireSpec(ts[1..], trigger, state);
      if HasTransition(ts, trigger, state) && !Selects(ts[0], trigger, state) {
        var i :| 0 <= i < |ts| && Selects(ts[i], trigger, state);
        assert Selects(ts[1..][i - 1], trigger, state);
      }
      if HasTransition(ts[1..], trigger, state) {
        var i :| 0 <= i < |ts[1..]| && Selects(ts[1..][i], trigger, state);
        assert Selects(ts[i + 1], trigger, state);
      }
      forall i | 0 <= i < |ts| && Selects(ts[i], trigger, state) &&
          (forall j | 0 <= j < i :: !Selects(ts[j], trigger, state))
        ensures Fire(ts, trigger, state) == Some(ts[i].dest)
      {
        if i > 0 {
          assert ts[1..][i - 1] == ts[i];
          assert forall j | 0 <= j < i - 1 :: ts[1..][j] == ts[j + 1];
        }
      }
    }
  }

  /** A trigger fires from a state exactly when `get_triggers` lists it for that state. */
  lemma FireDefinedIff(ts: seq<Transition>, trigger: string, state: string)
    ensures Fire(ts, trigger, state).Some? <==> trigger in TriggersFrom(ts, state)
  {
    FireSpec(ts, trigger, state);
    TriggersFromSpec(ts, state);
  }

  /**
    Appending a registry entry never changes where an already fireable
    (trigger, state) pair leads; an entry for a new pair becomes its target.
  */
  lemma {:induction false} FireAfterAppend(ts: seq<Transition>, x: Transition, trigger: string, state: string)
    ensures HasTransition(ts, trigger, state) ==> Fire(ts + [x], trigger, state) == Fire(ts, trigger, state)
    ensures !HasTransition(ts, trigger, state) ==>
      Fire(ts + [x], trigger, state) == if Selects(x, trigger, state) then Some(x.dest) else None
  {
    if ts == [] {
    } else {
      assert (ts + [x])[1..] == ts[1..] + [x];
      FireAfterAppend(ts[1..], x, trigger, state);
      if !Selects(ts[0], trigger, state) {
        if HasTransition(ts, trigger, state) {
          var i :| 0 <= i < |ts| && Selects(ts[i], trigger, state);
          assert Selects(ts[1..][i - 1], trigger, state);
        }
        if HasTransition(ts[1..], trigger, state) {
          var i :| 0 <= i < |ts[1..]| && Selects(ts[1..][i], trigger, state);
          assert Selects(ts[i + 1], trigger, state);
        }
      }
    }
  }
}
