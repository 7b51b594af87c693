/**
  The bot constructor: a registry of states and transitions, and the dispatch
  handler that drives one user's conversation through the state machine.
*/
module BotConstructor {
  import opened Util
  import opened TriggerResolver
  import opened StateMachine
  import opened Dispatch

  // ---------------------------------------------------------------------------
  // The handler's matching loop

  /** Collects the valid triggers that match the signal, in order. */
  method CollectMatches(triggers: seq<string>, signal: string) returns (matched: seq<string>)
    ensures matched == Matched(triggers, signal)
    ensures forall t :: t in matched <==> t in triggers && Matches(t, signal)
  {
    matched := [];
    for i := 0 to |triggers|
      invariant matched == Matched(triggers[..i], signal)
    {
      assert triggers[..i + 1][..i] == triggers[..i];
      if triggers[i] <= signal {
        matched := matched + [triggers[i]];
      }
    }
    assert triggers[..|triggers|] == triggers;
    MatchedMembers(triggers, signal);
  }

  /**
    The middle of the handler: match the signal against the triggers valid
    from `state`, apply the three-way rule and fire the chosen trigger.
  */
  method FireSignal(ts: seq<Transition>, state: string, signal: string) returns (r: StepResult)
    ensures r == Step(ts, state, signal)
  {
    var triggers := TriggersFrom(ts, state);
    var matched := CollectMatches(triggers, signal);
    var trigger: string;
    if |matched| == 0 {
      trigger := FreeTextTrigger;
    } else if |matched| == 1 {
      trigger := matched[0];
    } else {
      return Stuck(AmbiguousTrigger(signal, matched));
    }
    match Fire(ts, trigger, state) {
      case None =>
        r := Stuck(Unfired(trigger, state));
      case Some(d) =>
        r := Fired(d);
    }
  }

  // ---------------------------------------------------------------------------
  // The constructor object

  class Constructor {
    var states: seq<string>             // `add_state` entries, by name
    var transitions: seq<Transition>    // `add_transition` entries
    var machine: Option<Machine>        // built on the first dispatch
    var state: string                   // the machine's current state ("" before any dispatch)
    var store: map<UserId, string>      // the users' stored states

    constructor (users: map<UserId, string>)
      ensures states == [] && transitions == [] && machine == None && state == "" && store == users
    {
      states := [];
      transitions := [];
      machine := None;
      state := "";
      store := users;
    }

    /** `add_state`: appends one state, without validation. */
    method AddState(name: string)
      modifies this
      ensures states == old(states) + [name]
      ensures transitions == old(transitions) && machine == old(machine)
      ensures state == old(state) && store == old(store)
    {
      states := states + [name];
    }

    /** `add_transition`: appends one transition, without validation. */
    method AddTransition(trigger: string, source: string, dest: string)
      modifies this
      ensures transitions == old(transitions) + [Transition(trigger, source, dest)]
      ensures states == old(states) && machine == old(machine)
      ensures state == old(state) && store == old(store)
    {
      transitions := transitions + [Transition(trigger, source, dest)];
    }

    /**
      The first half of `__handler`: load the user's state (an empty one
      becomes the start state), build the machine from the registry on the
      first dispatch, and bind it to that state.
    */
    method Bind(uid: UserId)
      modifies this
      ensures states == old(states) && transitions == old(transitions) && store == old(store)
      ensures machine == Some(if old(machine).Some? then old(machine).value else Machine(old(states), old(transitions)))
      ensures state == BoundState(store, uid)
    {
      var stored := if uid in store then store[uid] else "";
      var userState := if stored == "" then StartStateName else stored;
      if machine.None? {
        machine := Some(Machine(states, transitions));
      }
      state := userState;
    }

    /**
      One hop of `__handler`: bind, resolve and fire, then commit the new state
      for the user; nothing is committed when the hop is stuck.
    */
    method Hop(uid: UserId, signal: string) returns (step: StepResult)
      modifies this
      ensures states == old(states) && transitions == old(transitions)
      ensures machine == Some(if old(machine).Some? then old(machine).value else Machine(old(states), old(transitions)))
      ensures step == Step(machine.value.transitions, BoundState(old(store), uid), signal)
      ensures step.Stuck? ==> store == old(store) && state == BoundState(old(store), uid)
      ensures step.Fired? ==> store == old(store)[uid := step.dest] && state == step.dest
    {
      Bind(uid);
      step := FireSignal(machine.value.transitions, state, signal);
      if step.Fired? {
        state := step.dest;
        store := store[uid := state];  // commit_user
      }
    }

    /**
      `__handler`: one hop for `uid` with `signal`, then the pass-through
      re-dispatch while the new state offers it, at most `hops` times.
    */
    method Handler(uid: UserId, signal: string, hops: nat) returns (failure: Option<Failure>)
      modifies this
      ensures states == old(states) && transitions == old(transitions)
      ensures machine == Some(if old(machine).Some? then old(machine).value else Machine(old(states), old(transitions)))
      ensures var r := Run(machine.value.transitions, old(store), uid, signal, hops);
        store == r.store && state == r.state && failure == r.failure
      ensures failure == None ==>
        PassingTrigger !in TriggersFrom(machine.value.transitions, state) && uid in store && store[uid] == state
      decreases hops
    {
      ghost var before := store;
      var step := Hop(uid, signal);
      var ts := machine.value.transitions;
      RunEndsOutsidePassThrough(ts, before, uid, signal, hops);
      if step.Stuck? {
        return Some(step.failure);
      }
      if PassingTrigger in TriggersFrom(ts, state) {
        if hops == 0 {
          return Some(PassThroughLimit);
        }
        RunContinues(ts, before, uid, signal, hops, state);
        failure := Handler(uid, PassingTrigger, hops - 1);
      } else {
        failure := None;
      }
    }

    /** `__msg_handler`: text and command messages dispatch with their text. */
    method MessageHandler(uid: UserId, text: string, hops: nat) returns (failure: Option<Failure>)
      modifies this
      ensures states == old(states) && transitions == old(transitions)
      ensures machine == Some(if old(machine).Some? then old(machine).value else Machine(old(states), old(transitions)))
      ensures var r := Run(machine.value.transitions, old(store), uid, SignalOf(Message(uid, text)), hops);
        store == r.store && state == r.state && failure == r.failure
    {
      failure := Handler(uid, text, hops);
    }

    /** `__photo_handler`: photos dispatch with the photo sentinel. */
    method PhotoHandler(uid: UserId, hops: nat) returns (failure: Option<Failure>)
      modifies this
      ensures states == old(states) && transitions == old(transitions)
      ensures machine == Some(if old(machine).Some? then old(machine).value else Machine(old(states), old(transitions)))
      ensures var r := Run(machine.value.transitions, old(store), uid, SignalOf(Photo(uid)), hops);
        store == r.store && state == r.state && failure == r.failure
    {
      failure := Handler(uid, PhotoTrigger, hops);
    }

    /** `__location_handler`: locations dispatch with the location sentinel. */
    method LocationHandler(uid: UserId, hops: nat) returns (failure: Option<Failure>)
      modifies this
      ensures states == old(states) && transitions == old(transitions)
      ensures machine == Some(if old(machine).Some? then old(machine).value else Machine(old(states), old(transitions)))
      ensures var r := Run(machine.value.transitions, old(store), uid, SignalOf(Location(uid)), hops);
        store == r.store && state == r.state && failure == r.failure
    {
      failure := Handler(uid, LocationTrigger, hops);
    }

    /** `__clb_handler`: callback queries dispatch with their callback data. */
    method CallbackHandler(uid: UserId, data: string, hops: nat) returns (failure: Option<Failure>)
      modifies this
      ensures states == old(states) && transitions == old(transitions)
      ensures machine == Some(if old(machine).Some? then old(machine).value else Machine(old(states), old(transitions)))
      ensures var r := Run(machine.value.transitions, old(store), uid, SignalOf(Callback(uid, data)), hops);
        store == r.store && state == r.state && failure == r.failure
    {
      failure := Handler(uid, data, hops);
    }
  }
}
