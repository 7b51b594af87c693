/**
  What one dispatch does, as functions of the registry and the user table.

  One dispatch loads the user's stored state (defaulting an empty one to the
  start state), binds the machine to it, resolves the event's signal to a
  trigger, fires it, commits the new state, and repeats with the pass-through
  trigger while the new state offers one.

  The user table is a map from user id to stored state name; a user without an
  entry, or with an empty state, is a user with no state yet.
*/
module Dispatch {
  import opened Util
  import opened TriggerResolver
  import opened StateMachine

  // Reserved names shared between the bot author's transitions and the engine.
  const StartStateName: string := "__start__"
  const FreeTextTrigger: string := "__free_text__"
  const PhotoTrigger: string := "__photo_trigger__"
  const LocationTrigger: string := "__location_trigger__"
  const PassingTrigger: string := "__passing_trigger__"

  type UserId = int

  /** An inbound event, reduced to who sent it and its payload. */
  datatype Event =
    | Message(user: UserId, text: string)        // a text or command message
    | Photo(user: UserId)
    | Location(user: UserId)
    | Callback(user: UserId, data: string)       // a callback query with its data

  /** The raw signal an event is dispatched with. */
  function SignalOf(e: Event): string
  {
    match e
    case Message(_, text) => text
    case Photo(_) => PhotoTrigger
    case Location(_) => LocationTrigger
    case Callback(_, data) => data
  }

  /** Why a dispatch stopped early. */
  datatype Failure =
    | AmbiguousTrigger(signal: string, matched: seq<string>)  // the `ValueError`
    | Unfired(trigger: string, state: string)                  // no transition for the resolved trigger
    | PassThroughLimit                                         // the hop bound ran out mid-chain

  /** `START_STATE_NAME if not state else state`. */
  function Default(stored: string): (s: string)
    ensures s != ""
    ensures s == stored || (stored == "" && s == StartStateName)
  {
    if stored == "" then StartStateName else stored
  }

  /** The state a dispatch for `uid` binds the machine to. */
  function BoundState(store: map<UserId, string>, uid: UserId): string
  {
    Default(if uid in store then store[uid] else "")
  }

  /** The outcome of one hop: the state the fired transition leads to, or why nothing fired. */
  datatype StepResult = Fired(dest: string) | Stuck(failure: Failure)

  /** Firing the resolved trigger from `state`. */
  function FireOrStuck(ts: seq<Transition>, trigger: string, state: string): StepResult
  {
    match Fire(ts, trigger, state)
    case None => Stuck(Unfired(trigger, state))
    case Some(d) => Fired(d)
  }

  /** One hop: resolve `signal` against the triggers valid from `state` and fire the result. */
  function Step(ts: seq<Transition>, state: string, signal: string): StepResult
  {
    match Resolve(TriggersFrom(ts, state), signal)
    case Ambiguous(m) => Stuck(AmbiguousTrigger(signal, m))
    case FreeText => FireOrStuck(ts, FreeTextTrigger, state)
    case One(t) => FireOrStuck(ts, t, state)
  }

  /**
    The result of a dispatch chain: the user table afterwards, the machine's
    state, the states committed for the user in order, and the failure, if any.
  */
  datatype DispatchResult = DispatchResult(store: map<UserId, string>, state: string, commits: seq<string>, failure: Option<Failure>)

  /**
    A whole dispatch for `uid` with `signal`, allowing at most `hops`
    pass-through re-dispatches after the first hop.
  */
  function Run(ts: seq<Transition>, store: map<UserId, string>, uid: UserId, signal: string, hops: nat): DispatchResult
    decreases hops
  {
    var state := BoundState(store, uid);
    match Step(ts, state, signal)
    case Stuck(f) => DispatchResult(store, state, [], Some(f))
    case Fired(d) =>
      var committed := store[uid := d];
      if PassingTrigger !in TriggersFrom(ts, d) then
        DispatchResult(committed, d, [d], None)
      else if hops == 0 then
        DispatchResult(committed, d, [d], Some(PassThroughLimit))
      else
        var rest := Run(ts, committed, uid, PassingTrigger, hops - 1);
        DispatchResult(rest.store, rest.state, [d] + rest.commits, rest.failure)
  }

  /** A hop never fails for lack of hops: only the chain runs out of them. */
  lemma StepNeverLimit(ts: seq<Transition>, state: string, signal: string)
    ensures Step(ts, state, signal).Stuck? ==>
      Step(ts, state, signal).failure.AmbiguousTrigger? || Step(ts, state, signal).failure.Unfired?
  {
  }

  /** A first hop that fires nothing ends the dispatch: nothing is committed and the table is unchanged. */
  lemma RunStuck(ts: seq<Transition>, store: map<UserId, string>, uid: UserId, signal: string, hops: nat, f: Failure)
    requires Step(ts, BoundState(store, uid), signal) == Stuck(f)
    ensures Run(ts, store, uid, signal, hops) == DispatchResult(store, BoundState(store, uid), [], Some(f))
  {
  }

  /** A hop that fires into a state offering the pass-through trigger continues the chain. */
  lemma RunContinues(ts: seq<Transition>, store: map<UserId, string>, uid: UserId, signal: string, hops: nat, d: string)
    requires Step(ts, BoundState(store, uid), signal) == Fired(d)
    requires PassingTrigger in TriggersFrom(ts, d) && hops > 0
    ensures var r := Run(ts, store, uid, signal, hops);
      var rest := Run(ts, store[uid := d], uid, PassingTrigger, hops - 1);
      r == DispatchResult(rest.store, rest.state, [d] + rest.commits, rest.failure)
  {
  }

  /** A hop that fires into a state without the pass-through trigger ends the chain there. */
  lemma RunEnds(ts: seq<Transition>, store: map<UserId, string>, uid: UserId, signal: string, hops: nat, d: string)
    requires Step(ts, BoundState(store, uid), signal) == Fired(d)
    requires PassingTrigger !in TriggersFrom(ts, d)
    ensures Run(ts, store, uid, signal, hops) == DispatchResult(store[uid := d], d, [d], None)
  {
  }

  /** A hop into a pass-through state with no hops left stops the chain at the limit. */
  lemma RunStopsAtLimit(ts: seq<Transition>, store: map<UserId, string>, uid: UserId, signal: string, d: string)
    requires Step(ts, BoundState(store, uid), signal) == Fired(d)
    requires PassingTrigger in TriggersFrom(ts, d)
    ensures Run(ts, store, uid, signal, 0) == DispatchResult(store[uid := d], d, [d], Some(PassThroughLimit))
  {
  }

  // ---------------------------------------------------------------------------
  // Properties of one hop

  /** No valid trigger matches: the free-text sentinel is fired. */
  lemma StepNoMatch(ts: seq<Transition>, state: string, signal: string)
    requires forall t | t in TriggersFrom(ts, state) :: !Matches(t, signal)
    ensures Step(ts, state, signal).Fired? <==> HasTransition(ts, FreeTextTrigger, state)
    ensures Step(ts, state, signal).Fired? ==> Fire(ts, FreeTextTrigger, state) == Some(Step(ts, state, signal).dest)
    ensures Step(ts, state, signal).Stuck? ==> Step(ts, state, signal).failure == Unfired(FreeTextTrigger, state)
  {
    var valid := TriggersFrom(ts, state);
    assert forall i | 0 <= i < |valid| :: valid[i] in valid;
    FireSpec(ts, FreeTextTrigger, state);
  }

  /**
    Exactly one valid trigger `t` matches: `t` itself (the pattern, not the raw
    signal) is fired and the hop always reaches the destination of the first
    transition registered for `t` out of `state`.
  */
  lemma StepOneMatch(ts: seq<Transition>, state: string, signal: string, t: string)
    requires t in TriggersFrom(ts, state) && Matches(t, signal)
    requires forall u | u in TriggersFrom(ts, state) && Matches(u, signal) :: u == t
    ensures Fire(ts, t, state).Some? && Step(ts, state, signal) == Fired(Fire(ts, t, state).value)
    ensures forall i | 0 <= i < |ts| && Selects(ts[i], t, state) &&
        (forall j | 0 <= j < i :: !Selects(ts[j], t, state)) ::
      Step(ts, state, signal) == Fired(ts[i].dest)
  {
    var valid := TriggersFrom(ts, state);
    TriggersFromSpec(ts, state);
    var i :| 0 <= i < |valid| && valid[i] == t;
    forall j | 0 <= j < |valid| && j != i ensures !Matches(valid[j], signal) {
      assert valid[j] != valid[i];
    }
    ResolveOneIff(valid, signal, t);
    FireSpec(ts, t, state);
  }

  /**
    Two different valid triggers match: the hop stops with the ambiguity error,
    naming the signal and every matching trigger.
  */
  lemma StepAmbiguous(ts: seq<Transition>, state: string, signal: string, t: string, u: string)
    requires t in TriggersFrom(ts, state) && u in TriggersFrom(ts, state) && t != u
    requires Matches(t, signal) && Matches(u, signal)
    ensures Step(ts, state, signal).Stuck?
    ensures var f := Step(ts, state, signal).failure;
      f.AmbiguousTrigger? && f.signal == signal && t in f.matched && u in f.matched &&
      forall x | x in f.matched :: x in TriggersFrom(ts, state) && Matches(x, signal)
  {
    var valid := TriggersFrom(ts, state);
    TriggersFromSpec(ts, state);
    var i :| 0 <= i < |valid| && valid[i] == t;
    var j :| 0 <= j < |valid| && valid[j] == u;
    if i < j {
      assert Matches(valid[i], signal) && Matches(valid[j], signal);
    } else {
      assert Matches(valid[j], signal) && Matches(valid[i], signal);
    }
    ResolveAmbiguousIff(valid, signal);
    MatchedMembers(valid, signal);
  }

  /**
    The pass-through signal from a state offering the pass-through trigger fires
    that trigger, unless another valid trigger is also a prefix of it.
  */
  lemma PassThroughFiresItself(ts: seq<Transition>, state: string)
    requires PassingTrigger in TriggersFrom(ts, state)
    requires forall u | u in TriggersFrom(ts, state) && Matches(u, PassingTrigger) :: u == PassingTrigger
    ensures Fire(ts, PassingTrigger, state).Some? && Step(ts, state, PassingTrigger) == Fired(Fire(ts, PassingTrigger, state).value)
  {
    StepOneMatch(ts, state, PassingTrigger, PassingTrigger);
  }

  // ---------------------------------------------------------------------------
  // Properties of a dispatch chain

  /**
    A dispatch that commits nothing has failed and left the user table alone;
    it commits at most `hops + 1` times.
  */
  lemma {:induction false} RunCommitCount(ts: seq<Transition>, store: map<UserId, string>, uid: UserId, signal: string, hops: nat)
    ensures var r := Run(ts, store, uid, signal, hops);
      && |r.commits| <= hops + 1
      && (r.commits == [] ==> r.failure.Some? && r.store == store && r.state == BoundState(store, uid))
    decreases hops
  {
    var step := Step(ts, BoundState(store, uid), signal);
    if step.Fired? {
      var d := step.dest;
      var committed := store[uid := d];
      if PassingTrigger in TriggersFrom(ts, d) && hops > 0 {
        RunCommitCount(ts, committed, uid, PassingTrigger, hops - 1);
        var rest := Run(ts, committed, uid, PassingTrigger, hops - 1);
        assert Run(ts, store, uid, signal, hops).commits == [d] + rest.commits;
      }
    }
  }

  /** A second commit for the same user replaces the first. */
  lemma UpdateTwice(store: map<UserId, string>, uid: UserId, first: string, second: string)
    ensures store[uid := first][uid := second] == store[uid := second]
  {
  }

  /** Prepending a commit to a chain that stores its last commit keeps the last commit stored. */
  lemma StoresLastAfterPrepend(store: map<UserId, string>, uid: UserId, d: string, rest: DispatchResult)
    requires rest.commits != [] ==> rest.store == store[uid := d][uid := rest.commits[|rest.commits| - 1]]
    requires rest.commits == [] ==> rest.store == store[uid := d]
    ensures var commits := [d] + rest.commits;
      rest.store == store[uid := commits[|commits| - 1]]
  {
    var commits := [d] + rest.commits;
    if rest.commits != [] {
      var last := rest.commits[|rest.commits| - 1];
      assert commits[|commits| - 1] == last;
      UpdateTwice(store, uid, d, last);
    }
  }

  /** The continuing case of `RunStoresLastCommit`, given the property for the rest of the chain. */
  lemma StoresLastContinues(ts: seq<Transition>, store: map<UserId, string>, uid: UserId, signal: string, hops: nat, d: string)
    requires Step(ts, BoundState(store, uid), signal) == Fired(d)
    requires PassingTrigger in TriggersFrom(ts, d) && hops > 0
    requires var rest := Run(ts, store[uid := d], uid, PassingTrigger, hops - 1);
      rest.commits != [] ==> rest.store == store[uid := d][uid := rest.commits[|rest.commits| - 1]]
    ensures var r := Run(ts, store, uid, signal, hops);
      r.commits != [] ==> r.store == store[uid := r.commits[|r.commits| - 1]]
  {
    RunContinues(ts, store, uid, signal, hops, d);
    RunCommitCount(ts, store[uid := d], uid, PassingTrigger, hops - 1);
    StoresLastAfterPrepend(store, uid, d, Run(ts, store[uid := d], uid, PassingTrigger, hops - 1));
  }

  /**
    Each commit overwrites the user's entry only: after a dispatch that
    committed, the table is the old one with the user's entry set to the last
    committed state.
  */
  lemma {:induction false} RunStoresLastCommit(ts: seq<Transition>, store: map<UserId, string>, uid: UserId, signal: string, hops: nat)
    ensures var r := Run(ts, store, uid, signal, hops);
      r.commits != [] ==> r.store == store[uid := r.commits[|r.commits| - 1]]
    decreases hops
  {
    var step := Step(ts, BoundState(store, uid), signal);
    if step.Fired? && PassingTrigger in TriggersFrom(ts, step.dest) && hops > 0 {
      RunStoresLastCommit(ts, store[uid := step.dest], uid, PassingTrigger, hops - 1);
      StoresLastContinues(ts, store, uid, signal, hops, step.dest);
    } else {
      StoresLastStops(ts, store, uid, signal, hops);
    }
  }

  /** The cases of `RunStoresLastCommit` where the chain ends at the first hop. */
  lemma StoresLastStops(ts: seq<Transition>, store: map<UserId, string>, uid: UserId, signal: string, hops: nat)
    requires var step := Step(ts, BoundState(store, uid), signal);
      !(step.Fired? && PassingTrigger in TriggersFrom(ts, step.dest) && hops > 0)
    ensures var r := Run(ts, store, uid, signal, hops);
      r.commits != [] ==> r.store == store[uid := r.commits[|r.commits| - 1]]
  {
    match Step(ts, BoundState(store, uid), signal)
    case Stuck(f) =>
    case Fired(d) =>
      if PassingTrigger !in TriggersFrom(ts, d) {
        RunEnds(ts, store, uid, signal, hops, d);
      } else {
        RunStopsAtLimit(ts, store, uid, signal, d);
      }
  }

  /**
    `commits` is a pass-through chain: every commit but the last offers the
    pass-through trigger, and the next commit is where that trigger leads.
  */
  predicate PassChain(ts: seq<Transition>, commits: seq<string>)
  {
    forall k | 0 <= k < |commits| - 1 ::
      PassingTrigger in TriggersFrom(ts, commits[k]) &&
      Step(ts, Default(commits[k]), PassingTrigger) == Fired(commits[k + 1])
  }

  /**
    Each hop persists its state: the first commit is the destination of the
    hop for the event's signal, and each later commit is the pass-through hop
    out of the state committed before it, which offered the pass-through
    trigger.
  */
  lemma RunTrace(ts: seq<Transition>, store: map<UserId, string>, uid: UserId, signal: string, hops: nat)
    ensures var r := Run(ts, store, uid, signal, hops);
      && (r.commits != [] ==> Step(ts, BoundState(store, uid), signal) == Fired(r.commits[0]))
      && PassChain(ts, r.commits)
  {
    RunFirstCommit(ts, store, uid, signal, hops);
    RunPassChain(ts, store, uid, signal, hops);
  }

  /** The first commit of a dispatch is where the event's signal fires. */
  lemma RunFirstCommit(ts: seq<Transition>, store: map<UserId, string>, uid: UserId, signal: string, hops: nat)
    ensures var r := Run(ts, store, uid, signal, hops);
      r.commits != [] ==> Step(ts, BoundState(store, uid), signal) == Fired(r.commits[0])
  {
    match Step(ts, BoundState(store, uid), signal)
    case Stuck(f) =>
    case Fired(d) =>
      if PassingTrigger !in TriggersFrom(ts, d) {
        RunEnds(ts, store, uid, signal, hops, d);
      } else if hops == 0 {
        RunStopsAtLimit(ts, store, uid, signal, d);
      } else {
        RunContinues(ts, store, uid, signal, hops, d);
      }
  }

  /** The commits of a dispatch form a pass-through chain. */
  lemma {:induction false} RunPassChain(ts: seq<Transition>, store: map<UserId, string>, uid: UserId, signal: string, hops: nat)
    ensures PassChain(ts, Run(ts, store, uid, signal, hops).commits)
    decreases hops
  {
    var step := Step(ts, BoundState(store, uid), signal);
    if step.Fired? && PassingTrigger in TriggersFrom(ts, step.dest) && hops > 0 {
      RunPassChain(ts, store[uid := step.dest], uid, PassingTrigger, hops - 1);
      PassChainContinues(ts, store, uid, signal, hops, step.dest);
    } else {
      PassChainStops(ts, store, uid, signal, hops);
    }
  }

  /** The cases of `RunPassChain` where the chain ends at the first hop. */
  lemma PassChainStops(ts: seq<Transition>, store: map<UserId, string>, uid: UserId, signal: string, hops: nat)
    requires var step := Step(ts, BoundState(store, uid), signal);
      !(step.Fired? && PassingTrigger in TriggersFrom(ts, step.dest) && hops > 0)
    ensures PassChain(ts, Run(ts, store, uid, signal, hops).commits)
  {
    match Step(ts, BoundState(store, uid), signal)
    case Stuck(f) =>
    case Fired(d) =>
      if PassingTrigger !in TriggersFrom(ts, d) {
        RunEnds(ts, store, uid, signal, hops, d);
      } else {
        RunStopsAtLimit(ts, store, uid, signal, d);
      }
  }

  /** The continuing case of `RunPassChain`, given the chain of the rest of the dispatch. */
  lemma PassChainContinues(ts: seq<Transition>, store: map<UserId, string>, uid: UserId, signal: string, hops: nat, d: string)
    requires Step(ts, BoundState(store, uid), signal) == Fired(d)
    requires PassingTrigger in TriggersFrom(ts, d) && hops > 0
    requires PassChain(ts, Run(ts, store[uid := d], uid, PassingTrigger, hops - 1).commits)
    ensures PassChain(ts, Run(ts, store, uid, signal, hops).commits)
  {
    RunContinues(ts, store, uid, signal, hops, d);
    RunFirstCommit(ts, store[uid := d], uid, PassingTrigger, hops - 1);
    assert BoundState(store[uid := d], uid) == Default(d);
    PassChainPrepend(ts, d, Run(ts, store[uid := d], uid, PassingTrigger, hops - 1).commits);
  }

  /** A pass-through state in front of a chain that starts with its pass-through hop is a chain. */
  lemma PassChainPrepend(ts: seq<Transition>, d: string, rest: seq<string>)
    requires PassingTrigger in TriggersFrom(ts, d)
    requires rest != [] ==> Step(ts, Default(d), PassingTrigger) == Fired(rest[0])
    requires PassChain(ts, rest)
    ensures PassChain(ts, [d] + rest)
  {
    var commits := [d] + rest;
    forall k | 0 <= k < |commits| - 1
      ensures PassingTrigger in TriggersFrom(ts, commits[k]) &&
        Step(ts, Default(commits[k]), PassingTrigger) == Fired(commits[k + 1])
    {
      if k > 0 {
        assert commits[k] == rest[k - 1] && commits[k + 1] == rest[k];
      }
    }
  }

  /**
    A dispatch that returns normally ends in a state without a pass-through
    trigger, and that state is what is stored for the user.
  */
  lemma {:induction false} RunEndsOutsidePassThrough(ts: seq<Transition>, store: map<UserId, string>, uid: UserId, signal: string, hops: nat)
    ensures var r := Run(ts, store, uid, signal, hops);
      r.failure == None ==>
        PassingTrigger !in TriggersFrom(ts, r.state) && uid in r.store && r.store[uid] == r.state &&
        r.commits != [] && r.commits[|r.commits| - 1] == r.state
    decreases hops
  {
    var state := BoundState(store, uid);
    match Step(ts, state, signal)
    case Stuck(f) =>
    case Fired(d) =>
      var committed := store[uid := d];
      if PassingTrigger in TriggersFrom(ts, d) && hops > 0 {
        RunEndsOutsidePassThrough(ts, committed, uid, PassingTrigger, hops - 1);
      }
  }

  /**
    An ambiguous signal aborts before anything is fired or committed: the
    user table is unchanged.
  */
  lemma RunAmbiguousCommitsNothing(ts: seq<Transition>, store: map<UserId, string>, uid: UserId, signal: string, hops: nat, t: string, u: string)
    requires t in TriggersFrom(ts, BoundState(store, uid)) && u in TriggersFrom(ts, BoundState(store, uid)) && t != u
    requires Matches(t, signal) && Matches(u, signal)
    ensures var r := Run(ts, store, uid, signal, hops);
      r.store == store && r.commits == [] && r.state == BoundState(store, uid) &&
      r.failure.Some? && r.failure.value.AmbiguousTrigger? && r.failure.value.signal == signal &&
      t in r.failure.value.matched && u in r.failure.value.matched
  {
    StepAmbiguous(ts, BoundState(store, uid), signal, t, u);
  }

  /**
    A user with no stored state, or an empty one, is dispatched exactly as a
    user stored in the start state.
  */
  lemma {:induction false} EmptyStateIsStart(ts: seq<Transition>, store: map<UserId, string>, uid: UserId, signal: string, hops: nat)
    requires uid !in store || store[uid] == ""
    ensures var r1 := Run(ts, store, uid, signal, hops);
      var r2 := Run(ts, store[uid := StartStateName], uid, signal, hops);
      r1.state == r2.state && r1.commits == r2.commits && r1.failure == r2.failure &&
      (r1.commits != [] ==> r1.store == r2.store)
  {
    var started := store[uid := StartStateName];
    assert BoundState(store, uid) == BoundState(started, uid) == StartStateName;
    match Step(ts, StartStateName, signal)
    case Stuck(f) =>
    case Fired(d) =>
      assert store[uid := d] == started[uid := d];
  }

  /**
    Why a dispatch failed. Running out of hops happens only after `hops + 1`
    commits, the last of which still offers the pass-through trigger. Any
    other failure is the hop after the last commit firing nothing: the event's
    own hop when nothing was committed, otherwise the pass-through hop out of
    the last committed state.
  */
  lemma RunFailure(ts: seq<Transition>, store: map<UserId, string>, uid: UserId, signal: string, hops: nat)
    ensures var r := Run(ts, store, uid, signal, hops);
      && (r.failure == Some(PassThroughLimit) ==>
            |r.commits| == hops + 1 && PassingTrigger in TriggersFrom(ts, r.commits[|r.commits| - 1]))
      && (r.failure.Some? && r.failure != Some(PassThroughLimit) ==>
            if r.commits == [] then Step(ts, BoundState(store, uid), signal) == Stuck(r.failure.value)
            else Step(ts, Default(r.commits[|r.commits| - 1]), PassingTrigger) == Stuck(r.failure.value))
  {
    RunNoCommits(ts, store, uid, signal, hops);
    RunFailureAtEnd(ts, store, uid, signal, hops);
    FailureOfResult(ts, Step(ts, BoundState(store, uid), signal), hops, Run(ts, store, uid, signal, hops));
  }

  /** `RunFailure` for a result `r` whose first hop was `first`. */
  lemma FailureOfResult(ts: seq<Transition>, first: StepResult, hops: nat, r: DispatchResult)
    requires r.commits == [] <==> r.failure.Some? && first == Stuck(r.failure.value)
    requires FailsAtEnd(ts, hops, r)
    ensures r.failure == Some(PassThroughLimit) ==>
      |r.commits| == hops + 1 && PassingTrigger in TriggersFrom(ts, r.commits[|r.commits| - 1])
    ensures r.failure.Some? && r.failure != Some(PassThroughLimit) ==>
      if r.commits == [] then first == Stuck(r.failure.value)
      else Step(ts, Default(r.commits[|r.commits| - 1]), PassingTrigger) == Stuck(r.failure.value)
  {
  }

  /** A dispatch commits nothing exactly when the event's own hop fires nothing. */
  lemma RunNoCommits(ts: seq<Transition>, store: map<UserId, string>, uid: UserId, signal: string, hops: nat)
    ensures var r := Run(ts, store, uid, signal, hops);
      r.commits == [] <==> r.failure.Some? && Step(ts, BoundState(store, uid), signal) == Stuck(r.failure.value)
  {
    match Step(ts, BoundState(store, uid), signal)
    case Stuck(f) =>
      RunStuck(ts, store, uid, signal, hops, f);
    case Fired(d) =>
      if PassingTrigger !in TriggersFrom(ts, d) {
        RunEnds(ts, store, uid, signal, hops, d);
      } else if hops == 0 {
        RunStopsAtLimit(ts, store, uid, signal, d);
      } else {
        RunContinues(ts, store, uid, signal, hops, d);
      }
  }

  /**
    `r`, a dispatch with `hops` to spare that committed something, failed at
    its end: out of hops after `hops + 1` commits into a pass-through state, or
    because the pass-through hop out of its last commit fired nothing.
  */
  predicate FailsAtEnd(ts: seq<Transition>, hops: nat, r: DispatchResult)
  {
    && (r.failure == Some(PassThroughLimit) ==>
          |r.commits| == hops + 1 && PassingTrigger in TriggersFrom(ts, r.commits[|r.commits| - 1]))
    && (r.failure.Some? && r.failure != Some(PassThroughLimit) && r.commits != [] ==>
          Step(ts, Default(r.commits[|r.commits| - 1]), PassingTrigger) == Stuck(r.failure.value))
  }

  /** Every dispatch fails, if at all, at its end. */
  lemma {:induction false} RunFailureAtEnd(ts: seq<Transition>, store: map<UserId, string>, uid: UserId, signal: string, hops: nat)
    ensures FailsAtEnd(ts, hops, Run(ts, store, uid, signal, hops))
    decreases hops
  {
    var step := Step(ts, BoundState(store, uid), signal);
    if step.Fired? && PassingTrigger in TriggersFrom(ts, step.dest) && hops > 0 {
      RunFailureAtEnd(ts, store[uid := step.dest], uid, PassingTrigger, hops - 1);
      FailureContinues(ts, store, uid, signal, hops, step.dest);
    } else {
      FailureStops(ts, store, uid, signal, hops);
    }
  }

  /** The cases of `RunFailureAtEnd` where the chain ends at the first hop. */
  lemma FailureStops(ts: seq<Transition>, store: map<UserId, string>, uid: UserId, signal: string, hops: nat)
    requires var step := Step(ts, BoundState(store, uid), signal);
      !(step.Fired? && PassingTrigger in TriggersFrom(ts, step.dest) && hops > 0)
    ensures FailsAtEnd(ts, hops, Run(ts, store, uid, signal, hops))
  {
    match Step(ts, BoundState(store, uid), signal)
    case Stuck(f) =>
      StepNeverLimit(ts, BoundState(store, uid), signal);
      RunStuck(ts, store, uid, signal, hops, f);
    case Fired(d) =>
      if PassingTrigger !in TriggersFrom(ts, d) {
        RunEnds(ts, store, uid, signal, hops, d);
      } else {
        RunStopsAtLimit(ts, store, uid, signal, d);
      }
  }

  /** The continuing case of `RunFailureAtEnd`, given the property for the rest of the chain. */
  lemma FailureContinues(ts: seq<Transition>, store: map<UserId, string>, uid: UserId, signal: string, hops: nat, d: string)
    requires Step(ts, BoundState(store, uid), signal) == Fired(d)
    requires PassingTrigger in TriggersFrom(ts, d) && hops > 0
    requires FailsAtEnd(ts, hops - 1, Run(ts, store[uid := d], uid, PassingTrigger, hops - 1))
    ensures FailsAtEnd(ts, hops, Run(ts, store, uid, signal, hops))
  {
    RunContinues(ts, store, uid, signal, hops, d);
    var rest := Run(ts, store[uid := d], uid, PassingTrigger, hops - 1);
    RunNoCommits(ts, store[uid := d], uid, PassingTrigger, hops - 1);
    assert BoundState(store[uid := d], uid) == Default(d);
    var commits := [d] + rest.commits;
    if rest.commits != [] {
      assert commits[|commits| - 1] == rest.commits[|rest.commits| - 1];
    }
  }

  /**
    The hop bound only cuts chains short: a dispatch that did not run out of
    hops gives the same result under any larger bound.
  */
  lemma {:induction false} RunHopsMonotone(ts: seq<Transition>, store: map<UserId, string>, uid: UserId, signal: string, hops: nat, more: nat)
    requires Run(ts, store, uid, signal, hops).failure != Some(PassThroughLimit)
    requires hops <= more
    ensures Run(ts, store, uid, signal, more) == Run(ts, store, uid, signal, hops)
    decreases hops, 1
  {
    var step := Step(ts, BoundState(store, uid), signal);
    if step.Fired? && PassingTrigger in TriggersFrom(ts, step.dest) {
      HopsMonotoneContinues(ts, store, uid, signal, hops, more, step.dest);
    } else {
      HopsMonotoneStops(ts, store, uid, signal, hops, more);
    }
  }

  /** The cases of `RunHopsMonotone` where the chain ends at the first hop whatever the bound. */
  lemma HopsMonotoneStops(ts: seq<Transition>, store: map<UserId, string>, uid: UserId, signal: string, hops: nat, more: nat)
    requires var step := Step(ts, BoundState(store, uid), signal);
      !(step.Fired? && PassingTrigger in TriggersFrom(ts, step.dest))
    ensures Run(ts, store, uid, signal, more) == Run(ts, store, uid, signal, hops)
  {
    match Step(ts, BoundState(store, uid), signal)
    case Stuck(f) =>
    case Fired(d) =>
      RunEnds(ts, store, uid, signal, hops, d);
      RunEnds(ts, store, uid, signal, more, d);
  }

  /** A chain that continues past its first hop without reaching the limit has a hop to spare, and so has its rest. */
  lemma ContinuesWithinBound(ts: seq<Transition>, store: map<UserId, string>, uid: UserId, signal: string, hops: nat, d: string)
    requires Step(ts, BoundState(store, uid), signal) == Fired(d)
    requires PassingTrigger in TriggersFrom(ts, d)
    requires Run(ts, store, uid, signal, hops).failure != Some(PassThroughLimit)
    ensures hops > 0 && Run(ts, store[uid := d], uid, PassingTrigger, hops - 1).failure != Some(PassThroughLimit)
  {
    if hops == 0 {
      RunStopsAtLimit(ts, store, uid, signal, d);
    } else {
      RunContinues(ts, store, uid, signal, hops, d);
    }
  }

  /** The continuing case of `RunHopsMonotone`, given the property for the rest of the chain. */
  lemma HopsMonotoneContinues(ts: seq<Transition>, store: map<UserId, string>, uid: UserId, signal: string, hops: nat, more: nat, d: string)
    requires Step(ts, BoundState(store, uid), signal) == Fired(d)
    requires PassingTrigger in TriggersFrom(ts, d)
    requires Run(ts, store, uid, signal, hops).failure != Some(PassThroughLimit)
    requires hops <= more
    ensures Run(ts, store, uid, signal, more) == Run(ts, store, uid, signal, hops)
    decreases hops, 0
  {
    ContinuesWithinBound(ts, store, uid, signal, hops, d);
    RunHopsMonotone(ts, store[uid := d], uid, PassingTrigger, hops - 1, more - 1);
    RunContinues(ts, store, uid, signal, hops, d);
    RunContinues(ts, store, uid, signal, more, d);
  }

  /** `state` offers the pass-through trigger, and the pass-through hop out of it fires into `cycle`. */
  predicate PassesWithin(ts: seq<Transition>, cycle: set<string>, state: string)
  {
    PassingTrigger in TriggersFrom(ts, state) &&
    Step(ts, state, PassingTrigger).Fired? && Step(ts, state, PassingTrigger).dest in cycle
  }

  /**
    A set of states closed under pass-through hops is a runaway cycle: a
    dispatch that enters it never returns normally, whatever the hop bound.
  */
  lemma {:induction false} PassThroughCycleNeverReturns(ts: seq<Transition>, cycle: set<string>, store: map<UserId, string>, uid: UserId, signal: string, hops: nat)
    requires "" !in cycle
    requires forall s {:trigger PassesWithin(ts, cycle, s)} | s in cycle :: PassesWithin(ts, cycle, s)
    requires Step(ts, BoundState(store, uid), signal).Fired? && Step(ts, BoundState(store, uid), signal).dest in cycle
    ensures Run(ts, store, uid, signal, hops).failure == Some(PassThroughLimit)
    decreases hops
  {
    var d := Step(ts, BoundState(store, uid), signal).dest;
    assert PassesWithin(ts, cycle, d);
    if hops > 0 {
      var committed := store[uid := d];
      assert BoundState(committed, uid) == d;
      PassThroughCycleNeverReturns(ts, cycle, committed, uid, PassingTrigger, hops - 1);
    }
  }

  /**
    Signals are plain strings, so a text message whose text starts with the
    photo sentinel is dispatched exactly like a photo whenever the photo
    trigger is the only valid trigger matching either signal.
  */
  lemma SentinelTextActsAsPhoto(ts: seq<Transition>, state: string, suffix: string)
    requires PhotoTrigger in TriggersFrom(ts, state)
    requires forall u | u in TriggersFrom(ts, state) && Matches(u, PhotoTrigger + suffix) :: u == PhotoTrigger
    ensures Step(ts, state, SignalOf(Message(0, PhotoTrigger + suffix))) == Step(ts, state, SignalOf(Photo(0)))
  {
    assert PhotoTrigger <= PhotoTrigger + suffix;
    forall u | u in TriggersFrom(ts, state) && Matches(u, PhotoTrigger) ensures u == PhotoTrigger {
      assert Matches(u, PhotoTrigger + suffix);
    }
    StepOneMatch(ts, state, PhotoTrigger + suffix, PhotoTrigger);
    StepOneMatch(ts, state, PhotoTrigger, PhotoTrigger);
  }
}
