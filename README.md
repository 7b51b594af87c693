# Bot constructor dispatch core

A model of the dispatch core of `Constructor`, the class in `src/tbc/constructor.py` that turns a
Telegram bot into a finite-state machine. Bot authors register states with `add_state` and
transitions with `add_transition`. Every inbound event is reduced to a signal string:
- message text;
- the photo sentinel `__photo_trigger__`;
- the location sentinel `__location_trigger__`;
- callback data.

The private `__handler` then handles the event for one user, in these steps:

1. It loads the user's stored state. An empty state becomes `__start__`.
2. It binds the shared machine to that state. The machine is built from the registry on the first
   dispatch.
3. It matches the signal, anchored at its start, against every trigger the state offers.
4. It fires a trigger chosen by the number of matches:
   - no match: the free-text sentinel;
   - exactly one match: that trigger's pattern;
   - two or more: an error, and nothing is fired.
5. It writes the new state back to the user record and commits it.
6. If the new state offers the pass-through sentinel, it runs again with that sentinel.

Modules:

- `Util` (`util.dfy`): `Option` and a `Distinct` predicate on sequences.
- `TriggerResolver` (`trigger_resolver.dfy`): the anchored match, restricted to literal patterns, so
  it is a prefix test. Also the matched list and the three-way resolution rule.
- `StateMachine` (`state_machine.dfy`): the registered transitions, as a snapshot seen by the machine.
  - `TriggersFrom` is the trigger list the machine offers from a state. It holds each trigger name
    once, in order of first registration, and keeps those with a transition out of the state.
  - `Fire` moves along the first registered transition for a (trigger, source) pair.
- `Dispatch` (`dispatch.dfy`):
  - the sentinel constants and the event kinds;
  - the defaulting rule;
  - `Step`, one resolve-and-fire step;
  - `Run`, a whole dispatch with its pass-through chain, its commits and its failure. `Run` is a
    function of the transitions, the user table, the user, the signal and a hop bound.
- `BotConstructor` (`constructor.dfy`): the imperative model, the class `Constructor`.
  - Its fields: the registry lists `states` and `transitions`, the lazily built `machine`, the
    current `state` and the user table `store`.
  - `Handler` is proved against `Run`. It binds the machine, collects matches in a loop, fires,
    commits, and recurses for the pass-through chain.
  - The four event wrappers derive the signal.
- `Scenarios` (`scenarios.dfy`): two small bots, worked through end to end. One takes a photo, one is a
  pass-through chain. The photo bot is also driven through the `Constructor` object itself.

## Model

The functions `Dispatch.BoundState` (`src/tbc/constructor.py:62`), `Dispatch.Step` (`src/tbc/constructor.py:74-90`) and `Dispatch.Run` (the whole `__handler`, `src/tbc/constructor.py:48-96`) carry no contract of their own. The lemma rows about them below state their properties.

| member | source | states |
|---|---|---|
| TriggerResolver.MatchedIsOrderedFilter | src/tbc/constructor.py:74-78 | The matched list is exactly the offered triggers whose pattern matches at the start of the signal, at strictly increasing positions, so enumeration order is kept and every matching position is included |
| TriggerResolver.MatchedMembers | src/tbc/constructor.py:74-78 | A trigger is in the matched list iff it is offered and its pattern matches the signal |
| TriggerResolver.Resolve | src/tbc/constructor.py:80-88 | Free text iff no offered trigger matches. A single result is an offered, matching trigger equal to every matching one. An ambiguity carries the matched list itself, so at least two offered triggers, all matching, in offered order |
| TriggerResolver.ResolveOneIff | src/tbc/constructor.py:82-83 | The resolution is `One(t)` iff exactly one offered position matches and it holds `t`. The fired trigger is then the pattern, not the raw signal |
| TriggerResolver.ResolveAmbiguousIff | src/tbc/constructor.py:84-88 | The resolution is ambiguous iff two distinct offered positions both match |
| StateMachine.EventsSpec | src/tbc/constructor.py:74 | The machine's trigger names are distinct and are exactly the triggers of registered transitions |
| StateMachine.TriggersFromSpec | src/tbc/constructor.py:74 | The triggers offered from a state are distinct and are exactly those with a registered transition out of that state |
| StateMachine.EventsOrder | src/tbc/constructor.py:74 | The machine's trigger names are in order of first registration: every transition for a later name is preceded by a transition for each earlier name |
| StateMachine.TriggersFromOrder | src/tbc/constructor.py:74 | The triggers offered from a state are in order of first registration, which fixes the order of the matched list and of the ambiguity error |
| StateMachine.FireSpec | src/tbc/constructor.py:90 | Firing succeeds iff a transition for (trigger, state) is registered, and it lands on the destination of the first such transition |
| StateMachine.FireDefinedIff | src/tbc/constructor.py:74-90 | Firing a trigger succeeds iff the trigger is among those offered from the state |
| StateMachine.FireAfterAppend | src/tbc/constructor.py:135-143 | Appending a transition never changes the outcome of a pair that already fired. Otherwise the new transition becomes the target when it selects the pair |
| Dispatch.Default | src/tbc/constructor.py:62 | The effective state is never empty: a non-empty stored state is kept, and an empty one becomes the start state |
| Dispatch.EmptyStateIsStart | src/tbc/constructor.py:62-72 | A user with no entry or an empty entry dispatches exactly like one stored in the start state: same final state, commits and failure |
| Dispatch.StepNoMatch | src/tbc/constructor.py:80-81 | With no matching trigger, the free-text sentinel is fired. The step succeeds iff the state has a free-text transition, and otherwise fails as `Unfired` for that sentinel |
| Dispatch.StepOneMatch | src/tbc/constructor.py:82-83 | With exactly one matching trigger, the step fires that trigger and lands on the destination of its first transition from the state |
| Dispatch.StepAmbiguous | src/tbc/constructor.py:84-88 | With two distinct matching triggers, the step fails as `AmbiguousTrigger`, carrying the signal |
| Dispatch.PassThroughFiresItself | src/tbc/constructor.py:95-96 | In a state that offers the pass-through sentinel, and where no other offered trigger is a prefix of it, the sentinel signal fires the pass-through transition. Otherwise the step is ambiguous, as `Dispatch.StepAmbiguous` states |
| Dispatch.RunStuck | src/tbc/constructor.py:84-93 | A first hop that fires nothing ends the dispatch with that failure. Nothing is committed, the table is unchanged and the machine stays in the bound state |
| Dispatch.RunEnds | src/tbc/constructor.py:90-96 | A hop that fires into a state without pass-through commits that state and ends the dispatch normally |
| Dispatch.RunStopsAtLimit | src/tbc/constructor.py:92-96 | A hop into a pass-through state with no hops left commits that state, then stops with the limit failure |
| Dispatch.RunContinues | src/tbc/constructor.py:92-96 | A hop into a pass-through state, with hops left, commits that state and dispatches again with the pass-through sentinel. The result is that of the rest of the chain, with this commit in front |
| Dispatch.RunNoCommits | src/tbc/constructor.py:84-93 | A dispatch commits nothing iff it failed and the event's own hop fired nothing, with that failure |
| Dispatch.RunFailure | src/tbc/constructor.py:84-96 | Running out of hops happens only after hops+1 commits, the last of which offers pass-through. Any other failure is the next hop firing nothing: the event's own hop when nothing was committed, otherwise the pass-through hop out of the last commit |
| Dispatch.RunAmbiguousCommitsNothing | src/tbc/constructor.py:84-93 | An ambiguous first signal commits nothing, leaves the user table unchanged and reports the ambiguity |
| Dispatch.RunCommitCount | src/tbc/constructor.py:84-96 | At most hops+1 commits happen. A dispatch that commits nothing has failed and leaves the table and the bound state unchanged |
| Dispatch.RunStoresLastCommit | src/tbc/constructor.py:92-93 | After any commit, the table equals the old table with only this user's entry set to the last committed state |
| Dispatch.RunTrace | src/tbc/constructor.py:90-96 | The first commit is the step for the signal. Each later commit follows one that offers pass-through, and is that state's pass-through step, so each hop persists its state |
| Dispatch.RunEndsOutsidePassThrough | src/tbc/constructor.py:92-96 | A dispatch that returns normally ends in a state without pass-through. That state is the user's stored state and the last commit |
| Dispatch.RunHopsMonotone | src/tbc/constructor.py:95-96 | A dispatch that returns normally within a hop bound returns the same result under any larger bound |
| Dispatch.PassThroughCycleNeverReturns | src/tbc/constructor.py:95-96 | If every state of a set offers pass-through into the set, a dispatch whose first step enters the set never returns normally and always ends with the limit failure, whatever the bound |
| Dispatch.SentinelTextActsAsPhoto | src/tbc/constructor.py:102-110 | In a state offering the photo sentinel, a text message that starts with the sentinel and matches no other offered trigger takes the same step as a photo event |
| BotConstructor.CollectMatches | src/tbc/constructor.py:74-78 | The loop builds the matched list in order. A trigger is in it iff it is offered and matches |
| BotConstructor.FireSignal | src/tbc/constructor.py:74-90 | Resolution and firing in code give the step specified by `Step` |
| BotConstructor.Constructor.constructor | src/tbc/constructor.py:37-46 | Empty registry, no machine, no current state, the given user table |
| BotConstructor.Constructor.AddState | src/tbc/constructor.py:126-133 | Appends exactly one state name without validation and changes nothing else |
| BotConstructor.Constructor.AddTransition | src/tbc/constructor.py:135-143 | Appends exactly one transition without validation and changes nothing else |
| BotConstructor.Constructor.Bind | src/tbc/constructor.py:59-72 | Builds the machine from the registry snapshot on first use, keeps it afterwards, and binds the user's defaulted state |
| BotConstructor.Constructor.Hop | src/tbc/constructor.py:59-93 | One bind-resolve-fire-commit step equals `Step`. A failure leaves the table unchanged. A success sets only this user's entry and the current state to the destination |
| BotConstructor.Constructor.Handler | src/tbc/constructor.py:48-96 | The whole dispatch, pass-through included, gives the table, state and failure of `Run` on the machine snapshot. On normal return the state has no pass-through and is the user's stored state |
| BotConstructor.Constructor.MessageHandler | src/tbc/constructor.py:98-103 | A text or command event dispatches its message text, over the registry snapshot taken at the first dispatch |
| BotConstructor.Constructor.PhotoHandler | src/tbc/constructor.py:105-110 | A photo event dispatches the photo sentinel, over the registry snapshot taken at the first dispatch |
| BotConstructor.Constructor.LocationHandler | src/tbc/constructor.py:112-117 | A location event dispatches the location sentinel, over the registry snapshot taken at the first dispatch |
| BotConstructor.Constructor.CallbackHandler | src/tbc/constructor.py:119-124 | A callback event dispatches its callback data, over the registry snapshot taken at the first dispatch |
| Scenarios.PhotoBotConversation | src/tbc/constructor.py:48-96 | A new user saying hello moves to `await_photo`, and a photo then moves the user to `done` |
| Scenarios.PhotoBotSession | src/tbc/constructor.py:64-72 | Driven through the object, the photo bot's registration and a new user's hello and photo store `done` with no failure. A transition registered after the first dispatch is not seen by the machine, so a later message fails as `Unfired` with nothing committed |
| Scenarios.ChainBotRunsThrough | src/tbc/constructor.py:92-96 | A two-hop pass-through chain commits every hop and ends in its last state. With one hop too few it stops with the limit failure after committing the hops it made |

## Left out

- The Telegram transport is not modelled. That covers `Updater`, `Dispatcher`, handler registration, polling, `main` (`src/tbc/constructor.py:145-160`) and the bot token, all of which are I/O.
- The event kind chosen by the transport's filters is an input (`Event`).
- Logging (`src/tbc/constructor.py:58`) is output only.
- `src/tbc/db_adapter.py` is not part of this model. A `map` from user id to state name stands in for the user table, and a missing entry reads as an empty state.
  - Creating the user record, its profile fields and its creation timestamp are not modelled.
  - Creating the user record on first contact (`src/tbc/db_adapter.py:69-77`) is not modelled. The model writes the user's entry only at a commit.
- The `self.user`, `self.context` and `self.update` fields only carry transport objects and the user record. That record is the table entry here. The context passed on the pass-through call is not modelled.
- The callbacks and guards of the `transitions` library are treated as no-ops that always allow the transition. That covers `conditions`, `unless`, `before`, `after`, `prepare`, `on_enter` and `on_exit`, and for that reason `AddState` and `AddTransition` record only the name and the (trigger, source, dest) triple.
- The library's behaviour when a fired trigger has no transition from the current state is not modelled. The main case is the free-text sentinel in a state without a free-text transition. The model reports it as the failure `Unfired` and commits nothing.
- The library's automatic `to_<state>` triggers, wildcard and reflexive transitions, and its checks on undeclared states are not modelled. Those checks apply when binding a state and when building the machine.
- Patterns are literal prefixes, not full regular expressions. This holds for every sentinel name.
- Callback data that is absent is not modelled. The source passes it straight to the matcher.
- The machine is shared and rebound across users, which matters only under concurrency. The model performs one dispatch at a time.
- BotConstructor.Constructor.Handler: the pass-through recursion is unbounded in the source. The model bounds it with `hops` and fails with `PassThroughLimit` when the bound runs out. `Dispatch.RunHopsMonotone` shows that a larger bound never changes a normal result.
- Dispatch.StepNoMatch: the source leaves the outcome of an unmatched signal to the `transitions` library when the state has no free-text transition. It is not silently absorbed, and the model states it as a failure.
