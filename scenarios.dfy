/**
  Concrete bots run through the dispatch model and through the constructor object.
*/
module Scenarios {
  import opened Util
  import opened TriggerResolver
  import opened StateMachine
  import opened Dispatch
  import opened BotConstructor

  // Registries of two or three entries, unfolded once.

  lemma EventsOfTwo(x: Transition, y: Transition)
    ensures Events([x, y]) == if y.trigger == x.trigger then [x.trigger] else [x.trigger, y.trigger]
  {
    assert [x, y][..1] == [x];
    assert Events([x]) == [x.trigger] by { assert [x][..0] == []; }
  }

  lemma EventsOfThree(x: Transition, y: Transition, z: Transition)
    ensures Events([x, y, z]) == (var e := Events([x, y]); if z.trigger in e then e else e + [z.trigger])
  {
    assert [x, y, z][..2] == [x, y];
  }

  lemma OfferedOfTwo(a: string, b: string, ts: seq<Transition>, state: string)
    ensures Offered([a, b], ts, state) ==
      (if HasTransition(ts, a, state) then [a] else []) + (if HasTransition(ts, b, state) then [b] else [])
  {
    assert [a, b][..1] == [a];
    assert Offered([a], ts, state) == if HasTransition(ts, a, state) then [a] else [] by {
      assert [a][..0] == [];
    }
  }

  lemma HasTransitionOfTwo(x: Transition, y: Transition, trigger: string, state: string)
    ensures HasTransition([x, y], trigger, state) <==> Selects(x, trigger, state) || Selects(y, trigger, state)
  {
    assert [x, y][0] == x && [x, y][1] == y;
  }

  lemma HasTransitionOfThree(x: Transition, y: Transition, z: Transition, trigger: string, state: string)
    ensures HasTransition([x, y, z], trigger, state) <==>
      Selects(x, trigger, state) || Selects(y, trigger, state) || Selects(z, trigger, state)
  {
    assert [x, y, z][0] == x && [x, y, z][1] == y && [x, y, z][2] == z;
  }

  /** "hello" from the start state asks for a photo; a photo then finishes. */
  function PhotoBot(): seq<Transition>
  {
    [Transition("hello", StartStateName, "await_photo"), Transition(PhotoTrigger, "await_photo", "done")]
  }

  /** The photo bot offers "hello" in the start state and the photo sentinel in "await_photo". */
  lemma PhotoBotTriggers(state: string)
    ensures TriggersFrom(PhotoBot(), state) ==
      (if state == StartStateName then ["hello"] else []) + (if state == "await_photo" then [PhotoTrigger] else [])
  {
    var x := Transition("hello", StartStateName, "await_photo");
    var y := Transition(PhotoTrigger, "await_photo", "done");
    assert PhotoBot() == [x, y];
    EventsOfTwo(x, y);
    OfferedOfTwo("hello", PhotoTrigger, [x, y], state);
    HasTransitionOfTwo(x, y, "hello", state);
    HasTransitionOfTwo(x, y, PhotoTrigger, state);
  }

  lemma PhotoBotSteps()
    ensures Step(PhotoBot(), StartStateName, "hello") == Fired("await_photo")
    ensures Step(PhotoBot(), "await_photo", PhotoTrigger) == Fired("done")
  {
    var ts := PhotoBot();
    PhotoBotTriggers(StartStateName);
    StepOneMatch(ts, StartStateName, "hello", "hello");
    assert Selects(ts[0], "hello", StartStateName);
    PhotoBotTriggers("await_photo");
    StepOneMatch(ts, "await_photo", PhotoTrigger, PhotoTrigger);
    assert Selects(ts[1], PhotoTrigger, "await_photo") && !Selects(ts[0], PhotoTrigger, "await_photo");
  }

  /** In "done" nothing is offered, and the bot has no free-text transition there. */
  lemma PhotoBotDoneIsFinal(signal: string)
    ensures Step(PhotoBot(), "done", signal) == Stuck(Unfired(FreeTextTrigger, "done"))
  {
    PhotoBotTriggers("done");
    FireSpec(PhotoBot(), FreeTextTrigger, "done");
    assert !Selects(PhotoBot()[0], FreeTextTrigger, "done") && !Selects(PhotoBot()[1], FreeTextTrigger, "done");
  }

  /** A new user's "hello" fires from the start state and stores "await_photo". */
  lemma PhotoBotGreeting(uid: UserId)
    ensures Run(PhotoBot(), map[], uid, "hello", 0) ==
      DispatchResult(map[uid := "await_photo"], "await_photo", ["await_photo"], None)
  {
    PhotoBotTriggers("await_photo");
    PhotoBotSteps();
    assert BoundState(map[], uid) == StartStateName;
    RunEnds(PhotoBot(), map[], uid, "hello", 0, "await_photo");
  }

  /** A photo in "await_photo" stores "done". */
  lemma PhotoBotPhoto(uid: UserId)
    ensures Run(PhotoBot(), map[uid := "await_photo"], uid, PhotoTrigger, 0) ==
      DispatchResult(map[uid := "done"], "done", ["done"], None)
  {
    PhotoBotTriggers("done");
    PhotoBotSteps();
    assert BoundState(map[uid := "await_photo"], uid) == "await_photo";
    RunEnds(PhotoBot(), map[uid := "await_photo"], uid, PhotoTrigger, 0, "done");
    assert map[uid := "await_photo"][uid := "done"] == map[uid := "done"];
  }

  /** A new user says "hello", then sends a photo: the stored state goes to "await_photo", then to "done". */
  lemma PhotoBotConversation(uid: UserId)
    ensures var r1 := Run(PhotoBot(), map[], uid, SignalOf(Message(uid, "hello")), 0);
      r1.failure == None && r1.store == map[uid := "await_photo"] &&
      var r2 := Run(PhotoBot(), r1.store, uid, SignalOf(Photo(uid)), 0);
      r2.failure == None && r2.store == map[uid := "done"]
  {
    PhotoBotGreeting(uid);
    PhotoBotPhoto(uid);
  }

  /**
    The photo bot driven through the constructor object: register the states
    and transitions, then a new user says "hello" and sends a photo. A
    transition registered after the first dispatch is not seen by the machine,
    so the later "again" finds no transition and commits nothing.
  */
  method PhotoBotSession(uid: UserId) returns (c: Constructor, greeted: Option<Failure>, photographed: Option<Failure>, late: Option<Failure>)
    ensures greeted == None && photographed == None
    ensures late == Some(Unfired(FreeTextTrigger, "done"))
    ensures c.store == map[uid := "done"] && c.state == "done"
    ensures c.transitions == PhotoBot() + [Transition("again", "done", StartStateName)]
  {
    c := new Constructor(map[]);
    c.AddState(StartStateName);
    c.AddState("await_photo");
    c.AddState("done");
    c.AddTransition("hello", StartStateName, "await_photo");
    c.AddTransition(PhotoTrigger, "await_photo", "done");
    assert c.transitions == PhotoBot();
    PhotoBotConversation(uid);
    greeted := c.MessageHandler(uid, "hello", 0);
    photographed := c.PhotoHandler(uid, 0);
    c.AddTransition("again", "done", StartStateName);
    PhotoBotDoneIsFinal("again");
    assert BoundState(c.store, uid) == "done";
    late := c.MessageHandler(uid, "again", 0);
  }

  /** "go" from the start state enters "a", which passes through "b" into "c". */
  function ChainBot(): seq<Transition>
  {
    [Transition("go", StartStateName, "a"), Transition(PassingTrigger, "a", "b"), Transition(PassingTrigger, "b", "c")]
  }

  /** The chain bot offers "go" in the start state and the pass-through sentinel in "a" and "b". */
  lemma ChainBotTriggers(state: string)
    ensures TriggersFrom(ChainBot(), state) ==
      (if state == StartStateName then ["go"] else []) + (if state == "a" || state == "b" then [PassingTrigger] else [])
  {
    var x := Transition("go", StartStateName, "a");
    var y := Transition(PassingTrigger, "a", "b");
    var z := Transition(PassingTrigger, "b", "c");
    assert ChainBot() == [x, y, z];
    EventsOfTwo(x, y);
    EventsOfThree(x, y, z);
    OfferedOfTwo("go", PassingTrigger, [x, y, z], state);
    HasTransitionOfThree(x, y, z, "go", state);
    HasTransitionOfThree(x, y, z, PassingTrigger, state);
  }

  lemma ChainBotSteps()
    ensures Step(ChainBot(), StartStateName, "go") == Fired("a")
    ensures Step(ChainBot(), "a", PassingTrigger) == Fired("b")
    ensures Step(ChainBot(), "b", PassingTrigger) == Fired("c")
  {
    var ts := ChainBot();
    ChainBotTriggers(StartStateName);
    ChainBotTriggers("a");
    ChainBotTriggers("b");
    StepOneMatch(ts, StartStateName, "go", "go");
    assert Selects(ts[0], "go", StartStateName);
    StepOneMatch(ts, "a", PassingTrigger, PassingTrigger);
    assert Selects(ts[1], PassingTrigger, "a") && !Selects(ts[0], PassingTrigger, "a");
    StepOneMatch(ts, "b", PassingTrigger, PassingTrigger);
    assert Selects(ts[2], PassingTrigger, "b") && !Selects(ts[0], PassingTrigger, "b") && !Selects(ts[1], PassingTrigger, "b");
  }

  /**
    Any registry in which `signal` leads a new user from the start state to `a`,
    and pass-through leads on from `a` to `b` and from `b` to `c`, where the
    chain ends.
  */
  lemma PassThroughChain(ts: seq<Transition>, uid: UserId, signal: string, a: string, b: string, c: string)
    requires a != "" && b != ""
    requires Step(ts, StartStateName, signal) == Fired(a)
    requires Step(ts, a, PassingTrigger) == Fired(b) && Step(ts, b, PassingTrigger) == Fired(c)
    requires PassingTrigger in TriggersFrom(ts, a) && PassingTrigger in TriggersFrom(ts, b)
    requires PassingTrigger !in TriggersFrom(ts, c)
    ensures Run(ts, map[], uid, signal, 2) == DispatchResult(map[uid := c], c, [a, b, c], None)
    ensures Run(ts, map[], uid, signal, 1) == DispatchResult(map[uid := b], b, [a, b], Some(PassThroughLimit))
  {
    assert BoundState(map[], uid) == StartStateName;
    var s1 := map[][uid := a];
    assert BoundState(s1, uid) == a;
    var s2 := s1[uid := b];
    assert BoundState(s2, uid) == b;
    RunEnds(ts, s2, uid, PassingTrigger, 0, c);
    RunContinues(ts, s1, uid, PassingTrigger, 1, b);
    RunStopsAtLimit(ts, s1, uid, PassingTrigger, b);
    RunContinues(ts, map[], uid, signal, 2, a);
    RunContinues(ts, map[], uid, signal, 1, a);
    assert s2[uid := c] == map[uid := c];
    assert s1[uid := b] == map[uid := b];
  }

  /**
    One "go" from a new user runs the whole chain: three commits, and "c" is
    stored. With one pass-through hop allowed the chain stops in "b".
  */
  lemma ChainBotRunsThrough(uid: UserId)
    ensures var r := Run(ChainBot(), map[], uid, "go", 2);
      r.failure == None && r.commits == ["a", "b", "c"] && r.store == map[uid := "c"]
    ensures var r := Run(ChainBot(), map[], uid, "go", 1);
      r.failure == Some(PassThroughLimit) && r.commits == ["a", "b"] && r.store == map[uid := "b"]
  {
    ChainBotSteps();
    ChainBotTriggers("a");
    ChainBotTriggers("b");
    ChainBotTriggers("c");
    PassThroughChain(ChainBot(), uid, "go", "a", "b", "c");
  }
}
