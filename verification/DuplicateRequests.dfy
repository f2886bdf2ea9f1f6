/** What becomes of a call whose request is already stored, or is stored while the call is under way. */
module DuplicateRequests {
  import opened Prelude
  import opened CatalogBundle
  import opened Dialogue
  import opened DialogueProofs
  import opened Payload
  import opened StateStore
  import opened TurnProtocol

  /** Where a call can be that will end with this reply, unless it crashes. */
  predicate HeadsFor(pc: Pc, reply: Reply) {
    match pc
    case Called => reply.Response?
    case Missed => false
    case Loaded(_) => reply.Response?
    case Computed(_, _) => reply.Response?
    case Returned(r) => r == reply
    case Crashed => true
  }

  /** The request of client i is stored, and its call is bound to end with this reply. */
  ghost predicate Bound(w: World, i: int, call: Call, body: Json, reply: Reply) {
    && 0 <= i < |w.clients| && w.clients[i].call == call
    && FindTurn(w.store.turns, call.sessionId, call.requestId) == Some(body)
    && (reply == Response(body) || reply == RevisionConflict)
    && HeadsFor(w.clients[i].pc, reply)
  }

  lemma CommitReplays(inputs: Inputs, w: World, i: nat, body: Json)
    requires Inv(inputs, w) && i < |w.clients| && w.clients[i].pc.Computed?
    requires var c := w.clients[i].call; FindTurn(w.store.turns, c.sessionId, c.requestId) == Some(body)
    ensures Step(inputs, w, CommitStep(i)) == At(w, i, Returned(Response(body)))
  {
    hide Handle, StateFrom, StatePayload, ResultPayload, SessionInv, Sequential, UniqueRequests;
    assert ClientInv(inputs, w.store, w.clients[i]);
    CommitStepIs(inputs, w, i);
    assert w.(store := w.store) == w;
  }

  lemma CommitLeavesOthers(inputs: Inputs, w: World, k: nat, i: nat)
    requires Inv(inputs, w) && k < |w.clients| && w.clients[k].pc.Computed? && i < |w.clients| && i != k
    ensures var w' := Step(inputs, w, CommitStep(k));
      && |w'.clients| == |w.clients| && w'.clients[i] == w.clients[i]
      && forall sid, rid :: FindTurn(w.store.turns, sid, rid).Some? ==>
           FindTurn(w'.store.turns, sid, rid) == FindTurn(w.store.turns, sid, rid)
  {
    hide Inv, Handle, Committed, Inserting;
    var input := CommitEffect(inputs, w, k);
    var c, s := w.clients[k].call, w.clients[k].pc.base;
    forall sid, rid | FindTurn(w.store.turns, sid, rid).Some?
      ensures FindTurn(Step(inputs, w, CommitStep(k)).store.turns, sid, rid) == FindTurn(w.store.turns, sid, rid)
    {
      FindTurnAppend(w.store.turns, TurnRow(s, c.requestId, c.text, input), sid, rid);
    }
  }

  lemma StepKeepsBound(inputs: Inputs, w: World, a: Action, i: nat, call: Call, body: Json, reply: Reply)
    requires Inv(inputs, w) && Bound(w, i, call, body, reply)
    ensures Bound(Step(inputs, w, a), i, call, body, reply)
  {
    hide Inv, Handle, StatePayload, StateFrom, Package, Committed;
    match a
    case CommitStep(k) =>
      if k < |w.clients| && w.clients[k].pc.Computed? {
        if k == i { CommitReplays(inputs, w, i, body); } else { CommitLeavesOthers(inputs, w, k, i); }
      }
    case _ =>
  }

  lemma {:induction false} RunKeepsBound(inputs: Inputs, actions: seq<Action>, more: seq<Action>, i: nat, call: Call, body: Json, reply: Reply)
    requires Bound(Execute(inputs, actions), i, call, body, reply)
    ensures Bound(Execute(inputs, actions + more), i, call, body, reply)
    decreases |more|
  {
    hide Step, Inv, Bound;
    if more == [] {
      assert actions + more == actions;
    } else {
      var n := |more| - 1;
      var all := actions + more;
      assert all[..|all| - 1] == actions + more[..n] && all[|all| - 1] == more[n];
      RunKeepsBound(inputs, actions, more[..n], i, call, body, reply);
      ReachableInv(inputs, actions + more[..n]);
      StepKeepsBound(inputs, Execute(inputs, actions + more[..n]), more[n], i, call, body, reply);
    }
  }

  /**
   * Once a turn is stored, a call for its request that has not yet looked for the replay, or that
   * already has its state, can end in one way only: with the stored response. Its next steps do end it.
   */
  lemma StoredTurnReplayed(inputs: Inputs, actions: seq<Action>, more: seq<Action>, i: nat, body: Json)
    requires i < |Execute(inputs, actions).clients|
    requires var w := Execute(inputs, actions);
      var c := w.clients[i].call;
      && FindTurn(w.store.turns, c.sessionId, c.requestId) == Some(body)
      && (w.clients[i].pc.Called? || w.clients[i].pc.Loaded? || w.clients[i].pc.Computed?)
    ensures var w, v := Execute(inputs, actions), Execute(inputs, actions + more);
      && i < |v.clients|
      && (v.clients[i].pc.Returned? ==> v.clients[i].pc.reply == Response(body))
      && (w.clients[i].pc.Called? ==> Step(inputs, w, ReadReplay(i)) == At(w, i, Returned(Response(body))))
      && (w.clients[i].pc.Computed? ==> Step(inputs, w, CommitStep(i)) == At(w, i, Returned(Response(body))))
  {
    hide Inv, Handle, StatePayload, StateFrom, Package, Committed, Execute;
    var w := Execute(inputs, actions);
    var c := w.clients[i].call;
    ReachableInv(inputs, actions);
    RunKeepsBound(inputs, actions, more, i, c, body, Response(body));
    if w.clients[i].pc.Computed? { CommitReplays(inputs, w, i, body); }
  }

  lemma StoredSessionRow(inputs: Inputs, store: Store, c: Call)
    requires StoreInv(inputs, store) && FindTurn(store.turns, c.sessionId, c.requestId).Some?
    ensures c.sessionId in store.sessions
    ensures var s := StateFrom(store.sessions[c.sessionId].state, c.sessionId);
      s.Some? && s.value.revision == store.sessions[c.sessionId].revision
  {
    hide StateFrom, StateAfter, Sequential;
    FindTurnAt(store.turns, c.sessionId, c.requestId);
    var k :| 0 <= k < |store.turns| && store.turns[k].sessionId == c.sessionId && store.turns[k].requestId == c.requestId;
    assert SessionInv(store, c.sessionId);
  }

  lemma StateReadSplits(inputs: Inputs, w: World, i: nat, body: Json)
    requires Inv(inputs, w) && i < |w.clients| && w.clients[i].pc.Missed?
    requires var c := w.clients[i].call; FindTurn(w.store.turns, c.sessionId, c.requestId) == Some(body)
    ensures var c := w.clients[i].call;
      && c.sessionId in w.store.sessions
      && Bound(Step(inputs, w, ReadState(i)), i, c, body,
               if w.store.sessions[c.sessionId].revision == c.revision then Response(body) else RevisionConflict)
  {
    hide StateFrom, StoreInv, ClientInv;
    StoredSessionRow(inputs, w.store, w.clients[i].call);
  }

  /**
   * A call that looked for the replay too early and reads the state after the turn was stored ends
   * with the stored response if and only if the session is then still at the revision that the call
   * carries; otherwise it ends with a revision conflict.
   */
  lemma LateDuplicate(inputs: Inputs, actions: seq<Action>, more: seq<Action>, i: nat, body: Json)
    requires i < |Execute(inputs, actions).clients| && Execute(inputs, actions).clients[i].pc.Missed?
    requires var w := Execute(inputs, actions);
      var c := w.clients[i].call;
      FindTurn(w.store.turns, c.sessionId, c.requestId) == Some(body)
    ensures var w, v := Execute(inputs, actions), Execute(inputs, actions + [ReadState(i)] + more);
      var c := w.clients[i].call;
      && c.sessionId in w.store.sessions && i < |v.clients|
      && (v.clients[i].pc.Returned? ==>
            (v.clients[i].pc.reply == Response(body) <==> w.store.sessions[c.sessionId].revision == c.revision) &&
            (v.clients[i].pc.reply == RevisionConflict <==> w.store.sessions[c.sessionId].revision != c.revision))
      && (w.store.sessions[c.sessionId].revision != c.revision ==> v.clients[i].pc in {Returned(RevisionConflict), Crashed})
  {
    hide Inv, Step, Execute;
    var w := Execute(inputs, actions);
    var c := w.clients[i].call;
    ReachableInv(inputs, actions);
    StateReadSplits(inputs, w, i, body);
    var reply := if w.store.sessions[c.sessionId].revision == c.revision then Response(body) else RevisionConflict;
    ExecuteNext(inputs, actions, ReadState(i));
    RunKeepsBound(inputs, actions + [ReadState(i)], more, i, c, body, reply);
  }

  lemma ExecuteNext(inputs: Inputs, actions: seq<Action>, a: Action)
    ensures Execute(inputs, actions + [a]) == Step(inputs, Execute(inputs, actions), a)
  {
    assert (actions + [a])[..|actions|] == actions;
  }

  // ---------------------------------------------------------------- the race that ends in a conflict

  function NewSession(sid: string): Store {
    Store(map[sid := Row(0, StatePayload(EmptyState(sid)))], [])
  }

  lemma SessionCreated(inputs: Inputs, sid: string)
    ensures Step(inputs, EmptyWorld, CreateSession(sid)) == World(NewSession(sid), [])
  {
    assert Field(StatePayload(EmptyState(sid)), "revision") == JInt(0);
  }

  lemma PostedTo(inputs: Inputs, w: World, c: Call)
    ensures Step(inputs, w, Post(c)) == World(w.store, w.clients + [Client(c, Called)])
  {
  }

  lemma ReplayMissed(inputs: Inputs, w: World, i: nat)
    requires i < |w.clients| && w.clients[i].pc.Called? && w.store.turns == []
    ensures Step(inputs, w, ReadReplay(i)) == World(w.store, w.clients[i := Client(w.clients[i].call, Missed)])
  {
  }

  /** A session, two calls of one request in it, and their replay reads. */
  function RaceStart(c: Call): seq<Action> {
    [CreateSession(c.sessionId), Post(c), Post(c), ReadReplay(0), ReadReplay(1)]
  }

  lemma FiveSteps(inputs: Inputs, a: Action, b: Action, c: Action, d: Action, e: Action)
    ensures Execute(inputs, [a, b, c, d, e]) ==
      Step(inputs, Step(inputs, Step(inputs, Step(inputs, Step(inputs, EmptyWorld, a), b), c), d), e)
  {
    hide Step, Execute;
    assert Execute(inputs, []) == EmptyWorld by { StartsEmpty(inputs); }
    ExecuteNext(inputs, [], a);
    ExecuteNext(inputs, [a], b);
    ExecuteNext(inputs, [a, b], c);
    ExecuteNext(inputs, [a, b, c], d);
    ExecuteNext(inputs, [a, b, c, d], e);
    assert [] + [a] == [a] && [a] + [b] == [a, b] && [a, b] + [c] == [a, b, c] && [a, b, c] + [d] == [a, b, c, d];
    assert [a, b, c, d] + [e] == [a, b, c, d, e];
  }

  lemma StartsEmpty(inputs: Inputs)
    ensures Execute(inputs, []) == EmptyWorld
  {
  }

  /** Both calls miss the replay, in a session that has just been created. */
  lemma BothMiss(inputs: Inputs, c: Call)
    ensures Execute(inputs, RaceStart(c)) == World(NewSession(c.sessionId), [Client(c, Missed), Client(c, Missed)])
  {
    hide Step, Execute, NewSession;
    var store, called, missed := NewSession(c.sessionId), Client(c, Called), Client(c, Missed);
    FiveSteps(inputs, CreateSession(c.sessionId), Post(c), Post(c), ReadReplay(0), ReadReplay(1));
    SessionCreated(inputs, c.sessionId);
    PostedTo(inputs, World(store, []), c);
    PostedTo(inputs, World(store, [called]), c);
    NoTurns(c.sessionId);
    ReplayMissed(inputs, World(store, [called, called]), 0);
    ReplayMissed(inputs, World(store, [missed, called]), 1);
    assert [] + [called] == [called] && [called] + [called] == [called, called];
    assert [called, called][0 := missed] == [missed, called] && [missed, called][1 := missed] == [missed, missed];
  }

  lemma NoTurns(sid: string)
    ensures NewSession(sid).turns == []
  {
  }

  /** The first call runs the engine and commits its answer. */
  lemma FirstCommits(inputs: Inputs, w: World, c: Call, input: EngineInput)
    requires Inv(inputs, w) && w == World(NewSession(c.sessionId), [Client(c, Missed), Client(c, Missed)]) && c.revision == 0
    requires GoodInput(input) && inputs(input) && Run(c, EmptyState(c.sessionId), input).failure.None?
    ensures var v := Step(inputs, Step(inputs, Step(inputs, w, ReadState(0)), RunEngine(0, input)), CommitStep(0));
      var body := TurnRow(EmptyState(c.sessionId), c.requestId, c.text, input).response;
      && v.clients == [Client(c, Returned(Response(body))), Client(c, Missed)]
      && FindTurn(v.store.turns, c.sessionId, c.requestId) == Some(body)
      && c.sessionId in v.store.sessions && v.store.sessions[c.sessionId].revision == 1
  {
    hide Inv, Handle, StatePayload, StateFrom, ResultPayload, TurnRow;
    var s := EmptyState(c.sessionId);
    StateRoundTrip(s, c.sessionId);
    var w1 := Step(inputs, w, ReadState(0));
    assert w1 == World(w.store, [Client(c, Loaded(s)), Client(c, Missed)]);
    var commit := Package(c, Run(c, s, input), input.trace);
    var w2 := Step(inputs, w1, RunEngine(0, input));
    assert w2 == World(w.store, [Client(c, Computed(s, commit)), Client(c, Missed)]);
    CommitStepIs(inputs, w2, 0);
    FirstCommitInserts(inputs, w.store, c, input);
  }

  lemma FirstCommitInserts(inputs: Inputs, store: Store, c: Call, input: EngineInput)
    requires store == NewSession(c.sessionId) && c.revision == 0
    requires GoodInput(input) && inputs(input) && Run(c, EmptyState(c.sessionId), input).failure.None?
    ensures var s := EmptyState(c.sessionId);
      var outcome := Committed(store, Package(c, Run(c, s, input), input.trace));
      var body := TurnRow(s, c.requestId, c.text, input).response;
      && outcome.1 == Response(body)
      && FindTurn(outcome.0.turns, c.sessionId, c.requestId) == Some(body)
      && c.sessionId in outcome.0.sessions && outcome.0.sessions[c.sessionId].revision == 1
  {
    hide Handle, StatePayload, StateFrom, ResultPayload;
    var s := EmptyState(c.sessionId);
    StateRoundTrip(s, c.sessionId);
    CommitOutcome(inputs, store, c, s, input);
    TurnAccounting(input.lx, input.bundle, Request(c.requestId, c.text, s), input.reply);
    var t := TurnRow(s, c.requestId, c.text, input);
    FindTurnAppend(store.turns, t, c.sessionId, c.requestId);
  }

  /**
   * A duplicate can lose the race: both calls look for the replay before either commits, the first
   * commits an answer, and the second is refused at its state read although its request is stored.
   */
  lemma DuplicateMayConflict(inputs: Inputs, c: Call, input: EngineInput)
    requires c.revision == 0 && GoodInput(input) && inputs(input) && Run(c, EmptyState(c.sessionId), input).failure.None?
    ensures var w := Execute(inputs, RaceStart(c) + [ReadState(0)] + [RunEngine(0, input)] + [CommitStep(0)] + [ReadState(1)]);
      var body := TurnRow(EmptyState(c.sessionId), c.requestId, c.text, input).response;
      && w.clients == [Client(c, Returned(Response(body))), Client(c, Returned(RevisionConflict))]
      && FindTurn(w.store.turns, c.sessionId, c.requestId) == Some(body)
  {
    hide Inv, Step, Execute, TurnRow, Handle, RaceStart;
    var missed := RaceStart(c);
    BothMiss(inputs, c);
    ReachableInv(inputs, missed);
    FirstCommits(inputs, Execute(inputs, missed), c, input);
    ExecuteNext(inputs, missed, ReadState(0));
    ExecuteNext(inputs, missed + [ReadState(0)], RunEngine(0, input));
    ExecuteNext(inputs, missed + [ReadState(0)] + [RunEngine(0, input)], CommitStep(0));
    var committed := missed + [ReadState(0)] + [RunEngine(0, input)] + [CommitStep(0)];
    ReachableInv(inputs, committed);
    SecondRefused(inputs, Execute(inputs, committed), c, TurnRow(EmptyState(c.sessionId), c.requestId, c.text, input).response);
    ExecuteNext(inputs, committed, ReadState(1));
  }

  lemma SecondRefused(inputs: Inputs, v: World, c: Call, body: Json)
    requires Inv(inputs, v) && v.clients == [Client(c, Returned(Response(body))), Client(c, Missed)] && c.revision == 0
    requires FindTurn(v.store.turns, c.sessionId, c.requestId) == Some(body)
    requires c.sessionId in v.store.sessions && v.store.sessions[c.sessionId].revision == 1
    ensures var z := Step(inputs, v, ReadState(1));
      && z.clients == [Client(c, Returned(Response(body))), Client(c, Returned(RevisionConflict))]
      && z.store == v.store
  {
    hide StateFrom, StoreInv, ClientInv;
    StoredSessionRow(inputs, v.store, c);
  }

  /** The race needs nothing special: a reset message is always answered, so any client that repeats one can lose it. */
  lemma ResetMayConflict(inputs: Inputs, c: Call, input: EngineInput)
    requires c.revision == 0 && GoodInput(input) && inputs(input) && input.lx.reset(input.lx.normalize(c.text))
    ensures var w := Execute(inputs, RaceStart(c) + [ReadState(0)] + [RunEngine(0, input)] + [CommitStep(0)] + [ReadState(1)]);
      |w.clients| == 2 && w.clients[0].pc.Returned? && w.clients[0].pc.reply.Response? && w.clients[1] == Client(c, Returned(RevisionConflict))
  {
    hide Execute, TurnRow, RaceStart;
    assert Run(c, EmptyState(c.sessionId), input).failure.None?;
    DuplicateMayConflict(inputs, c, input);
  }
}
