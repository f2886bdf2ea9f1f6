/** What holds in every run of the turn protocol. */
module TurnTheorems {
  import opened Prelude
  import opened CatalogBundle
  import opened Dialogue
  import opened DialogueProofs
  import opened Payload
  import opened ResponseReading
  import opened StateStore
  import opened TurnProtocol

  /** The state a client would read for a session right now. */
  function CurrentState(store: Store, sessionId: string): Option<TurnState> {
    if sessionId in store.sessions then StateFrom(store.sessions[sessionId].state, sessionId) else None
  }

  // ---------------------------------------------------------------- no lost update

  /**
   * No lost update: whenever any step of any interleaving adds a turn, that turn is one engine run
   * on exactly the state the session is in at that moment, and nothing else in the tables changes.
   */
  lemma NoLostUpdate(inputs: Inputs, actions: seq<Action>, a: Action)
    ensures var w, w' := Execute(inputs, actions), Step(inputs, Execute(inputs, actions), a);
      w'.store.turns != w.store.turns ==>
        && a.CommitStep? && a.i < |w.clients| && w.clients[a.i].pc.Computed?
        && var c, s := w.clients[a.i].call, w.clients[a.i].pc.base;
           && CurrentState(w.store, c.sessionId) == Some(s)
           && exists input :: GoodInput(input) && inputs(input) && w'.store == AfterInsert(w.store, c, s, input)
  {
    hide Inv, Package, StatePayload, TurnRow;
    var w := Execute(inputs, actions);
    ReachableInv(inputs, actions);
    match a
    case CommitStep(i) =>
      if i < |w.clients| && w.clients[i].pc.Computed? { var _ := CommitEffect(inputs, w, i); }
    case _ =>
  }

  /**
   * Every history is sequential: in table order, each turn of a session is one engine run on the
   * state left by the session's previous turn, and the session row shows the last one.
   */
  lemma SerialHistory(inputs: Inputs, actions: seq<Action>)
    ensures var store := Execute(inputs, actions).store;
      && Sequential(inputs, store.turns)
      && forall sid :: sid in store.sessions ==>
           CurrentState(store, sid).Some? && CurrentState(store, sid) == StateAfter(store.turns, sid)
  {
    ReachableInv(inputs, actions);
    var store := Execute(inputs, actions).store;
    forall sid | sid in store.sessions
      ensures CurrentState(store, sid).Some? && CurrentState(store, sid) == StateAfter(store.turns, sid)
    {
      assert SessionInv(store, sid);
    }
  }

  /** A computed turn is refused only because its session has moved on; it never hits a table constraint. */
  lemma RefusedOnlyWhenStale(inputs: Inputs, actions: seq<Action>, i: nat)
    requires i < |Execute(inputs, actions).clients| && Execute(inputs, actions).clients[i].pc.Computed?
    ensures var w := Execute(inputs, actions);
      var reply := Step(inputs, w, CommitStep(i)).clients[i].pc.reply;
      var c, s := w.clients[i].call, w.clients[i].pc.base;
      && (reply.Response? || reply.RevisionConflict?)
      && c.sessionId in w.store.sessions
      && (reply.RevisionConflict? <==>
            FindTurn(w.store.turns, c.sessionId, c.requestId).None? && w.store.sessions[c.sessionId].revision > s.revision)
  {
    var w := Execute(inputs, actions);
    ReachableInv(inputs, actions);
    var c, s := w.clients[i].call, w.clients[i].pc.base;
    assert ClientInv(inputs, w.store, w.clients[i]) && SessionInv(w.store, c.sessionId);
    var input :| GoodInput(input) && inputs(input) && w.clients[i].pc.commit == Package(c, Run(c, s, input), input.trace);
    CommitStepIs(inputs, w, i);
    var commit := w.clients[i].pc.commit;
    var r := Run(c, s, input);
    PackageParts(c, s, input);
    CommitCases(w.store, commit, r.state.revision, TurnRow(s, c.requestId, c.text, input).telemetry);
  }

  // ---------------------------------------------------------------- idempotent replies

  lemma StepAppends(inputs: Inputs, w: World, a: Action)
    requires Inv(inputs, w)
    ensures w.store.turns <= Step(inputs, w, a).store.turns
  {
    hide Inv, Handle, StatePayload, StateFrom, Package, TurnRow, Inserting, FindTurn, Committed, Run, ResultPayload;
    match a
    case CommitStep(i) =>
      if i < |w.clients| && w.clients[i].pc.Computed? { var _ := CommitEffect(inputs, w, i); }
    case _ =>
  }

  lemma {:induction false} TurnsNeverChange(inputs: Inputs, actions: seq<Action>, more: seq<Action>)
    ensures Execute(inputs, actions).store.turns <= Execute(inputs, actions + more).store.turns
    decreases |more|
  {
    hide Step, Inv;
    if more == [] {
      assert actions + more == actions;
    } else {
      var n := |more| - 1;
      var all := actions + more;
      assert all[..|all| - 1] == actions + more[..n] && all[|all| - 1] == more[n];
      TurnsNeverChange(inputs, actions, more[..n]);
      ReachableInv(inputs, actions + more[..n]);
      StepAppends(inputs, Execute(inputs, actions + more[..n]), more[n]);
    }
  }

  lemma {:induction false} FindTurnPrefix(turns: seq<StoredTurn>, more: seq<StoredTurn>, sid: string, rid: string)
    requires turns <= more && FindTurn(turns, sid, rid).Some?
    ensures FindTurn(more, sid, rid) == FindTurn(turns, sid, rid)
    decreases |turns|
  {
    if !(turns[0].sessionId == sid && turns[0].requestId == rid) {
      FindTurnPrefix(turns[1..], more[1..], sid, rid);
    }
  }

  /**
   * Idempotent replies: two calls for the same session and request that ever return normally, at
   * any two moments of a run, return the same response, whatever text or revision they carried.
   */
  lemma SameRequestSameResponse(inputs: Inputs, actions: seq<Action>, more: seq<Action>, i: nat, j: nat)
    requires var w, v := Execute(inputs, actions), Execute(inputs, actions + more);
      && i < |w.clients| && j < |v.clients|
      && w.clients[i].call.sessionId == v.clients[j].call.sessionId
      && w.clients[i].call.requestId == v.clients[j].call.requestId
      && w.clients[i].pc.Returned? && w.clients[i].pc.reply.Response?
      && v.clients[j].pc.Returned? && v.clients[j].pc.reply.Response?
    ensures Execute(inputs, actions).clients[i].pc == Execute(inputs, actions + more).clients[j].pc
    ensures UniqueRequests(Execute(inputs, actions + more).store.turns)
  {
    var w, v := Execute(inputs, actions), Execute(inputs, actions + more);
    ReachableInv(inputs, actions);
    ReachableInv(inputs, actions + more);
    assert ClientInv(inputs, w.store, w.clients[i]) && ClientInv(inputs, v.store, v.clients[j]);
    TurnsNeverChange(inputs, actions, more);
    FindTurnPrefix(w.store.turns, v.store.turns, w.clients[i].call.sessionId, w.clients[i].call.requestId);
  }

  // ---------------------------------------------------------------- revision accounting

  lemma {:induction false} RevisionCounts(inputs: Inputs, turns: seq<StoredTurn>, sid: string)
    requires Sequential(inputs, turns)
    ensures StateAfter(turns, sid).Some?
    ensures StateAfter(turns, sid).value.revision == AnsweredTurns(turns, sid)
    ensures StateAfter(turns, sid).value.sessionId == sid && StateAfter(turns, sid).value.phase != ""
    decreases |turns|
  {
    if turns != [] {
      var n := |turns| - 1;
      var init, last := turns[..n], turns[n];
      SequentialPrefix(inputs, turns, n);
      RevisionCounts(inputs, init, sid);
      if last.sessionId == sid {
        assert ComputedInPlace(inputs, turns, n);
        var s := StateAfter(init, sid).value;
        var input :| GoodInput(input) && inputs(input) && last == TurnRow(s, last.requestId, last.userText, input);
        TurnRowParts(s, last.requestId, last.userText, input);
        StateFromShape(Field(last.response, "state"), sid);
      }
    }
  }

  lemma SequentialPrefix(inputs: Inputs, turns: seq<StoredTurn>, n: nat)
    requires Sequential(inputs, turns) && n <= |turns|
    ensures Sequential(inputs, turns[..n])
  {
    forall k | 0 <= k < n ensures ComputedInPlace(inputs, turns[..n], k) {
      assert turns[..n][..k] == turns[..k] && ComputedInPlace(inputs, turns, k);
    }
  }

  lemma {:induction false} CountGrows(turns: seq<StoredTurn>, sid: string, k: nat, l: nat)
    requires k <= l <= |turns|
    ensures AnsweredTurns(turns[..k], sid) <= AnsweredTurns(turns[..l], sid)
    decreases l - k
  {
    if k < l {
      CountGrows(turns, sid, k, l - 1);
      assert turns[..l][..l - 1] == turns[..l - 1];
    }
  }

  /**
   * Revision accounting: a session's revision is the number of its answered turns, a failed turn
   * leaves the session state alone, and no two answered turns start from the same revision.
   */
  lemma RevisionAccounting(inputs: Inputs, actions: seq<Action>, sid: string)
    requires sid in Execute(inputs, actions).store.sessions
    ensures var store := Execute(inputs, actions).store;
      && store.sessions[sid].revision == AnsweredTurns(store.turns, sid)
      && (forall k :: 0 <= k < |store.turns| && store.turns[k].sessionId == sid ==>
            StateAfter(store.turns[..k], sid).Some? && StateAfter(store.turns[..k + 1], sid).Some?)
      && (forall k :: 0 <= k < |store.turns| && store.turns[k].sessionId == sid && !Answered(store.turns[k]) ==>
            StateAfter(store.turns[..k + 1], sid) == StateAfter(store.turns[..k], sid))
      && (forall k, l ::
            (0 <= k < l < |store.turns| && store.turns[k].sessionId == store.turns[l].sessionId == sid &&
             Answered(store.turns[k]) && Answered(store.turns[l])) ==>
            StateAfter(store.turns[..k], sid).value.revision < StateAfter(store.turns[..l], sid).value.revision)
  {
    hide Step, TurnRow, ClientInv, StatePayload, StateFrom, Handle, Sequential, Execute, StateAfter, AnsweredTurns, Answered, UniqueRequests;
    ReachableInv(inputs, actions);
    var store := Execute(inputs, actions).store;
    var turns := store.turns;
    assert SessionInv(store, sid);
    forall k | 0 <= k <= |turns|
      ensures StateAfter(turns[..k], sid).Some?
      ensures StateAfter(turns[..k], sid).value.revision == AnsweredTurns(turns[..k], sid)
    {
      SequentialPrefix(inputs, turns, k);
      RevisionCounts(inputs, turns[..k], sid);
    }
    forall k | 0 <= k < |turns| && turns[k].sessionId == sid && !Answered(turns[k])
      ensures StateAfter(turns[..k + 1], sid) == StateAfter(turns[..k], sid)
    {
      FailedTurnKeepsState(inputs, turns, k);
    }
    forall k, l | 0 <= k < l < |turns| && turns[k].sessionId == turns[l].sessionId == sid && Answered(turns[k])
      ensures AnsweredTurns(turns[..k], sid) < AnsweredTurns(turns[..l], sid)
    {
      AnsweredRaises(turns, k);
      CountGrows(turns, sid, k + 1, l);
    }
  }

  lemma AnsweredRaises(turns: seq<StoredTurn>, k: nat)
    requires k < |turns| && Answered(turns[k])
    ensures AnsweredTurns(turns[..k + 1], turns[k].sessionId) == AnsweredTurns(turns[..k], turns[k].sessionId) + 1
  {
    assert turns[..k + 1][..k] == turns[..k];
  }

  lemma FailedTurnKeepsState(inputs: Inputs, turns: seq<StoredTurn>, k: nat)
    requires Sequential(inputs, turns) && k < |turns| && !Answered(turns[k])
    ensures StateAfter(turns[..k + 1], turns[k].sessionId) == StateAfter(turns[..k], turns[k].sessionId)
  {
    hide Step, StatePayload, TurnRow, Handle;
    var t, sid := turns[k], turns[k].sessionId;
    assert ComputedInPlace(inputs, turns, k);
    SequentialPrefix(inputs, turns, k);
    RevisionCounts(inputs, turns[..k], sid);
    var s := StateAfter(turns[..k], sid).value;
    var input :| GoodInput(input) && inputs(input) && t == TurnRow(s, t.requestId, t.userText, input);
    TurnRowParts(s, t.requestId, t.userText, input);
    assert turns[..k + 1][..k] == turns[..k];
  }

  // ---------------------------------------------------------------- dialogue invariants over whole runs

  /** All catalogs in the run passed the validator. */
  ghost predicate OnlyValidCatalogs(inputs: Inputs) {
    forall input :: inputs(input) ==> ValidBundle(input.bundle)
  }

  lemma {:induction false} HistoryCoherent(inputs: Inputs, turns: seq<StoredTurn>, sid: string)
    requires OnlyValidCatalogs(inputs) && Sequential(inputs, turns)
    ensures StateAfter(turns, sid).Some? && Coherent(StateAfter(turns, sid).value)
    decreases |turns|
  {
    if turns == [] {
      EmptyCoherent(sid);
    } else {
      var n := |turns| - 1;
      var init, last := turns[..n], turns[n];
      SequentialPrefix(inputs, turns, n);
      HistoryCoherent(inputs, init, sid);
      if last.sessionId == sid {
        assert ComputedInPlace(inputs, turns, n);
        var s := StateAfter(init, sid).value;
        var input :| GoodInput(input) && inputs(input) && last == TurnRow(s, last.requestId, last.userText, input);
        TurnIsCoherent(s, last.requestId, last.userText, input);
        assert s.sessionId == sid;
      }
    }
  }

  lemma TurnIsCoherent(s: TurnState, requestId: string, text: string, input: EngineInput)
    requires GoodInput(input) && ValidBundle(input.bundle) && Coherent(s)
    ensures var stored := StateFrom(Field(TurnRow(s, requestId, text, input).response, "state"), s.sessionId);
      stored.Some? && Coherent(stored.value)
  {
    var request := Request(requestId, text, s);
    var r := Handle(input.lx, input.bundle, request, input.reply);
    HandleCoherent(input.lx, input.bundle, request, input.reply);
    TurnAccounting(input.lx, input.bundle, request, input.reply);
    TurnRowParts(s, requestId, text, input);
    StateRoundTrip(r.state, s.sessionId);
  }

  /**
   * In every run over validated catalogs, whatever the planner and the clients do, the stored state
   * of every session satisfies the dialogue invariant.
   */
  lemma DialogueInvariant(inputs: Inputs, actions: seq<Action>, sid: string)
    requires OnlyValidCatalogs(inputs) && sid in Execute(inputs, actions).store.sessions
    ensures var s := CurrentState(Execute(inputs, actions).store, sid); s.Some? && Coherent(s.value)
  {
    SerialHistory(inputs, actions);
    HistoryCoherent(inputs, Execute(inputs, actions).store.turns, sid);
  }

  /** The stored response reports only what the catalog of that engine run holds, and the turn names its version. */
  ghost predicate GroundedIn(input: EngineInput, t: StoredTurn) {
    input.bundle.version == t.catalogVersion && GroundedResponse(input.bundle, t.response)
  }

  /** The turn comes from an engine run of this system, on a validated catalog that its response is grounded in. */
  ghost predicate GroundedTurn(inputs: Inputs, t: StoredTurn) {
    exists input :: GoodInput(input) && inputs(input) && ValidBundle(input.bundle) && GroundedIn(input, t)
  }

  /** Every response ever stored reports only identifiers of the catalog that its turn was run on, whose version is recorded beside it. */
  lemma StoredAnswersGrounded(inputs: Inputs, actions: seq<Action>, k: nat)
    requires OnlyValidCatalogs(inputs) && k < |Execute(inputs, actions).store.turns|
    ensures GroundedTurn(inputs, Execute(inputs, actions).store.turns[k])
  {
    hide Execute, Handle, GroundedIn, ValidBundle, TurnRow, StateAfter;
    SerialHistory(inputs, actions);
    var turns := Execute(inputs, actions).store.turns;
    assert ComputedInPlace(inputs, turns, k);
    var t := turns[k];
    var s := StateAfter(turns[..k], t.sessionId).value;
    var input :| GoodInput(input) && inputs(input) && t == TurnRow(s, t.requestId, t.userText, input);
    RowGrounded(s, t.requestId, t.userText, input);
  }

  lemma RowGrounded(s: TurnState, requestId: string, text: string, input: EngineInput)
    requires GoodInput(input) && ValidBundle(input.bundle)
    ensures GroundedIn(input, TurnRow(s, requestId, text, input))
  {
    hide Handle, Grounded, ValidBundle, FactsFrom, FactsPayload, GroundedFacts, StatePayload, DiagnosticsPayload;
    var request := Request(requestId, text, s);
    var r := Handle(input.lx, input.bundle, request, input.reply);
    var t := TurnRow(s, requestId, text, input);
    HandleGrounded(input.lx, input.bundle, request, input.reply);
    TurnAccounting(input.lx, input.bundle, request, input.reply);
    var facts := if r.answer.Some? then r.answer.value.facts else NoFacts;
    FactsReadBack(facts);
    NothingReported();
    assert FactsIn(t.response) == FactsPayload(facts);
    GroundedReads(input.bundle, FactsIn(t.response), facts);
  }

  lemma NothingReported()
    ensures FactsPayload(NoFacts) == JObject(map[]) && forall b :: Grounded(b, NoFacts)
  {
  }

  /**
   * The stored response tells, key by key, exactly the result of one engine run on the state that the earlier
   * turns left behind, and the columns beside it say the same.
   */
  ghost predicate TellsRun(t: StoredTurn, s: TurnState, input: EngineInput)
    requires KeyedById(input.bundle)
  {
    var r := Handle(input.lx, input.bundle, Request(t.requestId, t.userText, s), input.reply);
    && ToldBy(t.response) == Some(Told(t.requestId, r, input.trace))
    && t.sessionId == r.state.sessionId && t.catalogVersion == r.catalogVersion && t.traceId == input.trace.traceId
    && RouteFrom(t.telemetry.route) == Some(r.route) && OutcomeFrom(t.telemetry.outcome) == Some(r.outcome)
    && t.telemetry.calls == r.plannerCalls && t.telemetry.total == input.trace.total && t.telemetry.gigachat == input.trace.gigachat
  }

  lemma StoredResponsesTell(inputs: Inputs, actions: seq<Action>, k: nat)
    requires OnlyValidCatalogs(inputs) && k < |Execute(inputs, actions).store.turns|
    ensures var turns := Execute(inputs, actions).store.turns;
      exists s, input :: StateAfter(turns[..k], turns[k].sessionId) == Some(s)
        && GoodInput(input) && inputs(input) && TellsRun(turns[k], s, input)
  {
    hide Execute, Handle, ValidBundle, TurnRow, StateAfter, TellsRun, Coherent;
    SerialHistory(inputs, actions);
    var turns := Execute(inputs, actions).store.turns;
    assert ComputedInPlace(inputs, turns, k);
    var t := turns[k];
    SequentialPrefix(inputs, turns, k);
    HistoryCoherent(inputs, turns[..k], t.sessionId);
    var s := StateAfter(turns[..k], t.sessionId).value;
    var input :| GoodInput(input) && inputs(input) && t == TurnRow(s, t.requestId, t.userText, input);
    RowTells(s, t.requestId, t.userText, input);
  }

  lemma RowTells(s: TurnState, requestId: string, text: string, input: EngineInput)
    requires GoodInput(input) && ValidBundle(input.bundle) && Coherent(s)
    ensures TellsRun(TurnRow(s, requestId, text, input), s, input)
  {
    hide Handle, ValidBundle, ToldBy, ResultPayload;
    var request := Request(requestId, text, s);
    var r := Handle(input.lx, input.bundle, request, input.reply);
    TurnAccounting(input.lx, input.bundle, request, input.reply);
    HandleCoherent(input.lx, input.bundle, request, input.reply);
    ResultReadBack(requestId, r, input.trace);
  }

  // ---------------------------------------------------------------- the sequential service

  /** Running the engine and committing without interference. */
  lemma UndisturbedCommit(inputs: Inputs, w: World, n: nat, input: EngineInput)
    requires n < |w.clients| && w.clients[n].pc.Loaded? && GoodInput(input) && inputs(input)
    ensures var c, s := w.clients[n].call, w.clients[n].pc.state;
      var outcome := Committed(w.store, Package(c, Run(c, s, input), input.trace));
      var w' := Step(inputs, Step(inputs, w, RunEngine(n, input)), CommitStep(n));
      w'.store == outcome.0 && n < |w'.clients| && w'.clients[n].pc == Returned(outcome.1)
  {
    hide Handle, StatePayload, ResultPayload, Package, Committed, FindTurn, Run;
    var c, s := w.clients[n].call, w.clients[n].pc.state;
    var commit := Package(c, Run(c, s, input), input.trace);
    var v := Step(inputs, w, RunEngine(n, input));
    assert v == At(w, n, Computed(s, commit));
    CommitStepIs(inputs, v, n);
  }

  /** A client that has returned is not moved by further protocol steps. */
  lemma ReturnedStays(inputs: Inputs, w: World, n: nat, input: EngineInput)
    requires n < |w.clients| && w.clients[n].pc.Returned?
    ensures Step(inputs, w, ReadState(n)) == w && Step(inputs, w, RunEngine(n, input)) == w && Step(inputs, w, CommitStep(n)) == w
  {
  }

  /** Run without interference, the four steps of a client are the service's `PostMessage`. */
  lemma UndisturbedClient(inputs: Inputs, w: World, call: Call, input: EngineInput)
    requires GoodInput(input) && inputs(input)
    ensures var n := |w.clients|;
      var w1 := Step(inputs, Step(inputs, w, Post(call)), ReadReplay(n));
      var w2 := Step(inputs, w1, ReadState(n));
      var w3 := Step(inputs, Step(inputs, w2, RunEngine(n, input)), CommitStep(n));
      n < |w3.clients| && w3.clients[n].pc.Returned? &&
      (w3.store, w3.clients[n].pc.reply) == Posted(w.store, call, input)
  {
    var n := |w.clients|;
    var w0 := Step(inputs, w, Post(call));
    assert w0.clients[n] == Client(call, Called) && w0.store == w.store;
    var w1 := Step(inputs, w0, ReadReplay(n));
    if FindTurn(w.store.turns, call.sessionId, call.requestId).Some? {
      ReturnedStays(inputs, w1, n, input);
    } else {
      assert w1 == At(w0, n, Missed);
      var w2 := Step(inputs, w1, ReadState(n));
      assert w2 == At(w1, n, AfterStateRead(w.store, call));
      if w2.clients[n].pc.Loaded? {
        UndisturbedCommit(inputs, w2, n, input);
      } else {
        ReturnedStays(inputs, w2, n, input);
      }
    }
  }
}
