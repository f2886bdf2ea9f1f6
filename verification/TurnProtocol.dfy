/**
 * Any number of clients post messages, interleave, retry and crash. A request is four separate
 * steps: replay read, state read, engine run without a lock, atomic commit.
 */
module TurnProtocol {
  import opened Prelude
  import opened CatalogBundle
  import opened Dialogue
  import opened DialogueProofs
  import opened Payload
  import opened StateStore

  // ---------------------------------------------------------------- the step relation

  datatype Pc =
    | Called
    | Missed
    | Loaded(state: TurnState)
    | Computed(base: TurnState, commit: Commit)
    | Returned(reply: Reply)
    | Crashed

  datatype Client = Client(call: Call, pc: Pc)

  datatype World = World(store: Store, clients: seq<Client>)

  datatype Action =
    | CreateSession(sessionId: string)
    | Post(call: Call)
    | ReadReplay(i: nat)
    | ReadState(i: nat)
    | RunEngine(i: nat, input: EngineInput)
    | CommitStep(i: nat)
    | Crash(i: nat)

  /** Which engine inputs (catalog, planner reply, texts) may occur in a run. */
  type Inputs = EngineInput -> bool

  const EmptyWorld: World := World(Store(map[], []), [])

  function At(w: World, i: nat, pc: Pc): World
    requires i < |w.clients|
  {
    w.(clients := w.clients[i := w.clients[i].(pc := pc)])
  }

  /** An action that is not enabled leaves the world alone. */
  ghost function Step(inputs: Inputs, w: World, a: Action): World {
    match a
    case CreateSession(s) => w.(store := CreateRow(w.store, s, StatePayload(EmptyState(s))).0)
    case Post(call) => w.(clients := w.clients + [Client(call, Called)])
    case ReadReplay(i) =>
      if i < |w.clients| && w.clients[i].pc.Called? then
        var c := w.clients[i].call;
        match FindTurn(w.store.turns, c.sessionId, c.requestId)
        case Some(body) => At(w, i, Returned(Response(body)))
        case None => At(w, i, Missed)
      else w
    case ReadState(i) =>
      if i < |w.clients| && w.clients[i].pc.Missed? then At(w, i, AfterStateRead(w.store, w.clients[i].call)) else w
    case RunEngine(i, input) =>
      if i < |w.clients| && w.clients[i].pc.Loaded? && GoodInput(input) && inputs(input) then
        var c, s := w.clients[i].call, w.clients[i].pc.state;
        At(w, i, Computed(s, Package(c, Run(c, s, input), input.trace)))
      else w
    case CommitStep(i) =>
      if i < |w.clients| && w.clients[i].pc.Computed? then
        var (store, reply) := Committed(w.store, w.clients[i].pc.commit);
        At(w.(store := store), i, Returned(reply))
      else w
    case Crash(i) => if i < |w.clients| then At(w, i, Crashed) else w
  }

  function AfterStateRead(store: Store, c: Call): Pc {
    if c.sessionId !in store.sessions then Returned(SessionNotFound)
    else
      match StateFrom(store.sessions[c.sessionId].state, c.sessionId)
      case None => Returned(StoreError)
      case Some(s) => if s.revision != c.revision then Returned(RevisionConflict) else Loaded(s)
  }

  ghost function Execute(inputs: Inputs, actions: seq<Action>): World {
    if actions == [] then EmptyWorld
    else Step(inputs, Execute(inputs, actions[..|actions| - 1]), actions[|actions| - 1])
  }

  // ---------------------------------------------------------------- sequential histories

  /** The state a session is in after these turns, read from the last response. */
  function StateAfter(turns: seq<StoredTurn>, sessionId: string): Option<TurnState> {
    if turns == [] then Some(EmptyState(sessionId))
    else
      var last := turns[|turns| - 1];
      if last.sessionId == sessionId then StateFrom(Field(last.response, "state"), sessionId)
      else StateAfter(turns[..|turns| - 1], sessionId)
  }

  predicate Answered(t: StoredTurn) {
    Field(t.response, "failure") == JNull
  }

  /** How many turns of the session ended without a failure. */
  function AnsweredTurns(turns: seq<StoredTurn>, sessionId: string): nat {
    if turns == [] then 0
    else
      var last := turns[|turns| - 1];
      AnsweredTurns(turns[..|turns| - 1], sessionId) + if last.sessionId == sessionId && Answered(last) then 1 else 0
  }

  /** The row that one engine run on state `s` produces. */
  function TurnRow(s: TurnState, requestId: string, text: string, input: EngineInput): StoredTurn
    requires KeyedById(input.bundle)
  {
    var r := Handle(input.lx, input.bundle, Request(requestId, text, s), input.reply);
    StoredTurn(s.sessionId, requestId, text, ResultPayload(requestId, r, input.trace), r.catalogVersion, input.trace.traceId,
               Telemetry(RouteName(r.route), OutcomeName(r.outcome), r.plannerCalls, input.trace.total, input.trace.gigachat))
  }

  ghost predicate ComputedFrom(inputs: Inputs, s: TurnState, t: StoredTurn) {
    exists input :: GoodInput(input) && inputs(input) && t == TurnRow(s, t.requestId, t.userText, input)
  }

  /** Turn k was computed by the engine from exactly the state that the earlier turns left behind. */
  ghost predicate ComputedInPlace(inputs: Inputs, turns: seq<StoredTurn>, k: nat)
    requires k < |turns|
  {
    var s := StateAfter(turns[..k], turns[k].sessionId);
    s.Some? && ComputedFrom(inputs, s.value, turns[k])
  }

  ghost predicate Sequential(inputs: Inputs, turns: seq<StoredTurn>) {
    forall k :: 0 <= k < |turns| ==> ComputedInPlace(inputs, turns, k)
  }

  ghost predicate UniqueRequests(turns: seq<StoredTurn>) {
    forall i, j :: 0 <= i < j < |turns| ==>
      turns[i].sessionId != turns[j].sessionId || turns[i].requestId != turns[j].requestId
  }

  // ---------------------------------------------------------------- the invariant

  /** The row of a session shows the outcome of its turns. */
  ghost predicate SessionInv(store: Store, sid: string)
    requires sid in store.sessions
  {
    var s := StateAfter(store.turns, sid);
    && s.Some?
    && StateFrom(store.sessions[sid].state, sid) == s
    && store.sessions[sid].revision == s.value.revision == AnsweredTurns(store.turns, sid)
  }

  ghost predicate StoreInv(inputs: Inputs, store: Store) {
    && (forall sid :: sid in store.sessions ==> SessionInv(store, sid))
    && (forall k :: 0 <= k < |store.turns| ==> store.turns[k].sessionId in store.sessions)
    && UniqueRequests(store.turns)
    && Sequential(inputs, store.turns)
  }

  /** A state read earlier is not newer than the row, and equal revisions mean equal states. */
  ghost predicate BaseInv(store: Store, c: Call, s: TurnState) {
    && c.sessionId in store.sessions
    && s.sessionId == c.sessionId && s.phase != ""
    && s.revision == c.revision <= store.sessions[c.sessionId].revision
    && (s.revision == store.sessions[c.sessionId].revision ==>
          StateFrom(store.sessions[c.sessionId].state, c.sessionId) == Some(s))
  }

  ghost predicate PackagedFrom(inputs: Inputs, c: Call, s: TurnState, commit: Commit) {
    exists input :: GoodInput(input) && inputs(input) && commit == Package(c, Run(c, s, input), input.trace)
  }

  ghost predicate ClientInv(inputs: Inputs, store: Store, client: Client) {
    match client.pc
    case Loaded(s) => BaseInv(store, client.call, s)
    case Computed(s, commit) => BaseInv(store, client.call, s) && PackagedFrom(inputs, client.call, s, commit)
    case Returned(Response(body)) => FindTurn(store.turns, client.call.sessionId, client.call.requestId) == Some(body)
    case _ => true
  }

  ghost predicate Inv(inputs: Inputs, w: World) {
    StoreInv(inputs, w.store) && forall i :: 0 <= i < |w.clients| ==> ClientInv(inputs, w.store, w.clients[i])
  }

  // ---------------------------------------------------------------- creating a session

  lemma {:induction false} NoTurnsYet(turns: seq<StoredTurn>, sid: string)
    requires forall k :: 0 <= k < |turns| ==> turns[k].sessionId != sid
    ensures StateAfter(turns, sid) == Some(EmptyState(sid)) && AnsweredTurns(turns, sid) == 0
    decreases |turns|
  {
    if turns != [] { NoTurnsYet(turns[..|turns| - 1], sid); }
  }

  lemma CreateKeepsInv(inputs: Inputs, w: World, sid: string)
    requires Inv(inputs, w)
    ensures Inv(inputs, Step(inputs, w, CreateSession(sid)))
  {
    var payload := StatePayload(EmptyState(sid));
    assert Field(payload, "revision") == JInt(0);
    if sid !in w.store.sessions {
      NoTurnsYet(w.store.turns, sid);
      StateRoundTrip(EmptyState(sid), sid);
      var store := Step(inputs, w, CreateSession(sid)).store;
      assert store == w.store.(sessions := w.store.sessions[sid := Row(0, payload)]);
      forall s | s in store.sessions ensures SessionInv(store, s) {
        if s != sid { assert SessionInv(w.store, s); }
      }
      forall i | 0 <= i < |w.clients| ensures ClientInv(inputs, store, w.clients[i]) {
        assert ClientInv(inputs, w.store, w.clients[i]);
      }
    }
  }

  // ---------------------------------------------------------------- client steps before the commit

  lemma StateFromShape(j: Json, sid: string)
    ensures StateFrom(j, sid).Some? ==> StateFrom(j, sid).value.sessionId == sid && StateFrom(j, sid).value.phase != ""
  {
  }

  lemma ReadsKeepInv(inputs: Inputs, w: World, a: Action)
    requires Inv(inputs, w) && (a.Post? || a.ReadReplay? || a.Crash?)
    ensures Inv(inputs, Step(inputs, w, a))
  {
    hide TurnRow, StatePayload, StateFrom, Package, StateAfter;
  }

  lemma ReadStateKeepsInv(inputs: Inputs, w: World, i: nat)
    requires Inv(inputs, w)
    ensures Inv(inputs, Step(inputs, w, ReadState(i)))
  {
    if i < |w.clients| && w.clients[i].pc.Missed? {
      var c := w.clients[i].call;
      var pc := AfterStateRead(w.store, c);
      if pc.Loaded? {
        assert SessionInv(w.store, c.sessionId);
        StateFromShape(w.store.sessions[c.sessionId].state, c.sessionId);
      }
      assert ClientInv(inputs, w.store, Client(c, pc));
    }
  }

  lemma RunEngineKeepsInv(inputs: Inputs, w: World, i: nat, input: EngineInput)
    requires Inv(inputs, w)
    ensures Inv(inputs, Step(inputs, w, RunEngine(i, input)))
  {
    hide StoreInv, BaseInv, Handle, StatePayload, ResultPayload, FindTurn;
    if i < |w.clients| && w.clients[i].pc.Loaded? && GoodInput(input) && inputs(input) {
      var c, s := w.clients[i].call, w.clients[i].pc.state;
      var commit := Package(c, Run(c, s, input), input.trace);
      assert PackagedFrom(inputs, c, s, commit);
      assert ClientInv(inputs, w.store, w.clients[i]);
      assert ClientInv(inputs, w.store, Client(c, Computed(s, commit)));
    }
  }

  // ---------------------------------------------------------------- the commit

  /** A commit that inserts: the row still shows the state the client started from. */
  ghost predicate Inserting(inputs: Inputs, store: Store, c: Call, s: TurnState, input: EngineInput) {
    && GoodInput(input) && inputs(input)
    && c.sessionId in store.sessions
    && StateFrom(store.sessions[c.sessionId].state, c.sessionId) == Some(s)
    && s.sessionId == c.sessionId && s.phase != ""
    && s.revision == c.revision == store.sessions[c.sessionId].revision
    && FindTurn(store.turns, c.sessionId, c.requestId) == None
  }

  ghost function AfterInsert(store: Store, c: Call, s: TurnState, input: EngineInput): Store
    requires KeyedById(input.bundle)
  {
    var r := Run(c, s, input);
    Store(store.sessions[c.sessionId := Row(r.state.revision, StatePayload(r.state))],
          store.turns + [TurnRow(s, c.requestId, c.text, input)])
  }

  /** `commit_turn` on well-formed documents: replay, refuse, or insert. */
  lemma CommitCases(store: Store, c: Commit, next: int, telemetry: Telemetry)
    requires c.sessionId in store.sessions
    requires Field(c.state, "revision") == JInt(next) && TelemetryOf(c.response) == Some(telemetry) && ChecksHold(telemetry)
    requires next == c.expectedRevision || next == c.expectedRevision + 1
    ensures var replay := FindTurn(store.turns, c.sessionId, c.requestId);
      Committed(store, c) ==
        if replay.Some? then (store, Response(replay.value))
        else if store.sessions[c.sessionId].revision != c.expectedRevision then (store, RevisionConflict)
        else if next < 0 then (store, StoreError)
        else (Inserted(store, c, next, telemetry), Response(c.response))
  {
  }

  lemma PackageParts(c: Call, s: TurnState, input: EngineInput)
    requires GoodInput(input) && s.sessionId == c.sessionId && s.revision == c.revision
    ensures var commit := Package(c, Run(c, s, input), input.trace);
      var t := TurnRow(s, c.requestId, c.text, input);
      var r := Run(c, s, input);
      && Field(commit.state, "revision") == JInt(r.state.revision)
      && TelemetryOf(commit.response) == Some(t.telemetry) && ChecksHold(t.telemetry)
      && (r.state.revision == c.revision || r.state.revision == c.revision + 1)
      && t == StoredTurn(c.sessionId, c.requestId, c.text, commit.response, commit.catalogVersion, commit.traceId, t.telemetry)
      && commit.state == StatePayload(r.state)
  {
    hide Handle, StateFrom;
    var r := Run(c, s, input);
    TurnAccounting(input.lx, input.bundle, Request(c.requestId, c.text, s), input.reply);
    TelemetryRoundTrip(c.requestId, r, input.trace);
    PackageAccepted(c, s, input);
    assert Field(StatePayload(r.state), "revision") == JInt(r.state.revision);
  }

  /** What `commit_turn` does with a packaged turn: replay, refuse, or insert the engine's own row. */
  lemma CommitOutcome(inputs: Inputs, store: Store, c: Call, s: TurnState, input: EngineInput)
    requires GoodInput(input) && inputs(input) && BaseInv(store, c, s)
    ensures var commit := Package(c, Run(c, s, input), input.trace);
      var replay := FindTurn(store.turns, c.sessionId, c.requestId);
      if replay.Some? then Committed(store, commit) == (store, Response(replay.value))
      else if Inserting(inputs, store, c, s, input) && Run(c, s, input).state.revision >= 0 then
        Committed(store, commit) == (AfterInsert(store, c, s, input), Response(TurnRow(s, c.requestId, c.text, input).response))
      else Committed(store, commit).0 == store && !Committed(store, commit).1.Response?
  {
    var commit := Package(c, Run(c, s, input), input.trace);
    var r := Run(c, s, input);
    var t := TurnRow(s, c.requestId, c.text, input);
    PackageParts(c, s, input);
    CommitCases(store, commit, r.state.revision, t.telemetry);
    assert Inserted(store, commit, r.state.revision, t.telemetry) == AfterInsert(store, c, s, input);
  }

  lemma AppendHistory(turns: seq<StoredTurn>, t: StoredTurn, sid: string)
    ensures StateAfter(turns + [t], sid) ==
      if t.sessionId == sid then StateFrom(Field(t.response, "state"), sid) else StateAfter(turns, sid)
    ensures AnsweredTurns(turns + [t], sid) ==
      AnsweredTurns(turns, sid) + if t.sessionId == sid && Answered(t) then 1 else 0
  {
    assert (turns + [t])[..|turns|] == turns;
  }

  lemma AppendSequential(inputs: Inputs, turns: seq<StoredTurn>, t: StoredTurn)
    requires Sequential(inputs, turns)
    requires StateAfter(turns, t.sessionId).Some? && ComputedFrom(inputs, StateAfter(turns, t.sessionId).value, t)
    ensures Sequential(inputs, turns + [t])
  {
    var all := turns + [t];
    forall k | 0 <= k < |all| ensures ComputedInPlace(inputs, all, k) {
      if k < |turns| {
        assert all[..k] == turns[..k] && ComputedInPlace(inputs, turns, k);
      } else {
        assert all[..k] == turns;
      }
    }
  }

  lemma TurnRowParts(s: TurnState, requestId: string, text: string, input: EngineInput)
    requires GoodInput(input)
    ensures var r := Handle(input.lx, input.bundle, Request(requestId, text, s), input.reply);
      var t := TurnRow(s, requestId, text, input);
      && StateFrom(Field(t.response, "state"), s.sessionId) == StateFrom(StatePayload(r.state), s.sessionId)
      && StateFrom(StatePayload(r.state), s.sessionId).Some?
      && StateFrom(StatePayload(r.state), s.sessionId).value.revision == r.state.revision
      && (s.phase != "" && !Answered(t) ==> StateFrom(StatePayload(r.state), s.sessionId) == Some(s))
      && r.state.revision == s.revision + if Answered(t) then 1 else 0
  {
    var r := Handle(input.lx, input.bundle, Request(requestId, text, s), input.reply);
    TurnAccounting(input.lx, input.bundle, Request(requestId, text, s), input.reply);
    ResultPayloadParts(requestId, r, input.trace);
    StateRoundTrip(r.state, s.sessionId);
  }

  lemma InsertKeepsSessions(inputs: Inputs, store: Store, c: Call, s: TurnState, input: EngineInput)
    requires StoreInv(inputs, store) && Inserting(inputs, store, c, s, input)
    ensures forall sid :: sid in store.sessions ==> SessionInv(AfterInsert(store, c, s, input), sid)
  {
    hide Handle, StatePayload, StateFrom, ResultPayload, Sequential, UniqueRequests, FindTurn;
    var store' := AfterInsert(store, c, s, input);
    var t := TurnRow(s, c.requestId, c.text, input);
    TurnRowParts(s, c.requestId, c.text, input);
    forall sid | sid in store.sessions ensures SessionInv(store', sid) {
      assert SessionInv(store, sid);
      AppendHistory(store.turns, t, sid);
    }
  }

  lemma AppendUnique(turns: seq<StoredTurn>, t: StoredTurn)
    requires UniqueRequests(turns) && FindTurn(turns, t.sessionId, t.requestId) == None
    ensures UniqueRequests(turns + [t])
  {
    FindTurnAt(turns, t.sessionId, t.requestId);
  }

  lemma InsertKeepsTurns(inputs: Inputs, store: Store, c: Call, s: TurnState, input: EngineInput, t: StoredTurn)
    requires StoreInv(inputs, store) && Inserting(inputs, store, c, s, input)
    requires t == TurnRow(s, c.requestId, c.text, input)
    ensures Sequential(inputs, store.turns + [t]) && UniqueRequests(store.turns + [t])
  {
    assert SessionInv(store, c.sessionId);
    assert t.sessionId == c.sessionId && t.requestId == c.requestId && t.userText == c.text;
    assert ComputedFrom(inputs, s, t);
    AppendSequential(inputs, store.turns, t);
    AppendUnique(store.turns, t);
  }

  lemma InsertKeepsStore(inputs: Inputs, store: Store, c: Call, s: TurnState, input: EngineInput)
    requires StoreInv(inputs, store) && Inserting(inputs, store, c, s, input)
    ensures StoreInv(inputs, AfterInsert(store, c, s, input))
  {
    hide Handle, StatePayload, StateFrom, ResultPayload;
    var t := TurnRow(s, c.requestId, c.text, input);
    assert t.sessionId == c.sessionId;
    InsertKeepsSessions(inputs, store, c, s, input);
    InsertKeepsTurns(inputs, store, c, s, input, t);
    var store' := AfterInsert(store, c, s, input);
    assert store'.turns == store.turns + [t] && store'.sessions.Keys == store.sessions.Keys;
  }

  /** Whoever read the session before the insertion is now out of date, or saw the very state still stored. */
  lemma InsertKeepsBase(inputs: Inputs, store: Store, c: Call, s: TurnState, input: EngineInput, d: Call, u: TurnState)
    requires Inserting(inputs, store, c, s, input) && BaseInv(store, d, u)
    ensures BaseInv(AfterInsert(store, c, s, input), d, u)
  {
    TurnRowParts(s, c.requestId, c.text, input);
  }

  lemma InsertKeepsClient(inputs: Inputs, store: Store, c: Call, s: TurnState, input: EngineInput, client: Client)
    requires Inserting(inputs, store, c, s, input) && ClientInv(inputs, store, client)
    ensures ClientInv(inputs, AfterInsert(store, c, s, input), client)
  {
    match client.pc
    case Loaded(u) => InsertKeepsBase(inputs, store, c, s, input, client.call, u);
    case Computed(u, commit) => InsertKeepsBase(inputs, store, c, s, input, client.call, u);
    case Returned(_) =>
      FindTurnAppend(store.turns, TurnRow(s, c.requestId, c.text, input), client.call.sessionId, client.call.requestId);
    case _ =>
  }

  lemma InsertKeepsInv(inputs: Inputs, w: World, i: nat, c: Call, s: TurnState, input: EngineInput)
    requires Inv(inputs, w) && i < |w.clients| && w.clients[i].call == c
    requires Inserting(inputs, w.store, c, s, input)
    ensures Inv(inputs, At(w.(store := AfterInsert(w.store, c, s, input)), i,
                           Returned(Response(TurnRow(s, c.requestId, c.text, input).response))))
  {
    hide StatePayload, StoreInv, Run, Handle, StateFrom;
    var store' := AfterInsert(w.store, c, s, input);
    var t := TurnRow(s, c.requestId, c.text, input);
    InsertKeepsStore(inputs, w.store, c, s, input);
    FindTurnAppend(w.store.turns, t, c.sessionId, c.requestId);
    forall j | 0 <= j < |w.clients| ensures ClientInv(inputs, store', w.clients[j]) {
      InsertKeepsClient(inputs, w.store, c, s, input, w.clients[j]);
    }
    assert ClientInv(inputs, store', Client(c, Returned(Response(t.response)))) by {
      assert t.sessionId == c.sessionId && t.requestId == c.requestId && store'.turns == w.store.turns + [t];
    }
  }

  /** The one step of the protocol that changes the store, for a client whose turn is computed. */
  lemma CommitEffect(inputs: Inputs, w: World, i: nat) returns (input: EngineInput)
    requires Inv(inputs, w) && i < |w.clients| && w.clients[i].pc.Computed?
    ensures GoodInput(input) && inputs(input)
    ensures var c, s := w.clients[i].call, w.clients[i].pc.base;
      var w' := Step(inputs, w, CommitStep(i));
      var replay := FindTurn(w.store.turns, c.sessionId, c.requestId);
      || (replay.Some? && w' == At(w, i, Returned(Response(replay.value))))
      || (Inserting(inputs, w.store, c, s, input)
          && w' == At(w.(store := AfterInsert(w.store, c, s, input)), i,
                      Returned(Response(TurnRow(s, c.requestId, c.text, input).response))))
      || (exists reply: Reply :: !reply.Response? && w' == At(w, i, Returned(reply)))
  {
    var c, s := w.clients[i].call, w.clients[i].pc.base;
    assert ClientInv(inputs, w.store, w.clients[i]);
    input :| GoodInput(input) && inputs(input) && w.clients[i].pc.commit == Package(c, Run(c, s, input), input.trace);
    var commit := w.clients[i].pc.commit;
    assert BaseInv(w.store, c, s);
    CommitOutcome(inputs, w.store, c, s, input);
    var outcome := Committed(w.store, commit);
    CommitStepIs(inputs, w, i);
    if outcome.0 == w.store {
      assert w.(store := outcome.0) == w;
      assert !outcome.1.Response? ==> exists reply: Reply :: !reply.Response? && At(w, i, Returned(outcome.1)) == At(w, i, Returned(reply));
    }
  }

  lemma CommitStepIs(inputs: Inputs, w: World, i: nat)
    requires i < |w.clients| && w.clients[i].pc.Computed?
    ensures var outcome := Committed(w.store, w.clients[i].pc.commit);
      Step(inputs, w, CommitStep(i)) == At(w.(store := outcome.0), i, Returned(outcome.1))
  {
  }

  lemma CommitKeepsInv(inputs: Inputs, w: World, i: nat)
    requires Inv(inputs, w)
    ensures Inv(inputs, Step(inputs, w, CommitStep(i)))
  {
    hide Committed, TurnRow, StatePayload, Package, AfterInsert, Inserting, StoreInv, BaseInv, PackagedFrom;
    if i < |w.clients| && w.clients[i].pc.Computed? {
      var c, s := w.clients[i].call, w.clients[i].pc.base;
      var input := CommitEffect(inputs, w, i);
      if Inserting(inputs, w.store, c, s, input) {
        InsertKeepsInv(inputs, w, i, c, s, input);
      }
    }
  }

  lemma StepKeepsInv(inputs: Inputs, w: World, a: Action)
    requires Inv(inputs, w)
    ensures Inv(inputs, Step(inputs, w, a))
  {
    match a
    case CreateSession(s) => CreateKeepsInv(inputs, w, s);
    case ReadState(i) => ReadStateKeepsInv(inputs, w, i);
    case RunEngine(i, input) => RunEngineKeepsInv(inputs, w, i, input);
    case CommitStep(i) => CommitKeepsInv(inputs, w, i);
    case _ => ReadsKeepInv(inputs, w, a);
  }

  lemma {:induction false} ReachableInv(inputs: Inputs, actions: seq<Action>)
    ensures Inv(inputs, Execute(inputs, actions))
    decreases |actions|
  {
    if actions != [] {
      ReachableInv(inputs, actions[..|actions| - 1]);
      StepKeepsInv(inputs, Execute(inputs, actions[..|actions| - 1]), actions[|actions| - 1]);
    }
  }
}
