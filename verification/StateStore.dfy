/** The session store (two tables, one transaction per call) and the service that drives a turn. */
module StateStore {
  import opened Prelude
  import opened CatalogBundle
  import opened Dialogue
  import opened Payload
  import DialogueProofs

  // ---------------------------------------------------------------- tables

  datatype Row = Row(revision: int, state: Json)

  datatype Telemetry = Telemetry(route: string, outcome: string, calls: int, total: real, gigachat: real)

  datatype StoredTurn = StoredTurn(
    sessionId: string, requestId: string, userText: string, response: Json,
    catalogVersion: string, traceId: string, telemetry: Telemetry)

  /** `turns` is in insertion order. */
  datatype Store = Store(sessions: map<string, Row>, turns: seq<StoredTurn>)

  /** A normal return, or the exception that ended the call. */
  datatype Reply = Response(body: Json) | RevisionConflict | SessionNotFound | StoreError

  datatype Commit = Commit(
    sessionId: string, requestId: string, userText: string, expectedRevision: int,
    response: Json, state: Json, catalogVersion: string, traceId: string)

  function FindTurn(turns: seq<StoredTurn>, sessionId: string, requestId: string): Option<Json> {
    if turns == [] then None
    else if turns[0].sessionId == sessionId && turns[0].requestId == requestId then Some(turns[0].response)
    else FindTurn(turns[1..], sessionId, requestId)
  }

  function TelemetryOf(response: Json): Option<Telemetry> {
    var d := Field(response, "diagnostics");
    var durations := Field(d, "durations_ms");
    match (Field(d, "route"), Field(d, "outcome"), Field(d, "gigachat_calls"), Field(durations, "total"), Field(durations, "gigachat"))
    case (JText(route), JText(outcome), JInt(calls), JReal(total), JReal(gigachat)) =>
      Some(Telemetry(route, outcome, calls, total, gigachat))
    case _ => None
  }

  /** The CHECK constraints of turn_message. */
  predicate ChecksHold(t: Telemetry) {
    && t.route in {"DETERMINISTIC", "GIGACHAT_FALLBACK"}
    && t.outcome in {"HANDLED", "NEEDS_CLARIFICATION", "PROVIDER_FAILURE"}
    && 0 <= t.calls <= 1
    && t.total >= 0.0 && t.gigachat >= 0.0
  }

  // ---------------------------------------------------------------- store operations, as functions

  function CreateRow(store: Store, sessionId: string, state: Json): (Store, bool) {
    match Field(state, "revision")
    case JInt(revision) =>
      if sessionId in store.sessions || revision < 0 then (store, false)
      else (store.(sessions := store.sessions[sessionId := Row(revision, state)]), true)
    case _ => (store, false)
  }

  /** One serialized transaction: replay, compare revisions, insert the turn, update the session. */
  function Committed(store: Store, c: Commit): (Store, Reply) {
    if c.sessionId !in store.sessions then (store, SessionNotFound)
    else
      match FindTurn(store.turns, c.sessionId, c.requestId)
      case Some(body) => (store, Response(body))
      case None =>
        if store.sessions[c.sessionId].revision != c.expectedRevision then (store, RevisionConflict)
        else
          match (Field(c.state, "revision"), TelemetryOf(c.response))
          case (JInt(next), Some(telemetry)) =>
            if next != c.expectedRevision && next != c.expectedRevision + 1 then (store, RevisionConflict)
            else if !ChecksHold(telemetry) || next < 0 then (store, StoreError)
            else (Inserted(store, c, next, telemetry), Response(c.response))
          case (JInt(next), None) =>
            (store, if next != c.expectedRevision && next != c.expectedRevision + 1 then RevisionConflict else StoreError)
          case _ => (store, StoreError)
  }

  function Inserted(store: Store, c: Commit, next: int, telemetry: Telemetry): Store {
    Store(store.sessions[c.sessionId := Row(next, c.state)],
          store.turns + [StoredTurn(c.sessionId, c.requestId, c.userText, c.response, c.catalogVersion, c.traceId, telemetry)])
  }

  class PostgresStateStore {
    var sessions: map<string, Row>
    var turns: seq<StoredTurn>

    constructor ()
      ensures View() == Store(map[], [])
    {
      sessions, turns := map[], [];
    }

    function View(): Store
      reads this
    {
      Store(sessions, turns)
    }

    method CreateSession(sessionId: string, state: Json) returns (ok: bool)
      modifies this
      ensures (View(), ok) == CreateRow(old(View()), sessionId, state)
    {
      var revision := Field(state, "revision");
      if !revision.JInt? || sessionId in sessions || revision.i < 0 { return false; }
      sessions := sessions[sessionId := Row(revision.i, state)];
      return true;
    }

    method GetState(sessionId: string) returns (state: Option<Json>)
      ensures state.Some? <==> sessionId in sessions
      ensures state.Some? ==> state.value == sessions[sessionId].state
    {
      if sessionId in sessions { return Some(sessions[sessionId].state); }
      return None;
    }

    method GetReplay(sessionId: string, requestId: string) returns (body: Option<Json>)
      ensures body == FindTurn(turns, sessionId, requestId)
    {
      for i := 0 to |turns|
        invariant FindTurn(turns, sessionId, requestId) == FindTurn(turns[i..], sessionId, requestId)
      {
        if turns[i].sessionId == sessionId && turns[i].requestId == requestId { return Some(turns[i].response); }
        assert turns[i..][1..] == turns[i + 1..];
      }
      return None;
    }

    method CommitTurn(c: Commit) returns (reply: Reply)
      modifies this
      ensures (View(), reply) == Committed(old(View()), c)
    {
      if c.sessionId !in sessions { return SessionNotFound; }
      var actual := sessions[c.sessionId].revision;
      var replay := GetReplay(c.sessionId, c.requestId);
      if replay.Some? { return Response(replay.value); }
      if actual != c.expectedRevision { return RevisionConflict; }
      var next := Field(c.state, "revision");
      if !next.JInt? { return StoreError; }
      if next.i !in {c.expectedRevision, c.expectedRevision + 1} { return RevisionConflict; }
      var telemetry := TelemetryOf(c.response);
      if telemetry.None? || !ChecksHold(telemetry.value) || next.i < 0 { return StoreError; }
      turns := turns + [StoredTurn(c.sessionId, c.requestId, c.userText, c.response, c.catalogVersion, c.traceId, telemetry.value)];
      sessions := sessions[c.sessionId := Row(next.i, c.state)];
      return Response(c.response);
    }
  }

  // ---------------------------------------------------------------- one turn of the service

  /** Everything an engine run reads besides its request. */
  datatype EngineInput = EngineInput(lx: Lexicon, bundle: Bundle, reply: PlannerReply, trace: Trace)

  /** Durations come from a monotone clock; the bundle is keyed by system id. */
  ghost predicate GoodInput(input: EngineInput) {
    KeyedById(input.bundle) && input.trace.total >= 0.0 && input.trace.gigachat >= 0.0
  }

  datatype Call = Call(sessionId: string, requestId: string, text: string, revision: int)

  function Run(call: Call, state: TurnState, input: EngineInput): TurnResult
    requires KeyedById(input.bundle)
  {
    Handle(input.lx, input.bundle, Request(call.requestId, call.text, state), input.reply)
  }

  function Package(call: Call, result: TurnResult, trace: Trace): Commit {
    Commit(call.sessionId, call.requestId, call.text, call.revision,
           ResultPayload(call.requestId, result, trace), StatePayload(result.state), result.catalogVersion, trace.traceId)
  }

  /** `post_message` when nothing interferes. */
  function Posted(store: Store, call: Call, input: EngineInput): (Store, Reply)
    requires KeyedById(input.bundle)
  {
    match FindTurn(store.turns, call.sessionId, call.requestId)
    case Some(body) => (store, Response(body))
    case None =>
      if call.sessionId !in store.sessions then (store, SessionNotFound)
      else
        match StateFrom(store.sessions[call.sessionId].state, call.sessionId)
        case None => (store, StoreError)
        case Some(state) =>
          if state.revision != call.revision then (store, RevisionConflict)
          else Committed(store, Package(call, Run(call, state, input), input.trace))
  }

  class RuntimeService {
    const stateStore: PostgresStateStore

    constructor (stateStore: PostgresStateStore)
      ensures this.stateStore == stateStore
    {
      this.stateStore := stateStore;
    }

    method CreateSession(sessionId: string) returns (ok: bool)
      modifies stateStore
      ensures (stateStore.View(), ok) == CreateRow(old(stateStore.View()), sessionId, StatePayload(EmptyState(sessionId)))
    {
      ok := stateStore.CreateSession(sessionId, StatePayload(EmptyState(sessionId)));
    }

    method PostMessage(call: Call, input: EngineInput) returns (reply: Reply)
      requires KeyedById(input.bundle)
      modifies stateStore
      ensures (stateStore.View(), reply) == Posted(old(stateStore.View()), call, input)
    {
      var replay := stateStore.GetReplay(call.sessionId, call.requestId);
      if replay.Some? { return Response(replay.value); }
      var payload := stateStore.GetState(call.sessionId);
      if payload.None? { return SessionNotFound; }
      var state := StateFrom(payload.value, call.sessionId);
      if state.None? { return StoreError; }
      if state.value.revision != call.revision { return RevisionConflict; }
      var result := Run(call, state.value, input);
      reply := stateStore.CommitTurn(Package(call, result, input.trace));
    }
  }

  // ---------------------------------------------------------------- facts about the operations

  lemma {:induction false} FindTurnAppend(turns: seq<StoredTurn>, t: StoredTurn, sessionId: string, requestId: string)
    ensures FindTurn(turns + [t], sessionId, requestId) ==
      if FindTurn(turns, sessionId, requestId).Some? then FindTurn(turns, sessionId, requestId)
      else if t.sessionId == sessionId && t.requestId == requestId then Some(t.response) else None
    decreases |turns|
  {
    if turns == [] {
      assert FindTurn([t][1..], sessionId, requestId) == None;
    } else {
      FindTurnAppend(turns[1..], t, sessionId, requestId);
      assert (turns + [t])[1..] == turns[1..] + [t];
    }
  }

  lemma {:induction false} FindTurnAt(turns: seq<StoredTurn>, sessionId: string, requestId: string)
    ensures FindTurn(turns, sessionId, requestId).Some? <==>
      exists i :: 0 <= i < |turns| && turns[i].sessionId == sessionId && turns[i].requestId == requestId
    decreases |turns|
  {
    if turns != [] {
      FindTurnAt(turns[1..], sessionId, requestId);
      if FindTurn(turns[1..], sessionId, requestId).Some? {
        var i :| 0 <= i < |turns[1..]| && turns[1..][i].sessionId == sessionId && turns[1..][i].requestId == requestId;
        assert turns[i + 1] == turns[1..][i];
      }
      if i :| 0 < i < |turns| && turns[i].sessionId == sessionId && turns[i].requestId == requestId {
        assert turns[1..][i - 1] == turns[i];
      }
    }
  }

  lemma TelemetryRoundTrip(requestId: string, r: TurnResult, trace: Trace)
    ensures TelemetryOf(ResultPayload(requestId, r, trace)) ==
      Some(Telemetry(RouteName(r.route), OutcomeName(r.outcome), r.plannerCalls, trace.total, trace.gigachat))
  {
    ResultPayloadParts(requestId, r, trace);
    var d := DiagnosticsPayload(r, trace);
    assert Field(d, "route") == JText(RouteName(r.route));
    assert Field(d, "outcome") == JText(OutcomeName(r.outcome));
    assert Field(d, "gigachat_calls") == JInt(r.plannerCalls);
    var durations := Field(d, "durations_ms");
    assert durations == JObject(map["total" := JReal(trace.total), "gigachat" := JReal(trace.gigachat)]);
  }

  /** What the engine hands over is always accepted by the constraints of the turn table. */
  lemma PackageAccepted(call: Call, state: TurnState, input: EngineInput)
    requires GoodInput(input)
    ensures var t := TelemetryOf(Package(call, Run(call, state, input), input.trace).response);
      t.Some? && ChecksHold(t.value)
  {
    var r := Run(call, state, input);
    TelemetryRoundTrip(call.requestId, r, input.trace);
    DialogueProofs.TurnAccounting(input.lx, input.bundle, Request(call.requestId, call.text, state), input.reply);
  }

  /** A new session is loaded as it was created: its row shows revision and state, a taken key or a negative revision is refused, and nothing else changes. */
  lemma CreatedSessionLoads(store: Store, sessionId: string, s: TurnState)
    requires s.sessionId == sessionId && s.phase != ""
    ensures var (next, ok) := CreateRow(store, sessionId, StatePayload(s));
      && (ok <==> sessionId !in store.sessions && s.revision >= 0)
      && (!ok ==> next == store)
      && (ok ==> next.turns == store.turns && next.sessions.Keys == store.sessions.Keys + {sessionId})
      && (ok ==> next.sessions[sessionId].revision == s.revision && StateFrom(next.sessions[sessionId].state, sessionId) == Some(s))
      && (ok ==> forall k :: k in store.sessions ==> next.sessions[k] == store.sessions[k])
  {
    hide StatePayload, StateFrom;
    StateRoundTrip(s, sessionId);
    assert Field(StatePayload(s), "revision") == JInt(s.revision) by { RevisionWritten(s); }
  }

  lemma RevisionWritten(s: TurnState)
    ensures Field(StatePayload(s), "revision") == JInt(s.revision)
  {
  }
}
