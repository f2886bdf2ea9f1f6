/** Turn states and turn results as the JSON documents the store keeps. */
module Payload {
  import opened Prelude
  import opened Dialogue

  datatype Json =
    | JNull
    | JBool(b: bool)
    | JInt(i: int)
    | JReal(r: real)
    | JText(s: string)
    | JList(items: seq<Json>)
    | JObject(fields: map<string, Json>)

  function Field(j: Json, key: string): Json {
    if j.JObject? && key in j.fields then j.fields[key] else JNull
  }

  // ---------------------------------------------------------------- state

  function ChoicePayload(c: Choice): Json {
    JObject(map["id" := JText(c.id), "label" := JText(c.caption), "confidence" := JReal(c.confidence)])
  }

  function OptionsPayload(options: seq<Choice>): seq<Json> {
    seq(|options|, i requires 0 <= i < |options| => ChoicePayload(options[i]))
  }

  function PendingPayload(p: Pending): Json {
    JObject(map[
      "topic" := JText(p.topic),
      "kind" := JText(p.kind),
      "options" := JList(OptionsPayload(p.options)),
      "page" := JInt(p.page)])
  }

  function SlotsPayload(slots: Slots): Json {
    JObject(map k | k in slots :: JText(slots[k]))
  }

  function StatePayload(s: TurnState): Json {
    JObject(map[
      "revision" := JInt(s.revision),
      "intent" := match s.intent { case None => JNull case Some(t) => JText(t) },
      "phase" := JText(s.phase),
      "slots" := SlotsPayload(s.slots),
      "pending_question" := match s.pending { case None => JNull case Some(p) => PendingPayload(p) }])
  }

  function ChoicesFrom(items: seq<Json>): Option<seq<Choice>> {
    if items == [] then Some([])
    else
      var item := items[0];
      match (Field(item, "id"), Field(item, "label"), Field(item, "confidence"), ChoicesFrom(items[1..]))
      case (JText(id), JText(caption), JReal(confidence), Some(rest)) => Some([Choice(id, caption, confidence)] + rest)
      case _ => None
  }

  /** A missing or empty option list and a missing page are read as their defaults. */
  function PendingFrom(j: Json): Option<Pending> {
    var options :=
      match Field(j, "options")
      case JNull => Some([])
      case JList(items) => ChoicesFrom(items)
      case _ => None;
    var page :=
      match Field(j, "page")
      case JNull => Some(0)
      case JInt(n) => Some(n)
      case _ => None;
    match (Field(j, "topic"), Field(j, "kind"), options, page)
    case (JText(topic), JText(kind), Some(choices), Some(n)) => Some(Pending(topic, kind, choices, n))
    case _ => None
  }

  function SlotsFrom(j: Json): Option<Slots> {
    match j
    case JNull => Some(map[])
    case JObject(fields) =>
      if forall k | k in fields :: fields[k].JText? then Some(map k | k in fields && fields[k].JText? :: fields[k].s) else None
    case _ => None
  }

  /** None when the document is not one `StatePayload` could have written. */
  function StateFrom(j: Json, sessionId: string): Option<TurnState> {
    var intent :=
      match Field(j, "intent")
      case JNull => Some(None)
      case JText(t) => Some(Some(t))
      case _ => None;
    var phase :=
      match Field(j, "phase")
      case JNull => Some(READY)
      case JText(t) => Some(if t == "" then READY else t)
      case _ => None;
    var pending :=
      match Field(j, "pending_question")
      case JNull => Some(None)
      case p => (match PendingFrom(p) case None => None case Some(q) => Some(Some(q)));
    match (Field(j, "revision"), intent, phase, SlotsFrom(Field(j, "slots")), pending)
    case (JInt(revision), Some(i), Some(p), Some(slots), Some(q)) => Some(TurnState(sessionId, revision, i, p, slots, q))
    case _ => None
  }

  lemma {:induction false} ChoicesRoundTrip(options: seq<Choice>)
    ensures ChoicesFrom(OptionsPayload(options)) == Some(options)
    decreases |options|
  {
    if options != [] {
      var rest := options[1..];
      ChoicesRoundTrip(rest);
      assert OptionsPayload(options)[1..] == OptionsPayload(rest);
      assert options == [options[0]] + rest;
    }
  }

  lemma PendingRoundTrip(p: Pending)
    ensures PendingFrom(PendingPayload(p)) == Some(p)
  {
    ChoicesRoundTrip(p.options);
  }

  lemma SlotsRoundTrip(slots: Slots)
    ensures SlotsFrom(SlotsPayload(slots)) == Some(slots)
  {
    var fields := SlotsPayload(slots).fields;
    assert (map k | k in fields && fields[k].JText? :: fields[k].s) == slots;
  }

  /** Storing and reloading gives back the same state exactly when its phase is not the empty text. */
  lemma StateRoundTrip(s: TurnState, sessionId: string)
    ensures StateFrom(StatePayload(s), sessionId) == Some(s) <==> s.sessionId == sessionId && s.phase != ""
    ensures StateFrom(StatePayload(s), sessionId).Some?
    ensures StateFrom(StatePayload(s), sessionId).value.revision == s.revision
  {
    SlotsRoundTrip(s.slots);
    if s.pending.Some? { PendingRoundTrip(s.pending.value); }
    assert Field(StatePayload(s), "slots") == SlotsPayload(s.slots);
    assert Field(StatePayload(s), "revision") == JInt(s.revision);
  }

  // ---------------------------------------------------------------- turn results

  /** What one engine run depends on besides the request, and what its trace measured. */
  datatype Trace = Trace(traceId: string, total: real, gigachat: real)

  function RouteName(r: Route): string {
    match r
    case DETERMINISTIC => "DETERMINISTIC"
    case GIGACHAT_FALLBACK => "GIGACHAT_FALLBACK"
  }

  function OutcomeName(o: Outcome): string {
    match o
    case HANDLED => "HANDLED"
    case NEEDS_CLARIFICATION => "NEEDS_CLARIFICATION"
    case PROVIDER_FAILURE => "PROVIDER_FAILURE"
  }

  function TextList(s: seq<string>): Json {
    JList(seq(|s|, i requires 0 <= i < |s| => JText(s[i])))
  }

  function FactsPayload(f: Facts): Json {
    match f
    case NoFacts => JObject(map[])
    case SystemFacts(s, v) => JObject(map["system_id" := JText(s), "catalog_version" := JText(v)])
    case RoleFacts(s, roles, v) =>
      JObject(map["system_id" := JText(s), "role_ids" := TextList(roles), "catalog_version" := JText(v)])
    case InstructionFacts(s, x, c, v) =>
      JObject(map["system_id" := JText(s), "instruction_id" := JText(x), "citation" := JText(c), "catalog_version" := JText(v)])
    case AccessFacts(d, p, profiles, systems, roles, v) =>
      JObject(map["department_id" := JText(d), "position_id" := JText(p), "profile_ids" := TextList(profiles),
                  "system_ids" := TextList(systems), "role_ids" := TextList(roles), "catalog_version" := JText(v)])
  }

  function DiagnosticsPayload(r: TurnResult, t: Trace): Json {
    JObject(map[
      "trace_id" := JText(t.traceId),
      "route" := JText(RouteName(r.route)),
      "outcome" := JText(OutcomeName(r.outcome)),
      "catalog_version" := JText(r.catalogVersion),
      "gigachat_calls" := JInt(r.plannerCalls),
      "durations_ms" := JObject(map["total" := JReal(t.total), "gigachat" := JReal(t.gigachat)])])
  }

  function AssistantPayload(answer: Option<Answer>): Json {
    match answer
    case None => JObject(map["answer_type" := JText("ERROR"), "facts" := JObject(map[])])
    case Some(a) => JObject(map["answer_type" := JText(a.answerType), "facts" := FactsPayload(a.facts)])
  }

  function ResultPayload(requestId: string, r: TurnResult, t: Trace): Json {
    JObject(map[
      "request_id" := JText(requestId),
      "session_id" := JText(r.state.sessionId),
      "assistant" := AssistantPayload(r.answer),
      "state" := StatePayload(r.state),
      "failure" := match r.failure
        case None => JNull
        case Some(f) => JObject(map["code" := JText(f.code), "retryable" := JBool(f.retryable)]),
      "diagnostics" := DiagnosticsPayload(r, t)])
  }

  lemma ResultPayloadParts(requestId: string, r: TurnResult, t: Trace)
    ensures var j := ResultPayload(requestId, r, t);
      && Field(j, "state") == StatePayload(r.state)
      && Field(j, "diagnostics") == DiagnosticsPayload(r, t)
      && (Field(j, "failure") == JNull <==> r.failure.None?)
  {
  }

  lemma AssistantPart(requestId: string, r: TurnResult, t: Trace)
    ensures Field(ResultPayload(requestId, r, t), "assistant") == AssistantPayload(r.answer)
  {
  }
}
