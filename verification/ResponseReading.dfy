/** A response as its readers see it: field by field, by key. */
module ResponseReading {
  import opened Prelude
  import OD = OrderedDict
  import opened Catalog
  import opened CatalogBundle
  import opened SearchTools
  import opened Dialogue
  import opened DialogueProofs
  import opened Payload

  // ---------------------------------------------------------------- reading by key

  function TextAt(j: Json, key: string): Option<string> {
    match Field(j, key)
    case JText(s) => Some(s)
    case _ => None
  }

  function TextsOf(items: seq<Json>): Option<seq<string>> {
    if items == [] then Some([])
    else
      match (items[0], TextsOf(items[1..]))
      case (JText(s), Some(rest)) => Some([s] + rest)
      case _ => None
  }

  function TextsAt(j: Json, key: string): Option<seq<string>> {
    match Field(j, key)
    case JList(items) => TextsOf(items)
    case _ => None
  }

  function FactsIn(response: Json): Json {
    Field(Field(response, "assistant"), "facts")
  }

  function KeysOf(j: Json): set<string> {
    if j.JObject? then j.fields.Keys else {}
  }

  /** The facts that a response reports: which ones they are is told by their keys. */
  function FactsFrom(j: Json): Option<Facts> {
    var keys := KeysOf(j);
    if keys == {} then Some(NoFacts)
    else
      match TextAt(j, "catalog_version")
      case None => None
      case Some(v) =>
        if keys == {"department_id", "position_id", "profile_ids", "system_ids", "role_ids", "catalog_version"} then
          match (TextAt(j, "department_id"), TextAt(j, "position_id"), TextsAt(j, "profile_ids"), TextsAt(j, "system_ids"), TextsAt(j, "role_ids"))
          case (Some(d), Some(p), Some(profiles), Some(systems), Some(roles)) => Some(AccessFacts(d, p, profiles, systems, roles, v))
          case _ => None
        else
          match TextAt(j, "system_id")
          case None => None
          case Some(s) =>
            if keys == {"system_id", "catalog_version"} then Some(SystemFacts(s, v))
            else if keys == {"system_id", "role_ids", "catalog_version"} then
              match TextsAt(j, "role_ids")
              case None => None
              case Some(roles) => Some(RoleFacts(s, roles, v))
            else if keys == {"system_id", "instruction_id", "citation", "catalog_version"} then
              match (TextAt(j, "instruction_id"), TextAt(j, "citation"))
              case (Some(x), Some(c)) => Some(InstructionFacts(s, x, c, v))
              case _ => None
            else None
  }

  function FailureFrom(j: Json): Option<Failure> {
    match (Field(j, "code"), Field(j, "retryable"))
    case (JText(code), JBool(retryable)) => Some(Failure(code, retryable))
    case _ => None
  }

  function RouteFrom(s: string): Option<Route> {
    if s == "DETERMINISTIC" then Some(DETERMINISTIC) else if s == "GIGACHAT_FALLBACK" then Some(GIGACHAT_FALLBACK) else None
  }

  function OutcomeFrom(s: string): Option<Outcome> {
    if s == "HANDLED" then Some(HANDLED)
    else if s == "NEEDS_CLARIFICATION" then Some(NEEDS_CLARIFICATION)
    else if s == "PROVIDER_FAILURE" then Some(PROVIDER_FAILURE) else None
  }

  /** Everything a response tells its reader. */
  datatype Told = Told(requestId: string, result: TurnResult, trace: Trace)

  /** The answer of a turn without a failure, and the failure of one without an answer. */
  function AnswerFrom(response: Json): Option<(Option<Answer>, Option<Failure>)> {
    match Field(response, "failure")
    case JNull =>
      (match (TextAt(Field(response, "assistant"), "answer_type"), FactsFrom(FactsIn(response)))
       case (Some(kind), Some(facts)) => Some((Some(Answer(kind, facts)), None))
       case _ => None)
    case j =>
      match FailureFrom(j)
      case None => None
      case Some(f) => if KeysOf(FactsIn(response)) == {} then Some((None, Some(f))) else None
  }

  function DiagnosticsFrom(d: Json): Option<(Route, Outcome, string, nat, Trace)> {
    var durations := Field(d, "durations_ms");
    match (TextAt(d, "trace_id"), TextAt(d, "route"), TextAt(d, "outcome"), TextAt(d, "catalog_version"), Field(d, "gigachat_calls"),
           Field(durations, "total"), Field(durations, "gigachat"))
    case (Some(id), Some(route), Some(outcome), Some(version), JInt(calls), JReal(total), JReal(gigachat)) =>
      if calls >= 0 && RouteFrom(route).Some? && OutcomeFrom(outcome).Some?
      then Some((RouteFrom(route).value, OutcomeFrom(outcome).value, version, calls, Trace(id, total, gigachat))) else None
    case _ => None
  }

  function ToldBy(response: Json): Option<Told> {
    match (TextAt(response, "request_id"), TextAt(response, "session_id"), AnswerFrom(response), DiagnosticsFrom(Field(response, "diagnostics")))
    case (Some(requestId), Some(sessionId), Some(a), Some(d)) =>
      (match StateFrom(Field(response, "state"), sessionId)
       case None => None
       case Some(state) => Some(Told(requestId, TurnResult(d.0, d.1, state, a.0, a.1, d.2, d.3), d.4)))
    case _ => None
  }

  // ---------------------------------------------------------------- what is written is read back

  lemma {:induction false} TextsReadBack(s: seq<string>)
    ensures TextsOf(TextList(s).items) == Some(s)
    decreases |s|
  {
    if s != [] {
      TextsReadBack(s[1..]);
      assert TextList(s).items[1..] == TextList(s[1..]).items;
      assert s == [s[0]] + s[1..];
    }
  }

  lemma FactsReadBack(f: Facts)
    ensures FactsFrom(FactsPayload(f)) == Some(f)
  {
    hide FactsFrom, FactsPayload;
    match f
    case NoFacts => NothingReadBack();
    case SystemFacts(_, _) => SystemReadBack(f);
    case RoleFacts(_, _, _) => RolesReadBack(f);
    case InstructionFacts(_, _, _, _) => InstructionReadBack(f);
    case AccessFacts(_, _, _, _, _, _) => AccessReadBack(f);
  }

  lemma NothingReadBack()
    ensures FactsFrom(FactsPayload(NoFacts)) == Some(NoFacts)
  {
    assert KeysOf(FactsPayload(NoFacts)) == {};
  }

  lemma SystemReadBack(f: Facts)
    requires f.SystemFacts?
    ensures FactsFrom(FactsPayload(f)) == Some(f)
  {
    var keys := KeysOf(FactsPayload(f));
    assert keys == {"system_id", "catalog_version"} && "system_id" in keys && "department_id" !in keys;
  }

  lemma RolesReadBack(f: Facts)
    requires f.RoleFacts?
    ensures FactsFrom(FactsPayload(f)) == Some(f)
  {
    hide TextsOf, TextList;
    var j := FactsPayload(f);
    TextsReadBack(f.roleIds);
    ListTexts(f.roleIds);
    assert KeysOf(j) == {"system_id", "role_ids", "catalog_version"};
    assert "role_ids" in KeysOf(j) && "department_id" !in KeysOf(j);
  }

  lemma InstructionReadBack(f: Facts)
    requires f.InstructionFacts?
    ensures FactsFrom(FactsPayload(f)) == Some(f)
  {
    var keys := KeysOf(FactsPayload(f));
    assert keys == {"system_id", "instruction_id", "citation", "catalog_version"};
    assert "citation" in keys && "department_id" !in keys && "role_ids" !in keys;
  }

  lemma AccessReadBack(f: Facts)
    requires f.AccessFacts?
    ensures FactsFrom(FactsPayload(f)) == Some(f)
  {
    hide TextsOf, TextList;
    var j := FactsPayload(f);
    TextsReadBack(f.profileIds);
    TextsReadBack(f.systemIds);
    TextsReadBack(f.roleIds);
    ListTexts(f.profileIds);
    ListTexts(f.systemIds);
    ListTexts(f.roleIds);
    assert KeysOf(j) == {"department_id", "position_id", "profile_ids", "system_ids", "role_ids", "catalog_version"};
    assert "department_id" in KeysOf(j);
  }

  lemma ListTexts(s: seq<string>)
    ensures TextList(s).JList?
  {
  }

  lemma AnswerReadBack(requestId: string, r: TurnResult, t: Trace)
    requires r.failure.Some? <==> r.answer.None?
    ensures AnswerFrom(ResultPayload(requestId, r, t)) == Some((r.answer, r.failure))
  {
    hide FactsFrom, FactsPayload, StatePayload, DiagnosticsPayload;
    if r.answer.Some? { FactsReadBack(r.answer.value.facts); }
  }

  lemma DiagnosticsReadBack(r: TurnResult, t: Trace)
    ensures DiagnosticsFrom(DiagnosticsPayload(r, t)) == Some((r.route, r.outcome, r.catalogVersion, r.plannerCalls, t))
  {
    var d := DiagnosticsPayload(r, t);
    assert TextAt(d, "trace_id") == Some(t.traceId) && TextAt(d, "route") == Some(RouteName(r.route));
    assert TextAt(d, "outcome") == Some(OutcomeName(r.outcome)) && TextAt(d, "catalog_version") == Some(r.catalogVersion);
  }

  /** A response tells the whole result of the turn: ids, answer, state, failure, diagnostics. */
  lemma ResultReadBack(requestId: string, r: TurnResult, t: Trace)
    requires (r.failure.Some? <==> r.answer.None?) && r.state.phase != ""
    ensures ToldBy(ResultPayload(requestId, r, t)) == Some(Told(requestId, r, t))
  {
    hide AnswerFrom, DiagnosticsFrom, StateFrom, StatePayload, DiagnosticsPayload, AssistantPayload;
    var j := ResultPayload(requestId, r, t);
    AnswerReadBack(requestId, r, t);
    DiagnosticsReadBack(r, t);
    StateRoundTrip(r.state, r.state.sessionId);
    assert Field(j, "state") == StatePayload(r.state) && Field(j, "diagnostics") == DiagnosticsPayload(r, t);
    assert TextAt(j, "request_id") == Some(requestId) && TextAt(j, "session_id") == Some(r.state.sessionId);
  }

  // ---------------------------------------------------------------- grounded responses

  /** The text stands under the key, alone or in a list. */
  predicate Lists(facts: Json, key: string, id: string) {
    TextAt(facts, key) == Some(id) || (TextsAt(facts, key).Some? && id in TextsAt(facts, key).value)
  }

  /** The system stands under one of the two keys for systems. */
  predicate ListsSystem(facts: Json, s: string) {
    Lists(facts, "system_ids", s) || TextAt(facts, "system_id") == Some(s)
  }

  /** The instruction with this id is the catalog's, for the system and with the citation reported. */
  ghost predicate InstructionReported(b: Bundle, facts: Json, id: string) {
    exists x :: x in b.instructions && x.id == id
      && TextAt(facts, "system_id") == Some(x.systemId) && TextAt(facts, "citation") == Some(x.citation)
  }

  /** The profile holds the department and the position reported. */
  ghost predicate ProfileReported(b: Bundle, facts: Json, profileId: string) {
    exists d, p :: TextAt(facts, "department_id") == Some(d) && TextAt(facts, "position_id") == Some(p) && Employs(b, profileId, d, p)
  }

  ghost predicate RoleReported(b: Bundle, facts: Json, roleId: string) {
    exists s :: ListsSystem(facts, s) && Owns(b, s, roleId)
  }

  /**
   * Every id that stands in the facts is one of this catalog, in its place: roles are owned by the
   * systems reported, profiles hold the department and position reported, and so on; the roles of a
   * single system are all of its roles.
   */
  ghost predicate GroundedFacts(b: Bundle, facts: Json) {
    && (KeysOf(facts) != {} ==> TextAt(facts, "catalog_version") == Some(b.version))
    && (forall s :: ListsSystem(facts, s) ==> s in OD.Keys(b.systems))
    && (forall r :: Lists(facts, "role_ids", r) ==> RoleReported(b, facts, r))
    && (forall d :: TextAt(facts, "department_id") == Some(d) ==> d in DepartmentIds(b))
    && (forall p :: TextAt(facts, "position_id") == Some(p) ==> p in PositionIds(b))
    && (forall p :: Lists(facts, "profile_ids", p) ==> ProfileReported(b, facts, p))
    && (forall x :: TextAt(facts, "instruction_id") == Some(x) ==> InstructionReported(b, facts, x))
    && (forall s, r :: TextAt(facts, "system_id") == Some(s) && TextsAt(facts, "role_ids").Some? && Owns(b, s, r) ==>
          r in TextsAt(facts, "role_ids").value)
  }

  ghost predicate GroundedResponse(b: Bundle, response: Json) {
    GroundedFacts(b, FactsIn(response))
  }

  /** What stands under each key of the facts, and nothing elsewhere. */
  predicate ReadAs(j: Json, f: Facts) {
    && TextAt(j, "role_ids").None? && TextAt(j, "system_ids").None? && TextAt(j, "profile_ids").None?
    && (KeysOf(j) != {} ==> TextAt(j, "catalog_version") == if f.NoFacts? then None else Some(f.version))
    && (f.NoFacts? ==> KeysOf(j) == {})
    && TextAt(j, "system_id") == (if f.SystemFacts? || f.RoleFacts? || f.InstructionFacts? then Some(f.systemId) else None)
    && TextAt(j, "instruction_id") == (if f.InstructionFacts? then Some(f.instructionId) else None)
    && (f.InstructionFacts? ==> TextAt(j, "citation") == Some(f.citation))
    && TextAt(j, "department_id") == (if f.AccessFacts? then Some(f.departmentId) else None)
    && TextAt(j, "position_id") == (if f.AccessFacts? then Some(f.positionId) else None)
    && TextsAt(j, "profile_ids") == (if f.AccessFacts? then Some(f.profileIds) else None)
    && TextsAt(j, "system_ids") == (if f.AccessFacts? then Some(f.systemIds) else None)
    && TextsAt(j, "role_ids") == (if f.AccessFacts? || f.RoleFacts? then Some(f.roleIds) else None)
  }

  lemma FactsByKey(j: Json, f: Facts)
    requires FactsFrom(j) == Some(f)
    ensures ReadAs(j, f)
  {
    hide TextsOf, TextAt, TextsAt, Field, KeysOf, FactsFrom;
    FactsShape(j, f);
    AbsentKeys(j);
    ListsAreNoTexts(j);
  }

  /** The keys that each kind of facts has, and what is read under them. */
  lemma FactsShape(j: Json, f: Facts)
    requires FactsFrom(j) == Some(f)
    ensures match f
      case NoFacts => KeysOf(j) == {}
      case SystemFacts(s, v) =>
        && KeysOf(j) == {"system_id", "catalog_version"} && TextAt(j, "system_id") == Some(s) && TextAt(j, "catalog_version") == Some(v)
      case RoleFacts(s, roles, v) =>
        && KeysOf(j) == {"system_id", "role_ids", "catalog_version"} && TextAt(j, "system_id") == Some(s)
        && TextsAt(j, "role_ids") == Some(roles) && TextAt(j, "catalog_version") == Some(v)
      case InstructionFacts(s, x, c, v) =>
        && KeysOf(j) == {"system_id", "instruction_id", "citation", "catalog_version"} && TextAt(j, "system_id") == Some(s)
        && TextAt(j, "instruction_id") == Some(x) && TextAt(j, "citation") == Some(c) && TextAt(j, "catalog_version") == Some(v)
      case AccessFacts(d, p, profiles, systems, roles, v) =>
        && KeysOf(j) == {"department_id", "position_id", "profile_ids", "system_ids", "role_ids", "catalog_version"}
        && TextAt(j, "department_id") == Some(d) && TextAt(j, "position_id") == Some(p) && TextsAt(j, "profile_ids") == Some(profiles)
        && TextsAt(j, "system_ids") == Some(systems) && TextsAt(j, "role_ids") == Some(roles) && TextAt(j, "catalog_version") == Some(v)
  {
    hide TextsOf, TextAt, TextsAt, Field, KeysOf;
  }

  lemma ListsAreNoTexts(j: Json)
    ensures forall key :: TextsAt(j, key).Some? ==> TextAt(j, key).None?
    ensures forall key :: TextAt(j, key).Some? ==> TextsAt(j, key).None?
  {
  }

  /** Grounded facts stay grounded when they are read from the document. */
  lemma GroundedReads(b: Bundle, j: Json, f: Facts)
    requires FactsFrom(j) == Some(f) && Grounded(b, f)
    ensures GroundedFacts(b, j)
  {
    hide FactsFrom, Owns, DepartmentIds, PositionIds, Employs, TextsOf, TextAt, TextsAt, KeysOf;
    FactsByKey(j, f);
    if f.InstructionFacts? {
      var i :| i in b.instructions && i.id == f.instructionId && i.systemId == f.systemId && i.citation == f.citation;
      assert InstructionReported(b, j, f.instructionId);
    }
    forall r | Lists(j, "role_ids", r) ensures RoleReported(b, j, r) {
      if f.RoleFacts? {
        assert ListsSystem(j, f.systemId) && Owns(b, f.systemId, r);
      } else {
        var s :| s in f.systemIds && Owns(b, s, r);
        assert ListsSystem(j, s);
      }
    }
    forall q | Lists(j, "profile_ids", q) ensures ProfileReported(b, j, q) {
      assert q == f.profileIds[0] && Employs(b, q, f.departmentId, f.positionId);
    }
  }

  lemma AbsentKeys(j: Json)
    ensures forall key :: key !in KeysOf(j) ==> TextAt(j, key).None? && TextsAt(j, key).None?
  {
  }
}
