/** One turn of the agent: deterministic rules first, then at most one planner call. */
module Dialogue {
  import opened Prelude
  import OD = OrderedDict
  import opened Catalog
  import opened CatalogBundle
  import opened Ranking
  import opened SearchTools

  // ---------------------------------------------------------------- turn data

  const READY := "READY"
  const ANSWERED := "ANSWERED"
  const AWAITING_SLOT := "AWAITING_SLOT"
  const AWAITING_INTENT := "AWAITING_INTENT"
  const AWAITING_SELECTION := "AWAITING_SELECTION"

  const SLOT := "slot"
  const SELECTION := "candidate_selection"

  const ROLE_DISCOVERY := "ROLE_DISCOVERY"
  const SYSTEM_DISCOVERY := "SYSTEM_DISCOVERY"
  const ROLE_ACQUISITION := "ROLE_ACQUISITION"
  const INSTRUCTION_LOOKUP := "INSTRUCTION_LOOKUP"

  type Slots = map<string, string>

  datatype Choice = Choice(id: string, caption: string, confidence: real)

  datatype Pending = Pending(topic: string, kind: string, options: seq<Choice>, page: int)

  datatype TurnState = TurnState(
    sessionId: string,
    revision: int,
    intent: Option<string>,
    phase: string,
    slots: Slots,
    pending: Option<Pending>)

  function EmptyState(sessionId: string): TurnState {
    TurnState(sessionId, 0, None, READY, map[], None)
  }

  datatype Request = Request(requestId: string, text: string, state: TurnState)

  datatype Outcome = HANDLED | NEEDS_CLARIFICATION | PROVIDER_FAILURE

  datatype Route = DETERMINISTIC | GIGACHAT_FALLBACK

  datatype Facts =
    | NoFacts
    | SystemFacts(systemId: string, version: string)
    | RoleFacts(systemId: string, roleIds: seq<string>, version: string)
    | InstructionFacts(systemId: string, instructionId: string, citation: string, version: string)
    | AccessFacts(departmentId: string, positionId: string, profileIds: seq<string>,
                  systemIds: seq<string>, roleIds: seq<string>, version: string)

  datatype Answer = Answer(answerType: string, facts: Facts)

  datatype Failure = Failure(code: string, retryable: bool)

  datatype Plan = Plan(catalogVersion: string, intent: string, action: string, slots: Slots, confidence: real)

  /** Everything the planner can do to a turn. */
  datatype PlannerReply = Planned(plan: Plan) | NotAPlan | TimedOut | Raised

  datatype TurnResult = TurnResult(
    route: Route,
    outcome: Outcome,
    state: TurnState,
    answer: Option<Answer>,
    failure: Option<Failure>,
    catalogVersion: string,
    plannerCalls: nat)

  /**
   * How the agent reads text. `normalize` is the agent's own normalizer; the predicates are its
   * marker-phrase tests, applied to normalized text; `lang` is what the search tools use.
   */
  datatype Lexicon = Lexicon(
    lang: Language,
    normalize: string -> string,
    reset: string -> bool,
    asksRoles: string -> bool,
    asksInstruction: string -> bool,
    asksHowTo: string -> bool,
    switchesSystem: string -> bool,
    isSimpleValue: string -> bool,
    asksMore: string -> bool,
    asNumber: string -> Option<nat>,
    aboutOrganization: string -> bool,
    mentions: (string, string) -> bool,
    containsPhrase: (string, string) -> bool)

  function SlotValue(slots: Slots, key: string): string {
    if key in slots then slots[key] else ""
  }

  /** A finished deterministic turn. */
  datatype Turn = Turn(outcome: Outcome, state: TurnState, answer: Answer)

  function Advance(s: TurnState): TurnState {
    s.(revision := s.revision + 1)
  }

  function Intent(s: TurnState): string {
    match s.intent
    case None => "UNKNOWN"
    case Some(i) => if i == "" then "UNKNOWN" else i
  }

  // ---------------------------------------------------------------- matching systems by name

  datatype Verdict = NoHit | SafeHit | WeakHit(score: real)

  /** The first alias that decides: a safe mention, a weak mention, or the first fuzzy hit. */
  function ScanAliases(lx: Lexicon, text: string, aliases: seq<Alias>): Verdict {
    if aliases == [] then NoHit
    else
      var name := lx.normalize(aliases[0].value);
      if name == "" then ScanAliases(lx, text, aliases[1..])
      else if lx.mentions(text, name) then
        if aliases[0].safety == Safe then SafeHit else WeakHit(0.65)
      else if lx.lang.ratio(name, text) >= 0.50 then WeakHit(Min(lx.lang.ratio(name, text), 0.64))
      else ScanAliases(lx, text, aliases[1..])
  }

  function ScanSystem(lx: Lexicon, text: string, system: System): Verdict {
    ScanAliases(lx, text, Named(system.name, system.aliases))
  }

  type WeakMatch = (System, real)

  function FirstSafe(lx: Lexicon, text: string, systems: OD.Dict<System>): Option<System> {
    if systems == [] then None
    else if ScanSystem(lx, text, systems[0].1).SafeHit? then Some(systems[0].1)
    else FirstSafe(lx, text, systems[1..])
  }

  function WeakMatches(lx: Lexicon, text: string, systems: OD.Dict<System>): seq<WeakMatch> {
    if systems == [] then []
    else
      var last := systems[|systems| - 1].1;
      WeakMatches(lx, text, systems[..|systems| - 1]) +
      match ScanSystem(lx, text, last)
      case WeakHit(score) => [(last, score)]
      case _ => []
  }

  /** Stable, best score first. */
  function PlaceWeak(m: WeakMatch, s: seq<WeakMatch>): seq<WeakMatch> {
    if s == [] || m.1 > s[0].1 then [m] + s else [s[0]] + PlaceWeak(m, s[1..])
  }

  function SortWeak(s: seq<WeakMatch>): seq<WeakMatch> {
    if s == [] then [] else PlaceWeak(s[|s| - 1], SortWeak(s[..|s| - 1]))
  }

  /** `unique.setdefault(id, item)`: the first match of every id. */
  function FirstPerId(s: seq<WeakMatch>): seq<WeakMatch> {
    if s == [] then []
    else
      var head, last := FirstPerId(s[..|s| - 1]), s[|s| - 1];
      if exists m | m in head :: m.0.id == last.0.id then head else head + [last]
  }

  function SystemMatches(lx: Lexicon, text: string, b: Bundle): (Option<System>, seq<WeakMatch>) {
    var safe := FirstSafe(lx, text, b.systems);
    if safe.Some? then (safe, []) else (None, FirstPerId(SortWeak(WeakMatches(lx, text, b.systems))))
  }

  method FindSystems(lx: Lexicon, text: string, bundle: Bundle)
    returns (safe: Option<System>, weak: seq<WeakMatch>)
    ensures (safe, weak) == SystemMatches(lx, text, bundle)
  {
    weak := [];
    for i := 0 to |bundle.systems|
      invariant FirstSafe(lx, text, bundle.systems) == FirstSafe(lx, text, bundle.systems[i..])
      invariant weak == WeakMatches(lx, text, bundle.systems[..i])
    {
      var system := bundle.systems[i].1;
      assert bundle.systems[i..][1..] == bundle.systems[i + 1..];
      assert bundle.systems[..i + 1][..i] == bundle.systems[..i];
      var aliases := Named(system.name, system.aliases);
      var verdict := NoHit;
      for j := 0 to |aliases|
        invariant verdict == NoHit
        invariant ScanAliases(lx, text, aliases) == ScanAliases(lx, text, aliases[j..])
      {
        assert aliases[j..][1..] == aliases[j + 1..];
        var name := lx.normalize(aliases[j].value);
        if name == "" { continue; }
        if aliases[j].safety == Safe && lx.mentions(text, name) {
          return Some(system), [];
        }
        if lx.mentions(text, name) {
          verdict := WeakHit(0.65);
          break;
        }
        var score := lx.lang.ratio(name, text);
        if score >= 0.50 {
          verdict := WeakHit(Min(score, 0.64));
          break;
        }
      }
      assert verdict == ScanSystem(lx, text, system);
      if verdict.WeakHit? { weak := weak + [(system, verdict.score)]; }
    }
    assert bundle.systems[..|bundle.systems|] == bundle.systems;
    safe := None;
    weak := FirstPerId(SortWeak(weak));
  }

  // ---------------------------------------------------------------- answers

  function RolesAnswer(b: Bundle, systemId: string): Answer
    requires systemId in OD.Keys(b.systems)
  {
    var roles := OD.Get(b.systems, systemId).value.roles;
    Answer(ROLE_DISCOVERY,
           RoleFacts(systemId, seq(|roles|, i requires 0 <= i < |roles| => roles[i].id), b.version))
  }

  function FirstInstruction(s: seq<Instruction>, systemId: string): Option<Instruction> {
    if s == [] then None
    else if s[0].systemId == systemId then Some(s[0])
    else FirstInstruction(s[1..], systemId)
  }

  function InstructionAnswer(b: Bundle, systemId: string): Answer
    requires systemId in OD.Keys(b.systems)
  {
    match FirstInstruction(b.instructions, systemId)
    case None => Answer(INSTRUCTION_LOOKUP, SystemFacts(systemId, b.version))
    case Some(x) => Answer(INSTRUCTION_LOOKUP, InstructionFacts(systemId, x.id, x.citation, b.version))
  }

  // ---------------------------------------------------------------- clarifications

  function First(s: seq<Choice>, n: nat): seq<Choice> {
    if |s| <= n then s else s[..n]
  }

  function Choices(candidates: seq<Candidate>): seq<Choice> {
    First(seq(|candidates|, i requires 0 <= i < |candidates| =>
      var c := candidates[i];
      Choice(c.id, if c.city != "" then c.caption + " — " + c.city else c.caption, c.score)), 5)
  }

  function CandidateClarification(s: TurnState, topic: string, result: ToolResult, slots: Slots): Turn {
    Turn(NEEDS_CLARIFICATION,
         Advance(s).(intent := Some(ROLE_DISCOVERY), phase := AWAITING_SELECTION, slots := slots,
                     pending := Some(Pending(topic, SELECTION, Choices(result.candidates), 0))),
         Answer("CLARIFICATION", NoFacts))
  }

  function WeakChoices(weak: seq<WeakMatch>): seq<Choice> {
    First(seq(|weak|, i requires 0 <= i < |weak| => Choice(weak[i].0.id, weak[i].0.name, weak[i].1)), 5)
  }

  function AskSlot(s: TurnState, topic: string, slots: Slots): Turn {
    Turn(NEEDS_CLARIFICATION,
         Advance(s).(intent := Some(ROLE_DISCOVERY), phase := AWAITING_SLOT, slots := slots,
                     pending := Some(Pending(topic, SLOT, [], 0))),
         Answer("CLARIFICATION", NoFacts))
  }

  // ---------------------------------------------------------------- access of a resolved profile

  function CandidateIds(s: seq<Candidate>): seq<string> {
    seq(|s|, i requires 0 <= i < |s| => s[i].id)
  }

  /** At most ten roles of one system granted to the profiles. */
  function ShownRoles(lang: Language, b: Bundle, systemId: string, profileIds: seq<string>): seq<string> {
    CandidateIds(RoleSearch(lang, b, systemId, profileIds, "", None, 10).candidates)
  }

  function RolesOfSystems(lang: Language, b: Bundle, systems: seq<Candidate>, profileIds: seq<string>): seq<string> {
    if systems == [] then []
    else RolesOfSystems(lang, b, systems[..|systems| - 1], profileIds)
         + ShownRoles(lang, b, systems[|systems| - 1].id, profileIds)
  }

  function AccessAnswer(lang: Language, b: Bundle, departmentId: string, positionId: string, profileIds: seq<string>): Answer {
    var systems := SystemSearch(lang, b, "", profileIds, 10).candidates;
    Answer("PROFILE_ACCESS",
           AccessFacts(departmentId, positionId, profileIds, CandidateIds(systems),
                       RolesOfSystems(lang, b, systems, profileIds), b.version))
  }

  function FinishProfileAccess(lang: Language, s: TurnState, b: Bundle, slots: Slots): Turn {
    var departmentId := SlotValue(slots, "department_id");
    var positionId := SlotValue(slots, "position_id");
    if departmentId == "" then AskSlot(s, "department", slots)
    else if positionId == "" then AskSlot(s, "position", slots)
    else
      var profiles := ProfileSearch(lang, b, departmentId, positionId, SlotValue(slots, "city"), 5);
      if profiles.status == NOT_FOUND then AskSlot(s, "position", slots)
      else if profiles.status == AMBIGUOUS then
        CandidateClarification(s, "profile", profiles, slots)
      else
        var profileIds := CandidateIds(profiles.candidates);
        Turn(HANDLED,
             Advance(s).(intent := Some(ROLE_DISCOVERY), phase := ANSWERED,
                         slots := slots["profile_id" := profileIds[0]], pending := None),
             AccessAnswer(lang, b, departmentId, positionId, profileIds))
  }

  method FinishAccess(lang: Language, state: TurnState, bundle: Bundle, slots: Slots) returns (turn: Turn)
    requires OD.WellFormed(bundle.profiles)
    ensures turn == FinishProfileAccess(lang, state, bundle, slots)
  {
    var departmentId := SlotValue(slots, "department_id");
    var positionId := SlotValue(slots, "position_id");
    if departmentId == "" { return AskSlot(state, "department", slots); }
    if positionId == "" { return AskSlot(state, "position", slots); }
    var profiles := ResolveProfiles(lang, bundle, departmentId, positionId, SlotValue(slots, "city"), 5);
    if profiles.status == NOT_FOUND { return AskSlot(state, "position", slots); }
    if profiles.status == AMBIGUOUS { return CandidateClarification(state, "profile", profiles, slots); }
    var profileIds := CandidateIds(profiles.candidates);
    var systems := SearchSystems(lang, bundle, "", profileIds, 10);
    var roleIds: seq<string> := [];
    for i := 0 to |systems.candidates|
      invariant roleIds == RolesOfSystems(lang, bundle, systems.candidates[..i], profileIds)
    {
      assert systems.candidates[..i + 1][..i] == systems.candidates[..i];
      var roles := SearchRoles(lang, bundle, systems.candidates[i].id, profileIds, "", None, 10);
      roleIds := roleIds + CandidateIds(roles.candidates);
    }
    assert systems.candidates[..|systems.candidates|] == systems.candidates;
    turn := Turn(HANDLED,
                 Advance(state).(intent := Some(ROLE_DISCOVERY), phase := ANSWERED,
                                 slots := slots["profile_id" := profileIds[0]], pending := None),
                 Answer("PROFILE_ACCESS",
                        AccessFacts(departmentId, positionId, profileIds, CandidateIds(systems.candidates),
                                    roleIds, bundle.version)));
  }

  // ---------------------------------------------------------------- deterministic rules

  /** The pending question "roles or instruction?". */
  function PendingIntent(lx: Lexicon, text: string, s: TurnState, b: Bundle): Turn {
    var systemId := SlotValue(s.slots, "system_id");
    if systemId in OD.Keys(b.systems) && lx.asksRoles(text) then
      Turn(HANDLED, Advance(s).(intent := Some(ROLE_DISCOVERY), phase := ANSWERED, pending := None), RolesAnswer(b, systemId))
    else if systemId in OD.Keys(b.systems) && lx.asksInstruction(text) then
      Turn(HANDLED, Advance(s).(intent := Some(INSTRUCTION_LOOKUP), phase := ANSWERED, pending := None), InstructionAnswer(b, systemId))
    else
      Turn(NEEDS_CLARIFICATION, Advance(s), Answer("CLARIFICATION", NoFacts))
  }

  function CityNamed(lx: Lexicon, departments: seq<DepartmentView>, value: string): Option<string> {
    if departments == [] then None
    else if lx.normalize(departments[0].row.city) == value then Some(departments[0].row.city)
    else CityNamed(lx, departments[1..], value)
  }

  function NotInCatalog(s: TurnState): Turn {
    Turn(NEEDS_CLARIFICATION, Advance(s), Answer(Intent(s), NoFacts))
  }

  function Confirm(s: TurnState, key: string, value: string): Turn {
    Turn(HANDLED, Advance(s).(phase := READY, slots := s.slots[key := value], pending := None), Answer(Intent(s), NoFacts))
  }

  function HandlePendingSlot(lx: Lexicon, text: string, s: TurnState, topic: string, b: Bundle): Turn {
    var value := lx.normalize(text);
    var city := SlotValue(s.slots, "city");
    if topic == "city" then
      match CityNamed(lx, b.departments, value)
      case None => NotInCatalog(s)
      case Some(c) => Confirm(s, "city", c)
    else if topic == "department" then
      var r := DepartmentSearch(lx.lang, b, text, city, 5);
      if r.status == FOUND then
        FinishProfileAccess(lx.lang, s, b, s.slots["department_id" := r.candidates[0].id])
      else if r.status == AMBIGUOUS then CandidateClarification(s, "department", r, s.slots)
      else NotInCatalog(s)
    else if topic == "position" then
      var r := PositionSearch(lx.lang, b, text, city, SlotValue(s.slots, "department_id"), 5);
      if r.status == FOUND then
        FinishProfileAccess(lx.lang, s, b, s.slots["position_id" := r.candidates[0].id])
      else if r.status == AMBIGUOUS then CandidateClarification(s, "position", r, s.slots)
      else NotInCatalog(s)
    else if topic == "system" then
      var (safe, weak) := SystemMatches(lx, value, b);
      if safe.Some? then Confirm(s, "system_id", safe.value.id)
      else if weak != [] then
        // The phase stays as it was.
        Turn(NEEDS_CLARIFICATION,
             Advance(s).(pending := Some(Pending("system", SELECTION, WeakChoices(weak), 0))),
             Answer(Intent(s), NoFacts))
      else NotInCatalog(s)
    else NotInCatalog(s)
  }

  function PendingSelection(lx: Lexicon, text: string, s: TurnState, p: Pending, b: Bundle): Option<Turn> {
    if lx.asksMore(text) then Some(Turn(NEEDS_CLARIFICATION, Advance(s), Answer(Intent(s), NoFacts)))
    else
      match lx.asNumber(text)
      case None => None
      case Some(n) =>
        if 1 <= n <= |p.options| then
          var slots := s.slots[p.topic + "_id" := p.options[n - 1].id];
          if p.topic == "department" || p.topic == "position" then Some(FinishProfileAccess(lx.lang, s, b, slots))
          else Some(Turn(HANDLED, Advance(s).(phase := ANSWERED, slots := slots, pending := None), Answer(Intent(s), NoFacts)))
        else None
  }

  function CityMentioned(lx: Lexicon, text: string, departments: seq<DepartmentView>): Option<string> {
    if departments == [] then None
    else if lx.containsPhrase(text, lx.normalize(departments[0].row.city)) then Some(departments[0].row.city)
    else CityMentioned(lx, text, departments[1..])
  }

  function OrganizationRequest(lx: Lexicon, request: Request, b: Bundle): Option<Turn> {
    var text := lx.normalize(request.text);
    var s := request.state;
    if !lx.aboutOrganization(text) then None
    else
      var mentioned := CityMentioned(lx, text, b.departments);
      var city := if mentioned.Some? then mentioned.value else SlotValue(s.slots, "city");
      var slots0 := if city != "" then s.slots["city" := city] else s.slots;
      var positions := PositionSearch(lx.lang, b, request.text, city, SlotValue(slots0, "department_id"), 5);
      if positions.status == AMBIGUOUS then Some(CandidateClarification(s, "position", positions, slots0))
      else
        var slots := if positions.status == FOUND
          then slots0["position_id" := positions.candidates[0].id] else slots0;
        var departments := DepartmentSearch(lx.lang, b, request.text, city, 5);
        if departments.status == AMBIGUOUS then Some(CandidateClarification(s, "department", departments, slots))
        else if departments.status == FOUND then
          Some(FinishProfileAccess(lx.lang, s, b, slots["department_id" := departments.candidates[0].id]))
        else if "department_id" !in slots then Some(AskSlot(s, "department", slots))
        else Some(FinishProfileAccess(lx.lang, s, b, slots))
  }

  function SafeSystemTurn(lx: Lexicon, text: string, s: TurnState, b: Bundle, system: System): Turn
    requires system.id in OD.Keys(b.systems)
  {
    var slots := s.slots["system_id" := system.id];
    if lx.asksHowTo(text) then
      Turn(HANDLED,
           Advance(s).(intent := Some(INSTRUCTION_LOOKUP), phase := ANSWERED, slots := slots, pending := None),
           InstructionAnswer(b, system.id))
    else if !lx.asksRoles(text) then
      Turn(if lx.switchesSystem(text) then HANDLED else NEEDS_CLARIFICATION,
           Advance(s).(phase := AWAITING_INTENT, slots := slots, pending := Some(Pending("intent", SLOT, [], 0))),
           Answer(if lx.switchesSystem(text) then "CONTEXT_UPDATE" else "CLARIFICATION", NoFacts))
    else
      Turn(HANDLED,
           Advance(s).(intent := Some(ROLE_DISCOVERY), phase := ANSWERED, slots := slots, pending := None),
           RolesAnswer(b, system.id))
  }

  /** The keys of a bundle are the ids of its systems. */
  ghost predicate KeyedById(b: Bundle) {
    forall i :: 0 <= i < |b.systems| ==> b.systems[i].1.id == b.systems[i].0
  }

  lemma {:induction false} SafeSystemKnown(lx: Lexicon, text: string, systems: OD.Dict<System>)
    requires forall i :: 0 <= i < |systems| ==> systems[i].1.id == systems[i].0
    ensures FirstSafe(lx, text, systems).Some? ==> FirstSafe(lx, text, systems).value.id in OD.Keys(systems)
    decreases |systems|
  {
    if systems != [] {
      assert systems[0].0 in OD.Keys(systems);
      SafeSystemKnown(lx, text, systems[1..]);
      OD.KeysCons(systems);
    }
  }

  function SystemTurn(lx: Lexicon, text: string, s: TurnState, b: Bundle): Option<Turn>
    requires KeyedById(b)
  {
    var (safe, weak) := SystemMatches(lx, text, b);
    if safe.Some? then
      SafeSystemKnown(lx, text, b.systems);
      Some(SafeSystemTurn(lx, text, s, b, safe.value))
    else if weak != [] then
      Some(Turn(NEEDS_CLARIFICATION,
                Advance(s).(intent := Some(ROLE_DISCOVERY), phase := AWAITING_SELECTION,
                            pending := Some(Pending("system", SELECTION, WeakChoices(weak), 0))),
                Answer(ROLE_DISCOVERY, NoFacts)))
    else None
  }

  function FreshTopic(lx: Lexicon, request: Request, b: Bundle): Option<Turn>
    requires KeyedById(b)
  {
    var organization := OrganizationRequest(lx, request, b);
    if organization.Some? then organization
    else SystemTurn(lx, lx.normalize(request.text), request.state, b)
  }

  function Deterministic(lx: Lexicon, request: Request, b: Bundle): Option<Turn>
    requires KeyedById(b)
  {
    var text := lx.normalize(request.text);
    var s := request.state;
    if lx.reset(text) then
      Some(Turn(HANDLED, TurnState(s.sessionId, s.revision + 1, None, READY, map[], None), Answer("RESET", NoFacts)))
    else
      match s.pending
      case None => FreshTopic(lx, request, b)
      case Some(p) =>
        if p.kind == SLOT && p.topic == "intent" then Some(PendingIntent(lx, text, s, b))
        else if p.kind == SLOT && lx.isSimpleValue(text) then Some(HandlePendingSlot(lx, request.text, s, p.topic, b))
        else
          var selection := if p.kind == SELECTION then PendingSelection(lx, text, s, p, b) else None;
          if selection.Some? then selection else FreshTopic(lx, request, b)
  }

  // ---------------------------------------------------------------- planner fallback

  predicate ActionAllowed(intent: string, action: string) {
    || (intent == ROLE_DISCOVERY && action == "SEARCH_ROLES")
    || (intent == SYSTEM_DISCOVERY && action == "SEARCH_SYSTEMS")
    || (intent == ROLE_ACQUISITION && action == "GET_INSTRUCTION")
    || (intent == INSTRUCTION_LOOKUP && action == "GET_INSTRUCTION")
  }

  predicate WellFormedPlan(p: Plan) {
    && ActionAllowed(p.intent, p.action)
    && p.slots.Keys <= {"system_id", "city", "department"}
    && 0.0 <= p.confidence <= 1.0
  }

  predicate KnownFacts(lx: Lexicon, p: Plan, b: Bundle) {
    var systemId, city, department := SlotValue(p.slots, "system_id"), SlotValue(p.slots, "city"), SlotValue(p.slots, "department");
    && (systemId != "" ==> systemId in OD.Keys(b.systems))
    && (city != "" ==> exists d | d in b.departments :: lx.normalize(d.row.city) == lx.normalize(city))
    && (department != "" ==> exists d | d in b.departments :: lx.normalize(d.row.name) == lx.normalize(department))
  }

  function Reject(request: Request, b: Bundle, outcome: Outcome, code: string, retryable: bool): TurnResult {
    TurnResult(GIGACHAT_FALLBACK, outcome, request.state, None, Some(Failure(code, retryable)), b.version, 1)
  }

  function PlanAnswer(p: Plan, b: Bundle, systemId: string): Answer
    requires systemId in OD.Keys(b.systems)
  {
    if p.intent == INSTRUCTION_LOOKUP || p.intent == ROLE_ACQUISITION then InstructionAnswer(b, systemId)
    else if p.intent == SYSTEM_DISCOVERY then Answer(SYSTEM_DISCOVERY, SystemFacts(systemId, b.version))
    else RolesAnswer(b, systemId)
  }

  function Fallback(lx: Lexicon, request: Request, b: Bundle, reply: PlannerReply): TurnResult {
    match reply
    case TimedOut => Reject(request, b, PROVIDER_FAILURE, "PROVIDER_TIMEOUT", true)
    case Raised => Reject(request, b, PROVIDER_FAILURE, "PROVIDER_ERROR", true)
    case NotAPlan => Reject(request, b, NEEDS_CLARIFICATION, "MALFORMED_PLAN", false)
    case Planned(p) =>
      if !WellFormedPlan(p) then Reject(request, b, NEEDS_CLARIFICATION, "MALFORMED_PLAN", false)
      else if p.confidence < 0.55 then Reject(request, b, NEEDS_CLARIFICATION, "LOW_CONFIDENCE", false)
      else if p.catalogVersion != b.version then Reject(request, b, NEEDS_CLARIFICATION, "STALE_PLAN", false)
      else if !KnownFacts(lx, p, b) then Reject(request, b, NEEDS_CLARIFICATION, "UNKNOWN_CATALOG_FACT", false)
      else
        var systemId := SlotValue(p.slots, "system_id");
        var state := Advance(request.state).(
          intent := Some(p.intent),
          phase := if systemId != "" then ANSWERED else AWAITING_SLOT,
          slots := request.state.slots + p.slots,
          pending := if systemId != "" then None else Some(Pending("system", SLOT, [], 0)));
        if systemId != "" then
          TurnResult(GIGACHAT_FALLBACK, HANDLED, state, Some(PlanAnswer(p, b, systemId)), None, b.version, 1)
        else
          TurnResult(GIGACHAT_FALLBACK, NEEDS_CLARIFICATION, state, Some(Answer(p.intent, NoFacts)), None, b.version, 1)
  }

  /** One turn against the pinned bundle; the planner's reply is consulted only when no rule applies. */
  function Handle(lx: Lexicon, b: Bundle, request: Request, reply: PlannerReply): TurnResult
    requires KeyedById(b)
  {
    match Deterministic(lx, request, b)
    case Some(t) => TurnResult(DETERMINISTIC, t.outcome, t.state, Some(t.answer), None, b.version, 0)
    case None => Fallback(lx, request, b, reply)
  }
}
