/** What an answer to a pending question, the name of a system, or a plan of the planner leads to. */
module QuestionOutcomes {
  import opened Prelude
  import OD = OrderedDict
  import opened Catalog
  import opened CatalogBundle
  import opened Ranking
  import opened SearchTools
  import opened Dialogue
  import opened DialogueProofs
  import opened DialogueOutcomes
  import opened TurnOutcomes

  // ---------------------------------------------------------------- what the answers tell

  /** The roles of the system, all of them, in the order of the catalog. */
  ghost predicate TellsRoles(b: Bundle, systemId: string, f: Facts) {
    && f.RoleFacts? && f.systemId == systemId && f.version == b.version
    && exists i :: 0 <= i < |b.systems| && b.systems[i].0 == systemId && ListsRoles(f.roleIds, b.systems[i].1.roles)
  }

  predicate ListsRoles(ids: seq<string>, roles: seq<Role>) {
    |ids| == |roles| && forall k :: 0 <= k < |ids| ==> ids[k] == roles[k].id
  }

  /** The first instruction of the system; without one only the system. */
  ghost predicate TellsInstruction(b: Bundle, systemId: string, f: Facts) {
    && (forall j :: FirstFor(b.instructions, systemId, j) ==>
          f == InstructionFacts(systemId, b.instructions[j].id, b.instructions[j].citation, b.version))
    && (f == SystemFacts(systemId, b.version) || exists j :: FirstFor(b.instructions, systemId, j))
  }

  ghost predicate FirstFor(s: seq<Instruction>, systemId: string, j: int) {
    0 <= j < |s| && s[j].systemId == systemId && forall h :: 0 <= h < j ==> s[h].systemId != systemId
  }

  lemma {:induction false} FirstInstructionIs(s: seq<Instruction>, systemId: string)
    ensures forall j :: FirstFor(s, systemId, j) ==> FirstInstruction(s, systemId) == Some(s[j])
    ensures FirstInstruction(s, systemId).Some? ==> exists j :: FirstFor(s, systemId, j)
    decreases |s|
  {
    if s != [] {
      var rest := s[1..];
      FirstInstructionIs(rest, systemId);
      if s[0].systemId == systemId {
        assert FirstFor(s, systemId, 0);
      } else {
        forall j | FirstFor(s, systemId, j) ensures FirstFor(rest, systemId, j - 1) {
          assert forall h :: 0 <= h < j - 1 ==> rest[h] == s[h + 1];
        }
        forall j | FirstFor(rest, systemId, j) ensures FirstFor(s, systemId, j + 1) {
          assert forall h :: 0 < h < j + 1 ==> s[h] == rest[h - 1];
        }
      }
    }
  }

  lemma InstructionTold(b: Bundle, systemId: string)
    requires systemId in OD.Keys(b.systems)
    ensures var a := InstructionAnswer(b, systemId);
      a.answerType == "INSTRUCTION_LOOKUP" && TellsInstruction(b, systemId, a.facts)
  {
    hide FirstInstruction;
    FirstInstructionIs(b.instructions, systemId);
  }

  lemma RolesTold(b: Bundle, systemId: string)
    requires systemId in OD.Keys(b.systems)
    ensures var a := RolesAnswer(b, systemId);
      a.answerType == "ROLE_DISCOVERY" && TellsRoles(b, systemId, a.facts)
  {
    var y := OD.Get(b.systems, systemId).value;
    var i :| 0 <= i < |b.systems| && b.systems[i] == (systemId, y);
    assert ListsRoles(RolesAnswer(b, systemId).facts.roleIds, b.systems[i].1.roles);
  }

  ghost predicate GivesRoles(b: Bundle, s: TurnState, slots: Slots, systemId: string, r: TurnResult) {
    ByRule(r, HANDLED, After(s, "ROLE_DISCOVERY", slots), "ROLE_DISCOVERY") && TellsRoles(b, systemId, r.answer.value.facts)
  }

  ghost predicate GivesInstruction(b: Bundle, s: TurnState, slots: Slots, systemId: string, r: TurnResult) {
    ByRule(r, HANDLED, After(s, "INSTRUCTION_LOOKUP", slots), "INSTRUCTION_LOOKUP") && TellsInstruction(b, systemId, r.answer.value.facts)
  }

  // ---------------------------------------------------------------- reset and the question "roles or instruction?"

  /** A reset drops intent, slots and question, whatever was pending. */
  lemma ResetAnswered(lx: Lexicon, b: Bundle, request: Request, reply: PlannerReply)
    requires KeyedById(b) && lx.reset(lx.normalize(request.text))
    ensures var s, r := request.state, Handle(lx, b, request, reply);
      ByRule(r, HANDLED, TurnState(s.sessionId, s.revision + 1, None, "READY", map[], None), "RESET") && Silently(r)
  {
    hide FreshTopic, PendingIntent, HandlePendingSlot, PendingSelection, Fallback;
  }

  /** A question for one value is pending, and no reset is asked for. */
  predicate Questioned(lx: Lexicon, request: Request, topic: string) {
    && !lx.reset(lx.normalize(request.text)) && request.state.pending.Some?
    && request.state.pending.value.kind == "slot" && request.state.pending.value.topic == topic
  }

  /** The question whether roles or the instruction are wanted. */
  lemma IntentAnswered(lx: Lexicon, b: Bundle, request: Request, reply: PlannerReply)
    requires KeyedById(b) && Questioned(lx, request, "intent")
    ensures var s, r, text := request.state, Handle(lx, b, request, reply), lx.normalize(request.text);
      var systemId := SlotValue(s.slots, "system_id");
      if systemId in OD.Keys(b.systems) && lx.asksRoles(text) then GivesRoles(b, s, s.slots, systemId, r)
      else if systemId in OD.Keys(b.systems) && lx.asksInstruction(text) then GivesInstruction(b, s, s.slots, systemId, r)
      else StaysOpen(s, "CLARIFICATION", r)
  {
    hide FreshTopic, HandlePendingSlot, PendingSelection, Fallback, RolesAnswer, InstructionAnswer, TellsRoles, TellsInstruction;
    var systemId := SlotValue(request.state.slots, "system_id");
    if systemId in OD.Keys(b.systems) {
      RolesTold(b, systemId);
      InstructionTold(b, systemId);
    }
  }

  // ---------------------------------------------------------------- a value for a missing slot

  lemma SlotTurn(lx: Lexicon, b: Bundle, request: Request, reply: PlannerReply, topic: string)
    requires KeyedById(b) && Questioned(lx, request, topic) && topic != "intent" && lx.isSimpleValue(lx.normalize(request.text))
    ensures Handle(lx, b, request, reply) == Finished(b, HandlePendingSlot(lx, request.text, request.state, topic, b))
  {
    hide FreshTopic, HandlePendingSlot, PendingSelection, PendingIntent, Fallback;
  }

  /** The first department whose city reads like the value. */
  ghost predicate FirstInCity(lx: Lexicon, departments: seq<DepartmentView>, value: string, i: int) {
    && 0 <= i < |departments| && lx.normalize(departments[i].row.city) == value
    && forall h :: 0 <= h < i ==> lx.normalize(departments[h].row.city) != value
  }

  lemma {:induction false} CityNamedFirst(lx: Lexicon, departments: seq<DepartmentView>, value: string)
    ensures forall i :: FirstInCity(lx, departments, value, i) ==> CityNamed(lx, departments, value) == Some(departments[i].row.city)
    ensures CityNamed(lx, departments, value).Some? ==> exists i :: FirstInCity(lx, departments, value, i)
    decreases |departments|
  {
    if departments != [] {
      var rest := departments[1..];
      CityNamedFirst(lx, rest, value);
      if lx.normalize(departments[0].row.city) == value {
        assert FirstInCity(lx, departments, value, 0);
      } else {
        forall i | FirstInCity(lx, departments, value, i) ensures FirstInCity(lx, rest, value, i - 1) {
          assert forall h :: 0 <= h < i - 1 ==> rest[h] == departments[h + 1];
        }
        forall i | FirstInCity(lx, rest, value, i) ensures FirstInCity(lx, departments, value, i + 1) {
          assert forall h :: 0 < h < i + 1 ==> departments[h] == rest[h - 1];
        }
      }
    }
  }

  /** A city of the catalog is taken over as the catalog writes it; any other value leaves the question open. */
  lemma CityAnswered(lx: Lexicon, b: Bundle, request: Request, reply: PlannerReply)
    requires KeyedById(b) && Questioned(lx, request, "city") && lx.isSimpleValue(lx.normalize(request.text))
    ensures var s, r, value := request.state, Handle(lx, b, request, reply), lx.normalize(request.text);
      && (forall i :: FirstInCity(lx, b.departments, value, i) ==> Confirms(s, "city", b.departments[i].row.city, r))
      && (StaysOpen(s, Intent(s), r) || exists i :: FirstInCity(lx, b.departments, value, i))
  {
    hide Handle, DepartmentSearch, PositionSearch, FinishProfileAccess, SystemMatches, CityNamed;
    SlotTurn(lx, b, request, reply, "city");
    CityNamedFirst(lx, b.departments, lx.normalize(request.text));
  }

  /** Two or more candidates are offered, one is taken over and access is looked up, none leaves the question open. */
  ghost predicate Resolves(lang: Language, b: Bundle, s: TurnState, topic: string, key: string, candidates: set<Candidate>, r: TurnResult) {
    if candidates == {} then StaysOpen(s, Intent(s), r)
    else if |candidates| >= 2 then exists options :: BestFive(options, candidates) && Offers(s, s.slots, topic, options, "CLARIFICATION", r)
    else exists c :: candidates == {c} && AccessOutcome(lang, b, s, s.slots[key := c.id], r)
  }

  lemma DepartmentAnswered(lx: Lexicon, b: Bundle, request: Request, reply: PlannerReply)
    requires ValidBundle(b) && KeyedById(b) && Questioned(lx, request, "department") && lx.isSimpleValue(lx.normalize(request.text))
    ensures var s := request.state;
      Resolves(lx.lang, b, s, "department", "department_id",
               DepartmentCandidates(lx.lang, b, request.text, SlotValue(s.slots, "city")), Handle(lx, b, request, reply))
  {
    hide ValidBundle, Handle, DepartmentSearch, PositionSearch, FinishProfileAccess, SystemMatches, CityNamed, BestFive, Choices,
      DepartmentCandidates, AccessOutcome, Offers;
    var s := request.state;
    var city := SlotValue(s.slots, "city");
    SlotTurn(lx, b, request, reply, "department");
    var found := DepartmentSearch(lx.lang, b, request.text, city, 5);
    DepartmentsCounted(lx.lang, b, request.text, city);
    if found.status == AMBIGUOUS {
      ClarificationOffers(b, s, "department", found, s.slots);
    } else if found.status == FOUND {
      AccessFinished(lx.lang, b, s, s.slots["department_id" := found.candidates[0].id]);
    }
  }

  lemma PositionAnswered(lx: Lexicon, b: Bundle, request: Request, reply: PlannerReply)
    requires ValidBundle(b) && KeyedById(b) && Questioned(lx, request, "position") && lx.isSimpleValue(lx.normalize(request.text))
    ensures var s := request.state;
      Resolves(lx.lang, b, s, "position", "position_id",
               PositionCandidates(lx.lang, b, request.text, SlotValue(s.slots, "city"), SlotValue(s.slots, "department_id")),
               Handle(lx, b, request, reply))
  {
    hide ValidBundle, Handle, DepartmentSearch, PositionSearch, FinishProfileAccess, SystemMatches, CityNamed, BestFive, Choices,
      PositionCandidates, AccessOutcome, Offers;
    var s := request.state;
    var city, department := SlotValue(s.slots, "city"), SlotValue(s.slots, "department_id");
    SlotTurn(lx, b, request, reply, "position");
    var found := PositionSearch(lx.lang, b, request.text, city, department, 5);
    PositionsCounted(lx.lang, b, request.text, city, department);
    if found.status == AMBIGUOUS {
      ClarificationOffers(b, s, "position", found, s.slots);
    } else if found.status == FOUND {
      AccessFinished(lx.lang, b, s, s.slots["position_id" := found.candidates[0].id]);
    }
  }

  // ---------------------------------------------------------------- systems by name

  /** The first five weak matches, each with its id, name and score. */
  predicate WeakFive(options: seq<Choice>, weak: seq<WeakMatch>) {
    && |options| == (if |weak| <= 5 then |weak| else 5)
    && forall k :: 0 <= k < |options| ==> options[k] == Choice(weak[k].0.id, weak[k].0.name, weak[k].1)
  }

  /** No system is taken for a SAFE mention. */
  ghost predicate NoneTaken(lx: Lexicon, text: string, b: Bundle) {
    !exists i :: FirstTaken(lx, text, b.systems, i)
  }

  /** Every id of a system that matches weakly is offered once, with its best score, best first. */
  ghost predicate WeakAre(lx: Lexicon, text: string, b: Bundle, weak: seq<WeakMatch>) {
    && Descending(weak)
    && (forall i, j :: 0 <= i < j < |weak| ==> weak[i].0.id != weak[j].0.id)
    && (forall m :: m in weak ==> DialogueProofs.Offered(lx, text, b.systems, m))
    && (forall e :: e in b.systems && ScanSystem(lx, text, e.1).WeakHit? ==> KeptFor((e.1, ScanSystem(lx, text, e.1).score), weak))
  }

  lemma MatchesAre(lx: Lexicon, text: string, b: Bundle)
    ensures var (safe, weak) := SystemMatches(lx, text, b);
      && (forall i :: FirstTaken(lx, text, b.systems, i) ==> safe == Some(b.systems[i].1))
      && (safe.None? <==> NoneTaken(lx, text, b))
      && (safe.None? ==> WeakAre(lx, text, b, weak))
  {
    hide TakenFor, SystemMatches, Descending, Scored, DialogueProofs.Offered, KeptFor, ScanSystem;
    SystemMatchesMeaning(lx, text, b);
    var (safe, weak) := SystemMatches(lx, text, b);
    if i :| FirstTaken(lx, text, b.systems, i) {
      assert safe == Some(b.systems[i].1);
    } else {
      assert safe.None?;
    }
  }

  /** A system meant by the value is taken over; weak matches are offered while the phase stays; else the question stays open. */
  lemma SystemAnswered(lx: Lexicon, b: Bundle, request: Request, reply: PlannerReply)
    requires KeyedById(b) && Questioned(lx, request, "system") && lx.isSimpleValue(lx.normalize(request.text))
    ensures var s, r, value := request.state, Handle(lx, b, request, reply), lx.normalize(request.text);
      && (forall i :: FirstTaken(lx, value, b.systems, i) ==> Confirms(s, "system_id", b.systems[i].1.id, r))
      && (NoneTaken(lx, value, b) ==> exists weak :: (WeakAre(lx, value, b, weak) &&
            if weak == [] then StaysOpen(s, Intent(s), r) else PutsForward(s, weak, r)))
  {
    hide Handle, DepartmentSearch, PositionSearch, FinishProfileAccess, SystemMatches, CityNamed, TakenFor, WeakAre;
    SlotTurn(lx, b, request, reply, "system");
    MatchesAre(lx, lx.normalize(request.text), b);
    assert WeakFive(WeakChoices(SystemMatches(lx, lx.normalize(request.text), b).1), SystemMatches(lx, lx.normalize(request.text), b).1);
  }

  ghost predicate PutsForward(s: TurnState, weak: seq<WeakMatch>, r: TurnResult) {
    exists options :: WeakFive(options, weak)
      && ByRule(r, NEEDS_CLARIFICATION,
                TurnState(s.sessionId, s.revision + 1, s.intent, s.phase, s.slots, Some(Pending("system", "candidate_selection", options, 0))),
                Intent(s))
      && Silently(r)
  }

  /** The system is remembered and the user is asked whether roles or the instruction are wanted. */
  predicate AsksIntent(lx: Lexicon, text: string, s: TurnState, systemId: string, r: TurnResult) {
    && ByRule(r, if lx.switchesSystem(text) then HANDLED else NEEDS_CLARIFICATION,
              TurnState(s.sessionId, s.revision + 1, s.intent, "AWAITING_INTENT", s.slots["system_id" := systemId],
                        Some(Pending("intent", "slot", [], 0))),
              if lx.switchesSystem(text) then "CONTEXT_UPDATE" else "CLARIFICATION")
    && Silently(r)
  }

  /** A message that opens a topic and is not about the organization. */
  predicate NamesSystems(lx: Lexicon, request: Request) {
    OpensTopic(lx, request) && !lx.aboutOrganization(lx.normalize(request.text))
  }

  /** What a message about the system at this place leads to. */
  ghost predicate SystemOutcome(lx: Lexicon, b: Bundle, s: TurnState, text: string, systemId: string, r: TurnResult) {
    var slots := s.slots["system_id" := systemId];
    if lx.asksHowTo(text) then GivesInstruction(b, s, slots, systemId, r)
    else if lx.asksRoles(text) then GivesRoles(b, s, slots, systemId, r)
    else AsksIntent(lx, text, s, systemId, r)
  }

  /**
   * A message that names a system gets the instruction, the roles, or the question which of them; without a SAFE
   * mention the weak matches are offered, and only a message that matches no system goes to the planner.
   */
  lemma SystemNamed(lx: Lexicon, b: Bundle, request: Request, reply: PlannerReply)
    requires KeyedById(b) && NamesSystems(lx, request)
    ensures var s, r, text := request.state, Handle(lx, b, request, reply), lx.normalize(request.text);
      && (forall i :: FirstTaken(lx, text, b.systems, i) ==> SystemOutcome(lx, b, s, text, b.systems[i].1.id, r))
      && (NoneTaken(lx, text, b) ==> exists weak :: (WeakAre(lx, text, b, weak) &&
            if weak == [] then r == Fallback(lx, request, b, reply)
            else exists options :: WeakFive(options, weak) && Offers(s, s.slots, "system", options, "ROLE_DISCOVERY", r)))
  {
    hide Handle, OpensTopic, SystemMatches, TakenFor, WeakAre, Fallback, RolesAnswer, InstructionAnswer, TellsRoles, TellsInstruction;
    var text, s := lx.normalize(request.text), request.state;
    TopicOpened(lx, b, request, reply);
    MatchesAre(lx, text, b);
    var (safe, weak) := SystemMatches(lx, text, b);
    if safe.Some? {
      forall i | FirstTaken(lx, text, b.systems, i) ensures b.systems[i].1.id in OD.Keys(b.systems) { TakenIsKnown(lx, text, b, i); }
      if i :| FirstTaken(lx, text, b.systems, i) {
        RolesTold(b, b.systems[i].1.id);
        InstructionTold(b, b.systems[i].1.id);
      }
    } else {
      assert WeakFive(WeakChoices(weak), weak);
    }
  }

  lemma TakenIsKnown(lx: Lexicon, text: string, b: Bundle, i: int)
    requires KeyedById(b) && FirstTaken(lx, text, b.systems, i)
    ensures b.systems[i].1.id in OD.Keys(b.systems)
  {
    hide TakenFor;
    assert b.systems[i].1.id == b.systems[i].0;
  }

  // ---------------------------------------------------------------- a choice between options

  /** A choice is pending, and no reset is asked for. */
  predicate Choosing(lx: Lexicon, request: Request) {
    && !lx.reset(lx.normalize(request.text)) && request.state.pending.Some?
    && request.state.pending.value.kind == "candidate_selection"
  }

  /** Asking for more options changes nothing; the number of an option takes it over and, for the organization, looks up access. */
  lemma ChoiceAnswered(lx: Lexicon, b: Bundle, request: Request, reply: PlannerReply)
    requires ValidBundle(b) && KeyedById(b) && Choosing(lx, request)
    ensures var s, p, r, text := request.state, request.state.pending.value, Handle(lx, b, request, reply), lx.normalize(request.text);
      && (lx.asksMore(text) ==> StaysOpen(s, Intent(s), r))
      && (forall n :: !lx.asksMore(text) && lx.asNumber(text) == Some(n) && 1 <= n <= |p.options| ==>
            Chosen(lx.lang, b, s, p.topic, p.options[n - 1].id, r))
  {
    hide ValidBundle, FreshTopic, HandlePendingSlot, PendingIntent, Fallback, FinishProfileAccess, AccessOutcome;
    var s, p, text := request.state, request.state.pending.value, lx.normalize(request.text);
    if !lx.asksMore(text) && lx.asNumber(text).Some? && 1 <= lx.asNumber(text).value <= |p.options| {
      KeysOfTopics(p.topic);
      AccessFinished(lx.lang, b, s, s.slots[p.topic + "_id" := p.options[lx.asNumber(text).value - 1].id]);
    }
  }

  ghost predicate Chosen(lang: Language, b: Bundle, s: TurnState, topic: string, id: string, r: TurnResult) {
    if topic == "department" then AccessOutcome(lang, b, s, s.slots["department_id" := id], r)
    else if topic == "position" then AccessOutcome(lang, b, s, s.slots["position_id" := id], r)
    else
      && ByRule(r, HANDLED, TurnState(s.sessionId, s.revision + 1, s.intent, "ANSWERED", s.slots[topic + "_id" := id], None), Intent(s))
      && Silently(r)
  }

  // ---------------------------------------------------------------- the planner

  predicate Refused(s: TurnState, outcome: Outcome, code: string, retryable: bool, r: TurnResult) {
    && r.route == GIGACHAT_FALLBACK && r.plannerCalls == 1 && r.outcome == outcome && r.state == s
    && r.answer.None? && r.failure == Some(Failure(code, retryable))
  }

  /** The plan names one of the four permitted steps, only known slots, and a share as its confidence. */
  predicate Permitted(p: Plan) {
    && (p.intent, p.action) in {("ROLE_DISCOVERY", "SEARCH_ROLES"), ("SYSTEM_DISCOVERY", "SEARCH_SYSTEMS"),
                                ("ROLE_ACQUISITION", "GET_INSTRUCTION"), ("INSTRUCTION_LOOKUP", "GET_INSTRUCTION")}
    && (forall k :: k in p.slots ==> k == "system_id" || k == "city" || k == "department")
    && 0.0 <= p.confidence <= 1.0
  }

  /** Whatever the plan names, the catalog has: the system by id, city and department up to normalization. */
  ghost predicate InCatalog(lx: Lexicon, p: Plan, b: Bundle) {
    && (SlotValue(p.slots, "system_id") != "" ==> exists i :: 0 <= i < |b.systems| && b.systems[i].0 == SlotValue(p.slots, "system_id"))
    && (SlotValue(p.slots, "city") != "" ==>
          exists i :: 0 <= i < |b.departments| && lx.normalize(b.departments[i].row.city) == lx.normalize(SlotValue(p.slots, "city")))
    && (SlotValue(p.slots, "department") != "" ==>
          exists i :: 0 <= i < |b.departments| && lx.normalize(b.departments[i].row.name) == lx.normalize(SlotValue(p.slots, "department")))
  }

  lemma InCatalogKnown(lx: Lexicon, p: Plan, b: Bundle)
    ensures KnownFacts(lx, p, b) <==> InCatalog(lx, p, b)
  {
    if InCatalog(lx, p, b) {
      if SlotValue(p.slots, "city") != "" {
        var i :| 0 <= i < |b.departments| && lx.normalize(b.departments[i].row.city) == lx.normalize(SlotValue(p.slots, "city"));
        assert b.departments[i] in b.departments;
      }
      if SlotValue(p.slots, "department") != "" {
        var i :| 0 <= i < |b.departments| && lx.normalize(b.departments[i].row.name) == lx.normalize(SlotValue(p.slots, "department"));
        assert b.departments[i] in b.departments;
      }
    }
  }

  /** A plan that is followed: the answer for the system it names, or the question for the system. */
  ghost predicate Followed(b: Bundle, s: TurnState, p: Plan, r: TurnResult) {
    var systemId := SlotValue(p.slots, "system_id");
    && r.route == GIGACHAT_FALLBACK && r.plannerCalls == 1 && r.failure.None? && r.answer.Some?
    && if systemId == "" then
         && r.outcome == NEEDS_CLARIFICATION && r.answer.value == Answer(p.intent, NoFacts)
         && r.state == TurnState(s.sessionId, s.revision + 1, Some(p.intent), "AWAITING_SLOT", s.slots + p.slots,
                                 Some(Pending("system", "slot", [], 0)))
       else
         && r.outcome == HANDLED && r.state == After(s, p.intent, s.slots + p.slots)
         && (p.intent == "ROLE_DISCOVERY" ==>
               r.answer.value.answerType == "ROLE_DISCOVERY" && TellsRoles(b, systemId, r.answer.value.facts))
         && (p.intent == "SYSTEM_DISCOVERY" ==> r.answer.value == Answer("SYSTEM_DISCOVERY", SystemFacts(systemId, b.version)))
         && (p.intent == "ROLE_ACQUISITION" || p.intent == "INSTRUCTION_LOOKUP" ==>
               r.answer.value.answerType == "INSTRUCTION_LOOKUP" && TellsInstruction(b, systemId, r.answer.value.facts))
  }

  /** A planner's plan is followed, or refused with the first objection; a refused turn keeps the state. */
  lemma PlanAnswered(lx: Lexicon, b: Bundle, request: Request, reply: PlannerReply)
    ensures var s, r := request.state, Fallback(lx, request, b, reply);
      match reply
      case TimedOut => Refused(s, PROVIDER_FAILURE, "PROVIDER_TIMEOUT", true, r)
      case Raised => Refused(s, PROVIDER_FAILURE, "PROVIDER_ERROR", true, r)
      case NotAPlan => Refused(s, NEEDS_CLARIFICATION, "MALFORMED_PLAN", false, r)
      case Planned(p) =>
        && (!Permitted(p) ==> Refused(s, NEEDS_CLARIFICATION, "MALFORMED_PLAN", false, r))
        && (Permitted(p) && p.confidence < 0.55 ==> Refused(s, NEEDS_CLARIFICATION, "LOW_CONFIDENCE", false, r))
        && (Permitted(p) && p.confidence >= 0.55 && p.catalogVersion != b.version ==> Refused(s, NEEDS_CLARIFICATION, "STALE_PLAN", false, r))
        && (Permitted(p) && p.confidence >= 0.55 && p.catalogVersion == b.version && !InCatalog(lx, p, b) ==>
              Refused(s, NEEDS_CLARIFICATION, "UNKNOWN_CATALOG_FACT", false, r))
        && (Permitted(p) && p.confidence >= 0.55 && p.catalogVersion == b.version && InCatalog(lx, p, b) ==> Followed(b, s, p, r))
  {
    hide RolesAnswer, InstructionAnswer, TellsRoles, TellsInstruction, InCatalog;
    if reply.Planned? {
      var p := reply.plan;
      InCatalogKnown(lx, p, b);
      assert WellFormedPlan(p) <==> Permitted(p) by {
        assert p.slots.Keys <= {"system_id", "city", "department"} <==>
          forall k :: k in p.slots ==> k == "system_id" || k == "city" || k == "department";
      }
      var systemId := SlotValue(p.slots, "system_id");
      if systemId in OD.Keys(b.systems) {
        RolesTold(b, systemId);
        InstructionTold(b, systemId);
      }
    }
  }
}
