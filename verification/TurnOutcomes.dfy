/** What a message leads to, rule by rule: the outcome, the new state and the answer, told from the catalog. */
module TurnOutcomes {
  import opened Prelude
  import OD = OrderedDict
  import opened Catalog
  import opened CatalogBundle
  import opened Ranking
  import opened SearchTools
  import opened Dialogue
  import opened DialogueProofs
  import opened DialogueOutcomes
  import opened AccessListing

  // ---------------------------------------------------------------- kinds of outcomes

  /** A rule answered the message without the planner. */
  predicate ByRule(r: TurnResult, outcome: Outcome, state: TurnState, answerType: string) {
    && r.route == DETERMINISTIC && r.plannerCalls == 0 && r.failure.None?
    && r.outcome == outcome && r.state == state && r.answer.Some? && r.answer.value.answerType == answerType
  }

  predicate Silently(r: TurnResult) {
    r.answer.Some? && r.answer.value.facts == NoFacts
  }

  /** The missing slot is asked for, and what is known so far is kept. */
  predicate Asks(s: TurnState, slots: Slots, topic: string, r: TurnResult) {
    && ByRule(r, NEEDS_CLARIFICATION,
              TurnState(s.sessionId, s.revision + 1, Some("ROLE_DISCOVERY"), "AWAITING_SLOT", slots, Some(Pending(topic, "slot", [], 0))),
              "CLARIFICATION")
    && Silently(r)
  }

  /** A choice is offered, and what is known so far is kept. */
  predicate Offers(s: TurnState, slots: Slots, topic: string, options: seq<Choice>, answerType: string, r: TurnResult) {
    && ByRule(r, NEEDS_CLARIFICATION,
              TurnState(s.sessionId, s.revision + 1, Some("ROLE_DISCOVERY"), "AWAITING_SELECTION", slots,
                        Some(Pending(topic, "candidate_selection", options, 0))),
              answerType)
    && Silently(r)
  }

  /** A value is taken over and the next one is awaited. */
  predicate Confirms(s: TurnState, key: string, value: string, r: TurnResult) {
    && ByRule(r, HANDLED, TurnState(s.sessionId, s.revision + 1, s.intent, "READY", s.slots[key := value], None), Intent(s))
    && Silently(r)
  }

  /** Nothing is taken over; the question stays. */
  predicate StaysOpen(s: TurnState, answerType: string, r: TurnResult) {
    && ByRule(r, NEEDS_CLARIFICATION, TurnState(s.sessionId, s.revision + 1, s.intent, s.phase, s.slots, s.pending), answerType)
    && Silently(r)
  }

  /** The state after an answer. */
  function After(s: TurnState, intent: string, slots: Slots): TurnState {
    TurnState(s.sessionId, s.revision + 1, Some(intent), "ANSWERED", slots, None)
  }

  // ---------------------------------------------------------------- the best five

  /** How a candidate is offered: with its city, if it has one. */
  function Offered(c: Candidate): Choice {
    Choice(c.id, if c.city == "" then c.caption else c.caption + " — " + c.city, c.score)
  }

  /** The options are the best five of the candidates, best first. */
  ghost predicate BestFive(options: seq<Choice>, candidates: set<Candidate>) {
    exists best: seq<Candidate> :: IsBestFive(best, candidates) && OfferedAll(options, best)
  }

  ghost predicate IsBestFive(best: seq<Candidate>, candidates: set<Candidate>) {
    && Sorted(best) && UniqueIds(best)
    && |best| == (if |candidates| <= 5 then |candidates| else 5)
    && (forall c :: c in best ==> c in candidates)
    && (forall x, y :: x in candidates && x !in best && y in best ==> Before(y, x))
  }

  predicate OfferedAll(options: seq<Choice>, best: seq<Candidate>) {
    |options| == |best| && forall k :: 0 <= k < |options| ==> options[k] == Offered(best[k])
  }

  lemma {:induction false} CountUnique(all: seq<Candidate>)
    requires UniqueIds(all)
    ensures |set c | c in all| == |all|
    decreases |all|
  {
    if all != [] {
      var init, last := all[..|all| - 1], all[|all| - 1];
      CountUnique(init);
      assert all == init + [last];
      assert last !in init;
      assert (set c | c in all) == (set c | c in init) + {last};
    }
  }

  lemma TopFive(version: string, all: seq<Candidate>)
    requires UniqueIds(all)
    ensures var r := TopK(version, all, 5, false);
      && BestFive(Choices(r.candidates), set c | c in all)
      && (r.status == NOT_FOUND <==> |all| == 0) && (r.status == FOUND <==> |all| == 1)
      && (r.status != NOT_FOUND && r.status != FOUND ==> r.status == AMBIGUOUS)
      && (|all| == 1 ==> r.candidates == all)
  {
    hide Sort, Before;
    var r := TopK(version, all, 5, false);
    TopKIsBest(version, all, 5, false);
    CountUnique(all);
    assert IsBestFive(r.candidates, set c | c in all);
    assert OfferedAll(Choices(r.candidates), r.candidates);
  }

  // ---------------------------------------------------------------- who is a candidate

  function PositionCandidates(lang: Language, b: Bundle, query: string, city: string, departmentId: string): set<Candidate> {
    set i | i in PassingPositions(lang, b, query, PositionScope(lang, b, city, departmentId)) && i < |b.positions| ::
      Candidate(b.positions[i].id, b.positions[i].name, Rank(lang, query, b.positions[i].name, b.positions[i].aliases), "")
  }

  function DepartmentScore(lang: Language, d: DepartmentView, query: string): real {
    var rank := Rank(lang, query, d.row.name, d.row.aliases);
    if lang.number(query).Some? && rank < 0.96 then 0.96 else rank
  }

  function DepartmentCandidates(lang: Language, b: Bundle, query: string, city: string): set<Candidate> {
    set i | i in PassingDepartments(lang, b, query, city) && i < |b.departments| ::
      Candidate(b.departments[i].row.id, b.departments[i].row.name, DepartmentScore(lang, b.departments[i], query), b.departments[i].row.city)
  }

  function ProfileCandidates(lang: Language, b: Bundle, departmentId: string, positionId: string, city: string): set<Candidate> {
    set i | i in Holders(lang, b, departmentId, positionId, city) && i < |b.profiles| ::
      Candidate(b.profiles[i].1.row.id, b.profiles[i].1.row.name, 1.0, b.profiles[i].1.row.city)
  }

  /** Exactly one id is found and taken, or none and nothing changes. */
  ghost predicate Takes(slots: Slots, key: string, candidates: set<Candidate>, after: Slots) {
    if candidates == {} then after == slots else exists c :: candidates == {c} && after == slots[key := c.id]
  }

  /** How a search tells the number of candidates apart. */
  ghost predicate Counts(r: ToolResult, candidates: set<Candidate>) {
    && BestFive(Choices(r.candidates), candidates)
    && r.status == (if |candidates| == 0 then NOT_FOUND else if |candidates| == 1 then FOUND else AMBIGUOUS)
    && (|candidates| == 1 ==> |r.candidates| == 1 && candidates == {r.candidates[0]})
  }

  lemma SearchCounts(version: string, all: seq<Candidate>, candidates: set<Candidate>)
    requires UniqueIds(all) && candidates == set c | c in all
    ensures Counts(TopK(version, all, 5, false), candidates)
  {
    hide BestFive, Sort, Before;
    TopFive(version, all);
    CountUnique(all);
  }

  lemma PositionsCounted(lang: Language, b: Bundle, query: string, city: string, departmentId: string)
    requires ValidBundle(b)
    ensures Counts(PositionSearch(lang, b, query, city, departmentId, 5), PositionCandidates(lang, b, query, city, departmentId))
  {
    hide ValidBundle, Counts, Rank, PositionScope;
    var allowed := PositionScope(lang, b, city, departmentId);
    var hits := PositionHits(lang, b, query, allowed);
    PositionHitsUnique(lang, b, query, allowed);
    SomesMembers(hits);
    var candidates := PositionCandidates(lang, b, query, city, departmentId);
    forall c ensures c in candidates <==> c in Somes(hits) {
      if Some(c) in hits {
        var i :| 0 <= i < |hits| && hits[i] == Some(c);
        assert i in PassingPositions(lang, b, query, allowed);
      }
      if c in candidates {
        var i :| i in PassingPositions(lang, b, query, allowed) && i < |b.positions|
          && c == Candidate(b.positions[i].id, b.positions[i].name, Rank(lang, query, b.positions[i].name, b.positions[i].aliases), "");
        assert hits[i] == Some(c);
      }
    }
    SearchCounts(b.version, Somes(hits), candidates);
  }

  lemma DepartmentsCounted(lang: Language, b: Bundle, query: string, city: string)
    requires ValidBundle(b)
    ensures Counts(DepartmentSearch(lang, b, query, city, 5), DepartmentCandidates(lang, b, query, city))
  {
    hide ValidBundle, Counts, Rank;
    var hits := DepartmentHits(lang, b, query, city);
    DepartmentIdsApart(b);
    DepartmentHitsUnique(lang, b, query, city);
    SomesMembers(hits);
    var candidates := DepartmentCandidates(lang, b, query, city);
    forall c ensures c in candidates <==> c in Somes(hits) {
      if Some(c) in hits {
        var i :| 0 <= i < |hits| && hits[i] == Some(c);
        assert i in PassingDepartments(lang, b, query, city);
      }
      if c in candidates {
        var i :| i in PassingDepartments(lang, b, query, city) && i < |b.departments| && c == Candidate(
          b.departments[i].row.id, b.departments[i].row.name, DepartmentScore(lang, b.departments[i], query), b.departments[i].row.city);
        assert hits[i] == Some(c);
      }
    }
    SearchCounts(b.version, Somes(hits), candidates);
  }

  lemma DepartmentIdsApart(b: Bundle)
    requires ValidBundle(b)
    ensures forall i, j :: 0 <= i < j < |b.departments| ==> b.departments[i].row.id != b.departments[j].row.id
  {
  }

  lemma ProfilesCounted(lang: Language, b: Bundle, departmentId: string, positionId: string, city: string)
    requires ValidBundle(b)
    ensures Counts(ProfileSearch(lang, b, departmentId, positionId, city, 5), ProfileCandidates(lang, b, departmentId, positionId, city))
  {
    hide ValidBundle, Counts;
    var hits := ProfileHits(lang, b, departmentId, positionId, city);
    ProfileHitsInside(lang, b, departmentId, positionId, city);
    SomesMembers(hits);
    var candidates := ProfileCandidates(lang, b, departmentId, positionId, city);
    forall c ensures c in candidates <==> c in Somes(hits) {
      if Some(c) in hits {
        var i :| 0 <= i < |hits| && hits[i] == Some(c);
        assert i in Holders(lang, b, departmentId, positionId, city);
      }
      if c in candidates {
        var i :| i in Holders(lang, b, departmentId, positionId, city) && i < |b.profiles|
          && c == Candidate(b.profiles[i].1.row.id, b.profiles[i].1.row.name, 1.0, b.profiles[i].1.row.city);
        assert hits[i] == Some(c);
      }
    }
    SearchCounts(b.version, Somes(hits), candidates);
  }

  // ---------------------------------------------------------------- access

  /** Access is answered for the one profile that holds department and position; else the missing part is asked for or offered. */
  ghost predicate AccessOutcome(lang: Language, b: Bundle, s: TurnState, slots: Slots, r: TurnResult) {
    var d, p := SlotValue(slots, "department_id"), SlotValue(slots, "position_id");
    var holders := ProfileCandidates(lang, b, d, p, SlotValue(slots, "city"));
    if d == "" then Asks(s, slots, "department", r)
    else if p == "" || holders == {} then Asks(s, slots, "position", r)
    else if |holders| >= 2 then exists options :: BestFive(options, holders) && Offers(s, slots, "profile", options, "CLARIFICATION", r)
    else exists c :: (holders == {c}
      && ByRule(r, HANDLED, After(s, "ROLE_DISCOVERY", slots["profile_id" := c.id]), "PROFILE_ACCESS")
      && TellsAccess(lang, b, d, p, c.id, r.answer.value.facts))
  }

  /** The facts name department, position and profile, the first granted systems, and the first granted roles of these in turn. */
  ghost predicate TellsAccess(lang: Language, b: Bundle, d: string, p: string, profileId: string, f: Facts) {
    && f.AccessFacts? && f.departmentId == d && f.positionId == p && f.profileIds == [profileId] && f.version == b.version
    && (lang.normalize("") == "" ==> ListsAccess(b, [profileId], f.systemIds, f.roleIds))
  }

  /** The result of a turn that a rule has finished. */
  function Finished(b: Bundle, t: Turn): TurnResult {
    TurnResult(DETERMINISTIC, t.outcome, t.state, Some(t.answer), None, b.version, 0)
  }

  lemma AccessFinished(lang: Language, b: Bundle, s: TurnState, slots: Slots)
    requires ValidBundle(b)
    ensures AccessOutcome(lang, b, s, slots, Finished(b, FinishProfileAccess(lang, s, b, slots)))
  {
    hide ValidBundle, BestFive, ProfileCandidates, ProfileSearch, SystemSearch, RolesOfSystems, Choices, ListsAccess;
    var d, p, city := SlotValue(slots, "department_id"), SlotValue(slots, "position_id"), SlotValue(slots, "city");
    ProfilesCounted(lang, b, d, p, city);
    var found, holders := ProfileSearch(lang, b, d, p, city, 5), ProfileCandidates(lang, b, d, p, city);
    if |holders| == 1 {
      var profileId := found.candidates[0].id;
      assert CandidateIds(found.candidates) == [profileId];
      if lang.normalize("") == "" { AccessListed(lang, b, d, p, [profileId]); }
    }
  }

  // ---------------------------------------------------------------- which rule applies

  /** No pending question takes the message, so it opens a topic of its own. */
  predicate OpensTopic(lx: Lexicon, request: Request) {
    var text := lx.normalize(request.text);
    !lx.reset(text) &&
    match request.state.pending
    case None => true
    case Some(p) =>
      && !(p.kind == "slot" && (p.topic == "intent" || lx.isSimpleValue(text)))
      && !(p.kind == "candidate_selection" &&
           (lx.asksMore(text) || (lx.asNumber(text).Some? && 1 <= lx.asNumber(text).value <= |p.options|)))
  }

  lemma TopicOpened(lx: Lexicon, b: Bundle, request: Request, reply: PlannerReply)
    requires KeyedById(b) && OpensTopic(lx, request)
    ensures var t := FreshTopic(lx, request, b);
      Handle(lx, b, request, reply) == if t.Some? then Finished(b, t.value) else Fallback(lx, request, b, reply)
  {
    hide FreshTopic, FinishProfileAccess, HandlePendingSlot, Fallback, PendingIntent;
  }

  // ---------------------------------------------------------------- a message about the organization

  /** The city of the first department whose city the message names, or else the city known so far. */
  ghost predicate CityMeant(lx: Lexicon, b: Bundle, request: Request, city: string) {
    var text := lx.normalize(request.text);
    || (exists i :: NamesCity(lx, text, b.departments, i) && city == b.departments[i].row.city)
    || (city == SlotValue(request.state.slots, "city") && !(exists i :: NamesCity(lx, text, b.departments, i)))
  }

  ghost predicate NamesCity(lx: Lexicon, text: string, departments: seq<DepartmentView>, i: int) {
    && 0 <= i < |departments| && lx.containsPhrase(text, lx.normalize(departments[i].row.city))
    && forall h :: 0 <= h < i ==> !lx.containsPhrase(text, lx.normalize(departments[h].row.city))
  }

  lemma {:induction false} CityFoundFirst(lx: Lexicon, text: string, departments: seq<DepartmentView>)
    ensures forall i :: NamesCity(lx, text, departments, i) ==> CityMentioned(lx, text, departments) == Some(departments[i].row.city)
    ensures CityMentioned(lx, text, departments).Some? ==> exists i :: NamesCity(lx, text, departments, i)
    decreases |departments|
  {
    if departments != [] {
      var rest := departments[1..];
      CityFoundFirst(lx, text, rest);
      if lx.containsPhrase(text, lx.normalize(departments[0].row.city)) {
        assert NamesCity(lx, text, departments, 0);
      } else {
        forall i | NamesCity(lx, text, departments, i) ensures NamesCity(lx, text, rest, i - 1) {
          assert forall h :: 0 <= h < i - 1 ==> rest[h] == departments[h + 1];
        }
        forall i | NamesCity(lx, text, rest, i) ensures NamesCity(lx, text, departments, i + 1) {
          assert forall h :: 0 < h < i + 1 ==> departments[h] == rest[h - 1];
        }
      }
    }
  }

  function WithCity(slots: Slots, city: string): Slots {
    if city == "" then slots else slots["city" := city]
  }

  /** What follows once the position is settled: departments are offered, or one or none is taken and access is looked up. */
  ghost predicate DepartmentStep(lang: Language, b: Bundle, s: TurnState, query: string, city: string, slots: Slots, r: TurnResult) {
    var departments := DepartmentCandidates(lang, b, query, city);
    if |departments| >= 2 then exists options :: BestFive(options, departments) && Offers(s, slots, "department", options, "CLARIFICATION", r)
    else exists after :: Takes(slots, "department_id", departments, after) && AccessOutcome(lang, b, s, after, r)
  }

  lemma MeantCity(lx: Lexicon, b: Bundle, request: Request, city: string)
    requires CityMeant(lx, b, request, city)
    ensures var mentioned := CityMentioned(lx, lx.normalize(request.text), b.departments);
      city == if mentioned.Some? then mentioned.value else SlotValue(request.state.slots, "city")
  {
    hide NamesCity, CityMentioned;
    CityFoundFirst(lx, lx.normalize(request.text), b.departments);
  }

  /**
   * A message about departments or positions is answered by rule. Two or more passing positions are offered; one is
   * taken over; then two or more passing departments are offered, one is taken over, and access is looked up.
   */
  lemma OrganizationAnswered(lx: Lexicon, b: Bundle, request: Request, reply: PlannerReply, city: string)
    requires ValidBundle(b) && KeyedById(b) && OpensTopic(lx, request) && lx.aboutOrganization(lx.normalize(request.text))
    requires CityMeant(lx, b, request, city)
    ensures var s, r := request.state, Handle(lx, b, request, reply);
      var slots := WithCity(s.slots, city);
      var positions := PositionCandidates(lx.lang, b, request.text, city, SlotValue(slots, "department_id"));
      if |positions| >= 2 then exists options :: BestFive(options, positions) && Offers(s, slots, "position", options, "CLARIFICATION", r)
      else exists after :: Takes(slots, "position_id", positions, after) && DepartmentStep(lx.lang, b, s, request.text, city, after, r)
  {
    hide ValidBundle, Handle, BestFive, PositionCandidates, DepartmentCandidates, PositionSearch, DepartmentSearch, FinishProfileAccess, Choices,
      AccessOutcome, Fallback, OpensTopic, SystemTurn, Offers, CityMeant, CityMentioned, DepartmentStep, KeyedById;
    var s, r := request.state, Handle(lx, b, request, reply);
    var slots := WithCity(s.slots, city);
    var department := SlotValue(slots, "department_id");
    TopicOpened(lx, b, request, reply);
    MeantCity(lx, b, request, city);
    var positions := PositionSearch(lx.lang, b, request.text, city, department, 5);
    PositionsCounted(lx.lang, b, request.text, city, department);
    if positions.status == AMBIGUOUS {
      ClarificationOffers(b, s, "position", positions, slots);
    } else {
      var after := if positions.status == FOUND then slots["position_id" := positions.candidates[0].id] else slots;
      assert Takes(slots, "position_id", PositionCandidates(lx.lang, b, request.text, city, department), after);
      DepartmentStepTaken(lx.lang, b, s, request.text, city, after, r);
    }
  }

  /** One position, one department and one profile that holds both: access is answered at once and all of it is remembered. */
  lemma OrganizationGranted(lx: Lexicon, b: Bundle, request: Request, reply: PlannerReply, city: string, d: Candidate, p: Candidate, c: Candidate)
    requires ValidBundle(b) && KeyedById(b) && OpensTopic(lx, request) && lx.aboutOrganization(lx.normalize(request.text))
    requires CityMeant(lx, b, request, city) && d.id != "" && p.id != ""
    requires PositionCandidates(lx.lang, b, request.text, city, SlotValue(WithCity(request.state.slots, city), "department_id")) == {p}
    requires DepartmentCandidates(lx.lang, b, request.text, city) == {d}
    requires ProfileCandidates(lx.lang, b, d.id, p.id, SlotValue(WithCity(request.state.slots, city), "city")) == {c}
    ensures var s, r := request.state, Handle(lx, b, request, reply);
      var slots := WithCity(s.slots, city)["position_id" := p.id]["department_id" := d.id]["profile_id" := c.id];
      && ByRule(r, HANDLED, After(s, "ROLE_DISCOVERY", slots), "PROFILE_ACCESS")
      && TellsAccess(lx.lang, b, d.id, p.id, c.id, r.answer.value.facts)
  {
    hide ValidBundle, Handle, BestFive, PositionCandidates, DepartmentCandidates, ProfileCandidates, Offers, TellsAccess, OpensTopic, CityMeant;
    OrganizationAnswered(lx, b, request, reply, city);
    var slots := WithCity(request.state.slots, city)["position_id" := p.id]["department_id" := d.id];
    assert SlotValue(slots, "department_id") == d.id && SlotValue(slots, "position_id") == p.id;
    assert SlotValue(slots, "city") == SlotValue(WithCity(request.state.slots, city), "city");
    assert {p} != {} && {d} != {} && {c} != {};
  }

  lemma ClarificationOffers(b: Bundle, s: TurnState, topic: string, result: ToolResult, slots: Slots)
    ensures Offers(s, slots, topic, Choices(result.candidates), "CLARIFICATION", Finished(b, CandidateClarification(s, topic, result, slots)))
  {
  }

  /** The rest of the rule, once the position is settled. */
  function DepartmentTurn(lang: Language, b: Bundle, s: TurnState, query: string, city: string, slots: Slots): Turn {
    var departments := DepartmentSearch(lang, b, query, city, 5);
    if departments.status == AMBIGUOUS then CandidateClarification(s, "department", departments, slots)
    else if departments.status == FOUND then
      FinishProfileAccess(lang, s, b, slots["department_id" := departments.candidates[0].id])
    else if "department_id" !in slots then AskSlot(s, "department", slots)
    else FinishProfileAccess(lang, s, b, slots)
  }

  lemma DepartmentStepTaken(lang: Language, b: Bundle, s: TurnState, query: string, city: string, slots: Slots, r: TurnResult)
    requires ValidBundle(b) && r == Finished(b, DepartmentTurn(lang, b, s, query, city, slots))
    ensures DepartmentStep(lang, b, s, query, city, slots, r)
  {
    hide ValidBundle, BestFive, DepartmentCandidates, DepartmentSearch, FinishProfileAccess, Choices, AccessOutcome, Offers;
    var found, departments := DepartmentSearch(lang, b, query, city, 5), DepartmentCandidates(lang, b, query, city);
    DepartmentsCounted(lang, b, query, city);
    if found.status == AMBIGUOUS {
      ClarificationOffers(b, s, "department", found, slots);
    } else if found.status == FOUND {
      var after := slots["department_id" := found.candidates[0].id];
      AccessFinished(lang, b, s, after);
      assert Takes(slots, "department_id", departments, after);
    } else {
      AccessFinished(lang, b, s, slots);
      assert Takes(slots, "department_id", departments, slots);
      if "department_id" !in slots { DepartmentAsked(lang, b, s, slots); }
    }
  }

  lemma DepartmentAsked(lang: Language, b: Bundle, s: TurnState, slots: Slots)
    requires "department_id" !in slots
    ensures FinishProfileAccess(lang, s, b, slots) == AskSlot(s, "department", slots)
  {
  }
}
