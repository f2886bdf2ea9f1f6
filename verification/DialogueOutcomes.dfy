/** What single turns mean to the user: when access is answered, what a selection does, what a reset undoes. */
module DialogueOutcomes {
  import opened Prelude
  import opened Catalog
  import opened CatalogBundle
  import opened Ranking
  import opened SearchTools
  import opened Dialogue
  import opened DialogueProofs

  // ---------------------------------------------------------------- access is answered for exactly one profile

  /** Profile number i of the catalog holds the department and the position, in the city if one is named. */
  predicate Holds(lang: Language, p: ProfileView, departmentId: string, positionId: string, city: string) {
    && departmentId in p.row.departmentIds && positionId in p.row.positionIds
    && (lang.normalize(city) == "" || p.normalizedCity == lang.normalize(city))
  }

  function Holders(lang: Language, b: Bundle, departmentId: string, positionId: string, city: string): set<nat> {
    set i: nat | i < |b.profiles| && Holds(lang, b.profiles[i].1, departmentId, positionId, city)
  }

  lemma HoldersHit(lang: Language, b: Bundle, departmentId: string, positionId: string, city: string)
    ensures var hits := ProfileHits(lang, b, departmentId, positionId, city);
      && Holders(lang, b, departmentId, positionId, city) == (set i | 0 <= i < |hits| && hits[i].Some?)
      && forall i :: 0 <= i < |hits| && hits[i].Some? ==> hits[i].value.id == b.profiles[i].1.row.id
  {
  }

  lemma HolderOf(lang: Language, b: Bundle, departmentId: string, positionId: string, city: string, c: Candidate) returns (i: nat)
    requires ValidBundle(b) && Some(c) in ProfileHits(lang, b, departmentId, positionId, city)
    ensures i in Holders(lang, b, departmentId, positionId, city) && b.profiles[i].0 == c.id
  {
    hide Holders, ProfileHits;
    var hits := ProfileHits(lang, b, departmentId, positionId, city);
    HoldersHit(lang, b, departmentId, positionId, city);
    var k :| 0 <= k < |hits| && hits[k] == Some(c);
    i := k;
    assert i in set i | 0 <= i < |hits| && hits[i].Some?;
    HoldersInside(lang, b, departmentId, positionId, city);
  }

  lemma HoldersInside(lang: Language, b: Bundle, departmentId: string, positionId: string, city: string)
    ensures forall i :: i in Holders(lang, b, departmentId, positionId, city) ==> i < |b.profiles|
  {
  }

  /** Resolving profiles: the status counts the holders, and only holders are candidates. */
  lemma ProfilesResolved(lang: Language, b: Bundle, departmentId: string, positionId: string, city: string)
    requires ValidBundle(b)
    ensures var r := ProfileSearch(lang, b, departmentId, positionId, city, 5);
      var holders := Holders(lang, b, departmentId, positionId, city);
      && |r.candidates| == (if |holders| <= 5 then |holders| else 5)
      && (r.status == NOT_FOUND <==> |holders| == 0) && (r.status == FOUND <==> |holders| == 1)
      && UniqueIds(r.candidates)
      && (forall c :: c in r.candidates ==> exists i :: i in holders && b.profiles[i].0 == c.id)
  {
    hide Holders, ProfileHits, ValidBundle, Sort;
    var hits := ProfileHits(lang, b, departmentId, positionId, city);
    ProfileHitsInside(lang, b, departmentId, positionId, city);
    HoldersHit(lang, b, departmentId, positionId, city);
    HoldersInside(lang, b, departmentId, positionId, city);
    SomesCount(hits);
    SomesMembers(hits);
    TopKIsBest(b.version, Somes(hits), 5, false);
    var r := ProfileSearch(lang, b, departmentId, positionId, city, 5);
    forall c | c in r.candidates ensures exists i :: i in Holders(lang, b, departmentId, positionId, city) && b.profiles[i].0 == c.id {
      var i := HolderOf(lang, b, departmentId, positionId, city, c);
    }
  }

  /**
   * With a department and a position chosen, access is answered exactly when one profile holds
   * both; the answer is about that profile. With several the user gets up to five of them to choose
   * from; with none the position is asked for again.
   */
  lemma AccessIffOneHolder(lang: Language, s: TurnState, b: Bundle, slots: Slots)
    requires ValidBundle(b) && SlotValue(slots, "department_id") != "" && SlotValue(slots, "position_id") != ""
    ensures var department, position := SlotValue(slots, "department_id"), SlotValue(slots, "position_id");
      var holders := Holders(lang, b, department, position, SlotValue(slots, "city"));
      var t := FinishProfileAccess(lang, s, b, slots);
      && (t.outcome == HANDLED <==> |holders| == 1)
      && (|holders| == 1 ==>
            && t.answer.facts.AccessFacts? && t.state.phase == ANSWERED && t.state.pending.None?
            && t.answer.facts.departmentId == department && t.answer.facts.positionId == position
            && exists i :: i in holders && t.answer.facts.profileIds == [b.profiles[i].0]
                 && t.state.slots == slots["profile_id" := b.profiles[i].0])
      && (|holders| >= 2 ==> t.state.slots == slots && OffersProfiles(b, holders, t.state))
      && (|holders| == 0 ==> t.state == AskSlot(s, "position", slots).state)
  {
    var department, position := SlotValue(slots, "department_id"), SlotValue(slots, "position_id");
    var city := SlotValue(slots, "city");
    var holders := Holders(lang, b, department, position, city);
    hide ValidBundle, Holders, AllGranted;
    ProfilesResolved(lang, b, department, position, city);
    HoldersInside(lang, b, department, position, city);
    var r := ProfileSearch(lang, b, department, position, city, 5);
    if |holders| == 1 {
      var c := r.candidates[0];
      var i :| i in holders && b.profiles[i].0 == c.id;
      assert CandidateIds(r.candidates) == [b.profiles[i].0];
    } else if |holders| >= 2 {
      OptionsAreCandidates(r.candidates);
    }
  }

  /** The pending question is a choice among these profiles. */
  ghost predicate OffersProfiles(b: Bundle, holders: set<nat>, s: TurnState) {
    && s.phase == AWAITING_SELECTION && s.pending.Some? && s.pending.value.topic == "profile" && s.pending.value.kind == SELECTION
    && |s.pending.value.options| == (if |holders| <= 5 then |holders| else 5)
    && DistinctChoices(s.pending.value.options)
    && forall o :: o in s.pending.value.options ==> exists i :: i in holders && i < |b.profiles| && b.profiles[i].0 == o.id
  }

  lemma OptionsAreCandidates(candidates: seq<Candidate>)
    requires |candidates| <= 5
    ensures var options := Choices(candidates);
      |options| == |candidates| && forall i :: 0 <= i < |options| ==> options[i].id == candidates[i].id
  {
  }

  // ---------------------------------------------------------------- a selection is honoured

  /**
   * The user answers a choice with a number: without asking the planner, the slot of the topic
   * holds the option at that place, and no other slot changes except the resolved profile. When
   * access is answered at once, it is for the chosen department or position.
   */
  lemma SelectionHonoured(lx: Lexicon, b: Bundle, request: Request, reply: PlannerReply, n: nat)
    requires KeyedById(b) && request.state.pending.Some? && request.state.pending.value.kind == SELECTION
    requires var text := lx.normalize(request.text);
      !lx.reset(text) && !lx.asksMore(text) && lx.asNumber(text) == Some(n)
    requires 1 <= n <= |request.state.pending.value.options|
    ensures var p, r := request.state.pending.value, Handle(lx, b, request, reply);
      var key, chosen := p.topic + "_id", p.options[n - 1].id;
      && r.route == DETERMINISTIC && r.plannerCalls == 0 && r.failure.None?
      && (p.topic != "profile" ==> SlotValue(r.state.slots, key) == chosen)
      && (p.topic == "profile" ==> r.state.slots == request.state.slots["profile_id" := chosen])
      && (forall k :: k != key && k != "profile_id" ==> SlotValue(r.state.slots, k) == SlotValue(request.state.slots, k))
      && (p.topic == "department" && r.answer.value.facts.AccessFacts? ==> r.answer.value.facts.departmentId == chosen)
      && (p.topic == "position" && r.answer.value.facts.AccessFacts? ==> r.answer.value.facts.positionId == chosen)
  {
    hide Handle, FinishProfileAccess, KeyedById;
    var s, p := request.state, request.state.pending.value;
    var key, chosen := p.topic + "_id", p.options[n - 1].id;
    var slots := s.slots[key := chosen];
    KeysOfTopics(p.topic);
    FinishKeepsSlots(lx.lang, s, b, slots);
    SelectionTurn(lx, b, request, reply, n);
  }

  lemma KeysOfTopics(topic: string)
    ensures topic == "department" ==> topic + "_id" == "department_id"
    ensures topic == "position" ==> topic + "_id" == "position_id"
    ensures topic + "_id" == "profile_id" <==> topic == "profile"
  {
    var key := topic + "_id";
    if key == "profile_id" { assert topic == key[..|key| - 3] && "profile" == "profile_id"[..7]; }
  }

  lemma SelectionTurn(lx: Lexicon, b: Bundle, request: Request, reply: PlannerReply, n: nat)
    requires KeyedById(b) && request.state.pending.Some? && request.state.pending.value.kind == SELECTION
    requires var text := lx.normalize(request.text);
      !lx.reset(text) && !lx.asksMore(text) && lx.asNumber(text) == Some(n)
    requires 1 <= n <= |request.state.pending.value.options|
    ensures var s, p, r := request.state, request.state.pending.value, Handle(lx, b, request, reply);
      var slots := s.slots[p.topic + "_id" := p.options[n - 1].id];
      && r.route == DETERMINISTIC && r.plannerCalls == 0 && r.failure.None? && r.answer.Some?
      && if p.topic == "department" || p.topic == "position"
         then r.state == FinishProfileAccess(lx.lang, s, b, slots).state && r.answer.value == FinishProfileAccess(lx.lang, s, b, slots).answer
         else r.state.slots == slots && r.answer.value.facts.NoFacts?
  {
    hide FinishProfileAccess, FreshTopic, Fallback, HandlePendingSlot;
  }

  lemma FinishKeepsSlots(lang: Language, s: TurnState, b: Bundle, slots: Slots)
    ensures var t := FinishProfileAccess(lang, s, b, slots);
      && (forall k :: k != "profile_id" ==> SlotValue(t.state.slots, k) == SlotValue(slots, k))
      && (t.answer.facts.AccessFacts? ==>
            t.answer.facts.departmentId == SlotValue(slots, "department_id") && t.answer.facts.positionId == SlotValue(slots, "position_id"))
  {
  }

  // ---------------------------------------------------------------- revisions do not steer the dialogue

  function Renumber(s: TurnState, d: int): TurnState {
    s.(revision := s.revision + d)
  }

  function RenumberTurn(t: Turn, d: int): Turn {
    t.(state := Renumber(t.state, d))
  }

  function RenumberOption(t: Option<Turn>, d: int): Option<Turn> {
    match t
    case None => None
    case Some(turn) => Some(RenumberTurn(turn, d))
  }

  lemma FinishRenumbered(lang: Language, s: TurnState, b: Bundle, slots: Slots, d: int)
    ensures FinishProfileAccess(lang, Renumber(s, d), b, slots) == RenumberTurn(FinishProfileAccess(lang, s, b, slots), d)
  {
    hide AccessAnswer, ProfileSearch, Choices;
  }

  lemma PendingSlotRenumbered(lx: Lexicon, text: string, s: TurnState, topic: string, b: Bundle, d: int)
    ensures HandlePendingSlot(lx, text, Renumber(s, d), topic, b) == RenumberTurn(HandlePendingSlot(lx, text, s, topic, b), d)
  {
    hide FinishProfileAccess, DepartmentSearch, PositionSearch, SystemMatches;
    var city := SlotValue(s.slots, "city");
    var department := SlotValue(s.slots, "department_id");
    FoundIsThere(lx.lang, b, text, city, department);
    var departments := DepartmentSearch(lx.lang, b, text, city, 5);
    var positions := PositionSearch(lx.lang, b, text, city, department, 5);
    if departments.status == FOUND { FinishRenumbered(lx.lang, s, b, s.slots["department_id" := departments.candidates[0].id], d); }
    if positions.status == FOUND { FinishRenumbered(lx.lang, s, b, s.slots["position_id" := positions.candidates[0].id], d); }
  }

  lemma SelectionRenumbered(lx: Lexicon, text: string, s: TurnState, p: Pending, b: Bundle, d: int)
    ensures PendingSelection(lx, text, Renumber(s, d), p, b) == RenumberOption(PendingSelection(lx, text, s, p, b), d)
  {
    hide FinishProfileAccess;
    forall slots: Slots
      ensures FinishProfileAccess(lx.lang, Renumber(s, d), b, slots) == RenumberTurn(FinishProfileAccess(lx.lang, s, b, slots), d)
    {
      FinishRenumbered(lx.lang, s, b, slots, d);
    }
  }

  lemma FoundIsThere(lang: Language, b: Bundle, query: string, city: string, department: string)
    ensures DepartmentSearch(lang, b, query, city, 5).status == FOUND ==> DepartmentSearch(lang, b, query, city, 5).candidates != []
    ensures PositionSearch(lang, b, query, city, department, 5).status == FOUND ==>
      PositionSearch(lang, b, query, city, department, 5).candidates != []
  {
  }

  lemma OrganizationRenumbered(lx: Lexicon, request: Request, b: Bundle, d: int)
    ensures OrganizationRequest(lx, request.(state := Renumber(request.state, d)), b) ==
      RenumberOption(OrganizationRequest(lx, request, b), d)
  {
    hide FinishProfileAccess, DepartmentSearch, PositionSearch, CityMentioned, Choices, SlotValue;
    var text := lx.normalize(request.text);
    var s := request.state;
    var mentioned := CityMentioned(lx, text, b.departments);
    var city := if mentioned.Some? then mentioned.value else SlotValue(s.slots, "city");
    var slots0 := if city != "" then s.slots["city" := city] else s.slots;
    var positions := PositionSearch(lx.lang, b, request.text, city, SlotValue(slots0, "department_id"), 5);
    FoundIsThere(lx.lang, b, request.text, city, SlotValue(slots0, "department_id"));
    if positions.status != AMBIGUOUS {
      var slots := if positions.status == FOUND then slots0["position_id" := positions.candidates[0].id] else slots0;
      var departments := DepartmentSearch(lx.lang, b, request.text, city, 5);
      FinishRenumbered(lx.lang, s, b, slots, d);
      if departments.status == FOUND {
        FinishRenumbered(lx.lang, s, b, slots["department_id" := departments.candidates[0].id], d);
      }
    }
  }

  lemma SystemTurnRenumbered(lx: Lexicon, text: string, s: TurnState, b: Bundle, d: int)
    requires KeyedById(b)
    ensures SystemTurn(lx, text, Renumber(s, d), b) == RenumberOption(SystemTurn(lx, text, s, b), d)
  {
    hide SystemMatches, RolesAnswer, InstructionAnswer, WeakChoices;
  }

  lemma DeterministicRenumbered(lx: Lexicon, request: Request, b: Bundle, d: int)
    requires KeyedById(b)
    ensures Deterministic(lx, request.(state := Renumber(request.state, d)), b) == RenumberOption(Deterministic(lx, request, b), d)
  {
    hide OrganizationRequest, SystemTurn, HandlePendingSlot, PendingSelection, RolesAnswer, InstructionAnswer;
    var text, s := lx.normalize(request.text), request.state;
    OrganizationRenumbered(lx, request, b, d);
    SystemTurnRenumbered(lx, text, s, b, d);
    if s.pending.Some? {
      PendingSlotRenumbered(lx, request.text, s, s.pending.value.topic, b, d);
      SelectionRenumbered(lx, text, s, s.pending.value, b, d);
    }
  }

  /** The same turn from a state with another revision differs in nothing but the revision. */
  lemma HandleRenumbered(lx: Lexicon, b: Bundle, request: Request, reply: PlannerReply, d: int)
    requires KeyedById(b)
    ensures var r := Handle(lx, b, request, reply);
      Handle(lx, b, request.(state := Renumber(request.state, d)), reply) == r.(state := Renumber(r.state, d))
  {
    hide Deterministic, KnownFacts, WellFormedPlan, PlanAnswer;
    DeterministicRenumbered(lx, request, b, d);
  }

  // ---------------------------------------------------------------- a reset forgets everything

  datatype Message = Message(requestId: string, text: string, bundle: Bundle, reply: PlannerReply)

  ghost predicate KnownCatalogs(messages: seq<Message>) {
    forall i :: 0 <= i < |messages| ==> KeyedById(messages[i].bundle)
  }

  /** The results of a conversation that starts in state s; the catalog may change between messages. */
  function Converse(lx: Lexicon, s: TurnState, messages: seq<Message>): seq<TurnResult>
    requires KnownCatalogs(messages)
    decreases |messages|
  {
    if messages == [] then []
    else
      var m := messages[0];
      var r := Handle(lx, m.bundle, Request(m.requestId, m.text, s), m.reply);
      [r] + Converse(lx, r.state, messages[1..])
  }

  /** Results that differ in revision numbers only. */
  predicate SameButRevision(a: seq<TurnResult>, b: seq<TurnResult>, d: int) {
    |a| == |b| && forall i :: 0 <= i < |a| ==> b[i] == a[i].(state := Renumber(a[i].state, d))
  }

  lemma {:induction false} ConverseRenumbered(lx: Lexicon, s: TurnState, messages: seq<Message>, d: int)
    requires KnownCatalogs(messages)
    ensures SameButRevision(Converse(lx, s, messages), Converse(lx, Renumber(s, d), messages), d)
    decreases |messages|
  {
    hide Handle;
    if messages != [] {
      var m := messages[0];
      var request := Request(m.requestId, m.text, s);
      HandleRenumbered(lx, m.bundle, request, m.reply, d);
      assert request.(state := Renumber(s, d)) == Request(m.requestId, m.text, Renumber(s, d));
      ConverseRenumbered(lx, Handle(lx, m.bundle, request, m.reply).state, messages[1..], d);
    }
  }

  /**
   * Whatever was said before, after a reset the conversation goes on as in a new session, up to the
   * revision numbers.
   */
  lemma ResetIsFresh(lx: Lexicon, b: Bundle, request: Request, reply: PlannerReply, messages: seq<Message>)
    requires KeyedById(b) && KnownCatalogs(messages) && lx.reset(lx.normalize(request.text))
    ensures var after := Handle(lx, b, request, reply).state;
      SameButRevision(Converse(lx, EmptyState(request.state.sessionId), messages), Converse(lx, after, messages), after.revision)
  {
    var after := Handle(lx, b, request, reply).state;
    assert after == Renumber(EmptyState(request.state.sessionId), request.state.revision + 1) by {
      hide OrganizationRequest, SystemTurn, HandlePendingSlot, PendingSelection;
    }
    ConverseRenumbered(lx, EmptyState(request.state.sessionId), messages, after.revision);
  }

  // ---------------------------------------------------------------- what is answered is what is remembered

  /** The state after an answer is about the very thing that was answered, and nothing is pending. */
  predicate Remembers(t: TurnState, f: Facts) {
    f.NoFacts? || (
      && t.phase == ANSWERED && t.pending.None? && t.intent.Some?
      && match f
         case SystemFacts(s, _) =>
           SlotValue(t.slots, "system_id") == s && t.intent.value in {SYSTEM_DISCOVERY, INSTRUCTION_LOOKUP, ROLE_ACQUISITION}
         case RoleFacts(s, _, _) => SlotValue(t.slots, "system_id") == s && t.intent.value == ROLE_DISCOVERY
         case InstructionFacts(s, _, _, _) =>
           SlotValue(t.slots, "system_id") == s && t.intent.value in {INSTRUCTION_LOOKUP, ROLE_ACQUISITION}
         case AccessFacts(d, p, profiles, _, _, _) =>
           && SlotValue(t.slots, "department_id") == d && SlotValue(t.slots, "position_id") == p
           && profiles == [SlotValue(t.slots, "profile_id")] && t.intent.value == ROLE_DISCOVERY
         case NoFacts => true)
  }

  /** No slot is forgotten. */
  predicate KeepsSlots(s: TurnState, t: TurnState) {
    s.slots.Keys <= t.slots.Keys
  }

  ghost predicate GoodTurn(s: TurnState, t: Turn) {
    Remembers(t.state, t.answer.facts) && KeepsSlots(s, t.state)
  }

  lemma FinishGood(lang: Language, s: TurnState, b: Bundle, slots: Slots)
    requires s.slots.Keys <= slots.Keys
    ensures GoodTurn(s, FinishProfileAccess(lang, s, b, slots))
  {
    hide ShownRoles, RolesOfSystems, ProfileHits, Sort, Choices;
  }

  lemma PendingSlotGood(lx: Lexicon, text: string, s: TurnState, topic: string, b: Bundle)
    ensures GoodTurn(s, HandlePendingSlot(lx, text, s, topic, b))
  {
    hide FinishProfileAccess, DepartmentSearch, PositionSearch, SystemMatches;
    var city := SlotValue(s.slots, "city");
    var department := SlotValue(s.slots, "department_id");
    FoundIsThere(lx.lang, b, text, city, department);
    var departments := DepartmentSearch(lx.lang, b, text, city, 5);
    var positions := PositionSearch(lx.lang, b, text, city, department, 5);
    if departments.status == FOUND { FinishGood(lx.lang, s, b, s.slots["department_id" := departments.candidates[0].id]); }
    if positions.status == FOUND { FinishGood(lx.lang, s, b, s.slots["position_id" := positions.candidates[0].id]); }
  }

  lemma SelectionGood(lx: Lexicon, text: string, s: TurnState, p: Pending, b: Bundle)
    ensures var t := PendingSelection(lx, text, s, p, b); t.Some? ==> GoodTurn(s, t.value)
  {
    hide FinishProfileAccess;
    if lx.asNumber(text).Some? && 1 <= lx.asNumber(text).value <= |p.options| {
      FinishGood(lx.lang, s, b, s.slots[p.topic + "_id" := p.options[lx.asNumber(text).value - 1].id]);
    }
  }

  lemma OrganizationGood(lx: Lexicon, request: Request, b: Bundle)
    ensures var t := OrganizationRequest(lx, request, b); t.Some? ==> GoodTurn(request.state, t.value)
  {
    hide FinishProfileAccess, DepartmentSearch, PositionSearch, CityMentioned, Choices, SlotValue;
    var text := lx.normalize(request.text);
    var s := request.state;
    var mentioned := CityMentioned(lx, text, b.departments);
    var city := if mentioned.Some? then mentioned.value else SlotValue(s.slots, "city");
    var slots0 := if city != "" then s.slots["city" := city] else s.slots;
    var positions := PositionSearch(lx.lang, b, request.text, city, SlotValue(slots0, "department_id"), 5);
    FoundIsThere(lx.lang, b, request.text, city, SlotValue(slots0, "department_id"));
    if positions.status != AMBIGUOUS {
      var slots := if positions.status == FOUND then slots0["position_id" := positions.candidates[0].id] else slots0;
      var departments := DepartmentSearch(lx.lang, b, request.text, city, 5);
      FinishGood(lx.lang, s, b, slots);
      if departments.status == FOUND {
        FinishGood(lx.lang, s, b, slots["department_id" := departments.candidates[0].id]);
      }
    }
  }

  lemma SystemTurnGood(lx: Lexicon, text: string, s: TurnState, b: Bundle)
    requires KeyedById(b)
    ensures var t := SystemTurn(lx, text, s, b); t.Some? ==> GoodTurn(s, t.value)
  {
    hide SystemMatches, WeakChoices;
  }

  lemma PendingIntentGood(lx: Lexicon, text: string, s: TurnState, b: Bundle)
    ensures GoodTurn(s, PendingIntent(lx, text, s, b))
  {
  }

  lemma DeterministicGood(lx: Lexicon, request: Request, b: Bundle)
    requires KeyedById(b)
    ensures var t := Deterministic(lx, request, b);
      && (t.Some? ==> Remembers(t.value.state, t.value.answer.facts))
      && (t.Some? && !lx.reset(lx.normalize(request.text)) ==> KeepsSlots(request.state, t.value.state))
  {
    hide OrganizationRequest, SystemTurn, HandlePendingSlot, PendingSelection, PendingIntent;
    var text, s := lx.normalize(request.text), request.state;
    OrganizationGood(lx, request, b);
    SystemTurnGood(lx, text, s, b);
    PendingIntentGood(lx, text, s, b);
    if s.pending.Some? {
      PendingSlotGood(lx, request.text, s, s.pending.value.topic, b);
      SelectionGood(lx, text, s, s.pending.value, b);
    }
  }

  /**
   * Whatever is answered is what the session remembers: the system, or the department, position and
   * profile, together with the intent, and no question stays open. Only a reset forgets a slot.
   */
  lemma AnswerRemembered(lx: Lexicon, b: Bundle, request: Request, reply: PlannerReply)
    requires KeyedById(b)
    ensures var r := Handle(lx, b, request, reply);
      && (r.answer.Some? ==> Remembers(r.state, r.answer.value.facts))
      && (!lx.reset(lx.normalize(request.text)) ==> KeepsSlots(request.state, r.state))
  {
    hide Deterministic, KnownFacts;
    DeterministicGood(lx, request, b);
  }

  // ---------------------------------------------------------------- which plans are followed

  /** A plan the agent may follow: a permitted action, known slots, enough confidence, the pinned catalog, known facts. */
  ghost predicate Acceptable(lx: Lexicon, b: Bundle, p: Plan) {
    && p.catalogVersion == b.version && 0.55 <= p.confidence <= 1.0
    && ActionAllowed(p.intent, p.action) && (forall k :: k in p.slots ==> k in {"system_id", "city", "department"})
    && KnownFacts(lx, p, b)
  }

  /**
   * When no rule applies, the turn succeeds exactly when the planner returned an acceptable plan;
   * only a planner that timed out or raised makes the failure retryable.
   */
  lemma PlanFollowed(lx: Lexicon, b: Bundle, request: Request, reply: PlannerReply)
    requires KeyedById(b) && Deterministic(lx, request, b).None?
    ensures var r := Handle(lx, b, request, reply);
      && r.route == GIGACHAT_FALLBACK
      && (r.failure.None? <==> reply.Planned? && Acceptable(lx, b, reply.plan))
      && (r.failure.None? ==> r.state.slots == request.state.slots + reply.plan.slots && r.state.intent == Some(reply.plan.intent))
      && (r.failure.Some? ==> (r.failure.value.retryable <==> reply.TimedOut? || reply.Raised?))
      && (r.outcome == PROVIDER_FAILURE <==> reply.TimedOut? || reply.Raised?)
  {
    hide Deterministic, KnownFacts;
    if reply.Planned? {
      var slots := reply.plan.slots;
      assert slots.Keys <= {"system_id", "city", "department"} <==> forall k :: k in slots ==> k in {"system_id", "city", "department"};
    }
  }
}
