/** What every turn keeps, whatever the text, the planner and the catalog say. */
module DialogueProofs {
  import opened Prelude
  import OD = OrderedDict
  import opened Catalog
  import opened CatalogBundle
  import opened Ranking
  import opened SearchTools
  import opened Dialogue

  // ---------------------------------------------------------------- revisions and rejections

  /** The next state belongs to the same session, one revision later. */
  predicate Advances(s: TurnState, t: TurnState) {
    t.revision == s.revision + 1 && t.sessionId == s.sessionId
  }

  lemma FinishAdvances(lang: Language, s: TurnState, b: Bundle, slots: Slots)
    ensures Advances(s, FinishProfileAccess(lang, s, b, slots).state)
  {
  }

  lemma PendingSlotAdvances(lx: Lexicon, text: string, s: TurnState, topic: string, b: Bundle)
    ensures Advances(s, HandlePendingSlot(lx, text, s, topic, b).state)
  {
    var city := SlotValue(s.slots, "city");
    if topic == "department" {
      var r := DepartmentSearch(lx.lang, b, text, city, 5);
      if r.status == FOUND { FinishAdvances(lx.lang, s, b, s.slots["department_id" := r.candidates[0].id]); }
    } else if topic == "position" {
      var r := PositionSearch(lx.lang, b, text, city, SlotValue(s.slots, "department_id"), 5);
      if r.status == FOUND { FinishAdvances(lx.lang, s, b, s.slots["position_id" := r.candidates[0].id]); }
    }
  }

  lemma OrganizationAdvances(lx: Lexicon, request: Request, b: Bundle)
    ensures var t := OrganizationRequest(lx, request, b); t.Some? ==> Advances(request.state, t.value.state)
  {
    hide FinishProfileAccess, PositionHits, DepartmentHits, Somes, CityMentioned, PositionScope, Rank, Sort, SlotValue;
    var text := lx.normalize(request.text);
    var s := request.state;
    var mentioned := CityMentioned(lx, text, b.departments);
    var city := if mentioned.Some? then mentioned.value else SlotValue(s.slots, "city");
    var slots0 := if city != "" then s.slots["city" := city] else s.slots;
    var positions := PositionSearch(lx.lang, b, request.text, city, SlotValue(slots0, "department_id"), 5);
    if positions.status != AMBIGUOUS {
      var slots := if positions.status == FOUND then slots0["position_id" := positions.candidates[0].id] else slots0;
      var departments := DepartmentSearch(lx.lang, b, request.text, city, 5);
      FinishAdvances(lx.lang, s, b, slots);
      if departments.status == FOUND {
        FinishAdvances(lx.lang, s, b, slots["department_id" := departments.candidates[0].id]);
      }
    }
  }

  lemma SelectionAdvances(lx: Lexicon, text: string, s: TurnState, p: Pending, b: Bundle)
    ensures var t := PendingSelection(lx, text, s, p, b); t.Some? ==> Advances(s, t.value.state)
  {
    forall slots: Slots ensures Advances(s, FinishProfileAccess(lx.lang, s, b, slots).state) {
      FinishAdvances(lx.lang, s, b, slots);
    }
  }

  lemma SystemTurnAdvances(lx: Lexicon, text: string, s: TurnState, b: Bundle)
    requires KeyedById(b)
    ensures var t := SystemTurn(lx, text, s, b); t.Some? ==> Advances(s, t.value.state)
  {
  }

  lemma FreshTopicAdvances(lx: Lexicon, b: Bundle, request: Request)
    requires KeyedById(b)
    ensures var t := FreshTopic(lx, request, b); t.Some? ==> Advances(request.state, t.value.state)
  {
    OrganizationAdvances(lx, request, b);
    SystemTurnAdvances(lx, lx.normalize(request.text), request.state, b);
  }

  lemma DeterministicAdvances(lx: Lexicon, b: Bundle, request: Request)
    requires KeyedById(b)
    ensures var t := Deterministic(lx, request, b); t.Some? ==> Advances(request.state, t.value.state)
  {
    hide FreshTopic, HandlePendingSlot, PendingSelection;
    var text := lx.normalize(request.text);
    var s := request.state;
    FreshTopicAdvances(lx, b, request);
    if !lx.reset(text) && s.pending.Some? {
      var p := s.pending.value;
      if p.kind == SLOT {
        PendingSlotAdvances(lx, request.text, s, p.topic, b);
      } else if p.kind == SELECTION {
        SelectionAdvances(lx, text, s, p, b);
      }
    }
  }

  /** A turn either fails and leaves the state alone, or answers and raises the revision by one. */
  lemma TurnAccounting(lx: Lexicon, b: Bundle, request: Request, reply: PlannerReply)
    requires KeyedById(b)
    ensures var r := Handle(lx, b, request, reply);
      && (r.failure.Some? <==> r.answer.None?)
      && (r.failure.Some? ==> r.state == request.state && r.route == GIGACHAT_FALLBACK)
      && (r.failure.None? ==> Advances(request.state, r.state))
      && r.catalogVersion == b.version
      && r.plannerCalls == (if r.route == DETERMINISTIC then 0 else 1)
  {
    DeterministicAdvances(lx, b, request);
  }

  /** Every bundle is keyed by the ids of its systems and profiles, validated or not. */
  lemma {:induction false} BundleKeyed(lang: Language, doc: Document)
    ensures KeyedById(BundleOf(lang, doc)) && OD.WellFormed(BundleOf(lang, doc).systems) && OD.WellFormed(BundleOf(lang, doc).profiles)
  {
    SystemsKeyed(doc.systems);
    ProfilesKeyed(lang, doc.profiles);
  }

  lemma {:induction false} SystemsKeyed(s: seq<System>)
    ensures OD.WellFormed(IndexSystems(s))
    ensures forall e :: e in IndexSystems(s) ==> e.1.id == e.0
    decreases |s|
  {
    if s != [] {
      var n := |s| - 1;
      SystemsKeyed(s[..n]);
      OD.PutWellFormed(IndexSystems(s[..n]), s[n].id, s[n]);
      OD.PutEntries(IndexSystems(s[..n]), s[n].id, s[n]);
    }
  }

  lemma {:induction false} ProfilesKeyed(lang: Language, s: seq<Profile>)
    ensures OD.WellFormed(IndexProfiles(lang, s))
    decreases |s|
  {
    if s != [] {
      var n := |s| - 1;
      ProfilesKeyed(lang, s[..n]);
      OD.PutWellFormed(IndexProfiles(lang, s[..n]), s[n].id, ViewProfile(lang, s[n]));
    }
  }

  // ---------------------------------------------------------------- matching systems by name

  /** The name or alias is written out in the message. */
  predicate Mentioned(lx: Lexicon, text: string, a: Alias) {
    lx.normalize(a.value) != "" && lx.mentions(text, lx.normalize(a.value))
  }

  /** The message neither mentions the name or alias nor resembles it. */
  predicate Silent(lx: Lexicon, text: string, a: Alias) {
    lx.normalize(a.value) == "" || (!Mentioned(lx, text, a) && lx.lang.ratio(lx.normalize(a.value), text) < 0.50)
  }

  /** What a name or alias that is not silent means for its system. */
  function Heard(lx: Lexicon, text: string, a: Alias): Verdict {
    if Mentioned(lx, text, a) then if a.safety == Safe then SafeHit else WeakHit(0.65)
    else WeakHit(Min(lx.lang.ratio(lx.normalize(a.value), text), 0.64))
  }

  ghost predicate FirstHeard(lx: Lexicon, text: string, aliases: seq<Alias>, j: int) {
    0 <= j < |aliases| && !Silent(lx, text, aliases[j]) && forall i :: 0 <= i < j ==> Silent(lx, text, aliases[i])
  }

  /** The first name or alias that is not silent decides, and without one the system does not match. */
  lemma {:induction false} ScanMeaning(lx: Lexicon, text: string, aliases: seq<Alias>)
    ensures forall j :: FirstHeard(lx, text, aliases, j) ==> ScanAliases(lx, text, aliases) == Heard(lx, text, aliases[j])
    ensures !(exists j :: FirstHeard(lx, text, aliases, j)) ==> ScanAliases(lx, text, aliases) == NoHit
    decreases |aliases|
  {
    hide Silent, Heard;
    if aliases != [] {
      var rest := aliases[1..];
      ScanMeaning(lx, text, rest);
      ScanStep(lx, text, aliases);
      if Silent(lx, text, aliases[0]) {
        forall j | FirstHeard(lx, text, aliases, j) ensures FirstHeard(lx, text, rest, j - 1) {
          assert forall i :: 0 <= i < j - 1 ==> rest[i] == aliases[i + 1];
        }
        forall j | FirstHeard(lx, text, rest, j) ensures FirstHeard(lx, text, aliases, j + 1) {
          assert forall i :: 0 < i < j + 1 ==> aliases[i] == rest[i - 1];
        }
      } else {
        assert FirstHeard(lx, text, aliases, 0);
      }
    }
  }

  lemma ScanStep(lx: Lexicon, text: string, aliases: seq<Alias>)
    requires aliases != []
    ensures ScanAliases(lx, text, aliases) ==
      if Silent(lx, text, aliases[0]) then ScanAliases(lx, text, aliases[1..]) else Heard(lx, text, aliases[0])
  {
  }

  /** The message mentions a SAFE name or alias of the system, and no earlier one of the system is mentioned or resembles it. */
  ghost predicate TakenFor(lx: Lexicon, text: string, y: System) {
    exists j :: (
      var aliases := Named(y.name, y.aliases);
      FirstHeard(lx, text, aliases, j) && aliases[j].safety == Safe && Mentioned(lx, text, aliases[j]))
  }

  lemma TakenMeansSafe(lx: Lexicon, text: string, y: System)
    ensures ScanSystem(lx, text, y).SafeHit? <==> TakenFor(lx, text, y)
  {
    hide Silent;
    var aliases := Named(y.name, y.aliases);
    ScanMeaning(lx, text, aliases);
    if ScanSystem(lx, text, y).SafeHit? {
      var j :| FirstHeard(lx, text, aliases, j);
      assert aliases[j].safety == Safe && Mentioned(lx, text, aliases[j]);
    }
  }

  ghost predicate FirstTaken(lx: Lexicon, text: string, systems: OD.Dict<System>, i: int) {
    0 <= i < |systems| && TakenFor(lx, text, systems[i].1) && forall h :: 0 <= h < i ==> !TakenFor(lx, text, systems[h].1)
  }

  lemma {:induction false} WeakHitScore(lx: Lexicon, text: string, aliases: seq<Alias>)
    ensures var v := ScanAliases(lx, text, aliases); v.WeakHit? ==> 0.5 <= v.score <= 0.65
    decreases |aliases|
  {
    if aliases != [] { WeakHitScore(lx, text, aliases[1..]); }
  }

  ghost predicate Descending(s: seq<WeakMatch>) {
    forall i, j :: 0 <= i < j < |s| ==> s[i].1 >= s[j].1
  }

  ghost predicate Scored(s: seq<WeakMatch>) {
    forall m :: m in s ==> 0.5 <= m.1 <= 0.65
  }

  lemma {:induction false} WeakMatchesScored(lx: Lexicon, text: string, systems: OD.Dict<System>)
    ensures Scored(WeakMatches(lx, text, systems))
    ensures forall e :: e in systems && ScanSystem(lx, text, e.1).WeakHit? ==>
      (e.1, ScanSystem(lx, text, e.1).score) in WeakMatches(lx, text, systems)
    decreases |systems|
  {
    if systems != [] {
      var n := |systems| - 1;
      WeakMatchesScored(lx, text, systems[..n]);
      WeakHitScore(lx, text, Named(systems[n].1.name, systems[n].1.aliases));
      assert systems == systems[..n] + [systems[n]];
    }
  }

  lemma {:induction false} PlaceWeakSorted(m: WeakMatch, s: seq<WeakMatch>)
    requires Descending(s)
    ensures Descending(PlaceWeak(m, s)) && forall x :: x in PlaceWeak(m, s) <==> x == m || x in s
    decreases |s|
  {
    if s != [] && m.1 <= s[0].1 {
      PlaceWeakSorted(m, s[1..]);
      assert s == [s[0]] + s[1..];
      assert forall x :: x in s[1..] ==> x.1 <= s[0].1;
    }
  }

  lemma {:induction false} SortWeakSorted(s: seq<WeakMatch>)
    ensures Descending(SortWeak(s)) && forall x :: x in SortWeak(s) <==> x in s
    decreases |s|
  {
    if s != [] {
      SortWeakSorted(s[..|s| - 1]);
      PlaceWeakSorted(s[|s| - 1], SortWeak(s[..|s| - 1]));
      assert s == s[..|s| - 1] + [s[|s| - 1]];
    }
  }

  lemma {:induction false} FirstPerIdInside(s: seq<WeakMatch>)
    ensures forall x :: x in FirstPerId(s) ==> x in s
    decreases |s|
  {
    if s != [] {
      FirstPerIdInside(s[..|s| - 1]);
      assert s == s[..|s| - 1] + [s[|s| - 1]];
    }
  }

  lemma LastIsLeast(s: seq<WeakMatch>)
    requires s != [] && Descending(s)
    ensures Descending(s[..|s| - 1]) && forall x :: x in s[..|s| - 1] ==> x.1 >= s[|s| - 1].1
  {
    var init := s[..|s| - 1];
    forall x | x in init ensures x.1 >= s[|s| - 1].1 {
      var i :| 0 <= i < |init| && init[i] == x;
      assert s[i] == x;
    }
  }

  lemma {:induction false} FirstPerIdSorted(s: seq<WeakMatch>)
    requires Descending(s)
    ensures Descending(FirstPerId(s))
    decreases |s|
  {
    if s != [] {
      var init := s[..|s| - 1];
      LastIsLeast(s);
      FirstPerIdSorted(init);
      FirstPerIdInside(init);
    }
  }

  /** The match kept for an id is the first and so the best of that id. */
  ghost predicate KeptFor(x: WeakMatch, kept: seq<WeakMatch>) {
    exists y :: y in kept && y.0.id == x.0.id && y.1 >= x.1
  }

  lemma KeptGrows(x: WeakMatch, head: seq<WeakMatch>, kept: seq<WeakMatch>)
    requires KeptFor(x, head) && head <= kept
    ensures KeptFor(x, kept)
  {
    var y :| y in head && y.0.id == x.0.id && y.1 >= x.1;
    var i :| 0 <= i < |head| && head[i] == y;
    assert kept[i] == y;
  }

  lemma KeptBy(x: WeakMatch, kept: seq<WeakMatch>, y: WeakMatch)
    requires y in kept && y.0.id == x.0.id && y.1 >= x.1
    ensures KeptFor(x, kept)
  {
  }

  lemma LastKept(s: seq<WeakMatch>)
    requires s != [] && Descending(s)
    ensures FirstPerId(s[..|s| - 1]) <= FirstPerId(s) && KeptFor(s[|s| - 1], FirstPerId(s))
  {
    hide KeptFor, Descending;
    var init, last := s[..|s| - 1], s[|s| - 1];
    LastIsLeast(s);
    FirstPerIdInside(init);
    var head := FirstPerId(init);
    if exists m :: m in head && m.0.id == last.0.id {
      var m :| m in head && m.0.id == last.0.id;
      KeptBy(last, head, m);
    } else {
      KeptBy(last, head + [last], last);
    }
  }

  lemma {:induction false} FirstPerIdCovers(s: seq<WeakMatch>)
    requires Descending(s)
    ensures forall x :: x in s ==> KeptFor(x, FirstPerId(s))
    decreases |s|
  {
    hide FirstPerId, KeptFor;
    if s != [] {
      var init, last := s[..|s| - 1], s[|s| - 1];
      LastIsLeast(s);
      FirstPerIdCovers(init);
      LastKept(s);
      assert s == init + [last];
      forall x | x in init ensures KeptFor(x, FirstPerId(s)) { KeptGrows(x, FirstPerId(init), FirstPerId(s)); }
    }
  }

  lemma {:induction false} FirstSafeIsTaken(lx: Lexicon, text: string, systems: OD.Dict<System>)
    ensures forall i :: FirstTaken(lx, text, systems, i) ==> FirstSafe(lx, text, systems) == Some(systems[i].1)
    ensures FirstSafe(lx, text, systems).Some? ==> exists i :: FirstTaken(lx, text, systems, i)
    decreases |systems|
  {
    hide TakenFor, ScanSystem;
    if systems != [] {
      var rest := systems[1..];
      FirstSafeIsTaken(lx, text, rest);
      TakenMeansSafe(lx, text, systems[0].1);
      if TakenFor(lx, text, systems[0].1) {
        assert FirstTaken(lx, text, systems, 0);
      } else {
        forall i | FirstTaken(lx, text, systems, i) ensures FirstTaken(lx, text, rest, i - 1) {
          assert forall h :: 0 <= h < i - 1 ==> rest[h] == systems[h + 1];
        }
        forall i | FirstTaken(lx, text, rest, i) ensures FirstTaken(lx, text, systems, i + 1) {
          assert forall h :: 0 < h < i + 1 ==> systems[h] == rest[h - 1];
        }
      }
    }
  }

  /**
   * Matching systems by name: exactly the first system that is taken for a SAFE mention is returned at once;
   * without one every weakly matching system is offered once, with its best score between 0.5 and
   * 0.65, best scores first, and nothing else is offered.
   */
  lemma SystemMatchesMeaning(lx: Lexicon, text: string, b: Bundle)
    ensures var (safe, weak) := SystemMatches(lx, text, b);
      && (forall i :: FirstTaken(lx, text, b.systems, i) ==> safe == Some(b.systems[i].1))
      && (safe.Some? ==> weak == [] && exists i :: FirstTaken(lx, text, b.systems, i))
      && Descending(weak) && Scored(weak)
      && (forall i, j :: 0 <= i < j < |weak| ==> weak[i].0.id != weak[j].0.id)
      && (forall m :: m in weak ==> Offered(lx, text, b.systems, m))
      && (safe.None? ==> forall e :: e in b.systems && ScanSystem(lx, text, e.1).WeakHit? ==>
            KeptFor((e.1, ScanSystem(lx, text, e.1).score), weak))
  {
    hide ScanSystem, FirstTaken, FirstSafe, WeakMatches, SortWeak, FirstPerId, Offered, KeptFor;
    var found := WeakMatches(lx, text, b.systems);
    FirstSafeIsTaken(lx, text, b.systems);
    WeakMatchesScored(lx, text, b.systems);
    WeakMatchesOffered(lx, text, b.systems);
    SortWeakSorted(found);
    FirstPerIdInside(SortWeak(found));
    FirstPerIdSorted(SortWeak(found));
    FirstPerIdCovers(SortWeak(found));
    FirstPerIdUnique(SortWeak(found));
  }

  /** A system of the catalog that matches weakly with this score. */
  ghost predicate Offered(lx: Lexicon, text: string, systems: OD.Dict<System>, m: WeakMatch) {
    exists e :: e in systems && e.1 == m.0 && ScanSystem(lx, text, m.0) == WeakHit(m.1)
  }

  lemma {:induction false} WeakMatchesOffered(lx: Lexicon, text: string, systems: OD.Dict<System>)
    ensures forall m :: m in WeakMatches(lx, text, systems) ==> Offered(lx, text, systems, m)
    decreases |systems|
  {
    hide ScanSystem;
    if systems != [] {
      var n := |systems| - 1;
      WeakMatchesOffered(lx, text, systems[..n]);
      assert systems == systems[..n] + [systems[n]];
    }
  }

  // ---------------------------------------------------------------- dialogue invariant

  ghost predicate DistinctChoices(options: seq<Choice>) {
    1 <= |options| <= 5 && forall i, j :: 0 <= i < j < |options| ==> options[i].id != options[j].id
  }

  /** The pending question and the phase always tell the same story. */
  ghost predicate Coherent(s: TurnState) {
    && s.phase in {READY, ANSWERED, AWAITING_SLOT, AWAITING_INTENT, AWAITING_SELECTION}
    && (s.pending.None? <==> s.phase == READY || s.phase == ANSWERED)
    && (s.pending.Some? ==> s.pending.value.kind == SLOT || s.pending.value.kind == SELECTION)
    && (s.phase == AWAITING_INTENT <==>
          s.pending.Some? && s.pending.value.kind == SLOT && s.pending.value.topic == "intent")
    && (s.phase == AWAITING_INTENT ==> "system_id" in s.slots)
    && (s.phase == AWAITING_SELECTION ==> s.pending.Some? && s.pending.value.kind == SELECTION)
    && (s.pending.Some? && s.pending.value.kind == SELECTION ==> DistinctChoices(s.pending.value.options))
    && (s.pending.Some? && s.pending.value.kind == SLOT ==>
          s.pending.value.options == [] && s.pending.value.topic in {"intent", "system", "department", "position"})
  }

  lemma EmptyCoherent(sessionId: string)
    ensures Coherent(EmptyState(sessionId))
  {
  }

  lemma ClarificationCoherent(s: TurnState, topic: string, r: ToolResult, slots: Slots)
    requires UniqueIds(r.candidates) && r.candidates != []
    ensures Coherent(CandidateClarification(s, topic, r, slots).state)
  {
    var options := Choices(r.candidates);
    assert forall i :: 0 <= i < |options| ==> options[i].id == r.candidates[i].id;
  }

  lemma AskSlotCoherent(s: TurnState, topic: string, slots: Slots)
    requires topic == "department" || topic == "position"
    ensures Coherent(AskSlot(s, topic, slots).state)
  {
  }

  lemma FinishCoherent(lang: Language, s: TurnState, b: Bundle, slots: Slots)
    requires ValidBundle(b)
    ensures Coherent(FinishProfileAccess(lang, s, b, slots).state)
  {
    var departmentId, positionId := SlotValue(slots, "department_id"), SlotValue(slots, "position_id");
    var city := SlotValue(slots, "city");
    if departmentId == "" || positionId == "" {
      AskSlotCoherent(s, "department", slots);
      AskSlotCoherent(s, "position", slots);
    } else {
      var r := ProfileSearch(lang, b, departmentId, positionId, city, 5);
      AskSlotCoherent(s, "position", slots);
      if r.status == AMBIGUOUS {
        ProfileHitsInside(lang, b, departmentId, positionId, city);
        TopKIsBest(b.version, Somes(ProfileHits(lang, b, departmentId, positionId, city)), 5, false);
        ClarificationCoherent(s, "profile", r, slots);
      }
    }
  }

  lemma {:induction false} FirstPerIdUnique(s: seq<WeakMatch>)
    ensures forall i, j :: 0 <= i < j < |FirstPerId(s)| ==> FirstPerId(s)[i].0.id != FirstPerId(s)[j].0.id
    ensures s != [] ==> FirstPerId(s) != []
    decreases |s|
  {
    if s != [] { FirstPerIdUnique(s[..|s| - 1]); }
  }

  lemma WeakChoicesDistinct(lx: Lexicon, text: string, b: Bundle)
    ensures var weak := SystemMatches(lx, text, b).1;
      weak != [] ==> DistinctChoices(WeakChoices(weak))
  {
    FirstPerIdUnique(SortWeak(WeakMatches(lx, text, b.systems)));
    var weak := SystemMatches(lx, text, b).1;
    var options := WeakChoices(weak);
    assert forall i :: 0 <= i < |options| ==> options[i].id == weak[i].0.id;
  }

  lemma DepartmentClarification(lang: Language, b: Bundle, s: TurnState, text: string, city: string, slots: Slots)
    requires ValidBundle(b)
    ensures var r := DepartmentSearch(lang, b, text, city, 5);
      r.status == AMBIGUOUS ==> Coherent(CandidateClarification(s, "department", r, slots).state)
  {
    var r := DepartmentSearch(lang, b, text, city, 5);
    if r.status == AMBIGUOUS {
      DepartmentHitsUnique(lang, b, text, city);
      TopKIsBest(b.version, Somes(DepartmentHits(lang, b, text, city)), 5, false);
      ClarificationCoherent(s, "department", r, slots);
    }
  }

  lemma PositionClarification(lang: Language, b: Bundle, s: TurnState, text: string, city: string, department: string, slots: Slots)
    requires ValidBundle(b)
    ensures var r := PositionSearch(lang, b, text, city, department, 5);
      r.status == AMBIGUOUS ==> Coherent(CandidateClarification(s, "position", r, slots).state)
  {
    var r := PositionSearch(lang, b, text, city, department, 5);
    if r.status == AMBIGUOUS {
      var allowed := PositionScope(lang, b, city, department);
      PositionHitsUnique(lang, b, text, allowed);
      TopKIsBest(b.version, Somes(PositionHits(lang, b, text, allowed)), 5, false);
      ClarificationCoherent(s, "position", r, slots);
    }
  }

  lemma PendingSlotCoherent(lx: Lexicon, text: string, s: TurnState, b: Bundle)
    requires ValidBundle(b) && Coherent(s)
    requires s.pending.Some? && s.pending.value.kind == SLOT && s.pending.value.topic != "intent"
    ensures Coherent(HandlePendingSlot(lx, text, s, s.pending.value.topic, b).state)
  {
    var topic := s.pending.value.topic;
    var city := SlotValue(s.slots, "city");
    if topic == "department" {
      var r := DepartmentSearch(lx.lang, b, text, city, 5);
      DepartmentClarification(lx.lang, b, s, text, city, s.slots);
      if r.status == FOUND { FinishCoherent(lx.lang, s, b, s.slots["department_id" := r.candidates[0].id]); }
    } else if topic == "position" {
      var department := SlotValue(s.slots, "department_id");
      var r := PositionSearch(lx.lang, b, text, city, department, 5);
      PositionClarification(lx.lang, b, s, text, city, department, s.slots);
      if r.status == FOUND { FinishCoherent(lx.lang, s, b, s.slots["position_id" := r.candidates[0].id]); }
    } else if topic == "system" {
      WeakChoicesDistinct(lx, lx.normalize(text), b);
    }
  }

  lemma OrganizationCoherent(lx: Lexicon, request: Request, b: Bundle)
    requires ValidBundle(b)
    ensures var t := OrganizationRequest(lx, request, b); t.Some? ==> Coherent(t.value.state)
  {
    hide ValidBundle, Coherent, FinishProfileAccess, PositionHits, DepartmentHits, Somes, CityMentioned, PositionScope, Rank, Sort, SlotValue;
    var text := lx.normalize(request.text);
    var s := request.state;
    var mentioned := CityMentioned(lx, text, b.departments);
    var city := if mentioned.Some? then mentioned.value else SlotValue(s.slots, "city");
    var slots0 := if city != "" then s.slots["city" := city] else s.slots;
    var department := SlotValue(slots0, "department_id");
    var positions := PositionSearch(lx.lang, b, request.text, city, department, 5);
    PositionClarification(lx.lang, b, s, request.text, city, department, slots0);
    if positions.status != AMBIGUOUS {
      var slots := if positions.status == FOUND then slots0["position_id" := positions.candidates[0].id] else slots0;
      DepartmentClarification(lx.lang, b, s, request.text, city, slots);
      var departments := DepartmentSearch(lx.lang, b, request.text, city, 5);
      AskSlotCoherent(s, "department", slots);
      FinishCoherent(lx.lang, s, b, slots);
      if departments.status == FOUND {
        FinishCoherent(lx.lang, s, b, slots["department_id" := departments.candidates[0].id]);
      }
    }
  }

  lemma SystemTurnCoherent(lx: Lexicon, text: string, s: TurnState, b: Bundle)
    requires ValidBundle(b)
    ensures var t := SystemTurn(lx, text, s, b); t.Some? ==> Coherent(t.value.state)
  {
    WeakChoicesDistinct(lx, text, b);
  }

  lemma AdvanceCoherent(s: TurnState, slots: Slots)
    requires Coherent(s)
    ensures Coherent(Advance(s)) && Coherent(Advance(s).(phase := ANSWERED, slots := slots, pending := None))
  {
  }

  lemma SelectionCoherent(lx: Lexicon, text: string, s: TurnState, b: Bundle)
    requires ValidBundle(b) && Coherent(s) && s.pending.Some? && s.pending.value.kind == SELECTION
    ensures var t := PendingSelection(lx, text, s, s.pending.value, b); t.Some? ==> Coherent(t.value.state)
  {
    hide ValidBundle, Coherent, FinishProfileAccess;
    var p := s.pending.value;
    AdvanceCoherent(s, s.slots);
    if !lx.asksMore(text) && lx.asNumber(text).Some? && 1 <= lx.asNumber(text).value <= |p.options| {
      var slots := s.slots[p.topic + "_id" := p.options[lx.asNumber(text).value - 1].id];
      FinishCoherent(lx.lang, s, b, slots);
      AdvanceCoherent(s, slots);
    }
  }

  lemma DeterministicCoherent(lx: Lexicon, b: Bundle, request: Request)
    requires ValidBundle(b) && Coherent(request.state)
    ensures var t := Deterministic(lx, request, b); t.Some? ==> Coherent(t.value.state)
  {
    hide OrganizationRequest, SystemTurn, HandlePendingSlot, PendingSelection;
    var text := lx.normalize(request.text);
    var s := request.state;
    OrganizationCoherent(lx, request, b);
    SystemTurnCoherent(lx, text, s, b);
    if !lx.reset(text) && s.pending.Some? {
      var p := s.pending.value;
      if p.kind == SELECTION {
        SelectionCoherent(lx, text, s, b);
      } else if p.topic != "intent" {
        PendingSlotCoherent(lx, request.text, s, b);
      }
    }
  }

  /** The dialogue invariant is kept by every turn, answered or rejected. */
  lemma HandleCoherent(lx: Lexicon, b: Bundle, request: Request, reply: PlannerReply)
    requires ValidBundle(b) && Coherent(request.state)
    ensures Coherent(Handle(lx, b, request, reply).state)
  {
    DeterministicCoherent(lx, b, request);
  }

  // ---------------------------------------------------------------- grounded answers

  /** Every identifier an answer reports exists in the bundle, and role ids belong where they are reported. */
  ghost predicate Grounded(b: Bundle, f: Facts) {
    match f
    case NoFacts => true
    case SystemFacts(s, v) => s in OD.Keys(b.systems) && v == b.version
    case RoleFacts(s, roles, v) =>
      && s in OD.Keys(b.systems) && v == b.version
      && forall r :: r in roles <==> Owns(b, s, r)
    case InstructionFacts(s, x, c, v) =>
      && s in OD.Keys(b.systems) && v == b.version
      && exists i :: i in b.instructions && i.id == x && i.systemId == s && i.citation == c
    case AccessFacts(d, p, profiles, systems, roles, v) =>
      && d in DepartmentIds(b) && p in PositionIds(b) && v == b.version
      && |profiles| == 1 && Employs(b, profiles[0], d, p)
      && (forall s :: s in systems ==> s in OD.Keys(b.systems))
      && (forall r :: r in roles ==> exists s :: s in systems && Owns(b, s, r))
  }

  lemma OwnedBySystem(b: Bundle, systemId: string)
    requires ValidBundle(b) && systemId in OD.Keys(b.systems)
    ensures forall r :: r in RoleIds(OD.Get(b.systems, systemId).value) <==> Owns(b, systemId, r)
  {
    var i :| 0 <= i < |b.systems| && b.systems[i].0 == systemId;
    OD.GetAt(b.systems, i);
  }

  lemma RolesAnswerGrounded(b: Bundle, systemId: string)
    requires ValidBundle(b) && systemId in OD.Keys(b.systems)
    ensures Grounded(b, RolesAnswer(b, systemId).facts)
  {
    OwnedBySystem(b, systemId);
    var roles := OD.Get(b.systems, systemId).value.roles;
    var e := RoleEntries(roles);
    var ids := RolesAnswer(b, systemId).facts.roleIds;
    forall r ensures r in ids <==> r in Ids(e) {
      if r in Ids(e) { var i :| 0 <= i < |e| && e[i].id == r; assert ids[i] == r; }
      if r in ids { var i :| 0 <= i < |ids| && ids[i] == r; assert e[i].id == r; }
    }
  }

  lemma {:induction false} FirstInstructionFound(s: seq<Instruction>, systemId: string)
    ensures var x := FirstInstruction(s, systemId);
      x.Some? ==> x.value in s && x.value.systemId == systemId
    decreases |s|
  {
    if s != [] && s[0].systemId != systemId { FirstInstructionFound(s[1..], systemId); }
  }

  lemma InstructionAnswerGrounded(b: Bundle, systemId: string)
    requires systemId in OD.Keys(b.systems)
    ensures Grounded(b, InstructionAnswer(b, systemId).facts)
  {
    FirstInstructionFound(b.instructions, systemId);
  }

  /** The roles granted by the profiles in one system. */
  ghost function Granted(b: Bundle, systemId: string, profileIds: seq<string>): set<string>
    requires profileIds != []
  {
    RoleScope(b, systemId, profileIds).value
  }

  lemma GrantedOwned(b: Bundle, systemId: string, profileIds: seq<string>, r: string)
    requires ValidBundle(b) && profileIds != [] && r in Granted(b, systemId, profileIds)
    ensures Owns(b, systemId, r)
  {
    var e, g :| e in b.profiles && e.0 in profileIds && g in e.1.row.access && g.systemId == systemId && r in g.roleIds;
    var i :| 0 <= i < |b.profiles| && b.profiles[i] == e;
    assert ProfileInside(b, b.profiles[i].1.row);
  }

  function CandidateIdSet(s: seq<Candidate>): set<string> {
    set c | c in s :: c.id
  }

  lemma IdsAsSet(s: seq<Candidate>)
    ensures forall r :: r in CandidateIds(s) <==> r in CandidateIdSet(s)
  {
    forall r ensures r in CandidateIds(s) <==> r in CandidateIdSet(s) {
      if r in CandidateIdSet(s) {
        var c :| c in s && c.id == r;
        var i :| 0 <= i < |s| && s[i] == c;
        assert CandidateIds(s)[i] == r;
      }
      if r in CandidateIds(s) {
        var i :| 0 <= i < |s| && CandidateIds(s)[i] == r;
        assert s[i] in s;
      }
    }
  }

  /** Cutting a list of unique candidates at ten keeps all of their ids exactly when there are at most ten. */
  lemma TopTenIds(version: string, all: seq<Candidate>)
    requires UniqueIds(all)
    ensures var shown := CandidateIds(TopK(version, all, 10, true).candidates);
      && Distinct(shown)
      && (forall r :: r in shown ==> r in CandidateIdSet(all))
      && (|CandidateIdSet(all)| <= 10 <==> forall r :: r in CandidateIdSet(all) ==> r in shown)
  {
    TopKIsBest(version, all, 10, true);
    var top := TopK(version, all, 10, true).candidates;
    IdsAsSet(top);
    IdsOfUnique(all);
    IdsOfUnique(top);
    assert CandidateIdSet(top) <= CandidateIdSet(all);
    if CandidateIdSet(all) <= CandidateIdSet(top) {
      CardAtMost(CandidateIdSet(all), CandidateIdSet(top));
    }
  }

  lemma RoleCandidates(lang: Language, b: Bundle, systemId: string, profileIds: seq<string>) returns (all: seq<Candidate>)
    requires ValidBundle(b) && profileIds != [] && systemId in OD.Keys(b.systems)
    ensures UniqueIds(all) && CandidateIdSet(all) == Granted(b, systemId, profileIds)
    ensures ShownRoles(lang, b, systemId, profileIds) == CandidateIds(TopK(b.version, all, 10, true).candidates)
  {
    var roles := OD.Get(b.systems, systemId).value.roles;
    var allowed := Granted(b, systemId, profileIds);
    var i :| 0 <= i < |b.systems| && b.systems[i].0 == systemId;
    OD.GetAt(b.systems, i);
    RoleHitsInside(lang, roles, allowed);
    all := Somes(RoleHits(lang, roles, "", None, Some(allowed)));
    OwnedBySystem(b, systemId);
    forall r | r in allowed ensures r in CandidateIdSet(all) {
      GrantedOwned(b, systemId, profileIds, r);
    }
  }

  /** The roles shown for one system: granted ones only, each once, and all of them iff there are at most ten. */
  lemma ShownRolesExact(lang: Language, b: Bundle, systemId: string, profileIds: seq<string>)
    requires ValidBundle(b) && profileIds != [] && systemId in OD.Keys(b.systems)
    ensures var shown := ShownRoles(lang, b, systemId, profileIds);
      && Distinct(shown)
      && (forall r :: r in shown ==> r in Granted(b, systemId, profileIds))
      && (|Granted(b, systemId, profileIds)| <= 10 <==>
            forall r :: r in Granted(b, systemId, profileIds) ==> r in shown)
  {
    var all := RoleCandidates(lang, b, systemId, profileIds);
    TopTenIds(b.version, all);
  }

  lemma {:induction false} IdsOfUnique(s: seq<Candidate>)
    requires UniqueIds(s)
    ensures |CandidateIdSet(s)| == |s|
    decreases |s|
  {
    if s != [] {
      hide CandidateIdSet;
      IdsOfUnique(s[..|s| - 1]);
      IdsOfPrefix(s);
    }
  }

  lemma IdsOfPrefix(s: seq<Candidate>)
    requires s != [] && UniqueIds(s)
    ensures var n := |s| - 1; CandidateIdSet(s) == CandidateIdSet(s[..n]) + {s[n].id} && s[n].id !in CandidateIdSet(s[..n])
  {
    var init, last := s[..|s| - 1], s[|s| - 1];
    assert s == init + [last];
    forall c | c in init ensures c.id != last.id {
      var i :| 0 <= i < |init| && init[i] == c;
      assert s[i] == c;
    }
  }

  /** The systems shown for a profile: granted ones only, each once, and all of them iff there are at most ten. */
  lemma ShownSystemsExact(lang: Language, b: Bundle, profileIds: seq<string>)
    requires ValidBundle(b) && profileIds != []
    ensures var shown := SystemSearch(lang, b, "", profileIds, 10).candidates;
      && UniqueIds(shown)
      && (forall c :: c in shown ==> c.id in OD.Keys(b.systems) && c.id in SystemScope(b, profileIds).value)
      && (|SystemScope(b, profileIds).value| <= 10 <==>
            forall k :: k in SystemScope(b, profileIds).value ==> k in CandidateIds(shown))
  {
    var scope := SystemScope(b, profileIds).value;
    var all := Somes(SystemHits(lang, b, "", Some(scope)));
    SystemHitsInside(lang, b, profileIds);
    TopKIsBest(b.version, all, 10, true);
    TopTenIds(b.version, all);
    ScopeKnown(b, profileIds);
    assert CandidateIdSet(all) == scope;
  }

  lemma ScopeKnown(b: Bundle, profileIds: seq<string>)
    requires ValidBundle(b) && profileIds != []
    ensures SystemScope(b, profileIds).value <= OD.Keys(b.systems)
  {
    forall k | k in SystemScope(b, profileIds).value ensures k in OD.Keys(b.systems) {
      var e, g :| e in b.profiles && e.0 in profileIds && g in e.1.row.access && g.systemId == k;
      var i :| 0 <= i < |b.profiles| && b.profiles[i] == e;
      assert ProfileInside(b, b.profiles[i].1.row);
    }
  }

  /** Concatenating the roles of different systems repeats nothing and loses nothing. */
  lemma {:induction false} RolesOfSystemsExact(lang: Language, b: Bundle, systems: seq<Candidate>, profileIds: seq<string>)
    requires ValidBundle(b) && profileIds != [] && UniqueIds(systems)
    requires forall c :: c in systems ==> c.id in OD.Keys(b.systems)
    ensures Distinct(RolesOfSystems(lang, b, systems, profileIds))
    ensures forall r :: r in RolesOfSystems(lang, b, systems, profileIds) <==>
      exists c :: c in systems && r in ShownRoles(lang, b, c.id, profileIds)
    decreases |systems|
  {
    if systems != [] {
      var n := |systems| - 1;
      var head, last := systems[..n], systems[n];
      assert systems == head + [last];
      RolesOfSystemsExact(lang, b, head, profileIds);
      ShownRolesExact(lang, b, last.id, profileIds);
      var before, added := RolesOfSystems(lang, b, head, profileIds), ShownRoles(lang, b, last.id, profileIds);
      forall r | r in before ensures r !in added {
        var c :| c in head && r in ShownRoles(lang, b, c.id, profileIds);
        ShownRolesExact(lang, b, c.id, profileIds);
        if r in added { RoleHasOneOwner(b, c.id, last.id, profileIds, r); }
      }
      DistinctConcat(before, added);
    }
  }

  lemma RoleHasOneOwner(b: Bundle, s: string, t: string, profileIds: seq<string>, r: string)
    requires ValidBundle(b) && profileIds != []
    requires r in Granted(b, s, profileIds) && r in Granted(b, t, profileIds)
    ensures s == t
  {
    GrantedOwned(b, s, profileIds, r);
    GrantedOwned(b, t, profileIds, r);
  }

  /** Everything the profile may use, over all systems. */
  ghost function AllGranted(b: Bundle, profileIds: seq<string>): set<string>
    requires profileIds != []
  {
    set s, r | s in SystemScope(b, profileIds).value && r in Granted(b, s, profileIds) :: r
  }

  /** The answer can show every granted role of this system. */
  ghost predicate FullyShown(b: Bundle, f: Facts, s: string, profileIds: seq<string>)
    requires f.AccessFacts? && profileIds != []
  {
    s in f.systemIds && |Granted(b, s, profileIds)| <= 10
  }

  /**
   * The access answer names each role once and only granted roles; it names every granted role
   * exactly when each system with a granted role is listed and holds at most ten of them.
   */
  lemma AccessAnswerExact(lang: Language, b: Bundle, departmentId: string, positionId: string, profileIds: seq<string>)
    requires ValidBundle(b) && profileIds != []
    ensures var f := AccessAnswer(lang, b, departmentId, positionId, profileIds).facts;
      && Distinct(f.roleIds) && Distinct(f.systemIds)
      && (forall r :: r in f.roleIds ==> r in AllGranted(b, profileIds))
      && ((forall r :: r in AllGranted(b, profileIds) ==> r in f.roleIds) <==>
            forall s :: s in SystemScope(b, profileIds).value && Granted(b, s, profileIds) != {} ==>
              FullyShown(b, f, s, profileIds))
  {
    hide ValidBundle, SystemSearch, ShownRoles, RolesOfSystems, Granted;
    var shown := SystemSearch(lang, b, "", profileIds, 10).candidates;
    var f := AccessAnswer(lang, b, departmentId, positionId, profileIds).facts;
    ShownSystemsExact(lang, b, profileIds);
    RolesOfSystemsExact(lang, b, shown, profileIds);
    IdsAsSet(shown);
    forall r | r in f.roleIds ensures r in AllGranted(b, profileIds) {
      var c :| c in shown && r in ShownRoles(lang, b, c.id, profileIds);
      ShownRolesExact(lang, b, c.id, profileIds);
    }
    if forall r :: r in AllGranted(b, profileIds) ==> r in f.roleIds {
      CompleteShowsAll(lang, b, f, shown, profileIds);
    }
    if forall s :: s in SystemScope(b, profileIds).value && Granted(b, s, profileIds) != {} ==> FullyShown(b, f, s, profileIds) {
      ShowingAllCompletes(lang, b, f, shown, profileIds);
    }
  }

  ghost predicate ListsRolesOf(lang: Language, b: Bundle, f: Facts, shown: seq<Candidate>, profileIds: seq<string>) {
    && f.AccessFacts? && f.systemIds == CandidateIds(shown)
    && (forall c :: c in shown ==> c.id in OD.Keys(b.systems))
    && (forall r :: r in f.roleIds <==> exists c :: c in shown && r in ShownRoles(lang, b, c.id, profileIds))
  }

  lemma CompleteShowsAll(lang: Language, b: Bundle, f: Facts, shown: seq<Candidate>, profileIds: seq<string>)
    requires ValidBundle(b) && profileIds != [] && ListsRolesOf(lang, b, f, shown, profileIds)
    requires forall r :: r in AllGranted(b, profileIds) ==> r in f.roleIds
    ensures forall s :: s in SystemScope(b, profileIds).value && Granted(b, s, profileIds) != {} ==>
      FullyShown(b, f, s, profileIds)
  {
    IdsAsSet(shown);
    forall s | s in SystemScope(b, profileIds).value && Granted(b, s, profileIds) != {}
      ensures FullyShown(b, f, s, profileIds)
    {
      CompleteShowsSystem(lang, b, shown, f.roleIds, profileIds, s);
      ShownRolesExact(lang, b, s, profileIds);
    }
  }

  lemma ShowingAllCompletes(lang: Language, b: Bundle, f: Facts, shown: seq<Candidate>, profileIds: seq<string>)
    requires ValidBundle(b) && profileIds != [] && ListsRolesOf(lang, b, f, shown, profileIds)
    requires forall s :: s in SystemScope(b, profileIds).value && Granted(b, s, profileIds) != {} ==>
      FullyShown(b, f, s, profileIds)
    ensures forall r :: r in AllGranted(b, profileIds) ==> r in f.roleIds
  {
    IdsAsSet(shown);
    forall r | r in AllGranted(b, profileIds) ensures r in f.roleIds {
      var s :| s in SystemScope(b, profileIds).value && r in Granted(b, s, profileIds);
      assert FullyShown(b, f, s, profileIds);
      var c :| c in shown && c.id == s;
      ShownRolesExact(lang, b, s, profileIds);
    }
  }

  /** If no granted role is missing, a system with a granted role is listed and none of its roles is cut. */
  lemma CompleteShowsSystem(lang: Language, b: Bundle, shown: seq<Candidate>, roleIds: seq<string>, profileIds: seq<string>, s: string)
    requires ValidBundle(b) && profileIds != []
    requires forall c :: c in shown ==> c.id in OD.Keys(b.systems)
    requires forall r :: r in roleIds <==> exists c :: c in shown && r in ShownRoles(lang, b, c.id, profileIds)
    requires forall r :: r in AllGranted(b, profileIds) ==> r in roleIds
    requires s in SystemScope(b, profileIds).value && Granted(b, s, profileIds) != {}
    ensures s in CandidateIdSet(shown)
    ensures forall r :: r in Granted(b, s, profileIds) ==> r in ShownRoles(lang, b, s, profileIds)
  {
    forall r | r in Granted(b, s, profileIds)
      ensures s in CandidateIdSet(shown) && r in ShownRoles(lang, b, s, profileIds)
    {
      assert r in AllGranted(b, profileIds);
      var c :| c in shown && r in ShownRoles(lang, b, c.id, profileIds);
      ShownRolesExact(lang, b, c.id, profileIds);
      RoleHasOneOwner(b, c.id, s, profileIds, r);
    }
    var r :| r in Granted(b, s, profileIds);
  }

  /** Up to ten systems with up to ten granted roles each: the answer is the full granted set. */
  lemma SmallProfileComplete(lang: Language, b: Bundle, departmentId: string, positionId: string, profileIds: seq<string>)
    requires ValidBundle(b) && profileIds != []
    requires |SystemScope(b, profileIds).value| <= 10
    requires forall s :: s in SystemScope(b, profileIds).value ==> |Granted(b, s, profileIds)| <= 10
    ensures (set r | r in AccessAnswer(lang, b, departmentId, positionId, profileIds).facts.roleIds) == AllGranted(b, profileIds)
  {
    AccessAnswerExact(lang, b, departmentId, positionId, profileIds);
    ShownSystemsExact(lang, b, profileIds);
  }

  lemma FinishGrounded(lang: Language, s: TurnState, b: Bundle, slots: Slots)
    requires ValidBundle(b)
    ensures Grounded(b, FinishProfileAccess(lang, s, b, slots).answer.facts)
  {
    var departmentId, positionId := SlotValue(slots, "department_id"), SlotValue(slots, "position_id");
    var city := SlotValue(slots, "city");
    if departmentId != "" && positionId != "" {
      var r := ProfileSearch(lang, b, departmentId, positionId, city, 5);
      if r.status == FOUND {
        ProfileHitsInside(lang, b, departmentId, positionId, city);
        TopKIsBest(b.version, Somes(ProfileHits(lang, b, departmentId, positionId, city)), 5, false);
        assert Employs(b, r.candidates[0].id, departmentId, positionId);
        AccessGrounded(lang, b, departmentId, positionId, CandidateIds(r.candidates));
      }
    }
  }

  lemma AccessGrounded(lang: Language, b: Bundle, departmentId: string, positionId: string, profileIds: seq<string>)
    requires ValidBundle(b) && |profileIds| == 1 && Employs(b, profileIds[0], departmentId, positionId)
    ensures Grounded(b, AccessAnswer(lang, b, departmentId, positionId, profileIds).facts)
  {
    var f := AccessAnswer(lang, b, departmentId, positionId, profileIds).facts;
    var shown := SystemSearch(lang, b, "", profileIds, 10).candidates;
    ShownSystemsExact(lang, b, profileIds);
    RolesOfSystemsExact(lang, b, shown, profileIds);
    IdsAsSet(shown);
    var i :| 0 <= i < |b.profiles| && b.profiles[i].0 == profileIds[0]
      && departmentId in b.profiles[i].1.row.departmentIds && positionId in b.profiles[i].1.row.positionIds;
    assert ProfileInside(b, b.profiles[i].1.row);
    forall r | r in f.roleIds ensures exists s :: s in f.systemIds && Owns(b, s, r) {
      var c :| c in shown && r in ShownRoles(lang, b, c.id, profileIds);
      ShownRolesExact(lang, b, c.id, profileIds);
      GrantedOwned(b, c.id, profileIds, r);
      assert c.id in f.systemIds;
    }
  }

  lemma PendingSlotGrounded(lx: Lexicon, text: string, s: TurnState, topic: string, b: Bundle)
    requires ValidBundle(b)
    ensures Grounded(b, HandlePendingSlot(lx, text, s, topic, b).answer.facts)
  {
    var city := SlotValue(s.slots, "city");
    if topic == "department" {
      var r := DepartmentSearch(lx.lang, b, text, city, 5);
      if r.status == FOUND { FinishGrounded(lx.lang, s, b, s.slots["department_id" := r.candidates[0].id]); }
    } else if topic == "position" {
      var r := PositionSearch(lx.lang, b, text, city, SlotValue(s.slots, "department_id"), 5);
      if r.status == FOUND { FinishGrounded(lx.lang, s, b, s.slots["position_id" := r.candidates[0].id]); }
    }
  }

  lemma SelectionGrounded(lx: Lexicon, text: string, s: TurnState, p: Pending, b: Bundle)
    requires ValidBundle(b)
    ensures var t := PendingSelection(lx, text, s, p, b); t.Some? ==> Grounded(b, t.value.answer.facts)
  {
    hide FinishProfileAccess;
    if !lx.asksMore(text) && lx.asNumber(text).Some? && 1 <= lx.asNumber(text).value <= |p.options| {
      FinishGrounded(lx.lang, s, b, s.slots[p.topic + "_id" := p.options[lx.asNumber(text).value - 1].id]);
    }
  }

  lemma OrganizationGrounded(lx: Lexicon, request: Request, b: Bundle)
    requires ValidBundle(b)
    ensures var t := OrganizationRequest(lx, request, b); t.Some? ==> Grounded(b, t.value.answer.facts)
  {
    hide ValidBundle, FinishProfileAccess, PositionHits, DepartmentHits, Somes, CityMentioned, PositionScope, Rank, Sort, SlotValue;
    var text := lx.normalize(request.text);
    var s := request.state;
    var mentioned := CityMentioned(lx, text, b.departments);
    var city := if mentioned.Some? then mentioned.value else SlotValue(s.slots, "city");
    var slots0 := if city != "" then s.slots["city" := city] else s.slots;
    var positions := PositionSearch(lx.lang, b, request.text, city, SlotValue(slots0, "department_id"), 5);
    if positions.status != AMBIGUOUS {
      var slots := if positions.status == FOUND then slots0["position_id" := positions.candidates[0].id] else slots0;
      var departments := DepartmentSearch(lx.lang, b, request.text, city, 5);
      FinishGrounded(lx.lang, s, b, slots);
      if departments.status == FOUND {
        FinishGrounded(lx.lang, s, b, slots["department_id" := departments.candidates[0].id]);
      }
    }
  }

  lemma SystemTurnGrounded(lx: Lexicon, text: string, s: TurnState, b: Bundle)
    requires ValidBundle(b)
    ensures var t := SystemTurn(lx, text, s, b); t.Some? ==> Grounded(b, t.value.answer.facts)
  {
    var safe := FirstSafe(lx, text, b.systems);
    if safe.Some? {
      SafeSystemKnown(lx, text, b.systems);
      RolesAnswerGrounded(b, safe.value.id);
      InstructionAnswerGrounded(b, safe.value.id);
    }
  }

  lemma PendingIntentGrounded(lx: Lexicon, text: string, s: TurnState, b: Bundle)
    requires ValidBundle(b)
    ensures Grounded(b, PendingIntent(lx, text, s, b).answer.facts)
  {
    var systemId := SlotValue(s.slots, "system_id");
    if systemId in OD.Keys(b.systems) {
      RolesAnswerGrounded(b, systemId);
      InstructionAnswerGrounded(b, systemId);
    }
  }

  lemma DeterministicGrounded(lx: Lexicon, b: Bundle, request: Request)
    requires ValidBundle(b)
    ensures var t := Deterministic(lx, request, b); t.Some? ==> Grounded(b, t.value.answer.facts)
  {
    var text := lx.normalize(request.text);
    var s := request.state;
    OrganizationGrounded(lx, request, b);
    SystemTurnGrounded(lx, text, s, b);
    if !lx.reset(text) && s.pending.Some? {
      var p := s.pending.value;
      if p.kind == SLOT {
        PendingIntentGrounded(lx, text, s, b);
        PendingSlotGrounded(lx, request.text, s, p.topic, b);
      } else if p.kind == SELECTION {
        SelectionGrounded(lx, text, s, p, b);
      }
    }
  }

  /**
   * Whatever the planner returns and however stale the slots are, an answer reports only
   * identifiers of the pinned catalog.
   */
  lemma HandleGrounded(lx: Lexicon, b: Bundle, request: Request, reply: PlannerReply)
    requires ValidBundle(b)
    ensures var r := Handle(lx, b, request, reply); r.answer.Some? ==> Grounded(b, r.answer.value.facts)
  {
    DeterministicGrounded(lx, b, request);
    if Deterministic(lx, request, b).None? && reply.Planned? && KnownFacts(lx, reply.plan, b) {
      var systemId := SlotValue(reply.plan.slots, "system_id");
      if systemId != "" {
        RolesAnswerGrounded(b, systemId);
        InstructionAnswerGrounded(b, systemId);
      }
    }
  }
}
