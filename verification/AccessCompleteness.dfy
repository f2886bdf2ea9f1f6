/** Which systems and roles an access answer can show, told from the catalog alone. */
module AccessCompleteness {
  import opened Prelude
  import OD = OrderedDict
  import opened Catalog
  import opened CatalogBundle
  import opened Ranking
  import opened SearchTools
  import opened Dialogue
  import opened DialogueProofs

  function SystemName(b: Bundle, k: string): string {
    match OD.Get(b.systems, k)
    case None => ""
    case Some(system) => system.name
  }

  /** The order in which an access answer lists systems: by name, then by id. */
  predicate Earlier(b: Bundle, x: string, y: string) {
    if SystemName(b, x) == SystemName(b, y) then TextAtMost(x, y) else TextAtMost(SystemName(b, x), SystemName(b, y))
  }

  /** The granted systems listed before this one. */
  function SystemsAhead(b: Bundle, profileIds: seq<string>, s: string): set<string>
    requires profileIds != []
  {
    set x | x in SystemScope(b, profileIds).value && x != s && Earlier(b, x, s)
  }

  /** Without a query every granted system is a candidate with the same score. */
  lemma SystemCandidate(lang: Language, b: Bundle, allowed: set<string>, c: Candidate)
    requires OD.WellFormed(b.systems) && lang.normalize("") == ""
    requires c in Somes(SystemHits(lang, b, "", Some(allowed)))
    ensures c == Candidate(c.id, SystemName(b, c.id), 0.5, "")
  {
    hide Somes;
    var hits := SystemHits(lang, b, "", Some(allowed));
    SomesMembers(hits);
    var i :| 0 <= i < |hits| && hits[i] == Some(c);
    OD.GetAt(b.systems, i);
  }

  /** A granted system is listed exactly when fewer than ten granted systems precede it by name and id. */
  lemma SystemListed(lang: Language, b: Bundle, profileIds: seq<string>, s: string)
    requires ValidBundle(b) && profileIds != [] && lang.normalize("") == ""
    requires s in SystemScope(b, profileIds).value
    ensures s in CandidateIds(SystemSearch(lang, b, "", profileIds, 10).candidates) <==> |SystemsAhead(b, profileIds, s)| < 10
  {
    hide SystemHits, Somes, Sort;
    var scope := SystemScope(b, profileIds).value;
    var all := Somes(SystemHits(lang, b, "", Some(scope)));
    assert OD.WellFormed(b.systems);
    SystemHitsInside(lang, b, profileIds);
    ScopeKnown(b, profileIds);
    var c :| c in all && c.id == s;
    forall y | y in all ensures y == Candidate(y.id, SystemName(b, y.id), 0.5, "") { SystemCandidate(lang, b, scope, y); }
    SameAhead(b, profileIds, all, c);
    ShownByRank(b.version, all, c, 10, true);
    var shown := TopK(b.version, all, 10, true).candidates;
    assert SystemSearch(lang, b, "", profileIds, 10).candidates == shown;
    TopKIsBest(b.version, all, 10, true);
    OnlyOneWithId(all, shown, c);
  }

  lemma SameAhead(b: Bundle, profileIds: seq<string>, all: seq<Candidate>, c: Candidate)
    requires profileIds != [] && c in all
    requires forall y :: y in all ==> y == Candidate(y.id, SystemName(b, y.id), 0.5, "") && y.id in SystemScope(b, profileIds).value
    requires forall k :: k in SystemScope(b, profileIds).value ==> exists y :: y in all && y.id == k
    ensures IdsAhead(all, c) == SystemsAhead(b, profileIds, c.id)
  {
    hide SystemScope, SystemName;
    var ahead := SystemsAhead(b, profileIds, c.id);
    forall y | y in all ensures Before(y, c) <==> Earlier(b, y.id, c.id) { }
    forall k | k in ahead ensures k in IdsAhead(all, c) {
      var y :| y in all && y.id == k;
      assert Before(y, c);
    }
  }

  lemma OnlyOneWithId(all: seq<Candidate>, shown: seq<Candidate>, c: Candidate)
    requires UniqueIds(all) && c in all && forall y :: y in shown ==> y in all
    ensures c.id in CandidateIds(shown) <==> c in shown
  {
    if c.id in CandidateIds(shown) {
      var i :| 0 <= i < |shown| && shown[i].id == c.id;
      assert shown[i] in all;
      var p, q :| 0 <= p < |all| && 0 <= q < |all| && all[p] == shown[i] && all[q] == c;
    }
    if c in shown {
      var i :| 0 <= i < |shown| && shown[i] == c;
      assert CandidateIds(shown)[i] == c.id;
    }
  }

  /**
   * When an access answer is complete, told from the catalog alone: each system with a granted role has
   * fewer than ten granted systems before it by name and id, and at most ten granted roles.
   */
  lemma AccessAnswerComplete(lang: Language, b: Bundle, departmentId: string, positionId: string, profileIds: seq<string>)
    requires ValidBundle(b) && profileIds != [] && lang.normalize("") == ""
    ensures var f := AccessAnswer(lang, b, departmentId, positionId, profileIds).facts;
      (forall r :: r in AllGranted(b, profileIds) ==> r in f.roleIds) <==>
        forall s :: s in SystemScope(b, profileIds).value && Granted(b, s, profileIds) != {} ==>
          |SystemsAhead(b, profileIds, s)| < 10 && |Granted(b, s, profileIds)| <= 10
  {
    hide ValidBundle, SystemSearch, Granted, AllGranted, SystemsAhead, RolesOfSystems;
    AccessAnswerExact(lang, b, departmentId, positionId, profileIds);
    forall s | s in SystemScope(b, profileIds).value
      ensures s in AccessAnswer(lang, b, departmentId, positionId, profileIds).facts.systemIds <==> |SystemsAhead(b, profileIds, s)| < 10
    {
      SystemListed(lang, b, profileIds, s);
    }
  }

  lemma {:induction false} FewMembers(s: seq<string>)
    ensures |set x | x in s| <= |s|
    decreases |s|
  {
    if s != [] {
      var init, last := s[..|s| - 1], s[|s| - 1];
      FewMembers(init);
      assert s == init + [last];
      assert (set x | x in s) == (set x | x in init) + {last};
    }
  }

  /** The answer lists no more than ten systems, so with roles in eleven systems it always leaves some out. */
  lemma ElevenSystemsCut(lang: Language, b: Bundle, departmentId: string, positionId: string, profileIds: seq<string>)
    requires ValidBundle(b) && profileIds != []
    requires |set s | s in SystemScope(b, profileIds).value && Granted(b, s, profileIds) != {}| > 10
    ensures exists r :: r in AllGranted(b, profileIds) && r !in AccessAnswer(lang, b, departmentId, positionId, profileIds).facts.roleIds
  {
    hide ValidBundle, Granted, AllGranted, RolesOfSystems, SystemHits, Somes, Sort;
    var f := AccessAnswer(lang, b, departmentId, positionId, profileIds).facts;
    var holding := set s | s in SystemScope(b, profileIds).value && Granted(b, s, profileIds) != {};
    AccessAnswerExact(lang, b, departmentId, positionId, profileIds);
    TopKIsBest(b.version, Somes(SystemHits(lang, b, "", SystemScope(b, profileIds))), 10, true);
    FewMembers(f.systemIds);
    if forall s :: s in holding ==> s in f.systemIds {
      assert holding <= set x | x in f.systemIds;
      CardAtMost(holding, set x | x in f.systemIds);
    }
  }
}
