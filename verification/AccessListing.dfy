/** The lists of an access answer, element by element: the first ten granted systems by name, and their first ten granted roles in turn. */
module AccessListing {
  import opened Prelude
  import OD = OrderedDict
  import opened Catalog
  import opened CatalogBundle
  import opened Ranking
  import opened SearchTools
  import opened Dialogue
  import opened DialogueProofs
  import opened AccessCompleteness

  // ---------------------------------------------------------------- the first ten by name

  predicate EarlierBy(name: string -> string, x: string, y: string) {
    if name(x) == name(y) then TextAtMost(x, y) else TextAtMost(name(x), name(y))
  }

  function AheadBy(name: string -> string, scope: set<string>, k: string): set<string> {
    set x | x in scope && x != k && EarlierBy(name, x, k)
  }

  /** The ten members of the scope that come first by name and then by id, in this order; all of them if there are fewer. */
  ghost predicate FirstTen(ids: seq<string>, scope: set<string>, name: string -> string) {
    && Distinct(ids)
    && (forall k :: k in ids <==> k in scope && |AheadBy(name, scope, k)| < 10)
    && (forall i, j :: 0 <= i < j < |ids| ==> EarlierBy(name, ids[i], ids[j]))
  }

  /** A candidate of a listing without a query. */
  predicate Plainly(c: Candidate, name: string -> string) {
    c == Candidate(c.id, name(c.id), 0.5, "")
  }

  lemma TenByName(version: string, all: seq<Candidate>, scope: set<string>, name: string -> string)
    requires UniqueIds(all) && CandidateIdSet(all) == scope && forall c :: c in all ==> Plainly(c, name)
    ensures FirstTen(CandidateIds(TopK(version, all, 10, true).candidates), scope, name)
  {
    hide TopK, Sort, Before;
    var shown := TopK(version, all, 10, true).candidates;
    var ids := CandidateIds(shown);
    TopKIsBest(version, all, 10, true);
    TopTenIds(version, all);
    forall k | k in scope ensures k in ids <==> |AheadBy(name, scope, k)| < 10 {
      var c :| c in all && c.id == k;
      ShownByRank(version, all, c, 10, true);
      SameAheadBy(all, scope, name, c);
      OnlyOneWithId(all, shown, c);
    }
    forall i, j | 0 <= i < j < |ids| ensures EarlierBy(name, ids[i], ids[j]) {
      assert shown[i] in all && shown[j] in all;
      PlainOrder(shown[i], shown[j], name);
    }
  }

  lemma PlainOrder(x: Candidate, y: Candidate, name: string -> string)
    requires Plainly(x, name) && Plainly(y, name)
    ensures Before(x, y) <==> EarlierBy(name, x.id, y.id)
  {
  }

  lemma SameAheadBy(all: seq<Candidate>, scope: set<string>, name: string -> string, c: Candidate)
    requires CandidateIdSet(all) == scope && c in all && forall y :: y in all ==> Plainly(y, name)
    ensures IdsAhead(all, c) == AheadBy(name, scope, c.id)
  {
    hide Before, EarlierBy, Plainly;
    forall y | y in all ensures Before(y, c) <==> EarlierBy(name, y.id, c.id) { PlainOrder(y, c, name); }
    forall k | k in AheadBy(name, scope, c.id) ensures k in IdsAhead(all, c) {
      var y :| y in all && y.id == k;
    }
  }

  // ---------------------------------------------------------------- systems and roles

  function SystemNames(b: Bundle): string -> string {
    k => SystemName(b, k)
  }

  function NameIn(roles: seq<Role>, id: string): string {
    if roles == [] then "" else if roles[0].id == id then roles[0].name else NameIn(roles[1..], id)
  }

  function RoleNames(b: Bundle, systemId: string): string -> string {
    id => match OD.Get(b.systems, systemId) case None => "" case Some(y) => NameIn(y.roles, id)
  }

  lemma {:induction false} NameAt(roles: seq<Role>, i: nat)
    requires i < |roles| && forall x, y :: 0 <= x < y < |roles| ==> roles[x].id != roles[y].id
    ensures NameIn(roles, roles[i].id) == roles[i].name
    decreases |roles|
  {
    if i > 0 {
      assert roles[0].id != roles[i].id;
      NameAt(roles[1..], i - 1);
    }
  }

  lemma SystemsInOrder(lang: Language, b: Bundle, profileIds: seq<string>)
    requires ValidBundle(b) && profileIds != [] && lang.normalize("") == ""
    ensures FirstTen(CandidateIds(SystemSearch(lang, b, "", profileIds, 10).candidates), SystemScope(b, profileIds).value, SystemNames(b))
  {
    hide SystemHits, Somes, Sort, FirstTen;
    var scope := SystemScope(b, profileIds).value;
    var all := Somes(SystemHits(lang, b, "", Some(scope)));
    assert OD.WellFormed(b.systems);
    SystemHitsInside(lang, b, profileIds);
    ScopeKnown(b, profileIds);
    forall c | c in all ensures Plainly(c, SystemNames(b)) { SystemCandidate(lang, b, scope, c); }
    TenByName(b.version, all, scope, SystemNames(b));
  }

  lemma RolesInOrder(lang: Language, b: Bundle, systemId: string, profileIds: seq<string>)
    requires ValidBundle(b) && profileIds != [] && lang.normalize("") == "" && systemId in OD.Keys(b.systems)
    ensures FirstTen(ShownRoles(lang, b, systemId, profileIds), Granted(b, systemId, profileIds), RoleNames(b, systemId))
  {
    hide Sort, FirstTen, Rank;
    var i :| 0 <= i < |b.systems| && b.systems[i].0 == systemId;
    OD.GetAt(b.systems, i);
    var roles, scope := b.systems[i].1.roles, Granted(b, systemId, profileIds);
    var all := Somes(RoleHits(lang, roles, "", None, Some(scope)));
    RoleHitsInside(lang, roles, scope);
    OwnedBySystem(b, systemId);
    forall r | r in scope ensures r in CandidateIdSet(all) { GrantedOwned(b, systemId, profileIds, r); }
    forall c | c in all ensures Plainly(c, RoleNames(b, systemId)) { RolePlainly(lang, b, i, scope, c); }
    TenByName(b.version, all, scope, RoleNames(b, systemId));
  }

  lemma RolePlainly(lang: Language, b: Bundle, i: nat, scope: set<string>, c: Candidate)
    requires ValidBundle(b) && i < |b.systems| && lang.normalize("") == ""
    requires c in Somes(RoleHits(lang, b.systems[i].1.roles, "", None, Some(scope)))
    ensures Plainly(c, RoleNames(b, b.systems[i].0))
  {
    hide Somes;
    var roles := b.systems[i].1.roles;
    var hits := RoleHits(lang, roles, "", None, Some(scope));
    SomesMembers(hits);
    OD.GetAt(b.systems, i);
    var x :| 0 <= x < |hits| && hits[x] == Some(c);
    NameAt(roles, x);
  }

  // ---------------------------------------------------------------- the answer

  function Joined(parts: seq<seq<string>>): seq<string> {
    if parts == [] then [] else parts[0] + Joined(parts[1..])
  }

  lemma {:induction false} JoinedAppend(a: seq<seq<string>>, last: seq<string>)
    ensures Joined(a + [last]) == Joined(a) + last
    decreases |a|
  {
    if a == [] {
      assert a + [last] == [last] && [last][1..] == [];
    } else {
      assert (a + [last])[1..] == a[1..] + [last];
      JoinedAppend(a[1..], last);
    }
  }

  /** One list of roles for every listed system, in the same order: the first ten granted roles. */
  ghost predicate InTurn(b: Bundle, profileIds: seq<string>, systemIds: seq<string>, parts: seq<seq<string>>)
    requires profileIds != []
  {
    && |parts| == |systemIds|
    && forall i :: 0 <= i < |parts| ==> FirstTen(parts[i], Granted(b, systemIds[i], profileIds), RoleNames(b, systemIds[i]))
  }

  /** The systems are the first ten granted ones, the roles those of each system in turn. */
  ghost predicate ListsAccess(b: Bundle, profileIds: seq<string>, systemIds: seq<string>, roleIds: seq<string>)
    requires profileIds != []
  {
    && FirstTen(systemIds, SystemScope(b, profileIds).value, SystemNames(b))
    && exists parts :: InTurn(b, profileIds, systemIds, parts) && roleIds == Joined(parts)
  }

  lemma {:induction false} RolesJoined(lang: Language, b: Bundle, systems: seq<Candidate>, profileIds: seq<string>) returns (parts: seq<seq<string>>)
    requires ValidBundle(b) && profileIds != [] && lang.normalize("") == "" && forall c :: c in systems ==> c.id in OD.Keys(b.systems)
    ensures InTurn(b, profileIds, CandidateIds(systems), parts) && RolesOfSystems(lang, b, systems, profileIds) == Joined(parts)
    decreases |systems|
  {
    hide ValidBundle, FirstTen, ShownRoles;
    if systems == [] {
      parts := [];
    } else {
      var head, last := systems[..|systems| - 1], systems[|systems| - 1];
      assert systems == head + [last];
      var before := RolesJoined(lang, b, head, profileIds);
      RolesInOrder(lang, b, last.id, profileIds);
      parts := before + [ShownRoles(lang, b, last.id, profileIds)];
      JoinedAppend(before, ShownRoles(lang, b, last.id, profileIds));
      forall i | 0 <= i < |parts| ensures FirstTen(parts[i], Granted(b, systems[i].id, profileIds), RoleNames(b, systems[i].id)) {
        if i < |head| { assert CandidateIds(head)[i] == systems[i].id; }
      }
    }
  }

  /** What an access answer lists, in which order. */
  lemma AccessListed(lang: Language, b: Bundle, departmentId: string, positionId: string, profileIds: seq<string>)
    requires ValidBundle(b) && profileIds != [] && lang.normalize("") == ""
    ensures var f := AccessAnswer(lang, b, departmentId, positionId, profileIds).facts;
      && f.AccessFacts? && f.departmentId == departmentId && f.positionId == positionId
      && f.profileIds == profileIds && f.version == b.version
      && ListsAccess(b, profileIds, f.systemIds, f.roleIds)
  {
    hide ValidBundle, FirstTen, SystemSearch, RolesOfSystems, InTurn, Granted;
    SystemsInOrder(lang, b, profileIds);
    ShownSystemsExact(lang, b, profileIds);
    var parts := RolesJoined(lang, b, SystemSearch(lang, b, "", profileIds, 10).candidates, profileIds);
  }
}
