/** The immutable in-memory bundle built from a published document. */
module CatalogBundle {
  import opened Prelude
  import OD = OrderedDict
  import opened Catalog

  datatype DepartmentView = DepartmentView(row: Department, normalizedCity: string, number: Option<nat>)
  datatype ProfileView = ProfileView(row: Profile, normalizedCity: string)

  datatype Bundle = Bundle(
    version: string,
    systems: OD.Dict<System>,
    departments: seq<DepartmentView>,
    positions: seq<Position>,
    profiles: OD.Dict<ProfileView>,
    instructions: seq<Instruction>,
    roleIds: set<string>)

  function ViewDepartment(lang: Language, d: Department): DepartmentView {
    DepartmentView(d, lang.normalize(d.city), lang.number(d.name))
  }

  function ViewProfile(lang: Language, p: Profile): ProfileView {
    ProfileView(if p.name == "" then p.(name := p.id) else p, lang.normalize(p.city))
  }

  /** Keyed by id, in order of first appearance, the last entry of an id winning. */
  function IndexSystems(s: seq<System>): OD.Dict<System> {
    if s == [] then [] else OD.Put(IndexSystems(s[..|s| - 1]), s[|s| - 1].id, s[|s| - 1])
  }

  function IndexProfiles(lang: Language, s: seq<Profile>): OD.Dict<ProfileView> {
    if s == [] then []
    else OD.Put(IndexProfiles(lang, s[..|s| - 1]), s[|s| - 1].id, ViewProfile(lang, s[|s| - 1]))
  }

  function BundleOf(lang: Language, doc: Document): Bundle {
    Bundle(
      doc.version,
      IndexSystems(doc.systems),
      seq(|doc.departments|, i requires 0 <= i < |doc.departments| => ViewDepartment(lang, doc.departments[i])),
      doc.positions,
      IndexProfiles(lang, doc.profiles),
      doc.instructions,
      set s, r | s in doc.systems && r in RoleIds(s) :: r)
  }

  method FromMapping(lang: Language, doc: Document) returns (bundle: Bundle)
    ensures bundle == BundleOf(lang, doc)
  {
    var systems: OD.Dict<System> := [];
    var roleIds: set<string> := {};
    for i := 0 to |doc.systems|
      invariant systems == IndexSystems(doc.systems[..i])
      invariant roleIds == set s, r | s in doc.systems[..i] && r in RoleIds(s) :: r
    {
      assert doc.systems[..i + 1][..i] == doc.systems[..i];
      assert doc.systems[..i + 1] == doc.systems[..i] + [doc.systems[i]];
      roleIds := roleIds + RoleIds(doc.systems[i]);
      systems := OD.Put(systems, doc.systems[i].id, doc.systems[i]);
    }
    assert doc.systems[..|doc.systems|] == doc.systems;
    var departments: seq<DepartmentView> := [];
    for i := 0 to |doc.departments|
      invariant |departments| == i
      invariant forall k :: 0 <= k < i ==> departments[k] == ViewDepartment(lang, doc.departments[k])
    {
      departments := departments + [ViewDepartment(lang, doc.departments[i])];
    }
    var profiles: OD.Dict<ProfileView> := [];
    for i := 0 to |doc.profiles|
      invariant profiles == IndexProfiles(lang, doc.profiles[..i])
    {
      assert doc.profiles[..i + 1][..i] == doc.profiles[..i];
      profiles := OD.Put(profiles, doc.profiles[i].id, ViewProfile(lang, doc.profiles[i]));
    }
    assert doc.profiles[..|doc.profiles|] == doc.profiles;
    bundle := Bundle(doc.version, systems, departments, doc.positions, profiles, doc.instructions, roleIds);
  }

  // ------------------------------------------------ what validation guarantees

  function DepartmentIds(b: Bundle): set<string> {
    set d | d in b.departments :: d.row.id
  }

  function PositionIds(b: Bundle): set<string> {
    set p | p in b.positions :: p.id
  }

  ghost predicate Owns(b: Bundle, systemId: string, roleId: string) {
    exists i :: 0 <= i < |b.systems| && b.systems[i].0 == systemId && roleId in RoleIds(b.systems[i].1)
  }

  /** The relations of a profile stay inside the bundle. */
  ghost predicate ProfileInside(b: Bundle, p: Profile) {
    && (forall d :: d in p.departmentIds ==> d in DepartmentIds(b))
    && (forall d :: d in p.positionIds ==> d in PositionIds(b))
    && (forall g :: g in p.access ==> g.systemId in OD.Keys(b.systems))
    && (forall g, r :: g in p.access && r in g.roleIds ==> Owns(b, g.systemId, r))
  }

  ghost predicate ValidBundle(b: Bundle) {
    && OD.WellFormed(b.systems)
    && (forall i :: 0 <= i < |b.systems| ==> b.systems[i].1.id == b.systems[i].0)
    && (forall i, x, y :: 0 <= i < |b.systems| && 0 <= x < y < |b.systems[i].1.roles| ==>
          b.systems[i].1.roles[x].id != b.systems[i].1.roles[y].id)
    && (forall i, j :: 0 <= i < j < |b.systems| ==> RoleIds(b.systems[i].1) !! RoleIds(b.systems[j].1))
    && (forall i, j :: 0 <= i < j < |b.departments| ==> b.departments[i].row.id != b.departments[j].row.id)
    && (forall i, j :: 0 <= i < j < |b.positions| ==> b.positions[i].id != b.positions[j].id)
    && OD.WellFormed(b.profiles)
    && (forall i :: 0 <= i < |b.profiles| ==> b.profiles[i].1.row.id == b.profiles[i].0)
    && (forall i :: 0 <= i < |b.profiles| ==> ProfileInside(b, b.profiles[i].1.row))
    && (forall x :: x in b.instructions ==> x.systemId in OD.Keys(b.systems))
  }

  /** Stripped identifiers that differ come from identifiers that differ. */
  lemma DistinctIds(lang: Language, e: seq<Entry>, i: int, j: int)
    requires UniqueRequired(lang, e) && 0 <= i < j < |e|
    ensures e[i].id != e[j].id
  {
  }

  lemma {:induction false} IndexSystemsPlain(lang: Language, s: seq<System>)
    requires UniqueRequired(lang, SystemEntries(s))
    ensures |IndexSystems(s)| == |s|
    ensures forall i :: 0 <= i < |s| ==> IndexSystems(s)[i] == (s[i].id, s[i])
    decreases |s|
  {
    if s != [] {
      var n := |s| - 1;
      var e := SystemEntries(s);
      var init := s[..n];
      assert SystemEntries(init) == e[..n];
      IndexSystemsPlain(lang, init);
      var d := IndexSystems(init);
      forall i | 0 <= i < |d| ensures d[i].0 != s[n].id {
        DistinctIds(lang, e, i, n);
        assert e[i].id == init[i].id;
      }
      OD.PutNew(d, s[n].id, s[n]);
    }
  }

  lemma {:induction false} IndexProfilesPlain(lang: Language, s: seq<Profile>)
    requires UniqueRequired(lang, ProfileEntries(s))
    ensures |IndexProfiles(lang, s)| == |s|
    ensures forall i :: 0 <= i < |s| ==> IndexProfiles(lang, s)[i] == (s[i].id, ViewProfile(lang, s[i]))
    decreases |s|
  {
    if s != [] {
      var n := |s| - 1;
      var e := ProfileEntries(s);
      var init := s[..n];
      assert ProfileEntries(init) == e[..n];
      IndexProfilesPlain(lang, init);
      var d := IndexProfiles(lang, init);
      forall i | 0 <= i < |d| ensures d[i].0 != s[n].id {
        DistinctIds(lang, e, i, n);
        assert e[i].id == init[i].id;
      }
      OD.PutNew(d, s[n].id, ViewProfile(lang, s[n]));
    }
  }

  lemma SameOrganization(lang: Language, doc: Document)
    ensures var b := BundleOf(lang, doc);
      DepartmentIds(b) == Ids(DepartmentEntries(doc.departments)) && PositionIds(b) == Ids(PositionEntries(doc.positions))
  {
    var b := BundleOf(lang, doc);
    var de := DepartmentEntries(doc.departments);
    forall k | k in Ids(de) ensures k in DepartmentIds(b) {
      var i :| 0 <= i < |de| && de[i].id == k;
      assert b.departments[i] in b.departments;
    }
    forall k | k in DepartmentIds(b) ensures k in Ids(de) {
      var i :| 0 <= i < |b.departments| && b.departments[i].row.id == k;
      assert de[i].id == k;
    }
    var pe := PositionEntries(doc.positions);
    forall k | k in Ids(pe) ensures k in PositionIds(b) {
      var i :| 0 <= i < |pe| && pe[i].id == k;
      assert b.positions[i] in b.positions;
    }
    forall k | k in PositionIds(b) ensures k in Ids(pe) {
      var i :| 0 <= i < |b.positions| && b.positions[i].id == k;
      assert pe[i].id == k;
    }
  }

  lemma SameSystems(lang: Language, doc: Document)
    requires ValidDocument(lang, doc)
    ensures var b := BundleOf(lang, doc);
      && OD.Keys(b.systems) == Ids(SystemEntries(doc.systems))
      && DepartmentIds(b) == Ids(DepartmentEntries(doc.departments))
      && PositionIds(b) == Ids(PositionEntries(doc.positions))
      && forall s, r :: OwnsRole(doc.systems, s, r) ==> Owns(b, s, r)
  {
    var b := BundleOf(lang, doc);
    IndexSystemsPlain(lang, doc.systems);
    var e := SystemEntries(doc.systems);
    forall k | k in OD.Keys(b.systems) ensures k in Ids(e) {
      var i :| 0 <= i < |b.systems| && b.systems[i].0 == k;
      assert e[i].id == k;
    }
    forall k | k in Ids(e) ensures k in OD.Keys(b.systems) {
      var i :| 0 <= i < |e| && e[i].id == k;
      assert b.systems[i].0 == k;
    }
    SameOrganization(lang, doc);
    forall s, r | OwnsRole(doc.systems, s, r) ensures Owns(b, s, r) {
      var i :| 0 <= i < |doc.systems| && doc.systems[i].id == s && r in RoleIds(doc.systems[i]);
      assert b.systems[i].0 == s && r in RoleIds(b.systems[i].1);
    }
  }

  lemma ValidProfiles(lang: Language, doc: Document)
    requires ValidDocument(lang, doc)
    ensures var b := BundleOf(lang, doc);
      && OD.WellFormed(b.profiles)
      && (forall i :: 0 <= i < |b.profiles| ==> b.profiles[i].1.row.id == b.profiles[i].0)
      && (forall i :: 0 <= i < |b.profiles| ==> ProfileInside(b, b.profiles[i].1.row))
  {
    var b := BundleOf(lang, doc);
    IndexProfilesPlain(lang, doc.profiles);
    SameSystems(lang, doc);
    var pr := ProfileEntries(doc.profiles);
    forall i, j | 0 <= i < j < |b.profiles| ensures b.profiles[i].0 != b.profiles[j].0 {
      DistinctIds(lang, pr, i, j);
    }
    forall i | 0 <= i < |b.profiles| ensures ProfileInside(b, b.profiles[i].1.row) {
      assert ProfileAllowed(doc, doc.profiles[i]);
    }
  }

  lemma ValidSystems(lang: Language, doc: Document)
    requires ValidDocument(lang, doc)
    ensures var b := BundleOf(lang, doc);
      && OD.WellFormed(b.systems)
      && (forall i :: 0 <= i < |b.systems| ==> b.systems[i].1.id == b.systems[i].0)
      && (forall i, x, y :: 0 <= i < |b.systems| && 0 <= x < y < |b.systems[i].1.roles| ==>
            b.systems[i].1.roles[x].id != b.systems[i].1.roles[y].id)
      && (forall i, j :: 0 <= i < j < |b.systems| ==> RoleIds(b.systems[i].1) !! RoleIds(b.systems[j].1))
  {
    var b := BundleOf(lang, doc);
    IndexSystemsPlain(lang, doc.systems);
    var e := SystemEntries(doc.systems);
    forall i, j | 0 <= i < j < |b.systems| ensures b.systems[i].0 != b.systems[j].0 {
      DistinctIds(lang, e, i, j);
    }
    forall i, x, y | 0 <= i < |b.systems| && 0 <= x < y < |b.systems[i].1.roles|
      ensures b.systems[i].1.roles[x].id != b.systems[i].1.roles[y].id
    {
      var s := doc.systems[i];
      assert UniqueRequired(lang, RoleEntries(s.roles));
      DistinctIds(lang, RoleEntries(s.roles), x, y);
    }
  }

  /** A document the validator accepts yields a bundle without dangling or ambiguous references. */
  lemma ValidBundleOf(lang: Language, doc: Document)
    requires ValidDocument(lang, doc)
    ensures ValidBundle(BundleOf(lang, doc))
  {
    var b := BundleOf(lang, doc);
    ValidSystems(lang, doc);
    ValidProfiles(lang, doc);
    SameSystems(lang, doc);
    var de := DepartmentEntries(doc.departments);
    forall i, j | 0 <= i < j < |b.departments| ensures b.departments[i].row.id != b.departments[j].row.id {
      DistinctIds(lang, de, i, j);
    }
    var pe := PositionEntries(doc.positions);
    forall i, j | 0 <= i < j < |b.positions| ensures b.positions[i].id != b.positions[j].id {
      DistinctIds(lang, pe, i, j);
    }
  }

  // ------------------------------------------------ what is kept of the document

  /** The last entry with this id. */
  ghost predicate LastSystem(s: seq<System>, id: string, i: int) {
    0 <= i < |s| && s[i].id == id && forall h :: i < h < |s| ==> s[h].id != id
  }

  ghost predicate LastProfile(s: seq<Profile>, id: string, i: int) {
    0 <= i < |s| && s[i].id == id && forall h :: i < h < |s| ==> s[h].id != id
  }

  lemma {:induction false} SystemsIndexed(s: seq<System>, id: string)
    ensures forall i :: LastSystem(s, id, i) ==> OD.Get(IndexSystems(s), id) == Some(s[i])
    ensures OD.Get(IndexSystems(s), id).Some? ==> exists i :: LastSystem(s, id, i)
    decreases |s|
  {
    if s != [] {
      var init, last := s[..|s| - 1], s[|s| - 1];
      SystemsIndexed(init, id);
      if last.id == id {
        OD.PutGet(IndexSystems(init), id, last);
        assert LastSystem(s, id, |s| - 1);
      } else {
        OD.PutOther(IndexSystems(init), last.id, last, id);
        forall i | LastSystem(s, id, i) ensures LastSystem(init, id, i) {}
        forall i | LastSystem(init, id, i) ensures LastSystem(s, id, i) {}
      }
    }
  }

  lemma {:induction false} ProfilesIndexed(lang: Language, s: seq<Profile>, id: string)
    ensures forall i :: LastProfile(s, id, i) ==> OD.Get(IndexProfiles(lang, s), id) == Some(ViewProfile(lang, s[i]))
    ensures OD.Get(IndexProfiles(lang, s), id).Some? ==> exists i :: LastProfile(s, id, i)
    decreases |s|
  {
    hide ViewProfile;
    if s != [] {
      var init, last := s[..|s| - 1], s[|s| - 1];
      ProfilesIndexed(lang, init, id);
      if last.id == id {
        OD.PutGet(IndexProfiles(lang, init), id, ViewProfile(lang, last));
        assert LastProfile(s, id, |s| - 1);
      } else {
        OD.PutOther(IndexProfiles(lang, init), last.id, ViewProfile(lang, last), id);
        forall i | LastProfile(s, id, i) ensures LastProfile(init, id, i) {}
        forall i | LastProfile(init, id, i) ensures LastProfile(s, id, i) {}
      }
    }
  }

  /** The stored row of a profile: a missing name is replaced by the id, and the city is normalized for comparison. */
  predicate Shows(lang: Language, v: ProfileView, p: Profile) {
    && v.normalizedCity == lang.normalize(p.city)
    && v.row.id == p.id && v.row.city == p.city && v.row.departmentIds == p.departmentIds
    && v.row.positionIds == p.positionIds && v.row.access == p.access
    && v.row.name == (if p.name != "" then p.name else p.id)
  }

  /**
   * The bundle is the document: departments in order, with the normalized city and the number read from the name;
   * positions and instructions as they are; systems and profiles by id, the last entry of an id being the one found.
   */
  lemma BundleFaithful(lang: Language, doc: Document, id: string)
    ensures var b := BundleOf(lang, doc);
      && b.version == doc.version && b.positions == doc.positions && b.instructions == doc.instructions
      && |b.departments| == |doc.departments|
      && (forall i :: 0 <= i < |doc.departments| ==>
            && b.departments[i].row == doc.departments[i]
            && b.departments[i].normalizedCity == lang.normalize(doc.departments[i].city)
            && b.departments[i].number == lang.number(doc.departments[i].name))
      && (forall i :: LastSystem(doc.systems, id, i) ==> OD.Get(b.systems, id) == Some(doc.systems[i]))
      && (id in OD.Keys(b.systems) ==> exists i :: LastSystem(doc.systems, id, i))
      && (forall i :: LastProfile(doc.profiles, id, i) ==>
            OD.Get(b.profiles, id).Some? && Shows(lang, OD.Get(b.profiles, id).value, doc.profiles[i]))
      && (id in OD.Keys(b.profiles) ==> exists i :: LastProfile(doc.profiles, id, i))
      && (id in b.roleIds <==> exists i, k :: 0 <= i < |doc.systems| && 0 <= k < |doc.systems[i].roles| && doc.systems[i].roles[k].id == id)
  {
    hide IndexSystems, IndexProfiles, LastSystem, LastProfile;
    SystemsIndexed(doc.systems, id);
    ProfilesIndexed(lang, doc.profiles, id);
    if i, k :| 0 <= i < |doc.systems| && 0 <= k < |doc.systems[i].roles| && doc.systems[i].roles[k].id == id {
      assert RoleEntries(doc.systems[i].roles)[k].id == id;
      assert doc.systems[i] in doc.systems && id in RoleIds(doc.systems[i]);
    }
    if id in BundleOf(lang, doc).roleIds {
      var s :| s in doc.systems && id in RoleIds(s);
      var i :| 0 <= i < |doc.systems| && doc.systems[i] == s;
      var k :| 0 <= k < |RoleEntries(s.roles)| && RoleEntries(s.roles)[k].id == id;
      assert doc.systems[i].roles[k].id == id;
    }
  }
}
