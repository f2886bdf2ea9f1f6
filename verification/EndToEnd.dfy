/** From the V1 tables to the user: what an access answer says is what the source grants. */
module EndToEnd {
  import opened Prelude
  import OD = OrderedDict
  import opened Catalog
  import opened CatalogBundle
  import opened SearchTools
  import opened Dialogue
  import opened DialogueProofs
  import opened V1Snapshot
  import opened V1SnapshotProofs

  /** A snapshot whose translation is published: sound tables and something to show for every row. */
  ghost predicate SoundSnapshot(a: Adapter, s: Snapshot) {
    && Displayable(a, s) && ColumnsFixed(s.accesses) && SystemKeys(s.systems)
    && SystemsSound(a, s.systems) && ProfilesSound(a, s.profiles)
  }

  /** In a bundle the grants of a profile are those of its document entry. */
  lemma GrantedIsProfileGrants(lang: Language, doc: Document, i: nat, systemId: string, roleId: string)
    requires ValidDocument(lang, doc) && i < |doc.profiles|
    ensures var b := BundleOf(lang, doc);
      roleId in Granted(b, systemId, [doc.profiles[i].id]) <==> ProfileGrants(doc.profiles[i], systemId, roleId)
  {
    hide ValidDocument;
    var b, p := BundleOf(lang, doc), doc.profiles[i];
    ProfileFound(lang, doc, i);
    EntryByKey(b.profiles, p.id);
    assert (p.id, ViewProfile(lang, p)) == b.profiles[i];
    assert ViewProfile(lang, p).row.access == p.access;
  }

  lemma ProfileFound(lang: Language, doc: Document, i: nat)
    requires ValidDocument(lang, doc) && i < |doc.profiles|
    ensures var b := BundleOf(lang, doc);
      && OD.WellFormed(b.profiles) && i < |b.profiles|
      && b.profiles[i] == (doc.profiles[i].id, ViewProfile(lang, doc.profiles[i]))
  {
    hide ProfileInside;
    IndexProfilesPlain(lang, doc.profiles);
    ValidProfiles(lang, doc);
  }

  lemma ScopeOfGranted(b: Bundle, systemId: string, profileIds: seq<string>, roleId: string)
    requires profileIds != [] && roleId in Granted(b, systemId, profileIds)
    ensures systemId in SystemScope(b, profileIds).value
  {
    var e, g :| e in b.profiles && e.0 in profileIds && g in e.1.row.access && g.systemId == systemId && roleId in g.roleIds;
    assert g.systemId in SystemScope(b, profileIds).value;
  }

  lemma TranslatedSizes(a: Adapter, s: Snapshot)
    requires Translate(a, s).Some?
    ensures |Translate(a, s).value.profiles| == |s.profiles| && |Translate(a, s).value.systems| == |s.systems|
  {
  }

  /** The role of some listed system, column and level that a source row grants to the profile. */
  ghost predicate FromSource(a: Adapter, s: Snapshot, profileId: int, roleId: string) {
    exists k, col, level :: (
      && 0 <= k < |s.systems| && roleId == RoleId(SystemId(a, s.systems[k]), col, level)
      && SourceAccess(s, profileId, s.systems[k].id, col, level))
  }

  /** Whatever its spelling, a granted role is that of a source row. */
  lemma GrantFromSource(a: Adapter, s: Snapshot, i: nat, systemId: string, roleId: string)
    requires Translate(a, s).Some? && ColumnsFixed(s.accesses) && SystemKeys(s.systems) && i < |s.profiles|
    requires ProfileGrants(Translate(a, s).value.profiles[i], systemId, roleId)
    ensures FromSource(a, s, s.profiles[i].id, roleId)
  {
    hide ColumnsFixed, Translate, ProfileGrants, RoleId;
    NoForeignGrants(a, s, i, systemId, roleId);
    var j :| 0 <= j < |s.accesses| && s.accesses[j].profileId == s.profiles[i].id
      && SourceGrant(SystemIds(a, s.systems), s.accesses[j], systemId, roleId);
    var r := s.accesses[j];
    SystemIdsKeys(a, s.systems, r.systemId);
    var k :| 0 <= k < |s.systems| && s.systems[k].id == r.systemId;
    SystemIdsAt(a, s.systems, k);
    assert SourceAccess(s, s.profiles[i].id, s.systems[k].id, r.sourceCol, r.accessLevel);
    assert roleId == RoleId(SystemId(a, s.systems[k]), r.sourceCol, r.accessLevel);
  }

  /** No role of any spelling is granted that no source row grants. */
  lemma NothingElseGranted(a: Adapter, s: Snapshot, i: nat, roleId: string)
    requires Sane(a) && SoundSnapshot(a, s) && Translate(a, s).Some? && i < |s.profiles|
    requires roleId in AllGranted(BundleOf(a.lang, Translate(a, s).value), [Translate(a, s).value.profiles[i].id])
    ensures FromSource(a, s, s.profiles[i].id, roleId)
  {
    hide ValidDocument, Sane, Displayable, ColumnsFixed, SystemKeys, SystemsSound, ProfilesSound, BundleOf, Translate, ProfileGrants,
      FromSource, Granted;
    var doc := Translate(a, s).value;
    TranslatedSizes(a, s);
    TranslationValid(a, s);
    var profile := [doc.profiles[i].id];
    var b := BundleOf(a.lang, doc);
    var systemId :| systemId in SystemScope(b, profile).value && roleId in Granted(b, systemId, profile);
    GrantedIsProfileGrants(a.lang, doc, i, systemId, roleId);
    GrantFromSource(a, s, i, systemId, roleId);
  }

  /** Over all systems a translated profile is granted exactly the roles of its source rows. */
  lemma AllGrantedIsSource(a: Adapter, s: Snapshot, i: nat, k: nat, col: int, level: int)
    requires Sane(a) && SoundSnapshot(a, s) && Translate(a, s).Some? && i < |s.profiles| && k < |s.systems|
    ensures var doc := Translate(a, s).value;
      && (RoleId(doc.systems[k].id, col, level) in AllGranted(BundleOf(a.lang, doc), [doc.profiles[i].id]) <==>
            SourceAccess(s, s.profiles[i].id, s.systems[k].id, col, level))
      && (forall r :: r in AllGranted(BundleOf(a.lang, doc), [doc.profiles[i].id]) ==> FromSource(a, s, s.profiles[i].id, r))
  {
    hide ValidDocument, Sane, Displayable, ColumnsFixed, SystemKeys, SystemsApart, ProfilesSound, BundleOf, Translate, ProfileGrants,
      SourceAccess, Granted, FromSource;
    var doc := Translate(a, s).value;
    TranslatedSizes(a, s);
    forall r | r in AllGranted(BundleOf(a.lang, doc), [doc.profiles[i].id]) ensures FromSource(a, s, s.profiles[i].id, r) {
      NothingElseGranted(a, s, i, r);
    }
    var b, pid, sid := BundleOf(a.lang, doc), doc.profiles[i].id, doc.systems[k].id;
    var rid := RoleId(sid, col, level);
    TranslationValid(a, s);
    AccessPreserved(a, s, i, k, col, level);
    GrantedIsProfileGrants(a.lang, doc, i, sid, rid);
    if SourceAccess(s, s.profiles[i].id, s.systems[k].id, col, level) {
      ScopeOfGranted(b, sid, [pid], rid);
    }
    if rid in AllGranted(b, [pid]) {
      var other :| other in SystemScope(b, [pid]).value && rid in Granted(b, other, [pid]);
      GrantedIsProfileGrants(a.lang, doc, i, other, rid);
      GrantOfOneSystem(a, s, i, other, sid, col, level);
    }
  }

  /** A role id is granted only in the system that it names. */
  lemma GrantOfOneSystem(a: Adapter, s: Snapshot, i: nat, systemId: string, named: string, col: int, level: int)
    requires Translate(a, s).Some? && ColumnsFixed(s.accesses) && i < |s.profiles|
    requires ProfileGrants(Translate(a, s).value.profiles[i], systemId, RoleId(named, col, level))
    ensures systemId == named
  {
    hide ColumnsFixed, Translate, ProfileGrants, SystemIds;
    var roleId := RoleId(named, col, level);
    NoForeignGrants(a, s, i, systemId, roleId);
    var j :| 0 <= j < |s.accesses| && s.accesses[j].profileId == s.profiles[i].id
      && SourceGrant(SystemIds(a, s.systems), s.accesses[j], systemId, roleId);
    RoleIdInjective(systemId, s.accesses[j].sourceCol, s.accesses[j].accessLevel, named, col, level);
  }

  /**
   * From end to end: over the bundle of a translated snapshot, every role in an access answer for a
   * profile is one that some source row grants to it; with at most ten systems and at most ten
   * granted roles in each the answer names exactly the roles that the source grants.
   */
  lemma AnswerMatchesSource(a: Adapter, s: Snapshot, i: nat, k: nat, col: int, level: int, departmentId: string, positionId: string)
    requires Sane(a) && SoundSnapshot(a, s) && Translate(a, s).Some? && i < |s.profiles| && k < |s.systems|
    ensures var doc := Translate(a, s).value;
      var b := BundleOf(a.lang, doc);
      var profile := [doc.profiles[i].id];
      var named := RoleId(doc.systems[k].id, col, level) in AccessAnswer(a.lang, b, departmentId, positionId, profile).facts.roleIds;
      var granted := SourceAccess(s, s.profiles[i].id, s.systems[k].id, col, level);
      && (named ==> granted)
      && (FewGrants(b, profile) ==> (named <==> granted))
      && (forall r :: r in AccessAnswer(a.lang, b, departmentId, positionId, profile).facts.roleIds ==> FromSource(a, s, s.profiles[i].id, r))
  {
    hide ValidDocument, ValidBundle, Sane, SoundSnapshot, BundleOf, Translate, SourceAccess, AllGranted, FewGrants, RoleId, FromSource;
    var doc := Translate(a, s).value;
    TranslatedSizes(a, s);
    var b, profile := BundleOf(a.lang, doc), [doc.profiles[i].id];
    assert ValidDocument(a.lang, doc) by { SoundIsValid(a, s); }
    ValidBundleOf(a.lang, doc);
    AllGrantedIsSource(a, s, i, k, col, level);
    AccessAnswerExact(a.lang, b, departmentId, positionId, profile);
    if FewGrants(b, profile) { FewGrantsShown(a.lang, b, departmentId, positionId, profile); }
    forall r | r in AllGranted(b, profile) ensures FromSource(a, s, s.profiles[i].id, r) { NothingElseGranted(a, s, i, r); }
  }

  ghost predicate FewGrants(b: Bundle, profileIds: seq<string>)
    requires profileIds != []
  {
    && |SystemScope(b, profileIds).value| <= 10
    && forall y :: y in SystemScope(b, profileIds).value ==> |Granted(b, y, profileIds)| <= 10
  }

  lemma SoundIsValid(a: Adapter, s: Snapshot)
    requires Sane(a) && SoundSnapshot(a, s) && Translate(a, s).Some?
    ensures ValidDocument(a.lang, Translate(a, s).value)
  {
    hide ValidDocument, Sane;
    TranslationValid(a, s);
  }

  lemma FewGrantsShown(lang: Language, b: Bundle, departmentId: string, positionId: string, profileIds: seq<string>)
    requires ValidBundle(b) && profileIds != [] && FewGrants(b, profileIds)
    ensures forall r :: r in AccessAnswer(lang, b, departmentId, positionId, profileIds).facts.roleIds <==> r in AllGranted(b, profileIds)
  {
    hide ValidBundle, AllGranted;
    SmallProfileComplete(lang, b, departmentId, positionId, profileIds);
    var shown := set r | r in AccessAnswer(lang, b, departmentId, positionId, profileIds).facts.roleIds;
    assert forall r :: r in shown <==> r in AccessAnswer(lang, b, departmentId, positionId, profileIds).facts.roleIds;
  }
}
