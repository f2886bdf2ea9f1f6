/** When a publication succeeds, and what every run of publications keeps. */
module PublicationProofs {
  import opened Prelude
  import W = Words
  import opened Catalog
  import opened CatalogBundle
  import opened Publication

  // ---------------------------------------------------------------- rows that fit

  ghost predicate AliasesApart(lang: Language, aliases: seq<Alias>) {
    forall i, j :: 0 <= i < j < |aliases| ==>
      lang.normalize(Strip(lang, aliases[i].value)) != lang.normalize(Strip(lang, aliases[j].value))
  }

  ghost predicate ProfileFits(p: Profile) {
    && Distinct(p.departmentIds) && Distinct(p.positionIds) && Distinct(GrantSystems(p.access))
    && forall g :: g in p.access ==> Distinct(g.roleIds)
  }

  /** What the tables demand beyond the validator: no repeated alias in an entity, no repeated target in a profile. */
  ghost predicate Insertable(lang: Language, doc: Document) {
    && (forall d :: d in doc.departments ==> AliasesApart(lang, d.aliases))
    && (forall p :: p in doc.positions ==> AliasesApart(lang, p.aliases))
    && (forall s :: s in doc.systems ==> AliasesApart(lang, s.aliases))
    && (forall p :: p in doc.profiles ==> ProfileFits(p))
  }

  ghost predicate Apart(a: seq<seq<RowKey>>, b: seq<seq<RowKey>>) {
    forall i, j :: 0 <= i < |a| && 0 <= j < |b| ==> Disjoint(a[i], b[j])
  }

  lemma FitAppend(a: seq<seq<RowKey>>, b: seq<seq<RowKey>>)
    requires Apart(a, b)
    ensures PiecesFit(a + b) <==> PiecesFit(a) && PiecesFit(b)
  {
    var c := a + b;
    if PiecesFit(c) {
      assert forall i :: 0 <= i < |a| ==> c[i] == a[i];
      assert forall i :: 0 <= i < |b| ==> c[|a| + i] == b[i];
      forall i, j | 0 <= i < j < |b| ensures Disjoint(b[i], b[j]) { assert Disjoint(c[|a| + i], c[|a| + j]); }
    }
  }

  function Table(k: RowKey): int {
    match k
    case EntityRow(_, _, _) => 0
    case AliasRow(_, _, _, _) => 1
    case RelationRow(_, _, _, _) => 2
  }

  ghost predicate InTable(s: seq<RowKey>, t: int) {
    forall k :: k in s ==> Table(k) == t
  }

  lemma TablesDisjoint(a: seq<RowKey>, b: seq<RowKey>, t: int, u: int)
    requires InTable(a, t) && InTable(b, u) && t != u
    ensures Disjoint(a, b)
  {
  }

  // ---------------------------------------------------------------- entities always fit

  lemma EntityRowsDistinct(lang: Language, version: string, kind: string, e: seq<Entry>)
    requires UniqueRequired(lang, e)
    ensures Distinct(EntityRows(version, kind, e))
  {
    var rows := EntityRows(version, kind, e);
    forall i, j | 0 <= i < j < |rows| ensures rows[i] != rows[j] {
      DistinctIds(lang, e, i, j);
    }
  }

  lemma EntityRowsMember(version: string, kind: string, e: seq<Entry>, k: RowKey)
    ensures k in EntityRows(version, kind, e) <==> k.EntityRow? && k.version == version && k.kind == kind && k.id in Ids(e)
  {
    if k.EntityRow? && k.version == version && k.kind == kind && k.id in Ids(e) {
      var i :| 0 <= i < |e| && e[i].id == k.id;
      assert EntityRows(version, kind, e)[i] == k;
    }
    if k in EntityRows(version, kind, e) {
      var i :| 0 <= i < |e| && EntityRows(version, kind, e)[i] == k;
      assert e[i].id in Ids(e);
    }
  }

  lemma KindsApart(v: string, a: string, b: string, d: seq<Entry>, e: seq<Entry>)
    requires a != b
    ensures Disjoint(EntityRows(v, a, d), EntityRows(v, b, e))
  {
    forall k | k in EntityRows(v, a, d) ensures k !in EntityRows(v, b, e) {
      EntityRowsMember(v, a, d, k);
      EntityRowsMember(v, b, e, k);
    }
  }

  function TopPieces(doc: Document): seq<seq<RowKey>> {
    [EntityRows(doc.version, "department", DepartmentEntries(doc.departments)),
     EntityRows(doc.version, "position", PositionEntries(doc.positions)),
     EntityRows(doc.version, "system", SystemEntries(doc.systems)),
     EntityRows(doc.version, "profile", ProfileEntries(doc.profiles)),
     EntityRows(doc.version, "instruction", InstructionEntries(doc.instructions))]
  }

  lemma TopPiecesFit(lang: Language, doc: Document)
    requires ValidDocument(lang, doc)
    ensures PiecesFit(TopPieces(doc))
  {
    var v := doc.version;
    var d, p, s := DepartmentEntries(doc.departments), PositionEntries(doc.positions), SystemEntries(doc.systems);
    var f, x := ProfileEntries(doc.profiles), InstructionEntries(doc.instructions);
    EntityRowsDistinct(lang, v, "department", d);
    EntityRowsDistinct(lang, v, "position", p);
    EntityRowsDistinct(lang, v, "system", s);
    EntityRowsDistinct(lang, v, "profile", f);
    EntityRowsDistinct(lang, v, "instruction", x);
    KindsApart(v, "department", "position", d, p);
    KindsApart(v, "department", "system", d, s);
    KindsApart(v, "department", "profile", d, f);
    KindsApart(v, "department", "instruction", d, x);
    KindsApart(v, "position", "system", p, s);
    KindsApart(v, "position", "profile", p, f);
    KindsApart(v, "position", "instruction", p, x);
    KindsApart(v, "system", "profile", s, f);
    KindsApart(v, "system", "instruction", s, x);
    KindsApart(v, "profile", "instruction", f, x);
  }

  lemma RolePiecesFit(lang: Language, doc: Document)
    requires ValidDocument(lang, doc)
    ensures PiecesFit(RoleRows(doc)) && Apart(TopPieces(doc), RoleRows(doc))
  {
    var v, pieces := doc.version, RoleRows(doc);
    forall i | 0 <= i < |pieces| ensures Distinct(pieces[i]) {
      assert doc.systems[i] in doc.systems;
      EntityRowsDistinct(lang, v, "role", RoleEntries(doc.systems[i].roles));
    }
    forall i, j | 0 <= i < j < |pieces| ensures Disjoint(pieces[i], pieces[j]) {
      var a, b := RoleEntries(doc.systems[i].roles), RoleEntries(doc.systems[j].roles);
      assert RoleIds(doc.systems[i]) !! RoleIds(doc.systems[j]);
      forall k | k in pieces[i] ensures k !in pieces[j] {
        EntityRowsMember(v, "role", a, k);
        EntityRowsMember(v, "role", b, k);
      }
    }
    forall i, j | 0 <= i < |TopPieces(doc)| && 0 <= j < |pieces| ensures Disjoint(TopPieces(doc)[i], pieces[j]) {
      var e := RoleEntries(doc.systems[j].roles);
      KindsApart(v, "department", "role", DepartmentEntries(doc.departments), e);
      KindsApart(v, "position", "role", PositionEntries(doc.positions), e);
      KindsApart(v, "system", "role", SystemEntries(doc.systems), e);
      KindsApart(v, "profile", "role", ProfileEntries(doc.profiles), e);
      KindsApart(v, "instruction", "role", InstructionEntries(doc.instructions), e);
    }
  }

  lemma EntityPiecesFit(lang: Language, doc: Document)
    requires ValidDocument(lang, doc)
    ensures PiecesFit(EntityPieces(doc))
    ensures forall i :: 0 <= i < |EntityPieces(doc)| ==> InTable(EntityPieces(doc)[i], 0)
  {
    TopPiecesFit(lang, doc);
    RolePiecesFit(lang, doc);
    FitAppend(TopPieces(doc), RoleRows(doc));
    assert EntityPieces(doc) == TopPieces(doc) + RoleRows(doc);
  }

  // ---------------------------------------------------------------- aliases

  lemma AliasRowsDistinct(lang: Language, v: string, kind: string, id: string, aliases: seq<Alias>)
    ensures Distinct(AliasRows(lang, v, kind, id, aliases)) <==> AliasesApart(lang, aliases)
  {
    var rows := AliasRows(lang, v, kind, id, aliases);
    if Distinct(rows) {
      forall i, j | 0 <= i < j < |aliases|
        ensures lang.normalize(Strip(lang, aliases[i].value)) != lang.normalize(Strip(lang, aliases[j].value))
      {
        assert rows[i] != rows[j];
      }
    }
  }

  /** Pieces whose rows carry one kind and pairwise different ids fit iff each one is distinct. */
  lemma OwnedPiecesFit(pieces: seq<seq<RowKey>>, ids: seq<Entry>, kind: string)
    requires |pieces| == |ids|
    requires forall i, j :: 0 <= i < j < |ids| ==> ids[i].id != ids[j].id
    requires forall i, k :: 0 <= i < |pieces| && k in pieces[i] ==> k.AliasRow? && k.kind == kind && k.id == ids[i].id
    ensures PiecesFit(pieces) <==> forall i :: 0 <= i < |pieces| ==> Distinct(pieces[i])
  {
    forall i, j | 0 <= i < j < |pieces| ensures Disjoint(pieces[i], pieces[j]) {
      forall k | k in pieces[i] ensures k !in pieces[j] {
        assert k.id == ids[i].id && ids[i].id != ids[j].id;
      }
    }
  }

  lemma DepartmentAliasesFit(lang: Language, doc: Document)
    requires ValidDocument(lang, doc)
    ensures PiecesFit(DepartmentAliasRows(lang, doc)) <==> forall d :: d in doc.departments ==> AliasesApart(lang, d.aliases)
  {
    var pieces, e := DepartmentAliasRows(lang, doc), DepartmentEntries(doc.departments);
    forall i, j | 0 <= i < j < |e| ensures e[i].id != e[j].id { DistinctIds(lang, e, i, j); }
    OwnedPiecesFit(pieces, e, "department");
    forall i | 0 <= i < |doc.departments| ensures Distinct(pieces[i]) <==> AliasesApart(lang, doc.departments[i].aliases) {
      AliasRowsDistinct(lang, doc.version, "department", doc.departments[i].id, doc.departments[i].aliases);
    }
  }

  lemma PositionAliasesFit(lang: Language, doc: Document)
    requires ValidDocument(lang, doc)
    ensures PiecesFit(PositionAliasRows(lang, doc)) <==> forall p :: p in doc.positions ==> AliasesApart(lang, p.aliases)
  {
    var pieces, e := PositionAliasRows(lang, doc), PositionEntries(doc.positions);
    forall i, j | 0 <= i < j < |e| ensures e[i].id != e[j].id { DistinctIds(lang, e, i, j); }
    OwnedPiecesFit(pieces, e, "position");
    forall i | 0 <= i < |doc.positions| ensures Distinct(pieces[i]) <==> AliasesApart(lang, doc.positions[i].aliases) {
      AliasRowsDistinct(lang, doc.version, "position", doc.positions[i].id, doc.positions[i].aliases);
    }
  }

  lemma SystemAliasesFit(lang: Language, doc: Document)
    requires ValidDocument(lang, doc)
    ensures PiecesFit(SystemAliasRows(lang, doc)) <==> forall s :: s in doc.systems ==> AliasesApart(lang, s.aliases)
  {
    var pieces, e := SystemAliasRows(lang, doc), SystemEntries(doc.systems);
    forall i, j | 0 <= i < j < |e| ensures e[i].id != e[j].id { DistinctIds(lang, e, i, j); }
    OwnedPiecesFit(pieces, e, "system");
    forall i | 0 <= i < |doc.systems| ensures Distinct(pieces[i]) <==> AliasesApart(lang, doc.systems[i].aliases) {
      AliasRowsDistinct(lang, doc.version, "system", doc.systems[i].id, doc.systems[i].aliases);
    }
  }

  lemma AliasPiecesFit(lang: Language, doc: Document)
    requires ValidDocument(lang, doc)
    ensures PiecesFit(AliasPieces(lang, doc)) <==>
      && (forall d :: d in doc.departments ==> AliasesApart(lang, d.aliases))
      && (forall p :: p in doc.positions ==> AliasesApart(lang, p.aliases))
      && (forall s :: s in doc.systems ==> AliasesApart(lang, s.aliases))
    ensures forall i :: 0 <= i < |AliasPieces(lang, doc)| ==> InTable(AliasPieces(lang, doc)[i], 1)
  {
    hide ValidDocument, PiecesFit, AliasesApart, Apart, InTable, DepartmentAliasRows, PositionAliasRows, SystemAliasRows;
    var d, p, s := DepartmentAliasRows(lang, doc), PositionAliasRows(lang, doc), SystemAliasRows(lang, doc);
    DepartmentAliasesFit(lang, doc);
    PositionAliasesFit(lang, doc);
    SystemAliasesFit(lang, doc);
    AliasKinds(lang, doc);
    AliasKindsApart(d, "department", p, "position");
    AliasKindsApart(d, "department", s, "system");
    AliasKindsApart(p, "position", s, "system");
    ApartBoth(d, p, s);
    FitAppend(d, p);
    FitAppend(d + p, s);
  }

  /** Alias rows of one entity type. */
  ghost predicate AliasesOf(pieces: seq<seq<RowKey>>, kind: string) {
    forall i :: 0 <= i < |pieces| ==> InTable(pieces[i], 1) && forall k :: k in pieces[i] ==> k.AliasRow? && k.kind == kind
  }

  lemma AliasKinds(lang: Language, doc: Document)
    ensures AliasesOf(DepartmentAliasRows(lang, doc), "department")
    ensures AliasesOf(PositionAliasRows(lang, doc), "position")
    ensures AliasesOf(SystemAliasRows(lang, doc), "system")
    ensures forall i :: 0 <= i < |AliasPieces(lang, doc)| ==> InTable(AliasPieces(lang, doc)[i], 1)
  {
  }

  lemma AliasKindsApart(a: seq<seq<RowKey>>, x: string, b: seq<seq<RowKey>>, y: string)
    requires AliasesOf(a, x) && AliasesOf(b, y) && x != y
    ensures Apart(a, b)
  {
  }

  lemma ApartBoth(a: seq<seq<RowKey>>, b: seq<seq<RowKey>>, c: seq<seq<RowKey>>)
    requires Apart(a, c) && Apart(b, c)
    ensures Apart(a + b, c)
  {
    hide Disjoint;
  }

  // ---------------------------------------------------------------- relations

  lemma RelationsDistinct(v: string, table: string, id: string, targets: seq<string>)
    ensures Distinct(Relations(v, table, id, targets)) <==> Distinct(targets)
  {
    var rows := Relations(v, table, id, targets);
    if Distinct(rows) {
      forall i, j | 0 <= i < j < |targets| ensures targets[i] != targets[j] { assert rows[i] != rows[j]; }
    }
  }

  lemma {:induction false} GrantRolesMember(access: seq<Grant>, r: string)
    ensures r in GrantRoles(access) <==> exists g :: g in access && r in g.roleIds
    decreases |access|
  {
    if access != [] {
      GrantRolesMember(access[1..], r);
      assert access == [access[0]] + access[1..];
    }
  }

  lemma GrantsShareNothing(systems: seq<System>, g: Grant, h: Grant, r: string)
    requires RolesApart(systems) && forall i, j :: 0 <= i < j < |systems| ==> systems[i].id != systems[j].id
    requires GrantAllowed(systems, g) && GrantAllowed(systems, h) && g.systemId != h.systemId
    requires r in g.roleIds
    ensures r !in h.roleIds
  {
    assert OwnsRole(systems, g.systemId, r);
  }

  /** Roles of different systems are different, so only a repetition inside one grant can clash. */
  lemma {:induction false} GrantRolesDistinct(systems: seq<System>, access: seq<Grant>)
    requires RolesApart(systems) && Distinct(GrantSystems(access))
    requires forall i, j :: 0 <= i < j < |systems| ==> systems[i].id != systems[j].id
    requires forall g :: g in access ==> GrantAllowed(systems, g)
    ensures Distinct(GrantRoles(access)) <==> forall g :: g in access ==> Distinct(g.roleIds)
    decreases |access|
  {
    if access != [] {
      var rest := access[1..];
      assert access == [access[0]] + rest;
      forall i, j | 0 <= i < j < |rest| ensures GrantSystems(rest)[i] != GrantSystems(rest)[j] {
        assert GrantSystems(access)[i + 1] != GrantSystems(access)[j + 1];
      }
      GrantRolesDistinct(systems, rest);
      forall r | r in access[0].roleIds ensures r !in GrantRoles(rest) {
        GrantRolesMember(rest, r);
        forall g | g in rest ensures r !in g.roleIds {
          var j :| 0 <= j < |rest| && rest[j] == g;
          assert GrantSystems(access)[0] != GrantSystems(access)[j + 1];
          GrantsShareNothing(systems, access[0], g, r);
        }
      }
      TextSplit(access[0].roleIds, GrantRoles(rest));
    }
  }

  lemma TextSplit(a: seq<string>, b: seq<string>)
    requires forall x :: x in a ==> x !in b
    ensures Distinct(a + b) <==> Distinct(a) && Distinct(b)
  {
    var c := a + b;
    if Distinct(a) && Distinct(b) { DistinctConcat(a, b); }
    if Distinct(c) {
      forall i, j | 0 <= i < j < |a| ensures a[i] != a[j] { assert c[i] != c[j]; }
      forall i, j | 0 <= i < j < |b| ensures b[i] != b[j] { assert c[|a| + i] != c[|a| + j]; }
    }
  }

  lemma ProfileTablesDistinct(v: string, p: Profile)
    ensures Distinct(ProfileRows(v, p)) <==>
      Distinct(p.departmentIds) && Distinct(p.positionIds) && Distinct(GrantSystems(p.access)) && Distinct(GrantRoles(p.access))
  {
    var d, q := Relations(v, "profile_department", p.id, p.departmentIds), Relations(v, "profile_position", p.id, p.positionIds);
    var s, r := Relations(v, "profile_system", p.id, GrantSystems(p.access)), Relations(v, "profile_role", p.id, GrantRoles(p.access));
    RelationsDistinct(v, "profile_department", p.id, p.departmentIds);
    RelationsDistinct(v, "profile_position", p.id, p.positionIds);
    RelationsDistinct(v, "profile_system", p.id, GrantSystems(p.access));
    RelationsDistinct(v, "profile_role", p.id, GrantRoles(p.access));
    DistinctSplit(d, q);
    DistinctSplit(d + q, s);
    DistinctSplit(d + q + s, r);
  }

  lemma ProfileRowsDistinct(lang: Language, doc: Document, p: Profile)
    requires ValidDocument(lang, doc) && p in doc.profiles
    ensures Distinct(ProfileRows(doc.version, p)) <==> ProfileFits(p)
  {
    ProfileTablesDistinct(doc.version, p);
    if Distinct(GrantSystems(p.access)) {
      var e := SystemEntries(doc.systems);
      forall i, j | 0 <= i < j < |doc.systems| ensures doc.systems[i].id != doc.systems[j].id { DistinctIds(lang, e, i, j); }
      assert ProfileAllowed(doc, p);
      GrantRolesDistinct(doc.systems, p.access);
    }
  }

  ghost predicate RowsOfProfile(rows: seq<RowKey>, id: string) {
    forall k :: k in rows ==> k.RelationRow? && k.profileId == id
  }

  lemma ProfileRowsOwned(version: string, p: Profile)
    ensures RowsOfProfile(ProfileRows(version, p), p.id)
  {
  }

  lemma OwnedInTable(rows: seq<RowKey>, id: string)
    requires RowsOfProfile(rows, id)
    ensures InTable(rows, 2)
  {
  }

  lemma OwnersApart(a: seq<RowKey>, x: string, b: seq<RowKey>, y: string)
    requires RowsOfProfile(a, x) && RowsOfProfile(b, y) && x != y
    ensures Disjoint(a, b)
  {
  }

  lemma ProfileIdsApart(lang: Language, doc: Document, i: nat, j: nat)
    requires ValidDocument(lang, doc) && i < j < |doc.profiles|
    ensures doc.profiles[i].id != doc.profiles[j].id
  {
    var e := ProfileEntries(doc.profiles);
    DistinctIds(lang, e, i, j);
    assert e[i].id == doc.profiles[i].id && e[j].id == doc.profiles[j].id;
  }

  lemma ProfilePiecesFit(lang: Language, doc: Document)
    requires ValidDocument(lang, doc)
    ensures PiecesFit(AllProfileRows(doc)) <==> forall p :: p in doc.profiles ==> ProfileFits(p)
    ensures forall i :: 0 <= i < |AllProfileRows(doc)| ==> InTable(AllProfileRows(doc)[i], 2)
  {
    hide ValidDocument, ProfileRows, ProfileFits, Disjoint, InTable;
    var pieces := AllProfileRows(doc);
    forall i | 0 <= i < |pieces| ensures RowsOfProfile(pieces[i], doc.profiles[i].id) {
      ProfileRowsOwned(doc.version, doc.profiles[i]);
    }
    forall i | 0 <= i < |pieces| ensures InTable(pieces[i], 2) { OwnedInTable(pieces[i], doc.profiles[i].id); }
    forall i, j | 0 <= i < j < |pieces| ensures Disjoint(pieces[i], pieces[j]) {
      ProfileIdsApart(lang, doc, i, j);
      OwnersApart(pieces[i], doc.profiles[i].id, pieces[j], doc.profiles[j].id);
    }
    forall i | 0 <= i < |doc.profiles| ensures Distinct(pieces[i]) <==> ProfileFits(doc.profiles[i]) {
      ProfileRowsDistinct(lang, doc, doc.profiles[i]);
    }
  }

  // ---------------------------------------------------------------- when a publication succeeds

  lemma RowsFit(lang: Language, doc: Document)
    requires ValidDocument(lang, doc)
    ensures Distinct(ReleaseRows(lang, doc)) <==> Insertable(lang, doc)
  {
    var e, a, p := EntityPieces(doc), AliasPieces(lang, doc), AllProfileRows(doc);
    EntityPiecesFit(lang, doc);
    AliasPiecesFit(lang, doc);
    ProfilePiecesFit(lang, doc);
    ConstructorsApart(e, a, p);
    FitAppend(e, a);
    FitAppend(e + a, p);
    FlattenDistinct(e + a + p);
  }

  lemma ConstructorsApart(e: seq<seq<RowKey>>, a: seq<seq<RowKey>>, p: seq<seq<RowKey>>)
    requires forall i :: 0 <= i < |e| ==> InTable(e[i], 0)
    requires forall i :: 0 <= i < |a| ==> InTable(a[i], 1)
    requires forall i :: 0 <= i < |p| ==> InTable(p[i], 2)
    ensures Apart(e, a) && Apart(e + a, p)
  {
    forall i, j | 0 <= i < |e| && 0 <= j < |a| ensures Disjoint(e[i], a[j]) {
      TablesDisjoint(e[i], a[j], 0, 1);
    }
    forall i, j | 0 <= i < |e + a| && 0 <= j < |p| ensures Disjoint((e + a)[i], p[j]) {
      TablesDisjoint((e + a)[i], p[j], if i < |e| then 0 else 1, 2);
    }
  }

  lemma TrimmedValid(lang: Language, payload: Document)
    requires ValidDocument(lang, payload)
    ensures ValidDocument(lang, Trimmed(lang, payload))
  {
    W.StripIdempotent(lang.isSpace, payload.version);
    var doc := Trimmed(lang, payload);
    forall p | p in doc.profiles ensures ProfileAllowed(doc, p) { assert ProfileAllowed(payload, p); }
  }

  // ---------------------------------------------------------------- entities come before their aliases

  lemma AliasRowsOwner(lang: Language, doc: Document, k: RowKey, i: nat)
    requires i < |AliasPieces(lang, doc)| && k in AliasPieces(lang, doc)[i]
    ensures k.AliasRow? && k.version == doc.version
    ensures || (k.kind == "department" && k.id in Ids(DepartmentEntries(doc.departments)))
            || (k.kind == "position" && k.id in Ids(PositionEntries(doc.positions)))
            || (k.kind == "system" && k.id in Ids(SystemEntries(doc.systems)))
  {
    var d, p, s := DepartmentAliasRows(lang, doc), PositionAliasRows(lang, doc), SystemAliasRows(lang, doc);
    if i < |d| {
      assert k in d[i] && DepartmentEntries(doc.departments)[i].id == doc.departments[i].id;
    } else if i < |d| + |p| {
      assert k in p[i - |d|] && PositionEntries(doc.positions)[i - |d|].id == doc.positions[i - |d|].id;
    } else {
      var n := i - |d| - |p|;
      assert k in s[n] && SystemEntries(doc.systems)[n].id == doc.systems[n].id;
    }
  }

  lemma MiddlePiece(e: seq<seq<RowKey>>, a: seq<seq<RowKey>>, p: seq<seq<RowKey>>, k: RowKey, n: nat)
    requires forall i :: 0 <= i < |e| ==> InTable(e[i], 0)
    requires forall i :: 0 <= i < |p| ==> InTable(p[i], 2)
    requires n < |e + a + p| && k in (e + a + p)[n] && k.AliasRow?
    ensures |e| <= n < |e| + |a| && (e + a + p)[n] == a[n - |e|]
  {
    var all := e + a + p;
    forall i | 0 <= i < |e| ensures k !in all[i] { assert all[i] == e[i]; }
    forall i | |e| + |a| <= i < |all| ensures k !in all[i] { assert all[i] == p[i - |e| - |a|]; }
  }

  lemma AliasPieceOf(lang: Language, doc: Document, k: RowKey) returns (i: nat)
    requires ValidDocument(lang, doc) && k in ReleaseRows(lang, doc) && k.AliasRow?
    ensures i < |AliasPieces(lang, doc)| && k in AliasPieces(lang, doc)[i]
  {
    hide ValidDocument, EntityPieces, AliasPieces, AllProfileRows, PiecesFit, ProfileFits;
    var e, a, p := EntityPieces(doc), AliasPieces(lang, doc), AllProfileRows(doc);
    EntityPiecesFit(lang, doc);
    ProfilePiecesFit(lang, doc);
    FlattenMembers(e + a + p);
    var n :| 0 <= n < |e + a + p| && k in (e + a + p)[n];
    MiddlePiece(e, a, p, k, n);
    i := n - |e|;
  }

  lemma TopRowsFirst(doc: Document, i: nat, k: RowKey)
    requires i < |TopPieces(doc)| && k in TopPieces(doc)[i]
    ensures k in Flatten(EntityPieces(doc))
  {
    assert EntityPieces(doc)[i] == TopPieces(doc)[i];
    FlattenMembers(EntityPieces(doc));
  }

  /** The entity of an alias row is among the rows that are inserted first. */
  lemma EntityOfAlias(lang: Language, doc: Document, k: RowKey)
    requires ValidDocument(lang, doc) && k in ReleaseRows(lang, doc) && k.AliasRow?
    ensures EntityRow(k.version, k.kind, k.id) in Flatten(EntityPieces(doc))
  {
    var i := AliasPieceOf(lang, doc, k);
    AliasRowsOwner(lang, doc, k, i);
    var row := EntityRow(k.version, k.kind, k.id);
    EntityRowsMember(doc.version, "department", DepartmentEntries(doc.departments), row);
    EntityRowsMember(doc.version, "position", PositionEntries(doc.positions), row);
    EntityRowsMember(doc.version, "system", SystemEntries(doc.systems), row);
    var n := if k.kind == "department" then 0 else if k.kind == "position" then 1 else 2;
    TopRowsFirst(doc, n, row);
  }

  lemma {:induction false} FlattenAppend(a: seq<seq<RowKey>>, b: seq<seq<RowKey>>)
    ensures Flatten(a + b) == Flatten(a) + Flatten(b)
    decreases |a|
  {
    if a == [] {
      assert a + b == b;
    } else {
      assert (a + b)[1..] == a[1..] + b;
      FlattenAppend(a[1..], b);
    }
  }

  /** The rows of a release start with all its entity rows, and no alias row is among those. */
  lemma EntityRowsLead(lang: Language, doc: Document)
    requires ValidDocument(lang, doc)
    ensures Flatten(EntityPieces(doc)) <= ReleaseRows(lang, doc)
    ensures forall i :: 0 <= i < |Flatten(EntityPieces(doc))| ==> !ReleaseRows(lang, doc)[i].AliasRow?
  {
    hide ValidDocument, EntityPieces, AliasPieces, AllProfileRows, PiecesFit;
    var e := EntityPieces(doc);
    EntityPiecesFit(lang, doc);
    FlattenMembers(e);
    FlattenAppend(e, AliasPieces(lang, doc));
    FlattenAppend(e + AliasPieces(lang, doc), AllProfileRows(doc));
    var first := Flatten(e);
    forall i | 0 <= i < |first| ensures !first[i].AliasRow? { assert first[i] in first; }
  }

  /** The publisher inserts every entity before its aliases, as the foreign key of the alias table demands. */
  lemma EntitiesBeforeAliases(lang: Language, doc: Document, known: set<RowKey>)
    requires ValidDocument(lang, doc)
    ensures EntitiesFirst(known, ReleaseRows(lang, doc))
  {
    hide ValidDocument, ReleaseRows, EntityPieces, Flatten;
    var rows, first := ReleaseRows(lang, doc), Flatten(EntityPieces(doc));
    EntityRowsLead(lang, doc);
    forall i | 0 <= i < |rows| ensures EntityBefore(known, rows[..i], rows[i]) {
      if rows[i].AliasRow? {
        EntityOfAlias(lang, doc, rows[i]);
        assert first <= rows[..i];
      }
    }
  }

  // ---------------------------------------------------------------- when a publication succeeds

  /**
   * A publication succeeds exactly when the document is valid, its version is new, no entity repeats
   * an alias and no profile repeats a target. Otherwise nothing changes.
   */
  lemma PublishOutcome(lang: Language, db: Db, payload: Document, sha: string)
    requires Lifecycle(db)
    ensures var doc := Trimmed(lang, payload);
      Publish(lang, db, payload, sha) ==
        if ValidDocument(lang, payload) && doc.version !in db.releases && Insertable(lang, payload)
        then (AfterPublish(lang, db, doc, sha), Some(Published(doc.version, db.pointer)))
        else (db, None)
  {
    if ValidDocument(lang, payload) {
      var doc := Trimmed(lang, payload);
      TrimmedValid(lang, payload);
      ScriptOutcome(lang, db, doc, sha);
      RowsFit(lang, doc);
      EntitiesBeforeAliases(lang, doc, db.rows);
      assert Insertable(lang, doc) <==> Insertable(lang, payload);
    }
  }

  // ---------------------------------------------------------------- lifecycle over whole runs

  datatype Attempt = Attempt(payload: Document, sha: string)

  ghost function PublishAll(lang: Language, attempts: seq<Attempt>): Db {
    if attempts == [] then EmptyDb
    else
      var last := attempts[|attempts| - 1];
      Publish(lang, PublishAll(lang, attempts[..|attempts| - 1]), last.payload, last.sha).0
  }

  lemma AfterPublishKeepsInv(lang: Language, db: Db, doc: Document, sha: string)
    requires DbInv(lang, db) && doc.version !in db.releases && ValidDocument(lang, doc)
    ensures DbInv(lang, AfterPublish(lang, db, doc, sha))
  {
    AfterPublishLifecycle(lang, db, doc, sha);
    var next := AfterPublish(lang, db, doc, sha);
    forall v | v in next.releases
      ensures next.releases[v].document.version == v && ValidDocument(lang, next.releases[v].document)
    {
      if v != doc.version { assert v in db.releases; }
    }
  }

  lemma AfterPublishLifecycle(lang: Language, db: Db, doc: Document, sha: string)
    requires Lifecycle(db) && doc.version !in db.releases
    ensures Lifecycle(AfterPublish(lang, db, doc, sha)) && Later(db, AfterPublish(lang, db, doc, sha))
  {
    var next := AfterPublish(lang, db, doc, sha);
    ReleaseRowsVersion(lang, doc);
    assert next.releases.Keys == db.releases.Keys + {doc.version};
    forall k | k in next.rows ensures k.version in next.releases {
      if k !in db.rows { assert k in ReleaseRows(lang, doc); }
    }
  }

  /** A publication, successful or not, leaves all constraints intact. */
  lemma PublishKeepsConstraints(lang: Language, db: Db, payload: Document, sha: string)
    requires Constraints(db)
    ensures Constraints(Publish(lang, db, payload, sha).0)
  {
    hide Constraints, ValidDocument, PublishScript;
    var script := PublishScript(lang, db.pointer, Trimmed(lang, payload), sha);
    assert script[..|script|] == script;
    if RunScript(db, script).Some? { ConstraintsThroughout(db, script, |script|); }
  }

  lemma {:induction false} RunsKeepInv(lang: Language, attempts: seq<Attempt>)
    ensures DbInv(lang, PublishAll(lang, attempts)) && Constraints(PublishAll(lang, attempts))
    decreases |attempts|
  {
    hide Constraints, Publish, ValidDocument;
    if attempts == [] {
      assert Constraints(EmptyDb) by { EmptyConstraints(); }
    } else {
      var init, last := attempts[..|attempts| - 1], attempts[|attempts| - 1];
      RunsKeepInv(lang, init);
      var db := PublishAll(lang, init);
      PublishKeepsConstraints(lang, db, last.payload, last.sha);
      PublishOutcome(lang, db, last.payload, last.sha);
      if Publish(lang, db, last.payload, last.sha).1.Some? {
        TrimmedValid(lang, last.payload);
        AfterPublishKeepsInv(lang, db, Trimmed(lang, last.payload), last.sha);
      }
    }
  }

  lemma EmptyConstraints()
    ensures Constraints(EmptyDb)
  {
  }

  /** A later database: releases keep their documents, and a retired one is never active again. */
  ghost predicate Later(db: Db, later: Db) {
    && (forall v :: v in db.releases ==> v in later.releases && later.releases[v].document == db.releases[v].document)
    && (forall v :: v in db.releases && db.releases[v].status == RETIRED ==> later.releases[v].status == RETIRED)
    && db.rows <= later.rows
  }

  lemma LaterStep(lang: Language, first: Db, db: Db, a: Attempt)
    requires Later(first, db) && Lifecycle(db)
    ensures Later(first, Publish(lang, db, a.payload, a.sha).0)
  {
    PublishOutcome(lang, db, a.payload, a.sha);
    if Publish(lang, db, a.payload, a.sha).1.Some? {
      AfterPublishLifecycle(lang, db, Trimmed(lang, a.payload), a.sha);
    }
  }

  /**
   * Over every run of publication attempts, in any order and with any failures, the active version is that of
   * the one ACTIVE release, nothing is left STAGING, documents never change and RETIRED is final.
   */
  lemma {:induction false} LifecycleOverRuns(lang: Language, attempts: seq<Attempt>, more: seq<Attempt>)
    ensures Lifecycle(PublishAll(lang, attempts + more))
    ensures Later(PublishAll(lang, attempts), PublishAll(lang, attempts + more))
    decreases |more|
  {
    hide Publish, OnlyValid;
    RunsKeepInv(lang, attempts + more);
    if more == [] {
      assert attempts + more == attempts;
    } else {
      var n := |more| - 1;
      var all := attempts + more;
      assert all[..|all| - 1] == attempts + more[..n] && all[|all| - 1] == more[n];
      LifecycleOverRuns(lang, attempts, more[..n]);
      LaterStep(lang, PublishAll(lang, attempts), PublishAll(lang, attempts + more[..n]), more[n]);
    }
  }
}
