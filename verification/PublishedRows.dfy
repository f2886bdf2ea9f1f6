/** What a publication leaves in the tables: one row for every entity, alias and relation of the document, and no other. */
module PublishedRows {
  import opened Prelude
  import opened Catalog
  import opened CatalogBundle
  import opened Publication
  import opened PublicationProofs

  // ---------------------------------------------------------------- the rows, table by table

  ghost predicate IsEntityOf(doc: Document, kind: string, id: string) {
    || (kind == "department" && exists i :: 0 <= i < |doc.departments| && doc.departments[i].id == id)
    || (kind == "position" && exists i :: 0 <= i < |doc.positions| && doc.positions[i].id == id)
    || (kind == "system" && exists i :: 0 <= i < |doc.systems| && doc.systems[i].id == id)
    || (kind == "role" && exists i, j :: 0 <= i < |doc.systems| && 0 <= j < |doc.systems[i].roles| && doc.systems[i].roles[j].id == id)
    || (kind == "profile" && exists i :: 0 <= i < |doc.profiles| && doc.profiles[i].id == id)
    || (kind == "instruction" && exists i :: 0 <= i < |doc.instructions| && doc.instructions[i].id == id)
  }

  /** The normalized spelling is that of one of the aliases. */
  ghost predicate Spelled(lang: Language, aliases: seq<Alias>, normalized: string) {
    exists a :: 0 <= a < |aliases| && lang.normalize(Strip(lang, aliases[a].value)) == normalized
  }

  ghost predicate IsAliasOf(lang: Language, doc: Document, kind: string, id: string, normalized: string) {
    || (kind == "department" &&
        exists i :: 0 <= i < |doc.departments| && doc.departments[i].id == id && Spelled(lang, doc.departments[i].aliases, normalized))
    || (kind == "position" &&
        exists i :: 0 <= i < |doc.positions| && doc.positions[i].id == id && Spelled(lang, doc.positions[i].aliases, normalized))
    || (kind == "system" &&
        exists i :: 0 <= i < |doc.systems| && doc.systems[i].id == id && Spelled(lang, doc.systems[i].aliases, normalized))
  }

  ghost predicate Related(p: Profile, table: string, target: string) {
    || (table == "profile_department" && target in p.departmentIds)
    || (table == "profile_position" && target in p.positionIds)
    || (table == "profile_system" && exists g :: 0 <= g < |p.access| && p.access[g].systemId == target)
    || (table == "profile_role" && exists g :: 0 <= g < |p.access| && target in p.access[g].roleIds)
  }

  /** A row that belongs to the document. */
  ghost predicate RowOf(lang: Language, doc: Document, k: RowKey) {
    k.version == doc.version &&
    match k
    case EntityRow(_, kind, id) => IsEntityOf(doc, kind, id)
    case AliasRow(_, kind, id, normalized) => IsAliasOf(lang, doc, kind, id, normalized)
    case RelationRow(_, table, profileId, target) =>
      exists i :: 0 <= i < |doc.profiles| && doc.profiles[i].id == profileId && Related(doc.profiles[i], table, target)
  }

  // ---------------------------------------------------------------- every inserted row is one of these

  lemma EntityRowMembers(version: string, kind: string, e: seq<Entry>, k: RowKey)
    ensures k in EntityRows(version, kind, e) <==> k.EntityRow? && k.version == version && k.kind == kind && exists i :: 0 <= i < |e| && e[i].id == k.id
  {
    var rows := EntityRows(version, kind, e);
    if k.EntityRow? && k.version == version && k.kind == kind {
      if i :| 0 <= i < |e| && e[i].id == k.id { assert rows[i] == k; }
    }
  }

  lemma AliasRowMembers(lang: Language, version: string, kind: string, id: string, aliases: seq<Alias>, k: RowKey)
    ensures k in AliasRows(lang, version, kind, id, aliases) <==>
      k.AliasRow? && k.version == version && k.kind == kind && k.id == id && Spelled(lang, aliases, k.normalized)
  {
    var rows := AliasRows(lang, version, kind, id, aliases);
    if k.AliasRow? && k.version == version && k.kind == kind && k.id == id {
      if a :| 0 <= a < |aliases| && lang.normalize(Strip(lang, aliases[a].value)) == k.normalized { assert rows[a] == k; }
    }
  }

  lemma RelationMembers(version: string, table: string, profileId: string, targets: seq<string>, k: RowKey)
    ensures k in Relations(version, table, profileId, targets) <==>
      k.RelationRow? && k.version == version && k.table == table && k.profileId == profileId && k.target in targets
  {
    var rows := Relations(version, table, profileId, targets);
    if k.RelationRow? && k.version == version && k.table == table && k.profileId == profileId {
      if i :| 0 <= i < |targets| && targets[i] == k.target { assert rows[i] == k; }
    }
  }

  lemma {:induction false} GrantedRoles(access: seq<Grant>, r: string)
    ensures r in GrantRoles(access) <==> exists g :: 0 <= g < |access| && r in access[g].roleIds
    decreases |access|
  {
    if access != [] {
      GrantedRoles(access[1..], r);
      if g :| 0 < g < |access| && r in access[g].roleIds { assert access[1..][g - 1] == access[g]; }
      if g :| 0 <= g < |access[1..]| && r in access[1..][g].roleIds { assert access[g + 1] == access[1..][g]; }
    }
  }

  lemma ProfileRowMembers(version: string, p: Profile, k: RowKey)
    ensures k in ProfileRows(version, p) <==> k.RelationRow? && k.version == version && k.profileId == p.id && Related(p, k.table, k.target)
  {
    hide Relations;
    RelationMembers(version, "profile_department", p.id, p.departmentIds, k);
    RelationMembers(version, "profile_position", p.id, p.positionIds, k);
    RelationMembers(version, "profile_system", p.id, GrantSystems(p.access), k);
    RelationMembers(version, "profile_role", p.id, GrantRoles(p.access), k);
    if k.RelationRow? {
      GrantedRoles(p.access, k.target);
      assert k.target in GrantSystems(p.access) <==> exists g :: 0 <= g < |p.access| && p.access[g].systemId == k.target by {
        if g :| 0 <= g < |p.access| && p.access[g].systemId == k.target { assert GrantSystems(p.access)[g] == k.target; }
      }
    }
  }

  /** The row is in one of the pieces. */
  ghost predicate InPieces(pieces: seq<seq<RowKey>>, k: RowKey) {
    exists i :: 0 <= i < |pieces| && k in pieces[i]
  }

  lemma InPiecesAppend(a: seq<seq<RowKey>>, b: seq<seq<RowKey>>, k: RowKey)
    ensures InPieces(a + b, k) <==> InPieces(a, k) || InPieces(b, k)
  {
    if i :| 0 <= i < |a| && k in a[i] { assert (a + b)[i] == a[i]; }
    if i :| 0 <= i < |b| && k in b[i] { assert (a + b)[|a| + i] == b[i]; }
  }

  lemma RolePieces(doc: Document, k: RowKey)
    ensures InPieces(RoleRows(doc), k) <==> (k.EntityRow? && k.version == doc.version && k.kind == "role" &&
      exists i, j :: 0 <= i < |doc.systems| && 0 <= j < |doc.systems[i].roles| && doc.systems[i].roles[j].id == k.id)
  {
    hide EntityRows;
    var rows := RoleRows(doc);
    forall i | 0 <= i < |doc.systems| ensures k in rows[i] <==> (k.EntityRow? && k.version == doc.version && k.kind == "role" &&
      exists j :: 0 <= j < |doc.systems[i].roles| && doc.systems[i].roles[j].id == k.id)
    {
      var e := RoleEntries(doc.systems[i].roles);
      EntityRowMembers(doc.version, "role", e, k);
      if k.EntityRow? {
        if j :| 0 <= j < |doc.systems[i].roles| && doc.systems[i].roles[j].id == k.id { assert e[j].id == k.id; }
      }
    }
    if k.EntityRow? {
      if i, j :| 0 <= i < |doc.systems| && 0 <= j < |doc.systems[i].roles| && doc.systems[i].roles[j].id == k.id {
        assert k.version == doc.version && k.kind == "role" ==> k in rows[i];
      }
    }
  }

  lemma EntityPieceMembers(doc: Document, k: RowKey)
    ensures InPieces(EntityPieces(doc), k) <==> k.EntityRow? && k.version == doc.version && IsEntityOf(doc, k.kind, k.id)
  {
    hide EntityRows, RoleRows;
    var d, p, s := DepartmentEntries(doc.departments), PositionEntries(doc.positions), SystemEntries(doc.systems);
    var f, n := ProfileEntries(doc.profiles), InstructionEntries(doc.instructions);
    var single := [EntityRows(doc.version, "department", d), EntityRows(doc.version, "position", p), EntityRows(doc.version, "system", s),
                   EntityRows(doc.version, "profile", f), EntityRows(doc.version, "instruction", n)];
    assert EntityPieces(doc) == single + RoleRows(doc);
    InPiecesAppend(single, RoleRows(doc), k);
    RolePieces(doc, k);
    EntityRowMembers(doc.version, "department", d, k);
    EntityRowMembers(doc.version, "position", p, k);
    EntityRowMembers(doc.version, "system", s, k);
    EntityRowMembers(doc.version, "profile", f, k);
    EntityRowMembers(doc.version, "instruction", n, k);
    assert InPieces(single, k) <==> k in single[0] || k in single[1] || k in single[2] || k in single[3] || k in single[4];
    if k.EntityRow? { EntryIds(doc, k.id); }
  }

  lemma EntryIds(doc: Document, id: string)
    ensures (exists i :: 0 <= i < |doc.departments| && doc.departments[i].id == id) <==>
      exists i :: 0 <= i < |DepartmentEntries(doc.departments)| && DepartmentEntries(doc.departments)[i].id == id
    ensures (exists i :: 0 <= i < |doc.positions| && doc.positions[i].id == id) <==>
      exists i :: 0 <= i < |PositionEntries(doc.positions)| && PositionEntries(doc.positions)[i].id == id
    ensures (exists i :: 0 <= i < |doc.systems| && doc.systems[i].id == id) <==>
      exists i :: 0 <= i < |SystemEntries(doc.systems)| && SystemEntries(doc.systems)[i].id == id
    ensures (exists i :: 0 <= i < |doc.profiles| && doc.profiles[i].id == id) <==>
      exists i :: 0 <= i < |ProfileEntries(doc.profiles)| && ProfileEntries(doc.profiles)[i].id == id
    ensures (exists i :: 0 <= i < |doc.instructions| && doc.instructions[i].id == id) <==>
      exists i :: 0 <= i < |InstructionEntries(doc.instructions)| && InstructionEntries(doc.instructions)[i].id == id
  {
    forall i | 0 <= i < |doc.departments| ensures DepartmentEntries(doc.departments)[i].id == doc.departments[i].id {}
    forall i | 0 <= i < |doc.positions| ensures PositionEntries(doc.positions)[i].id == doc.positions[i].id {}
    forall i | 0 <= i < |doc.systems| ensures SystemEntries(doc.systems)[i].id == doc.systems[i].id {}
    forall i | 0 <= i < |doc.profiles| ensures ProfileEntries(doc.profiles)[i].id == doc.profiles[i].id {}
    forall i | 0 <= i < |doc.instructions| ensures InstructionEntries(doc.instructions)[i].id == doc.instructions[i].id {}
  }

  lemma AliasPieceMembers(lang: Language, doc: Document, k: RowKey)
    ensures InPieces(AliasPieces(lang, doc), k) <==>
      k.AliasRow? && k.version == doc.version && IsAliasOf(lang, doc, k.kind, k.id, k.normalized)
  {
    hide AliasRows, Spelled, InPieces;
    var d, p, s := DepartmentAliasRows(lang, doc), PositionAliasRows(lang, doc), SystemAliasRows(lang, doc);
    assert AliasPieces(lang, doc) == (d + p) + s;
    InPiecesAppend(d + p, s, k);
    InPiecesAppend(d, p, k);
    DepartmentAliasMembers(lang, doc, k);
    PositionAliasMembers(lang, doc, k);
    SystemAliasMembers(lang, doc, k);
  }

  lemma DepartmentAliasMembers(lang: Language, doc: Document, k: RowKey)
    ensures InPieces(DepartmentAliasRows(lang, doc), k) <==> (k.AliasRow? && k.version == doc.version && k.kind == "department" &&
      exists i :: 0 <= i < |doc.departments| && doc.departments[i].id == k.id && Spelled(lang, doc.departments[i].aliases, k.normalized))
  {
    hide AliasRows, Spelled;
    var rows := DepartmentAliasRows(lang, doc);
    forall i | 0 <= i < |rows| ensures k in rows[i] <==> (k.AliasRow? && k.version == doc.version && k.kind == "department" &&
      doc.departments[i].id == k.id && Spelled(lang, doc.departments[i].aliases, k.normalized))
    {
      AliasRowMembers(lang, doc.version, "department", doc.departments[i].id, doc.departments[i].aliases, k);
    }
  }

  lemma PositionAliasMembers(lang: Language, doc: Document, k: RowKey)
    ensures InPieces(PositionAliasRows(lang, doc), k) <==> (k.AliasRow? && k.version == doc.version && k.kind == "position" &&
      exists i :: 0 <= i < |doc.positions| && doc.positions[i].id == k.id && Spelled(lang, doc.positions[i].aliases, k.normalized))
  {
    hide AliasRows, Spelled;
    var rows := PositionAliasRows(lang, doc);
    forall i | 0 <= i < |rows| ensures k in rows[i] <==> (k.AliasRow? && k.version == doc.version && k.kind == "position" &&
      doc.positions[i].id == k.id && Spelled(lang, doc.positions[i].aliases, k.normalized))
    {
      AliasRowMembers(lang, doc.version, "position", doc.positions[i].id, doc.positions[i].aliases, k);
    }
  }

  lemma SystemAliasMembers(lang: Language, doc: Document, k: RowKey)
    ensures InPieces(SystemAliasRows(lang, doc), k) <==> (k.AliasRow? && k.version == doc.version && k.kind == "system" &&
      exists i :: 0 <= i < |doc.systems| && doc.systems[i].id == k.id && Spelled(lang, doc.systems[i].aliases, k.normalized))
  {
    hide AliasRows, Spelled;
    var rows := SystemAliasRows(lang, doc);
    forall i | 0 <= i < |rows| ensures k in rows[i] <==> (k.AliasRow? && k.version == doc.version && k.kind == "system" &&
      doc.systems[i].id == k.id && Spelled(lang, doc.systems[i].aliases, k.normalized))
    {
      AliasRowMembers(lang, doc.version, "system", doc.systems[i].id, doc.systems[i].aliases, k);
    }
  }

  lemma ProfilePieceMembers(doc: Document, k: RowKey)
    ensures InPieces(AllProfileRows(doc), k) <==> (k.RelationRow? && k.version == doc.version &&
      exists i :: 0 <= i < |doc.profiles| && doc.profiles[i].id == k.profileId && Related(doc.profiles[i], k.table, k.target))
  {
    hide ProfileRows, Related;
    var rows := AllProfileRows(doc);
    forall i | 0 <= i < |rows| ensures k in rows[i] <==> (k.RelationRow? && k.version == doc.version &&
      doc.profiles[i].id == k.profileId && Related(doc.profiles[i], k.table, k.target))
    {
      ProfileRowMembers(doc.version, doc.profiles[i], k);
    }
  }

  /** The rows of a release are exactly those of its document. */
  lemma RowsAreTheDocument(lang: Language, doc: Document, k: RowKey)
    ensures k in ReleaseRows(lang, doc) <==> RowOf(lang, doc, k)
  {
    hide EntityPieces, AliasPieces, AllProfileRows, IsEntityOf, IsAliasOf, Related, Flatten;
    var e, a, p := EntityPieces(doc), AliasPieces(lang, doc), AllProfileRows(doc);
    FlattenMembers(e + a + p);
    assert k in ReleaseRows(lang, doc) <==> InPieces((e + a) + p, k);
    InPiecesAppend(e + a, p, k);
    InPiecesAppend(e, a, k);
    EntityPieceMembers(doc, k);
    AliasPieceMembers(lang, doc, k);
    ProfilePieceMembers(doc, k);
  }

  // ---------------------------------------------------------------- the tables after a publication

  /**
   * After a successful publication the tables hold what they held before and exactly the rows of the document; the new
   * release is ACTIVE with the document as validated, the release that was active is RETIRED, and no other release changed.
   */
  lemma PublishedTables(lang: Language, db: Db, payload: Document, sha: string)
    requires Lifecycle(db) && Publish(lang, db, payload, sha).1.Some?
    ensures var doc, next := payload.(version := Strip(lang, payload.version)), Publish(lang, db, payload, sha).0;
      && (forall k :: k in next.rows <==> k in db.rows || RowOf(lang, doc, k))
      && next.pointer == Some(doc.version) && next.releases.Keys == db.releases.Keys + {doc.version}
      && doc.version !in db.releases && next.releases[doc.version] == Release(sha, ACTIVE, doc)
      && (forall v :: v in db.releases ==>
            next.releases[v] == if db.pointer == Some(v) then db.releases[v].(status := RETIRED) else db.releases[v])
  {
    hide RowOf, ReleaseRows, ValidDocument, Insertable, Publish;
    var doc := Trimmed(lang, payload);
    PublishOutcome(lang, db, payload, sha);
    var next := AfterPublish(lang, db, doc, sha);
    forall k ensures k in next.rows <==> k in db.rows || RowOf(lang, doc, k) { RowsAreTheDocument(lang, doc, k); }
  }
}
