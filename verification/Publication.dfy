/** Publishing a catalog release: tables, constraints, the transaction, and the read side. */
module Publication {
  import opened Prelude
  import opened Catalog
  import opened CatalogBundle

  // ---------------------------------------------------------------- tables

  datatype ReleaseStatus = STAGING | ACTIVE | RETIRED

  datatype Release = Release(sourceSha: string, status: ReleaseStatus, document: Document)

  /** Primary keys of the entity, alias and relation tables. */
  datatype RowKey =
    | EntityRow(version: string, kind: string, id: string)
    | AliasRow(version: string, kind: string, id: string, normalized: string)
    | RelationRow(version: string, table: string, profileId: string, target: string)

  datatype Db = Db(releases: map<string, Release>, pointer: Option<string>, rows: set<RowKey>)

  const EmptyDb: Db := Db(map[], None, {})

  /** At most one release is ACTIVE: the partial unique index. */
  ghost predicate AtMostOneActive(db: Db) {
    forall v, u :: v in db.releases && u in db.releases && db.releases[v].status == ACTIVE && db.releases[u].status == ACTIVE ==> v == u
  }

  /** What the foreign keys of a row demand: alias rows refer to an entity row, all others to a release. */
  predicate Refers(db: Db, k: RowKey) {
    match k
    case AliasRow(v, kind, id, _) => EntityRow(v, kind, id) in db.rows
    case _ => k.version in db.releases
  }

  // ---------------------------------------------------------------- statements

  datatype Statement =
    | InsertStaging(version: string, sourceSha: string, document: Document)
    | InsertRow(key: RowKey)
    | Retire(version: string)
    | Activate(version: string)
    | MovePointer(version: string)

  /** One SQL statement; None when a constraint refuses it. */
  function Apply(db: Db, s: Statement): Option<Db> {
    match s
    case InsertStaging(v, sha, doc) =>
      if v in db.releases then None else Some(db.(releases := db.releases[v := Release(sha, STAGING, doc)]))
    case InsertRow(k) =>
      if k in db.rows || !Refers(db, k) then None else Some(db.(rows := db.rows + {k}))
    case Retire(v) =>
      if v in db.releases && db.releases[v].status == ACTIVE then
        Some(db.(releases := db.releases[v := db.releases[v].(status := RETIRED)]))
      else Some(db)
    case Activate(v) =>
      if v in db.releases && db.releases[v].status == STAGING then
        if exists u | u in db.releases :: db.releases[u].status == ACTIVE then None
        else Some(db.(releases := db.releases[v := db.releases[v].(status := ACTIVE)]))
      else Some(db)
    case MovePointer(v) =>
      if v in db.releases then Some(db.(pointer := Some(v))) else None
  }

  function RunScript(db: Db, script: seq<Statement>): Option<Db>
    decreases |script|
  {
    if script == [] then Some(db)
    else
      match Apply(db, script[0])
      case None => None
      case Some(next) => RunScript(next, script[1..])
  }

  // ---------------------------------------------------------------- the rows of a release

  function Flatten(pieces: seq<seq<RowKey>>): seq<RowKey> {
    if pieces == [] then [] else pieces[0] + Flatten(pieces[1..])
  }

  function EntityRows(version: string, kind: string, entries: seq<Entry>): seq<RowKey> {
    seq(|entries|, i requires 0 <= i < |entries| => EntityRow(version, kind, entries[i].id))
  }

  function RoleRows(doc: Document): seq<seq<RowKey>> {
    seq(|doc.systems|, i requires 0 <= i < |doc.systems| =>
      EntityRows(doc.version, "role", RoleEntries(doc.systems[i].roles)))
  }

  function AliasRows(lang: Language, version: string, kind: string, id: string, aliases: seq<Alias>): seq<RowKey> {
    seq(|aliases|, i requires 0 <= i < |aliases| =>
      AliasRow(version, kind, id, lang.normalize(Strip(lang, aliases[i].value))))
  }

  function DepartmentAliasRows(lang: Language, doc: Document): seq<seq<RowKey>> {
    seq(|doc.departments|, i requires 0 <= i < |doc.departments| =>
      AliasRows(lang, doc.version, "department", doc.departments[i].id, doc.departments[i].aliases))
  }

  function PositionAliasRows(lang: Language, doc: Document): seq<seq<RowKey>> {
    seq(|doc.positions|, i requires 0 <= i < |doc.positions| =>
      AliasRows(lang, doc.version, "position", doc.positions[i].id, doc.positions[i].aliases))
  }

  function SystemAliasRows(lang: Language, doc: Document): seq<seq<RowKey>> {
    seq(|doc.systems|, i requires 0 <= i < |doc.systems| =>
      AliasRows(lang, doc.version, "system", doc.systems[i].id, doc.systems[i].aliases))
  }

  function Relations(version: string, table: string, profileId: string, targets: seq<string>): seq<RowKey> {
    seq(|targets|, i requires 0 <= i < |targets| => RelationRow(version, table, profileId, targets[i]))
  }

  function GrantSystems(access: seq<Grant>): seq<string> {
    seq(|access|, i requires 0 <= i < |access| => access[i].systemId)
  }

  function GrantRoles(access: seq<Grant>): seq<string> {
    if access == [] then [] else access[0].roleIds + GrantRoles(access[1..])
  }

  function ProfileRows(version: string, p: Profile): seq<RowKey> {
    Relations(version, "profile_department", p.id, p.departmentIds)
    + Relations(version, "profile_position", p.id, p.positionIds)
    + Relations(version, "profile_system", p.id, GrantSystems(p.access))
    + Relations(version, "profile_role", p.id, GrantRoles(p.access))
  }

  function AllProfileRows(doc: Document): seq<seq<RowKey>> {
    seq(|doc.profiles|, i requires 0 <= i < |doc.profiles| => ProfileRows(doc.version, doc.profiles[i]))
  }

  function EntityPieces(doc: Document): seq<seq<RowKey>> {
    [EntityRows(doc.version, "department", DepartmentEntries(doc.departments)),
     EntityRows(doc.version, "position", PositionEntries(doc.positions)),
     EntityRows(doc.version, "system", SystemEntries(doc.systems)),
     EntityRows(doc.version, "profile", ProfileEntries(doc.profiles)),
     EntityRows(doc.version, "instruction", InstructionEntries(doc.instructions))]
    + RoleRows(doc)
  }

  function AliasPieces(lang: Language, doc: Document): seq<seq<RowKey>> {
    DepartmentAliasRows(lang, doc) + PositionAliasRows(lang, doc) + SystemAliasRows(lang, doc)
  }

  /** Every row the publisher inserts for a release. */
  function ReleaseRows(lang: Language, doc: Document): seq<RowKey> {
    Flatten(EntityPieces(doc) + AliasPieces(lang, doc) + AllProfileRows(doc))
  }

  // ---------------------------------------------------------------- when do the rows fit?

  ghost predicate Disjoint(a: seq<RowKey>, b: seq<RowKey>) {
    forall k :: k in a ==> k !in b
  }

  ghost predicate PiecesFit(pieces: seq<seq<RowKey>>) {
    && (forall i :: 0 <= i < |pieces| ==> Distinct(pieces[i]))
    && (forall i, j :: 0 <= i < j < |pieces| ==> Disjoint(pieces[i], pieces[j]))
  }

  lemma {:induction false} FlattenMembers(pieces: seq<seq<RowKey>>)
    ensures forall k :: k in Flatten(pieces) <==> exists i :: 0 <= i < |pieces| && k in pieces[i]
    decreases |pieces|
  {
    if pieces != [] {
      FlattenMembers(pieces[1..]);
      forall k ensures k in Flatten(pieces) <==> exists i :: 0 <= i < |pieces| && k in pieces[i] {
        if i :| 0 < i < |pieces| && k in pieces[i] { assert k in pieces[1..][i - 1]; }
        if k in Flatten(pieces[1..]) {
          var i :| 0 <= i < |pieces[1..]| && k in pieces[1..][i];
          assert k in pieces[i + 1];
        }
      }
    }
  }

  lemma DistinctSplit(a: seq<RowKey>, b: seq<RowKey>)
    ensures Distinct(a + b) <==> Distinct(a) && Distinct(b) && Disjoint(a, b)
  {
    var c := a + b;
    if Distinct(a) && Distinct(b) && Disjoint(a, b) { DistinctConcat(a, b); }
    if Distinct(c) {
      forall i, j | 0 <= i < j < |a| ensures a[i] != a[j] { assert c[i] != c[j]; }
      forall i, j | 0 <= i < j < |b| ensures b[i] != b[j] { assert c[|a| + i] != c[|a| + j]; }
      forall k | k in a ensures k !in b {
        var i :| 0 <= i < |a| && a[i] == k;
        forall j | 0 <= j < |b| ensures b[j] != k { assert c[i] != c[|a| + j]; }
      }
    }
  }

  lemma {:induction false} FlattenDistinct(pieces: seq<seq<RowKey>>)
    ensures Distinct(Flatten(pieces)) <==> PiecesFit(pieces)
    decreases |pieces|
  {
    if pieces != [] {
      var rest := pieces[1..];
      FlattenDistinct(rest);
      FlattenMembers(rest);
      DistinctSplit(pieces[0], Flatten(rest));
      if PiecesFit(pieces) {
        forall i | 0 <= i < |rest| ensures Disjoint(pieces[0], rest[i]) { assert rest[i] == pieces[i + 1]; }
        assert PiecesFit(rest);
      }
      if Distinct(Flatten(pieces)) {
        forall i, j | 0 <= i < j < |pieces| ensures Disjoint(pieces[i], pieces[j]) {
          assert pieces[j] == rest[j - 1];
          if i > 0 { assert pieces[i] == rest[i - 1]; }
        }
        forall i | 0 <= i < |pieces| ensures Distinct(pieces[i]) {
          if i > 0 { assert pieces[i] == rest[i - 1]; }
        }
      }
    }
  }

  // ---------------------------------------------------------------- the transaction

  function RowStatements(rows: seq<RowKey>): seq<Statement> {
    seq(|rows|, i requires 0 <= i < |rows| => InsertRow(rows[i]))
  }

  /** The statements of one publication, in the order they are sent; `previous` is the active version read first. */
  function PublishScript(lang: Language, previous: Option<string>, doc: Document, sha: string): seq<Statement> {
    [InsertStaging(doc.version, sha, doc)]
    + RowStatements(ReleaseRows(lang, doc))
    + (if previous.Some? then [Retire(previous.value)] else [])
    + [Activate(doc.version), MovePointer(doc.version)]
  }

  function Trimmed(lang: Language, doc: Document): Document {
    doc.(version := Strip(lang, doc.version))
  }

  datatype Published = Published(version: string, previous: Option<string>)

  /** A publication either runs its whole script or leaves the database as it was. */
  ghost function Publish(lang: Language, db: Db, payload: Document, sha: string): (Db, Option<Published>) {
    if !ValidDocument(lang, payload) then (db, None)
    else
      var doc := Trimmed(lang, payload);
      match RunScript(db, PublishScript(lang, db.pointer, doc, sha))
      case None => (db, None)
      case Some(next) => (next, Some(Published(doc.version, db.pointer)))
  }

  class CatalogDatabase {
    var releases: map<string, Release>
    var pointer: Option<string>
    var rows: set<RowKey>

    constructor ()
      ensures View() == EmptyDb
    {
      releases, pointer, rows := map[], None, {};
    }

    function View(): Db
      reads this
    {
      Db(releases, pointer, rows)
    }

    method Execute(s: Statement) returns (ok: bool)
      modifies this
      ensures ok == Apply(old(View()), s).Some?
      ensures View() == if ok then Apply(old(View()), s).value else old(View())
    {
      var next := Apply(View(), s);
      if next.None? { return false; }
      releases, pointer, rows := next.value.releases, next.value.pointer, next.value.rows;
      return true;
    }

    method Rollback(snapshot: Db)
      modifies this
      ensures View() == snapshot
    {
      releases, pointer, rows := snapshot.releases, snapshot.pointer, snapshot.rows;
    }

    /** `PostgresCatalogSource.load`; None stands for KeyError. */
    method Load(lang: Language, version: string) returns (bundle: Option<Bundle>)
      ensures bundle == LoadFrom(lang, View(), version)
    {
      if version !in releases || releases[version].status == STAGING { return None; }
      var b := FromMapping(lang, releases[version].document);
      return Some(b);
    }
  }

  method PublishCatalog(lang: Language, db: CatalogDatabase, payload: Document, sha: string)
    returns (result: Option<Published>)
    modifies db
    ensures (db.View(), result) == Publish(lang, old(db.View()), payload, sha)
  {
    var accepted := ValidateCatalog(lang, payload);
    if accepted.None? { return None; }
    var doc := accepted.value;
    var snapshot := db.View();
    var previous := db.pointer;
    var script := PublishScript(lang, previous, doc, sha);
    for i := 0 to |script|
      invariant RunScript(snapshot, script) == RunScript(db.View(), script[i..])
    {
      var ok := db.Execute(script[i]);
      assert script[i..][0] == script[i] && script[i..][1..] == script[i + 1..];
      if !ok {
        db.Rollback(snapshot);
        return None;
      }
    }
    return Some(Published(doc.version, previous));
  }

  function LoadFrom(lang: Language, db: Db, version: string): Option<Bundle> {
    if version in db.releases && db.releases[version].status != STAGING
    then Some(BundleOf(lang, db.releases[version].document)) else None
  }

  // ---------------------------------------------------------------- what the script does

  lemma {:induction false} RunScriptAppend(db: Db, a: seq<Statement>, b: seq<Statement>)
    ensures RunScript(db, a + b) ==
      match RunScript(db, a) { case None => None case Some(next) => RunScript(next, b) }
    decreases |a|
  {
    if a == [] {
      assert a + b == b;
    } else {
      assert (a + b)[1..] == a[1..] + b;
      if Apply(db, a[0]).Some? { RunScriptAppend(Apply(db, a[0]).value, a[1..], b); }
    }
  }

  /** The unique index and the foreign keys hold. */
  ghost predicate Constraints(db: Db) {
    && AtMostOneActive(db)
    && (forall k :: k in db.rows ==> Refers(db, k))
    && (db.pointer.Some? ==> db.pointer.value in db.releases)
  }

  /** The constraints hold after every single statement, whatever the statement. */
  lemma {:induction false} ConstraintsThroughout(db: Db, script: seq<Statement>, n: nat)
    requires Constraints(db) && n <= |script| && RunScript(db, script[..n]).Some?
    ensures Constraints(RunScript(db, script[..n]).value)
    decreases n
  {
    if n > 0 {
      assert script[..n][1..] == script[1..][..n - 1];
      ConstraintsThroughout(Apply(db, script[0]).value, script[1..], n - 1);
    }
  }

  /** A statement is refused exactly when a key is taken already or what it would leave behind breaks a constraint. */
  lemma RefusedByConstraints(db: Db, s: Statement)
    requires Constraints(db)
    ensures Apply(db, s).None? <==>
      match s
      case InsertStaging(v, _, _) => v in db.releases
      case InsertRow(k) => k in db.rows || !Constraints(db.(rows := db.rows + {k}))
      case Retire(_) => false
      case Activate(v) =>
        && v in db.releases && db.releases[v].status == STAGING
        && !Constraints(db.(releases := db.releases[v := db.releases[v].(status := ACTIVE)]))
      case MovePointer(v) => !Constraints(db.(pointer := Some(v)))
  {
    if s.Activate? && s.version in db.releases && db.releases[s.version].status == STAGING {
      var next := db.(releases := db.releases[s.version := db.releases[s.version].(status := ACTIVE)]);
      if u :| u in db.releases && db.releases[u].status == ACTIVE {
        assert next.releases[u].status == ACTIVE && next.releases[s.version].status == ACTIVE && u != s.version;
      }
    }
  }

  function RowSet(rows: seq<RowKey>): set<RowKey> {
    set k | k in rows
  }

  predicate EntityBefore(known: set<RowKey>, before: seq<RowKey>, k: RowKey) {
    k.AliasRow? ==> EntityRow(k.version, k.kind, k.id) in known || EntityRow(k.version, k.kind, k.id) in before
  }

  /** Each alias row comes after the row of its entity, if that is not there already. */
  ghost predicate EntitiesFirst(known: set<RowKey>, rows: seq<RowKey>) {
    forall i :: 0 <= i < |rows| ==> EntityBefore(known, rows[..i], rows[i])
  }

  lemma EntitiesFirstStep(known: set<RowKey>, first: RowKey, rest: seq<RowKey>)
    ensures EntitiesFirst(known, [first] + rest) <==> EntityBefore(known, [], first) && EntitiesFirst(known + {first}, rest)
  {
    var rows := [first] + rest;
    assert rows[..0] == [] && rows[0] == first;
    forall i | 0 <= i < |rest|
      ensures EntityBefore(known, rows[..i + 1], rows[i + 1]) <==> EntityBefore(known + {first}, rest[..i], rest[i])
    {
      assert rows[..i + 1] == [first] + rest[..i] && rows[i + 1] == rest[i];
    }
    if EntitiesFirst(known, rows) {
      forall i | 0 <= i < |rest| ensures EntityBefore(known + {first}, rest[..i], rest[i]) {
        assert EntityBefore(known, rows[..i + 1], rows[i + 1]);
      }
    }
    if EntityBefore(known, [], first) && EntitiesFirst(known + {first}, rest) {
      forall i | 0 <= i < |rows| ensures EntityBefore(known, rows[..i], rows[i]) {
        if i > 0 { assert EntityBefore(known, rows[..i - 1 + 1], rows[i - 1 + 1]); }
      }
    }
  }

  /** Inserting rows of a known release succeeds exactly when they are new and distinct and no alias row precedes its entity. */
  lemma {:induction false} InsertRows(db: Db, rows: seq<RowKey>)
    requires forall k :: k in rows ==> k.version in db.releases
    ensures RunScript(db, RowStatements(rows)) ==
      if Distinct(rows) && RowSet(rows) !! db.rows && EntitiesFirst(db.rows, rows) then Some(db.(rows := db.rows + RowSet(rows))) else None
    decreases |rows|
  {
    hide EntityBefore, EntitiesFirst;
    var script := RowStatements(rows);
    if rows == [] {
      assert EntitiesFirst(db.rows, rows) by { NoRowsFirst(db.rows); }
      assert db.(rows := db.rows + RowSet(rows)) == db;
    } else {
      var first, rest := rows[0], rows[1..];
      assert rows == [first] + rest;
      assert script[0] == InsertRow(first) && script[1..] == RowStatements(rest);
      assert RowSet(rows) == {first} + RowSet(rest);
      DistinctSplit([first], rest);
      EntitiesFirstStep(db.rows, first, rest);
      FirstRefers(db, first);
      if first !in db.rows && Refers(db, first) {
        var next := db.(rows := db.rows + {first});
        InsertRows(next, rest);
        assert next.rows + RowSet(rest) == db.rows + RowSet(rows);
      } else {
        assert first in RowSet(rows);
      }
    }
  }

  lemma NoRowsFirst(known: set<RowKey>)
    ensures EntitiesFirst(known, [])
  {
  }

  lemma FirstRefers(db: Db, k: RowKey)
    requires k.version in db.releases
    ensures Refers(db, k) <==> EntityBefore(db.rows, [], k)
  {
  }

  lemma {:induction false} FlattenVersions(pieces: seq<seq<RowKey>>, v: string)
    requires forall i, k :: 0 <= i < |pieces| && k in pieces[i] ==> k.version == v
    ensures forall k :: k in Flatten(pieces) ==> k.version == v
    decreases |pieces|
  {
    FlattenMembers(pieces);
  }

  lemma ReleaseRowsVersion(lang: Language, doc: Document)
    ensures forall k :: k in ReleaseRows(lang, doc) ==> k.version == doc.version
  {
    var pieces := EntityPieces(doc) + AliasPieces(lang, doc) + AllProfileRows(doc);
    forall i: int, k: RowKey | 0 <= i < |pieces| && k in pieces[i] ensures k.version == doc.version {
      var e := EntityPieces(doc);
      var a := AliasPieces(lang, doc);
      if i < |e| {
        assert pieces[i] == e[i];
      } else if i < |e| + |a| {
        assert pieces[i] == a[i - |e|];
      } else {
        assert pieces[i] == AllProfileRows(doc)[i - |e| - |a|];
      }
    }
    FlattenVersions(pieces, doc.version);
  }

  // ---------------------------------------------------------------- committed databases

  /** Between transactions the active version is that of the one ACTIVE release and every other release is RETIRED. */
  ghost predicate Lifecycle(db: Db) {
    && (db.pointer.None? ==> db.releases == map[])
    && (db.pointer.Some? ==> db.pointer.value in db.releases)
    && (forall v :: v in db.releases ==> db.releases[v].status == if db.pointer == Some(v) then ACTIVE else RETIRED)
    && (forall k :: k in db.rows ==> k.version in db.releases)
  }

  /** Every stored document passed the validator and is filed under its own version. */
  ghost predicate OnlyValid(lang: Language, db: Db) {
    forall v :: v in db.releases ==>
      db.releases[v].document.version == v && ValidDocument(lang, db.releases[v].document)
  }

  ghost predicate DbInv(lang: Language, db: Db) {
    Lifecycle(db) && OnlyValid(lang, db)
  }

  /** The database after a successful publication. */
  function AfterPublish(lang: Language, db: Db, doc: Document, sha: string): Db {
    Db((map v | v in db.releases :: db.releases[v].(status := RETIRED))[doc.version := Release(sha, ACTIVE, doc)],
       Some(doc.version),
       db.rows + RowSet(ReleaseRows(lang, doc)))
  }

  /** The database once the previous release is retired; the new one is still STAGING. */
  function Demoted(db: Db, previous: Option<string>): Db
    requires previous.Some? ==> previous.value in db.releases
  {
    if previous.None? then db
    else db.(releases := db.releases[previous.value := db.releases[previous.value].(status := RETIRED)])
  }

  lemma ActivateAndPoint(db: Db, v: string)
    requires v in db.releases && db.releases[v].status == STAGING
    requires forall u :: u in db.releases ==> db.releases[u].status != ACTIVE
    ensures RunScript(db, [Activate(v), MovePointer(v)]) ==
      Some(Db(db.releases[v := db.releases[v].(status := ACTIVE)], Some(v), db.rows))
  {
    var active := db.(releases := db.releases[v := db.releases[v].(status := ACTIVE)]);
    var script := [Activate(v), MovePointer(v)];
    assert Apply(db, script[0]) == Some(active) && script[1..] == [MovePointer(v)];
    var last := [MovePointer(v)];
    assert Apply(active, last[0]) == Some(active.(pointer := Some(v)));
    assert RunScript(active.(pointer := Some(v)), last[1..]) == Some(active.(pointer := Some(v)));
    assert RunScript(active, last) == Some(active.(pointer := Some(v)));
  }

  lemma SwitchActive(db: Db, v: string)
    requires v in db.releases && db.releases[v].status == STAGING
    requires db.pointer.Some? ==> db.pointer.value in db.releases && db.pointer.value != v
    requires forall u :: u in db.releases && u != v ==> db.releases[u].status == if db.pointer == Some(u) then ACTIVE else RETIRED
    ensures RunScript(db, (if db.pointer.Some? then [Retire(db.pointer.value)] else []) + [Activate(v), MovePointer(v)]) ==
      Some(Db(Demoted(db, db.pointer).releases[v := db.releases[v].(status := ACTIVE)], Some(v), db.rows))
  {
    var tail := [Activate(v), MovePointer(v)];
    var demoted := Demoted(db, db.pointer);
    ActivateAndPoint(demoted, v);
    if db.pointer.Some? {
      var script := [Retire(db.pointer.value)] + tail;
      assert Apply(db, script[0]) == Some(demoted) && script[1..] == tail;
    } else {
      assert [] + tail == tail;
    }
  }

  /** The database when all statements before the switch have run. */
  function Filled(lang: Language, db: Db, doc: Document, sha: string): Db {
    Db(db.releases[doc.version := Release(sha, STAGING, doc)], db.pointer, db.rows + RowSet(ReleaseRows(lang, doc)))
  }

  lemma FillOutcome(lang: Language, db: Db, doc: Document, sha: string)
    requires Lifecycle(db)
    ensures RunScript(db, [InsertStaging(doc.version, sha, doc)] + RowStatements(ReleaseRows(lang, doc))) ==
      if doc.version !in db.releases && Distinct(ReleaseRows(lang, doc)) && EntitiesFirst(db.rows, ReleaseRows(lang, doc))
      then Some(Filled(lang, db, doc, sha)) else None
  {
    var v := doc.version;
    var rows := ReleaseRows(lang, doc);
    var script := [InsertStaging(v, sha, doc)] + RowStatements(rows);
    assert script[0] == InsertStaging(v, sha, doc) && script[1..] == RowStatements(rows);
    if v !in db.releases {
      var staged := db.(releases := db.releases[v := Release(sha, STAGING, doc)]);
      ReleaseRowsVersion(lang, doc);
      InsertRows(staged, rows);
      assert RowSet(rows) !! db.rows;
    }
  }

  lemma SwitchOutcome(lang: Language, db: Db, doc: Document, sha: string)
    requires Lifecycle(db) && doc.version !in db.releases
    ensures RunScript(Filled(lang, db, doc, sha),
                      (if db.pointer.Some? then [Retire(db.pointer.value)] else []) + [Activate(doc.version), MovePointer(doc.version)])
      == Some(AfterPublish(lang, db, doc, sha))
  {
    var filled := Filled(lang, db, doc, sha);
    SwitchActive(filled, doc.version);
    DemotedIsAfter(lang, db, doc, sha);
  }

  lemma DemotedIsAfter(lang: Language, db: Db, doc: Document, sha: string)
    requires Lifecycle(db) && doc.version !in db.releases
    ensures Demoted(Filled(lang, db, doc, sha), db.pointer).releases[doc.version := Release(sha, ACTIVE, doc)] ==
      AfterPublish(lang, db, doc, sha).releases
  {
    var a := Demoted(Filled(lang, db, doc, sha), db.pointer).releases[doc.version := Release(sha, ACTIVE, doc)];
    var b := AfterPublish(lang, db, doc, sha).releases;
    assert a.Keys == b.Keys;
    forall u | u in a ensures a[u] == b[u] {
      if u != doc.version { assert u in db.releases; }
    }
  }

  /**
   * On a committed database the script succeeds exactly when the version is new, the rows are distinct
   * and each alias row comes after its entity.
   */
  lemma ScriptOutcome(lang: Language, db: Db, doc: Document, sha: string)
    requires Lifecycle(db)
    ensures RunScript(db, PublishScript(lang, db.pointer, doc, sha)) ==
      if doc.version !in db.releases && Distinct(ReleaseRows(lang, doc)) && EntitiesFirst(db.rows, ReleaseRows(lang, doc))
      then Some(AfterPublish(lang, db, doc, sha)) else None
  {
    var fill := [InsertStaging(doc.version, sha, doc)] + RowStatements(ReleaseRows(lang, doc));
    var finish := (if db.pointer.Some? then [Retire(db.pointer.value)] else []) + [Activate(doc.version), MovePointer(doc.version)];
    assert PublishScript(lang, db.pointer, doc, sha) == fill + finish;
    RunScriptAppend(db, fill, finish);
    FillOutcome(lang, db, doc, sha);
    if doc.version !in db.releases { SwitchOutcome(lang, db, doc, sha); }
  }
}
