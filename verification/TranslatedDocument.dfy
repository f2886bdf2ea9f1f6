/** What a translated snapshot holds, told from the rows of the source tables. */
module TranslatedDocument {
  import opened Prelude
  import OD = OrderedDict
  import opened Catalog
  import opened PlainText
  import opened V1Snapshot
  import opened V1SnapshotProofs

  // ---------------------------------------------------------------- aliases of a dictionary

  ghost predicate UnderSomeKey(d: OD.Dict<Alias>, x: Alias) {
    exists key :: OD.Get(d, key) == Some(x)
  }

  lemma ValuesFound(d: OD.Dict<Alias>, x: Alias)
    requires OD.WellFormed(d)
    ensures x in OD.Values(d) <==> UnderSomeKey(d, x)
  {
    var values := OD.Values(d);
    if x in values {
      var i :| 0 <= i < |values| && values[i] == x;
      OD.GetAt(d, i);
      assert OD.Get(d, d[i].0) == Some(x);
    }
    if key :| OD.Get(d, key) == Some(x) {
      var i :| 0 <= i < |d| && d[i] == (key, x);
      assert values[i] == x;
    }
  }

  /** Each normalized spelling occurs once. */
  ghost predicate SpelledOnce(lang: Language, aliases: seq<Alias>) {
    forall m, n :: 0 <= m < n < |aliases| ==> lang.normalize(aliases[m].value) != lang.normalize(aliases[n].value)
  }

  lemma GoodAliasesSpelledOnce(lang: Language, d: OD.Dict<Alias>)
    requires GoodAliases(lang, d)
    ensures SpelledOnce(lang, OD.Values(d))
  {
    forall i | 0 <= i < |d| ensures lang.normalize(OD.Values(d)[i].value) == d[i].0 { assert d[i] in d; }
  }

  lemma KeysNotBlank(lang: Language, d: OD.Dict<Alias>, key: string)
    requires GoodAliases(lang, d) && OD.Get(d, key).Some?
    ensures key != ""
  {
    assert (key, OD.Get(d, key).value) in d;
  }

  /** The alias that a row stands for. */
  predicate AliasOfRow(x: Alias, text: string, cls: AliasClass) {
    x.value == text && x.safety == if cls == SafeClass then Safe else Ambiguous
  }

  // ---------------------------------------------------------------- systems

  /** Some spelling of the system is decided by a row with this alias. */
  ghost predicate WonBy(lang: Language, rows: seq<SystemAliasRow>, systemId: int, x: Alias) {
    exists key, j :: key != "" && Winner(lang, rows, systemId, key, j) && AliasOfRow(x, rows[j].text, rows[j].cls)
  }

  lemma OneWinner(lang: Language, rows: seq<SystemAliasRow>, systemId: int, key: string, i: int, j: int)
    requires Winner(lang, rows, systemId, key, i) && Winner(lang, rows, systemId, key, j)
    ensures i == j
  {
  }

  lemma SystemAliasWon(lang: Language, rows: seq<SystemAliasRow>, systemId: int, x: Alias)
    ensures UnderSomeKey(Lookup(SystemAliases(lang, rows), systemId, []), x) <==> WonBy(lang, rows, systemId, x)
  {
    var d := Lookup(SystemAliases(lang, rows), systemId, []);
    SystemAliasesGood(lang, rows);
    assert GoodAliases(lang, d);
    if key :| OD.Get(d, key) == Some(x) {
      KeysNotBlank(lang, d, key);
      SystemAliasOutcome(lang, rows, systemId, key);
      var i :| Winner(lang, rows, systemId, key, i) && x == Candidate(rows[i].text, rows[i].cls);
      WinnerHits(lang, rows, systemId, key, i);
    }
    if WonBy(lang, rows, systemId, x) {
      var key, j :| key != "" && Winner(lang, rows, systemId, key, j) && AliasOfRow(x, rows[j].text, rows[j].cls);
      WinnerHits(lang, rows, systemId, key, j);
      SystemAliasOutcome(lang, rows, systemId, key);
      var i :| Winner(lang, rows, systemId, key, i) && Kept(lang, rows, systemId, key).value == Candidate(rows[i].text, rows[i].cls);
      OneWinner(lang, rows, systemId, key, i, j);
      assert OD.Get(d, key) == Some(x);
    }
  }

  lemma WinnerHits(lang: Language, rows: seq<SystemAliasRow>, systemId: int, key: string, i: int)
    requires Winner(lang, rows, systemId, key, i)
    ensures 0 <= i < |rows| && Hit(lang, rows[i], systemId, key)
  {
  }

  /**
   * Each system row becomes one system under its own name, and its aliases are exactly those of the
   * rows that win a spelling for it, each spelling once.
   */
  lemma SystemsTranslated(a: Adapter, s: Snapshot, i: nat)
    requires Translate(a, s).Some? && i < |s.systems|
    ensures var doc := Translate(a, s).value;
      && |doc.systems| == |s.systems| && doc.systems[i].id == SystemId(a, s.systems[i]) && doc.systems[i].name == s.systems[i].name
      && (forall x :: x in doc.systems[i].aliases <==> WonBy(a.lang, s.systemAliases, s.systems[i].id, x))
      && SpelledOnce(a.lang, doc.systems[i].aliases)
  {
    hide AllAccess, GoodAliases, WonBy, SpelledOnce;
    var d := Lookup(SystemAliases(a.lang, s.systemAliases), s.systems[i].id, []);
    SystemAliasesGood(a.lang, s.systemAliases);
    NoAliasesGood(a.lang);
    GoodAliasesSpelledOnce(a.lang, d);
    GoodIsWellFormed(a.lang, d);
    forall x ensures x in OD.Values(d) <==> WonBy(a.lang, s.systemAliases, s.systems[i].id, x) {
      ValuesFound(d, x);
      SystemAliasWon(a.lang, s.systemAliases, s.systems[i].id, x);
    }
  }

  lemma NoAliasesGood(lang: Language)
    ensures GoodAliases(lang, [])
  {
  }

  lemma GoodIsWellFormed(lang: Language, d: OD.Dict<Alias>)
    requires GoodAliases(lang, d)
    ensures OD.WellFormed(d)
  {
  }

  // ---------------------------------------------------------------- departments

  /** The last usable row of some spelling of the department has this alias. */
  ghost predicate LastFor(lang: Language, rows: seq<DepartmentAliasRow>, department: string, x: Alias) {
    exists key, j :: key != "" && LastHit(lang, rows, department, key, j) && AliasOfRow(x, rows[j].text, rows[j].cls)
  }

  lemma DepartmentAliasLast(lang: Language, rows: seq<DepartmentAliasRow>, department: string, x: Alias)
    ensures UnderSomeKey(Lookup(DepartmentAliases(lang, rows), department, []), x) <==> LastFor(lang, rows, department, x)
  {
    var d := Lookup(DepartmentAliases(lang, rows), department, []);
    DepartmentAliasesGood(lang, rows);
    assert GoodAliases(lang, d);
    if key :| OD.Get(d, key) == Some(x) {
      KeysNotBlank(lang, d, key);
      DepartmentAliasOutcome(lang, rows, department, key);
      var i :| LastHit(lang, rows, department, key, i) && x == Candidate(rows[i].text, rows[i].cls);
    }
    if LastFor(lang, rows, department, x) {
      var key, j :| key != "" && LastHit(lang, rows, department, key, j) && AliasOfRow(x, rows[j].text, rows[j].cls);
      DepartmentAliasOutcome(lang, rows, department, key);
      var i :| LastHit(lang, rows, department, key, i) && KeptForDepartment(lang, rows, department, key).value == Candidate(rows[i].text, rows[i].cls);
      assert i == j && OD.Get(d, key) == Some(x);
    }
  }

  /** The first city found along the segments of the profile, or none. */
  ghost predicate CityOf(a: Adapter, rows: seq<SegmentRow>, profileId: int, city: string) {
    || (exists i :: FirstCity(a, rows, profileId, i) && city == a.city(rows[i].name))
    || (city == "" && forall i :: 0 <= i < |rows| && rows[i].profileId == profileId ==> a.city(rows[i].name) == "")
  }

  lemma CityFound(a: Adapter, rows: seq<SegmentRow>, profileId: int)
    ensures CityOf(a, rows, profileId, Lookup(Cities(a, rows), profileId, ""))
  {
    CityOutcome(a, rows, profileId);
  }

  /** Row i is the first of its identifier, and d is what it says. */
  ghost predicate DepartmentOfRow(a: Adapter, s: Snapshot, ids: seq<string>, i: int, d: Department) {
    && 0 <= i < |s.departments| && |ids| == |s.departments| && ids[i] !in ids[..i]
    && d.id == ids[i] && d.name == s.departments[i].name
    && CityOf(a, s.segments, s.departments[i].profileId, d.city)
    && (forall x :: x in d.aliases <==> LastFor(a.lang, s.departmentAliases, s.departments[i].name, x))
    && SpelledOnce(a.lang, d.aliases)
  }

  /** Row i entered the dictionary with this value. */
  ghost predicate Entered<R, V(!new)>(rows: seq<R>, ids: seq<string>, made: (string, R) -> V, i: int, e: (string, V)) {
    0 <= i < |rows| && |ids| == |rows| && ids[i] !in ids[..i] && e == (ids[i], made(ids[i], rows[i]))
  }

  /** A dictionary filled by `setdefault` row by row holds for every identifier what its first row says. */
  ghost predicate FilledBy<R, V(!new)>(d: OD.Dict<V>, rows: seq<R>, ids: seq<string>, made: (string, R) -> V) {
    && (forall e :: e in d ==> exists i :: Entered(rows, ids, made, i, e))
    && (forall k :: k in OD.Keys(d) <==> k in ids)
  }

  lemma FilledNext<R, V(!new)>(d: OD.Dict<V>, rows: seq<R>, ids: seq<string>, made: (string, R) -> V, row: R, id: string)
    requires FilledBy(d, rows, ids, made) && |ids| == |rows|
    ensures FilledBy(OD.SetDefault(d, id, made(id, row)), rows + [row], ids + [id], made)
  {
    var more, all, keys := OD.SetDefault(d, id, made(id, row)), rows + [row], ids + [id];
    AppendKeys(d, id, made(id, row));
    forall i, e | Entered(rows, ids, made, i, e) ensures Entered(all, keys, made, i, e) {
      assert keys[..i] == ids[..i] && keys[i] == ids[i] && all[i] == rows[i];
    }
    forall e | e in more ensures exists i :: Entered(all, keys, made, i, e) {
      if e in d {
        var i :| Entered(rows, ids, made, i, e);
        assert Entered(all, keys, made, i, e);
      } else {
        assert keys[..|ids|] == ids;
        assert Entered(all, keys, made, |ids|, e);
      }
    }
  }

  lemma FilledByNothing<R, V(!new)>(made: (string, R) -> V)
    ensures FilledBy<R, V>([], [], [], made)
  {
  }

  function MakeDepartment(cities: map<int, string>, aliases: map<string, OD.Dict<Alias>>): (string, DepartmentRow) -> Department {
    (id: string, r: DepartmentRow) =>
      Department(id, r.name, Lookup(cities, r.profileId, ""), OD.Values(Lookup(aliases, r.name, [])))
  }

  lemma {:induction false} DepartmentsFilled(a: Adapter, cities: map<int, string>, aliases: map<string, OD.Dict<Alias>>, rows: seq<DepartmentRow>)
    ensures FilledBy(AllDepartments(a, cities, aliases, rows).byId, rows, DepartmentRowIds(a, cities, aliases, rows), MakeDepartment(cities, aliases))
    decreases |rows|
  {
    hide FilledBy, DepartmentKey, DepartmentId;
    if rows == [] {
      FilledByNothing(MakeDepartment(cities, aliases));
    } else {
      var init, row := rows[..|rows| - 1], rows[|rows| - 1];
      DepartmentsFilled(a, cities, aliases, init);
      var s, ids := AllDepartments(a, cities, aliases, init), DepartmentRowIds(a, cities, aliases, init);
      var city := Lookup(cities, row.profileId, "");
      var id := Lookup(s.idByKey, DepartmentKey(a, row, city), DepartmentId(a, row, city));
      assert rows == init + [row];
      FilledNext(s.byId, init, ids, MakeDepartment(cities, aliases), row, id);
    }
  }

  function DepartmentIdsOf(a: Adapter, s: Snapshot): (r: seq<string>)
    ensures |r| == |s.departments|
  {
    DepartmentRowIds(a, Cities(a, s.segments), DepartmentAliases(a.lang, s.departmentAliases), s.departments)
  }

  /**
   * A department is listed for every identifier of a department row, with the name of the first such
   * row, the city of that row's profile and the aliases that hold for that name.
   */
  lemma DepartmentsTranslated(a: Adapter, s: Snapshot)
    requires Translate(a, s).Some?
    ensures var doc, ids := Translate(a, s).value, DepartmentIdsOf(a, s);
      && (forall d :: d in doc.departments ==> exists i :: DepartmentOfRow(a, s, ids, i, d))
      && (forall id :: id in ids ==> exists d :: d in doc.departments && d.id == id)
  {
    hide AllAccess, DepartmentOfRow, GoodAliases;
    var cities, aliases := Cities(a, s.segments), DepartmentAliases(a.lang, s.departmentAliases);
    var byId, ids, made := DepartmentsOf(a, s).byId, DepartmentIdsOf(a, s), MakeDepartment(cities, aliases);
    var departments := Translate(a, s).value.departments;
    DepartmentsFilled(a, cities, aliases, s.departments);
    forall d | d in departments ensures exists i :: DepartmentOfRow(a, s, ids, i, d) {
      var n :| 0 <= n < |departments| && departments[n] == d;
      assert byId[n] in byId;
      var i :| Entered(s.departments, ids, made, i, byId[n]);
      RowMakesDepartment(a, s, i);
    }
    forall id | id in ids ensures exists d :: d in departments && d.id == id {
      var n :| 0 <= n < |byId| && byId[n].0 == id;
      assert byId[n] in byId && departments[n] == byId[n].1 && departments[n] in departments;
      var i :| Entered(s.departments, ids, made, i, byId[n]);
    }
  }

  lemma RowMakesDepartment(a: Adapter, s: Snapshot, i: int)
    requires 0 <= i < |s.departments| && DepartmentIdsOf(a, s)[i] !in DepartmentIdsOf(a, s)[..i]
    ensures var made := MakeDepartment(Cities(a, s.segments), DepartmentAliases(a.lang, s.departmentAliases));
      DepartmentOfRow(a, s, DepartmentIdsOf(a, s), i, made(DepartmentIdsOf(a, s)[i], s.departments[i]))
  {
    hide GoodAliases, CityOf, LastFor, SpelledOnce;
    var row := s.departments[i];
    var d := Lookup(DepartmentAliases(a.lang, s.departmentAliases), row.name, []);
    CityFound(a, s.segments, row.profileId);
    DepartmentAliasesGood(a.lang, s.departmentAliases);
    NoAliasesGood(a.lang);
    GoodAliasesSpelledOnce(a.lang, d);
    GoodIsWellFormed(a.lang, d);
    forall x ensures x in OD.Values(d) <==> LastFor(a.lang, s.departmentAliases, row.name, x) {
      ValuesFound(d, x);
      DepartmentAliasLast(a.lang, s.departmentAliases, row.name, x);
    }
  }

  // ---------------------------------------------------------------- positions

  function MakePosition(lang: Language): (string, PositionRow) -> Position {
    (id: string, r: PositionRow) => Position(id, r.name, PositionAliases(lang, r.name))
  }

  lemma {:induction false} PositionsFilled(a: Adapter, rows: seq<PositionRow>)
    ensures FilledBy(AllPositions(a, rows).byId, rows, PositionRowIds(a, rows), MakePosition(a.lang))
    decreases |rows|
  {
    hide FilledBy, PositionKey, PositionId;
    if rows == [] {
      FilledByNothing(MakePosition(a.lang));
    } else {
      var init, row := rows[..|rows| - 1], rows[|rows| - 1];
      PositionsFilled(a, init);
      var s, ids := AllPositions(a, init), PositionRowIds(a, init);
      var id := Lookup(s.idByKey, PositionKey(a, row), PositionId(a, row));
      assert rows == init + [row];
      FilledNext(s.byId, init, ids, MakePosition(a.lang), row, id);
    }
  }

  /** Row i is the first of its identifier, and p is what it says: a leader is also called chief. */
  ghost predicate PositionOfRow(a: Adapter, rows: seq<PositionRow>, ids: seq<string>, i: int, p: Position) {
    && 0 <= i < |rows| && |ids| == |rows| && ids[i] !in ids[..i]
    && p.id == ids[i] && p.name == rows[i].name
    && p.aliases == if a.lang.normalize(rows[i].name) == "руководитель" then [Alias("начальник", Safe)] else []
  }

  lemma PositionsTranslated(a: Adapter, s: Snapshot)
    requires Translate(a, s).Some?
    ensures var doc, ids := Translate(a, s).value, PositionRowIds(a, s.positions);
      && (forall p :: p in doc.positions ==> exists i :: PositionOfRow(a, s.positions, ids, i, p))
      && (forall id :: id in ids ==> exists p :: p in doc.positions && p.id == id)
  {
    hide AllAccess;
    var byId, ids, made := AllPositions(a, s.positions).byId, PositionRowIds(a, s.positions), MakePosition(a.lang);
    var positions := Translate(a, s).value.positions;
    PositionsFilled(a, s.positions);
    forall p | p in positions ensures exists i :: PositionOfRow(a, s.positions, ids, i, p) {
      var n :| 0 <= n < |positions| && positions[n] == p;
      assert byId[n] in byId;
      var i :| Entered(s.positions, ids, made, i, byId[n]);
      assert PositionOfRow(a, s.positions, ids, i, p);
    }
    forall id | id in ids ensures exists p :: p in positions && p.id == id {
      var n :| 0 <= n < |byId| && byId[n].0 == id;
      assert byId[n] in byId && positions[n] == byId[n].1 && positions[n] in positions;
      var i :| Entered(s.positions, ids, made, i, byId[n]);
    }
  }

  // ---------------------------------------------------------------- profiles and roles

  /** Each profile row becomes one profile with its name, its city and the departments and positions linked to it. */
  lemma ProfilesTranslated(a: Adapter, s: Snapshot, i: nat)
    requires Translate(a, s).Some? && i < |s.profiles|
    ensures var doc, row := Translate(a, s).value, s.profiles[i];
      && |doc.profiles| == |s.profiles| && doc.profiles[i].id == ProfileId(a, row) && doc.profiles[i].name == row.name
      && CityOf(a, s.segments, row.id, doc.profiles[i].city)
      && (forall id :: id in doc.profiles[i].departmentIds <==>
            Linking(DepartmentLinks(a, Cities(a, s.segments), s.departments), row.id, id))
      && (forall id :: id in doc.profiles[i].positionIds <==> Linking(PositionLinks(a, s.positions), row.id, id))
  {
    hide AllAccess, Linking, CityOf;
    CityFound(a, s.segments, s.profiles[i].id);
    DepartmentsPreserved(a, Cities(a, s.segments), DepartmentAliases(a.lang, s.departmentAliases), s.departments);
    PositionsPreserved(a, s.positions);
  }

  /** Row j is the first that names the role in the system, and the role carries its name and level. */
  ghost predicate RoleOfRow(lang: Language, rows: seq<AccessRow>, ids: seq<(string, string)>, systemId: string, r: Role) {
    exists j :: (
      && 0 <= j < |rows| && |ids| == |rows| && ids[j] == (systemId, r.id) && ids[j] !in ids[..j]
      && r.name == ShownName(lang, rows[j]) && r.accessLevel == rows[j].accessLevel)
  }

  /** The name of an entitlement, or its type, or a general word. */
  function ShownName(lang: Language, r: AccessRow): string {
    if Strip(lang, r.entitlementName) != "" then Strip(lang, r.entitlementName)
    else if r.entitlementType == "" then "Доступ" else r.entitlementType
  }

  ghost predicate RolesFilled(lang: Language, roles: map<string, seq<Role>>, rows: seq<AccessRow>, ids: seq<(string, string)>) {
    && (forall id, r :: Lists(Lookup(roles, id, []), r) <==> (id, r) in ids)
    && (forall id, r :: id in roles && r in roles[id] ==> RoleOfRow(lang, rows, ids, id, r))
  }

  lemma RoleOfRowStays(lang: Language, rows: seq<AccessRow>, ids: seq<(string, string)>, systemId: string, r: Role, x: AccessRow, id: (string, string))
    requires RoleOfRow(lang, rows, ids, systemId, r)
    ensures RoleOfRow(lang, rows + [x], ids + [id], systemId, r)
  {
    var j :| 0 <= j < |rows| && |ids| == |rows| && ids[j] == (systemId, r.id) && ids[j] !in ids[..j]
      && r.name == ShownName(lang, rows[j]) && r.accessLevel == rows[j].accessLevel;
    assert (rows + [x])[j] == rows[j] && (ids + [id])[j] == ids[j] && (ids + [id])[..j] == ids[..j];
  }

  lemma RolesFilledNext(lang: Language, roles: map<string, seq<Role>>, rows: seq<AccessRow>, ids: seq<(string, string)>,
                        systemId: string, roleId: string, x: AccessRow)
    requires RolesFilled(lang, roles, rows, ids) && |ids| == |rows|
    ensures var role := Role(roleId, RoleName(lang, x), x.accessLevel);
      RolesFilled(lang, roles[systemId := AddRole(Lookup(roles, systemId, []), role)], rows + [x], ids + [(systemId, roleId)])
  {
    hide RoleOfRow, Lists;
    var role := Role(roleId, RoleName(lang, x), x.accessLevel);
    var known := Lookup(roles, systemId, []);
    var after, all, keys := roles[systemId := AddRole(known, role)], rows + [x], ids + [(systemId, roleId)];
    AddRoleLists(known, role);
    forall id, r | id in after && r in after[id] ensures RoleOfRow(lang, all, keys, id, r) {
      if id in roles && r in roles[id] {
        RoleOfRowStays(lang, rows, ids, id, r, x, (systemId, roleId));
      } else {
        assert id == systemId && r == role && AddRole(known, role) != known;
        NewRole(lang, known, rows, ids, systemId, x, role);
      }
    }
  }

  lemma NewRole(lang: Language, known: seq<Role>, rows: seq<AccessRow>, ids: seq<(string, string)>, systemId: string, x: AccessRow, role: Role)
    requires AddRole(known, role) != known && |ids| == |rows| && (Lists(known, role.id) <==> (systemId, role.id) in ids)
    requires role.name == RoleName(lang, x) && role.accessLevel == x.accessLevel
    ensures RoleOfRow(lang, rows + [x], ids + [(systemId, role.id)], systemId, role)
  {
    var all, keys, j := rows + [x], ids + [(systemId, role.id)], |rows|;
    forall i | 0 <= i < |known| ensures known[i].id != role.id { assert known[i] in known; }
    assert keys[..j] == ids && keys[j] == (systemId, role.id) && all[j] == x;
  }

  lemma NoRolesFilled(lang: Language)
    ensures RolesFilled(lang, map[], [], [])
  {
  }

  lemma {:induction false} AccessFilled(a: Adapter, systemIds: map<int, string>, rows: seq<AccessRow>)
    requires AllAccess(a, systemIds, rows).Some?
    ensures RolesFilled(a.lang, AllAccess(a, systemIds, rows).value.roles, rows, AccessRowIds(a, systemIds, rows))
    decreases |rows|
  {
    hide RolesFilled, RoleName, RoleId, AddRole, AddGrant;
    if rows == [] {
      NoRolesFilled(a.lang);
    } else {
      var init, row := rows[..|rows| - 1], rows[|rows| - 1];
      AccessFilled(a, systemIds, init);
      var s, ids, systemId := AllAccess(a, systemIds, init).value, AccessRowIds(a, systemIds, init), systemIds[row.systemId];
      var id := Lookup(s.idByAccess, (row.systemId, row.entitlementId, row.accessLevel), RoleId(systemId, row.sourceCol, row.accessLevel));
      assert rows == init + [row];
      RolesFilledNext(a.lang, s.roles, init, ids, systemId, id, row);
    }
  }

  /** With distinct system ids each system lists the roles its access rows name, with name and level of the first row. */
  lemma RolesTranslated(a: Adapter, s: Snapshot, i: nat)
    requires Translate(a, s).Some? && SystemsApart(a, s.systems) && i < |s.systems|
    ensures var y, ids := Translate(a, s).value.systems[i], AccessRowIds(a, SystemIds(a, s.systems), s.accesses);
      && (forall r :: r in y.roles ==> RoleOfRow(a.lang, s.accesses, ids, y.id, r))
      && (forall roleId :: (y.id, roleId) in ids ==> exists r :: r in y.roles && r.id == roleId)
  {
    hide AllAccess, RoleOfRow, AccessRowIds;
    var access := AllAccess(a, SystemIds(a, s.systems), s.accesses).value;
    AccessFilled(a, SystemIds(a, s.systems), s.accesses);
    RolesOfSystem(a, s, access, i);
    var y := Translate(a, s).value.systems[i];
    assert y == SystemOf(a, s, access, i);
    forall roleId | (y.id, roleId) in AccessRowIds(a, SystemIds(a, s.systems), s.accesses) ensures exists r :: r in y.roles && r.id == roleId {
      assert Lists(y.roles, roleId);
      var n :| 0 <= n < |y.roles| && y.roles[n].id == roleId;
      assert y.roles[n] in y.roles;
    }
  }
}
