/** Translating one relational V1 snapshot into a catalog document. */
module V1Snapshot {
  import opened Prelude
  import OD = OrderedDict
  import opened Catalog
  import opened PlainText

  // ---------------------------------------------------------------- the source tables

  /** `alias_class` after upper-casing; a missing class is OtherClass. */
  datatype AliasClass = SafeClass | UnsafeClass | OtherClass

  datatype SystemRow = SystemRow(id: int, name: string, ciCode: string)
  datatype SystemAliasRow = SystemAliasRow(systemId: int, text: string, cls: AliasClass)
  datatype DepartmentAliasRow = DepartmentAliasRow(department: string, text: string, cls: AliasClass)
  datatype ProfileRow = ProfileRow(id: int, code: string, name: string)
  datatype SegmentRow = SegmentRow(profileId: int, name: string)
  datatype DepartmentRow = DepartmentRow(profileId: int, name: string, code: string)
  datatype PositionRow = PositionRow(profileId: int, name: string, code: string)
  datatype AccessRow = AccessRow(
    profileId: int, systemId: int, entitlementId: int, sourceCol: int, accessLevel: int,
    entitlementType: string, entitlementName: string)

  /** One repeatable-read export; NULL text columns arrive as "". */
  datatype Snapshot = Snapshot(
    id: int,
    sourceSha: string,
    systems: seq<SystemRow>,
    systemAliases: seq<SystemAliasRow>,
    departmentAliases: seq<DepartmentAliasRow>,
    profiles: seq<ProfileRow>,
    segments: seq<SegmentRow>,
    departments: seq<DepartmentRow>,
    positions: seq<PositionRow>,
    accesses: seq<AccessRow>)

  /** The regular expression for cities and SHA-256 stay abstract. */
  datatype Adapter = Adapter(lang: Language, city: string -> string, digest: string -> string)

  const LEADER := "руководитель"
  const CHIEF := "начальник"
  const ACCESS := "Доступ"

  // ---------------------------------------------------------------- identifiers

  /** `text.replace(" ", "-")` */
  function Hyphenated(s: string): string {
    seq(|s|, i requires 0 <= i < |s| => if s[i] == ' ' then '-' else s[i])
  }

  function WithoutSpaces(s: string): string {
    if s == "" then "" else (if s[0] == ' ' then "" else [s[0]]) + WithoutSpaces(s[1..])
  }

  function StableId(a: Adapter, prefix: string, code: string, fallback: string): string {
    var normalized := Hyphenated(a.lang.normalize(code));
    if normalized != "" then prefix + ":" + normalized
    else prefix + ":sha256:" + a.digest(a.lang.normalize(fallback))
  }

  function SystemId(a: Adapter, r: SystemRow): string {
    StableId(a, "system", r.ciCode, r.name)
  }

  function ProfileId(a: Adapter, r: ProfileRow): string {
    StableId(a, "profile", r.code, r.name)
  }

  function DepartmentId(a: Adapter, r: DepartmentRow, city: string): string {
    StableId(a, "department", if r.code != "" then r.code + "|" + city else "", r.name + "|" + city)
  }

  function PositionId(a: Adapter, r: PositionRow): string {
    StableId(a, "position", r.code, r.name)
  }

  function RoleId(systemId: string, sourceCol: int, level: int): string {
    "role:" + systemId + ":" + Decimal(sourceCol) + ":level:" + Decimal(level)
  }

  function RoleName(lang: Language, r: AccessRow): string {
    var name := Strip(lang, r.entitlementName);
    if name != "" then name else if r.entitlementType != "" then r.entitlementType else ACCESS
  }

  function Version(a: Adapter, s: Snapshot): string {
    var sha := WithoutSpaces(a.lang.normalize(s.sourceSha));
    "v1-snapshot-" + Decimal(s.id) + "-" + (if |sha| <= 12 then sha else sha[..12])
  }

  // ---------------------------------------------------------------- aliases

  function Candidate(text: string, cls: AliasClass): Alias {
    Alias(text, if cls == SafeClass then Safe else Ambiguous)
  }

  /** A later SAFE spelling replaces the one kept so far; otherwise the first one stays. */
  function MergeAlias(d: OD.Dict<Alias>, key: string, c: Alias): OD.Dict<Alias> {
    if OD.Get(d, key).None? || c.safety == Safe then OD.Put(d, key, c) else d
  }

  function SystemAliases(lang: Language, rows: seq<SystemAliasRow>): map<int, OD.Dict<Alias>> {
    if rows == [] then map[]
    else
      var table, row := SystemAliases(lang, rows[..|rows| - 1]), rows[|rows| - 1];
      var key := lang.normalize(row.text);
      if row.cls == UnsafeClass || key == "" then table
      else table[row.systemId := MergeAlias(Lookup(table, row.systemId, []), key, Candidate(row.text, row.cls))]
  }

  method CollectSystemAliases(lang: Language, rows: seq<SystemAliasRow>) returns (table: map<int, OD.Dict<Alias>>)
    ensures table == SystemAliases(lang, rows)
  {
    table := map[];
    for i := 0 to |rows|
      invariant table == SystemAliases(lang, rows[..i])
    {
      assert rows[..i + 1][..i] == rows[..i];
      if rows[i].cls == UnsafeClass { continue; }
      var normalized := lang.normalize(rows[i].text);
      if normalized == "" { continue; }
      var aliases := Lookup(table, rows[i].systemId, []);
      var candidate := Alias(rows[i].text, if rows[i].cls == SafeClass then Safe else Ambiguous);
      if OD.Get(aliases, normalized).None? || candidate.safety == Safe {
        aliases := OD.Put(aliases, normalized, candidate);
      }
      table := table[rows[i].systemId := aliases];
    }
    assert rows[..|rows|] == rows;
  }

  function DepartmentAliases(lang: Language, rows: seq<DepartmentAliasRow>): map<string, OD.Dict<Alias>> {
    if rows == [] then map[]
    else
      var table, row := DepartmentAliases(lang, rows[..|rows| - 1]), rows[|rows| - 1];
      var key := lang.normalize(row.text);
      if row.cls == UnsafeClass || key == "" then table
      else table[row.department := OD.Put(Lookup(table, row.department, []), key, Candidate(row.text, row.cls))]
  }

  method CollectDepartmentAliases(lang: Language, rows: seq<DepartmentAliasRow>)
    returns (table: map<string, OD.Dict<Alias>>)
    ensures table == DepartmentAliases(lang, rows)
  {
    table := map[];
    for i := 0 to |rows|
      invariant table == DepartmentAliases(lang, rows[..i])
    {
      assert rows[..i + 1][..i] == rows[..i];
      if rows[i].cls == UnsafeClass { continue; }
      var normalized := lang.normalize(rows[i].text);
      if normalized == "" { continue; }
      var aliases := Lookup(table, rows[i].department, []);
      aliases := OD.Put(aliases, normalized, Alias(rows[i].text, if rows[i].cls == SafeClass then Safe else Ambiguous));
      table := table[rows[i].department := aliases];
    }
    assert rows[..|rows|] == rows;
  }

  // ---------------------------------------------------------------- systems and cities

  function SystemIds(a: Adapter, rows: seq<SystemRow>): map<int, string> {
    if rows == [] then map[]
    else SystemIds(a, rows[..|rows| - 1])[rows[|rows| - 1].id := SystemId(a, rows[|rows| - 1])]
  }

  function Cities(a: Adapter, rows: seq<SegmentRow>): map<int, string> {
    if rows == [] then map[]
    else
      var table, row := Cities(a, rows[..|rows| - 1]), rows[|rows| - 1];
      if row.profileId in table || a.city(row.name) == "" then table
      else table[row.profileId := a.city(row.name)]
  }

  method CollectCities(a: Adapter, rows: seq<SegmentRow>) returns (table: map<int, string>)
    ensures table == Cities(a, rows)
  {
    table := map[];
    for i := 0 to |rows|
      invariant table == Cities(a, rows[..i])
    {
      assert rows[..i + 1][..i] == rows[..i];
      if rows[i].profileId in table { continue; }
      var city := a.city(rows[i].name);
      if city != "" { table := table[rows[i].profileId := city]; }
    }
    assert rows[..|rows|] == rows;
  }

  // ---------------------------------------------------------------- departments and positions

  function AppendUnique(table: map<int, seq<string>>, key: int, value: string): map<int, seq<string>> {
    var values := Lookup(table, key, []);
    table[key := if value in values then values else values + [value]]
  }

  /** The three dictionaries that the department loop fills. */
  datatype Departments = Departments(
    idByKey: map<(string, string), string>,
    byId: OD.Dict<Department>,
    byProfile: map<int, seq<string>>)

  function DepartmentKey(a: Adapter, r: DepartmentRow, city: string): (string, string) {
    (if r.code != "" then r.code else a.lang.normalize(r.name), a.lang.normalize(city))
  }

  function AddDepartment(a: Adapter, cities: map<int, string>, aliases: map<string, OD.Dict<Alias>>,
                         s: Departments, r: DepartmentRow): Departments
  {
    var city := Lookup(cities, r.profileId, "");
    var key := DepartmentKey(a, r, city);
    var id := Lookup(s.idByKey, key, DepartmentId(a, r, city));
    Departments(
      s.idByKey[key := id],
      OD.SetDefault(s.byId, id, Department(id, r.name, city, OD.Values(Lookup(aliases, r.name, [])))),
      AppendUnique(s.byProfile, r.profileId, id))
  }

  function AllDepartments(a: Adapter, cities: map<int, string>, aliases: map<string, OD.Dict<Alias>>,
                          rows: seq<DepartmentRow>): Departments
  {
    if rows == [] then Departments(map[], [], map[])
    else AddDepartment(a, cities, aliases, AllDepartments(a, cities, aliases, rows[..|rows| - 1]), rows[|rows| - 1])
  }

  method RecordDepartment(a: Adapter, cities: map<int, string>, aliases: map<string, OD.Dict<Alias>>,
                          s: Departments, row: DepartmentRow) returns (t: Departments)
    ensures t == AddDepartment(a, cities, aliases, s, row)
  {
    var idByKey, byId, byProfile := s.idByKey, s.byId, s.byProfile;
    var city := Lookup(cities, row.profileId, "");
    var key := DepartmentKey(a, row, city);
    if key !in idByKey { idByKey := idByKey[key := DepartmentId(a, row, city)]; }
    var id := idByKey[key];
    assert idByKey == idByKey[key := id];
    byId := OD.SetDefault(byId, id, Department(id, row.name, city, OD.Values(Lookup(aliases, row.name, []))));
    byProfile := AppendUnique(byProfile, row.profileId, id);
    return Departments(idByKey, byId, byProfile);
  }

  method BuildDepartments(a: Adapter, cities: map<int, string>, aliases: map<string, OD.Dict<Alias>>,
                          rows: seq<DepartmentRow>) returns (s: Departments)
    ensures s == AllDepartments(a, cities, aliases, rows)
  {
    s := Departments(map[], [], map[]);
    for i := 0 to |rows|
      invariant s == AllDepartments(a, cities, aliases, rows[..i])
    {
      assert rows[..i + 1][..i] == rows[..i];
      s := RecordDepartment(a, cities, aliases, s, rows[i]);
    }
    assert rows[..|rows|] == rows;
  }

  datatype Positions = Positions(
    idByKey: map<string, string>,
    byId: OD.Dict<Position>,
    byProfile: map<int, seq<string>>)

  function PositionKey(a: Adapter, r: PositionRow): string {
    if r.code != "" then r.code else a.lang.normalize(r.name)
  }

  function PositionAliases(lang: Language, name: string): seq<Alias> {
    if lang.normalize(name) == LEADER then [Alias(CHIEF, Safe)] else []
  }

  function AddPosition(a: Adapter, s: Positions, r: PositionRow): Positions {
    var key := PositionKey(a, r);
    var id := Lookup(s.idByKey, key, PositionId(a, r));
    Positions(
      s.idByKey[key := id],
      OD.SetDefault(s.byId, id, Position(id, r.name, PositionAliases(a.lang, r.name))),
      AppendUnique(s.byProfile, r.profileId, id))
  }

  function AllPositions(a: Adapter, rows: seq<PositionRow>): Positions {
    if rows == [] then Positions(map[], [], map[])
    else AddPosition(a, AllPositions(a, rows[..|rows| - 1]), rows[|rows| - 1])
  }

  method BuildPositions(a: Adapter, rows: seq<PositionRow>) returns (s: Positions)
    ensures s == AllPositions(a, rows)
  {
    var idByKey: map<string, string> := map[];
    var byId: OD.Dict<Position> := [];
    var byProfile: map<int, seq<string>> := map[];
    for i := 0 to |rows|
      invariant Positions(idByKey, byId, byProfile) == AllPositions(a, rows[..i])
    {
      assert rows[..i + 1][..i] == rows[..i];
      var row := rows[i];
      var key := PositionKey(a, row);
      if key !in idByKey { idByKey := idByKey[key := PositionId(a, row)]; }
      var id := idByKey[key];
      assert idByKey == idByKey[key := id];
      byId := OD.SetDefault(byId, id, Position(id, row.name, PositionAliases(a.lang, row.name)));
      byProfile := AppendUnique(byProfile, row.profileId, id);
    }
    assert rows[..|rows|] == rows;
    return Positions(idByKey, byId, byProfile);
  }

  // ---------------------------------------------------------------- roles and access

  /** `roles` holds, per system id, the roles appended to that system so far. */
  datatype Access = Access(
    idByAccess: map<(int, int, int), string>,
    roles: map<string, seq<Role>>,
    byProfile: map<int, OD.Dict<seq<string>>>)

  function AddRole(roles: seq<Role>, role: Role): seq<Role> {
    if exists r :: r in roles && r.id == role.id then roles else roles + [role]
  }

  function GrantsUnder(granted: OD.Dict<seq<string>>, systemId: string): seq<string> {
    match OD.Get(granted, systemId)
    case None => []
    case Some(ids) => ids
  }

  function AddGrant(granted: OD.Dict<seq<string>>, systemId: string, roleId: string): OD.Dict<seq<string>> {
    var ids := GrantsUnder(granted, systemId);
    OD.Put(granted, systemId, if roleId in ids then ids else ids + [roleId])
  }

  function AddAccess(a: Adapter, systemId: string, s: Access, r: AccessRow): Access {
    var key := (r.systemId, r.entitlementId, r.accessLevel);
    var roleId := Lookup(s.idByAccess, key, RoleId(systemId, r.sourceCol, r.accessLevel));
    Access(
      s.idByAccess[key := roleId],
      s.roles[systemId := AddRole(Lookup(s.roles, systemId, []), Role(roleId, RoleName(a.lang, r), r.accessLevel))],
      s.byProfile[r.profileId := AddGrant(Lookup(s.byProfile, r.profileId, []), systemId, roleId)])
  }

  /** None stands for V1SnapshotExtractionError: an entitlement of a missing system. */
  function AllAccess(a: Adapter, systemIds: map<int, string>, rows: seq<AccessRow>): Option<Access> {
    if rows == [] then Some(Access(map[], map[], map[]))
    else
      match AllAccess(a, systemIds, rows[..|rows| - 1])
      case None => None
      case Some(s) =>
        var row := rows[|rows| - 1];
        if row.systemId in systemIds then Some(AddAccess(a, systemIds[row.systemId], s, row)) else None
  }

  lemma {:induction false} AccessFails(a: Adapter, systemIds: map<int, string>, rows: seq<AccessRow>, i: nat)
    requires i < |rows| && rows[i].systemId !in systemIds
    ensures AllAccess(a, systemIds, rows).None?
    decreases |rows|
  {
    if i < |rows| - 1 { AccessFails(a, systemIds, rows[..|rows| - 1], i); }
  }

  method RecordAccess(a: Adapter, systemId: string, s: Access, row: AccessRow) returns (t: Access)
    ensures t == AddAccess(a, systemId, s, row)
  {
    var idByAccess, roles, byProfile := s.idByAccess, s.roles, s.byProfile;
    var key := (row.systemId, row.entitlementId, row.accessLevel);
    if key !in idByAccess { idByAccess := idByAccess[key := RoleId(systemId, row.sourceCol, row.accessLevel)]; }
    var roleId := idByAccess[key];
    assert idByAccess == idByAccess[key := roleId];
    var roleName := Strip(a.lang, row.entitlementName);
    if roleName == "" { roleName := if row.entitlementType != "" then row.entitlementType else ACCESS; }
    var known := Lookup(roles, systemId, []);
    if !(exists r :: r in known && r.id == roleId) { known := known + [Role(roleId, roleName, row.accessLevel)]; }
    roles := roles[systemId := known];
    var bySystem := Lookup(byProfile, row.profileId, []);
    var roleIds := GrantsUnder(bySystem, systemId);
    if roleId !in roleIds { roleIds := roleIds + [roleId]; }
    byProfile := byProfile[row.profileId := OD.Put(bySystem, systemId, roleIds)];
    return Access(idByAccess, roles, byProfile);
  }

  method BuildAccess(a: Adapter, systemIds: map<int, string>, rows: seq<AccessRow>) returns (s: Option<Access>)
    ensures s == AllAccess(a, systemIds, rows)
  {
    var access := Access(map[], map[], map[]);
    for i := 0 to |rows|
      invariant AllAccess(a, systemIds, rows[..i]) == Some(access)
    {
      assert rows[..i + 1][..i] == rows[..i];
      if rows[i].systemId !in systemIds {
        AccessFails(a, systemIds, rows, i);
        return None;
      }
      access := RecordAccess(a, systemIds[rows[i].systemId], access, rows[i]);
    }
    assert rows[..|rows|] == rows;
    return Some(access);
  }

  // ---------------------------------------------------------------- the document

  /** Roles are appended to the last system listed under an id. */
  function SystemOf(a: Adapter, s: Snapshot, access: Access, i: nat): System
    requires i < |s.systems|
  {
    var id := SystemId(a, s.systems[i]);
    System(
      id, s.systems[i].name,
      OD.Values(Lookup(SystemAliases(a.lang, s.systemAliases), s.systems[i].id, [])),
      if exists k :: i < k < |s.systems| && SystemId(a, s.systems[k]) == id then [] else Lookup(access.roles, id, []))
  }

  function GrantsOf(granted: OD.Dict<seq<string>>): seq<Grant> {
    seq(|granted|, i requires 0 <= i < |granted| => Grant(granted[i].0, granted[i].1))
  }

  function DepartmentsOf(a: Adapter, s: Snapshot): Departments {
    AllDepartments(a, Cities(a, s.segments), DepartmentAliases(a.lang, s.departmentAliases), s.departments)
  }

  function ProfileOf(a: Adapter, s: Snapshot, access: Access, r: ProfileRow): Profile {
    Profile(
      ProfileId(a, r), r.name, Lookup(Cities(a, s.segments), r.id, ""),
      Lookup(DepartmentsOf(a, s).byProfile, r.id, []),
      Lookup(AllPositions(a, s.positions).byProfile, r.id, []),
      GrantsOf(Lookup(access.byProfile, r.id, [])))
  }

  function SystemsOf(a: Adapter, s: Snapshot, access: Access): seq<System> {
    seq(|s.systems|, i requires 0 <= i < |s.systems| => SystemOf(a, s, access, i))
  }

  function ProfilesOf(a: Adapter, s: Snapshot, access: Access): seq<Profile> {
    seq(|s.profiles|, i requires 0 <= i < |s.profiles| => ProfileOf(a, s, access, s.profiles[i]))
  }

  function DocumentFrom(a: Adapter, s: Snapshot, access: Access): Document {
    Document(
      Version(a, s),
      OD.Values(DepartmentsOf(a, s).byId),
      OD.Values(AllPositions(a, s.positions).byId),
      SystemsOf(a, s, access),
      ProfilesOf(a, s, access),
      [])
  }

  function Translate(a: Adapter, s: Snapshot): Option<Document> {
    match AllAccess(a, SystemIds(a, s.systems), s.accesses)
    case None => None
    case Some(access) => Some(DocumentFrom(a, s, access))
  }

  method IndexSystemIds(a: Adapter, rows: seq<SystemRow>) returns (ids: map<int, string>)
    ensures ids == SystemIds(a, rows)
  {
    ids := map[];
    for i := 0 to |rows|
      invariant ids == SystemIds(a, rows[..i])
    {
      assert rows[..i + 1][..i] == rows[..i];
      ids := ids[rows[i].id := SystemId(a, rows[i])];
    }
    assert rows[..|rows|] == rows;
  }

  method BuildProfiles(a: Adapter, s: Snapshot, cities: map<int, string>, departments: map<int, seq<string>>,
                       positions: map<int, seq<string>>, access: Access) returns (profiles: seq<Profile>)
    requires cities == Cities(a, s.segments) && departments == DepartmentsOf(a, s).byProfile
    requires positions == AllPositions(a, s.positions).byProfile
    ensures profiles == ProfilesOf(a, s, access)
  {
    profiles := [];
    for i := 0 to |s.profiles|
      invariant |profiles| == i && forall k :: 0 <= k < i ==> profiles[k] == ProfileOf(a, s, access, s.profiles[k])
    {
      var row := s.profiles[i];
      profiles := profiles + [Profile(
        ProfileId(a, row), row.name, Lookup(cities, row.id, ""),
        Lookup(departments, row.id, []), Lookup(positions, row.id, []),
        GrantsOf(Lookup(access.byProfile, row.id, [])))];
    }
  }

  method BuildSystems(a: Adapter, s: Snapshot, aliases: map<int, OD.Dict<Alias>>, access: Access)
    returns (systems: seq<System>)
    requires aliases == SystemAliases(a.lang, s.systemAliases)
    ensures systems == SystemsOf(a, s, access)
  {
    systems := [];
    for i := 0 to |s.systems|
      invariant |systems| == i && forall k :: 0 <= k < i ==> systems[k] == SystemOf(a, s, access, k)
    {
      var id := SystemId(a, s.systems[i]);
      var last := !exists k :: i < k < |s.systems| && SystemId(a, s.systems[k]) == id;
      systems := systems + [System(
        id, s.systems[i].name, OD.Values(Lookup(aliases, s.systems[i].id, [])),
        if last then Lookup(access.roles, id, []) else [])];
    }
  }

  method BuildDocument(a: Adapter, s: Snapshot) returns (document: Option<Document>)
    ensures document == Translate(a, s)
  {
    var systemAliases := CollectSystemAliases(a.lang, s.systemAliases);
    var departmentAliases := CollectDepartmentAliases(a.lang, s.departmentAliases);
    var systemIds := IndexSystemIds(a, s.systems);
    var cities := CollectCities(a, s.segments);
    var departments := BuildDepartments(a, cities, departmentAliases, s.departments);
    var positions := BuildPositions(a, s.positions);
    var access := BuildAccess(a, systemIds, s.accesses);
    if access.None? { return None; }
    var systems := BuildSystems(a, s, systemAliases, access.value);
    var profiles := BuildProfiles(a, s, cities, departments.byProfile, positions.byProfile, access.value);
    return Some(Document(
      Version(a, s), OD.Values(departments.byId), OD.Values(positions.byId), systems, profiles, []));
  }
}
