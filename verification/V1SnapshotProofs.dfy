/** The translated snapshot passes the validator, fits the tables and keeps the source access relation. */
module V1SnapshotProofs {
  import opened Prelude
  import OD = OrderedDict
  import opened Catalog
  import opened PlainText
  import opened V1Snapshot
  import Publication
  import opened PublicationProofs

  // ---------------------------------------------------------------- text that stripping leaves alone

  predicate Solid(lang: Language, s: string) {
    s != "" && !lang.isSpace(s[0]) && !lang.isSpace(s[|s| - 1])
  }

  lemma SolidStrip(lang: Language, s: string)
    requires Solid(lang, s)
    ensures Strip(lang, s) == s
  {
  }

  /** What the translation relies on in normalization, white space and the digest. */
  ghost predicate Sane(a: Adapter) {
    && (forall c: char :: '!' <= c <= '~' ==> !a.lang.isSpace(c))
    && (forall s: string :: a.lang.normalize(Strip(a.lang, s)) == a.lang.normalize(s))
    && (forall s: string, c: char :: c in a.lang.normalize(s) && c != ' ' ==> !a.lang.isSpace(c))
    && (forall s: string :: a.digest(s) != "")
    && (forall s: string, c: char :: c in a.digest(s) ==> !a.lang.isSpace(c))
    && a.lang.normalize(CHIEF) == CHIEF
  }

  lemma StableIdSolid(a: Adapter, prefix: string, code: string, fallback: string)
    requires Sane(a) && prefix != "" && '!' <= prefix[0] <= '~'
    ensures Solid(a.lang, StableId(a, prefix, code, fallback))
  {
    var id := StableId(a, prefix, code, fallback);
    var tail := Hyphenated(a.lang.normalize(code));
    assert id[0] == prefix[0];
    if tail != "" {
      assert id[|id| - 1] == tail[|tail| - 1];
    } else {
      var d := a.digest(a.lang.normalize(fallback));
      assert id[|id| - 1] == d[|d| - 1] && d[|d| - 1] in d;
    }
  }

  lemma EndsWithDecimal(a: Adapter, head: string, n: int)
    requires Sane(a) && head != "" && '!' <= head[0] <= '~'
    ensures Solid(a.lang, head + Decimal(n))
  {
    var d := Decimal(n);
    DecimalChars(n);
    assert d[|d| - 1] in d && (head + d)[|head + d| - 1] == d[|d| - 1];
  }

  lemma RoleIdSolid(a: Adapter, systemId: string, col: int, level: int)
    requires Sane(a)
    ensures Solid(a.lang, RoleId(systemId, col, level))
  {
    EndsWithDecimal(a, "role:" + systemId + ":" + Decimal(col) + ":level:", level);
  }

  lemma {:induction false} SpacesGone(s: string)
    ensures forall c :: c in WithoutSpaces(s) ==> c in s && c != ' '
    decreases |s|
  {
    if s != "" { SpacesGone(s[1..]); }
  }

  lemma VersionSolid(a: Adapter, s: Snapshot)
    requires Sane(a)
    ensures Solid(a.lang, Version(a, s))
  {
    var v := Version(a, s);
    var sha := WithoutSpaces(a.lang.normalize(s.sourceSha));
    SpacesGone(a.lang.normalize(s.sourceSha));
    var tail := if |sha| <= 12 then sha else sha[..12];
    if tail != "" { assert v[|v| - 1] == tail[|tail| - 1] && tail[|tail| - 1] in sha; }
    assert v[0] == 'v';
  }

  // ---------------------------------------------------------------- role identifiers

  /** System, source column and level can be read back from a role identifier, from the right. */
  lemma RoleIdInjective(s: string, col: int, level: int, s': string, col': int, level': int)
    requires RoleId(s, col, level) == RoleId(s', col', level')
    ensures s == s' && col == col' && level == level'
  {
    DecimalChars(col);
    DecimalChars(level);
    DecimalChars(col');
    DecimalChars(level');
    var a, b := "role:" + s + ":" + Decimal(col) + ":level", "role:" + s' + ":" + Decimal(col') + ":level";
    assert RoleId(s, col, level) == a + ":" + Decimal(level);
    assert RoleId(s', col', level') == b + ":" + Decimal(level');
    LastField(a, Decimal(level), b, Decimal(level'));
    var c, d := "role:" + s + ":" + Decimal(col), "role:" + s' + ":" + Decimal(col');
    assert c == a[..|a| - 6] && d == b[..|b| - 6];
    LastField("role:" + s, Decimal(col), "role:" + s', Decimal(col'));
    assert s == ("role:" + s)[5..] && s' == ("role:" + s')[5..];
    DecimalInjective(col, col');
    DecimalInjective(level, level');
  }

  // ---------------------------------------------------------------- aliases

  ghost predicate GoodAliases(lang: Language, d: OD.Dict<Alias>) {
    && OD.WellFormed(d)
    && forall e :: e in d ==> e.0 != "" && lang.normalize(e.1.value) == e.0 && e.1.safety in {Safe, Ambiguous}
  }

  lemma PutGood(lang: Language, d: OD.Dict<Alias>, key: string, text: string, cls: AliasClass)
    requires GoodAliases(lang, d) && key == lang.normalize(text) && key != ""
    ensures GoodAliases(lang, OD.Put(d, key, Candidate(text, cls)))
  {
    OD.PutEntries(d, key, Candidate(text, cls));
    OD.PutWellFormed(d, key, Candidate(text, cls));
  }

  lemma {:induction false} SystemAliasesGood(lang: Language, rows: seq<SystemAliasRow>)
    ensures forall s :: s in SystemAliases(lang, rows) ==> GoodAliases(lang, SystemAliases(lang, rows)[s])
    decreases |rows|
  {
    if rows != [] {
      var n := |rows| - 1;
      SystemAliasesGood(lang, rows[..n]);
      var d := Lookup(SystemAliases(lang, rows[..n]), rows[n].systemId, []);
      var key := lang.normalize(rows[n].text);
      if key != "" { PutGood(lang, d, key, rows[n].text, rows[n].cls); }
    }
  }

  lemma {:induction false} DepartmentAliasesGood(lang: Language, rows: seq<DepartmentAliasRow>)
    ensures forall s :: s in DepartmentAliases(lang, rows) ==> GoodAliases(lang, DepartmentAliases(lang, rows)[s])
    decreases |rows|
  {
    if rows != [] {
      var n := |rows| - 1;
      DepartmentAliasesGood(lang, rows[..n]);
      var d := Lookup(DepartmentAliases(lang, rows[..n]), rows[n].department, []);
      var key := lang.normalize(rows[n].text);
      if key != "" { PutGood(lang, d, key, rows[n].text, rows[n].cls); }
    }
  }

  lemma GoodAliasesFit(a: Adapter, d: OD.Dict<Alias>)
    requires Sane(a) && GoodAliases(a.lang, d)
    ensures AliasesAllowed(a.lang, OD.Values(d)) && AliasesApart(a.lang, OD.Values(d))
  {
    var values := OD.Values(d);
    forall i | 0 <= i < |d| ensures a.lang.normalize(Strip(a.lang, values[i].value)) == d[i].0 && values[i].safety != Unsafe {
      assert d[i] in d;
    }
    forall i | 0 <= i < |d| ensures d[i].0 != "" { assert d[i] in d; }
  }

  predicate Hit(lang: Language, r: SystemAliasRow, systemId: int, key: string) {
    r.cls != UnsafeClass && r.systemId == systemId && lang.normalize(r.text) == key
  }

  /** Row i is the last SAFE spelling of its key for the system or, when none is SAFE, the first spelling. */
  ghost predicate Winner(lang: Language, rows: seq<SystemAliasRow>, systemId: int, key: string, i: int) {
    && 0 <= i < |rows| && Hit(lang, rows[i], systemId, key)
    && (if rows[i].cls == SafeClass
        then forall j :: i < j < |rows| && Hit(lang, rows[j], systemId, key) ==> rows[j].cls != SafeClass
        else forall j :: 0 <= j < |rows| && j != i && Hit(lang, rows[j], systemId, key) ==> rows[j].cls != SafeClass && i < j)
  }

  function Kept(lang: Language, rows: seq<SystemAliasRow>, systemId: int, key: string): Option<Alias> {
    OD.Get(Lookup(SystemAliases(lang, rows), systemId, []), key)
  }

  lemma KeptNext(lang: Language, rows: seq<SystemAliasRow>, systemId: int, key: string)
    requires key != "" && rows != []
    ensures var n := |rows| - 1;
      var before := Kept(lang, rows[..n], systemId, key);
      Kept(lang, rows, systemId, key) ==
        if Hit(lang, rows[n], systemId, key) && (before.None? || rows[n].cls == SafeClass)
        then Some(Candidate(rows[n].text, rows[n].cls)) else before
  {
    var n := |rows| - 1;
    var d := Lookup(SystemAliases(lang, rows[..n]), rows[n].systemId, []);
    var c := Candidate(rows[n].text, rows[n].cls);
    var k := lang.normalize(rows[n].text);
    OD.PutGet(d, k, c);
    if k != key { OD.PutOther(d, k, c, key); }
  }

  lemma WinnerStays(lang: Language, rows: seq<SystemAliasRow>, systemId: int, key: string, i: int)
    requires rows != [] && Winner(lang, rows[..|rows| - 1], systemId, key, i)
    requires !Hit(lang, rows[|rows| - 1], systemId, key) || rows[|rows| - 1].cls != SafeClass
    ensures Winner(lang, rows, systemId, key, i)
  {
    var init := rows[..|rows| - 1];
    assert forall j :: 0 <= j < |init| ==> init[j] == rows[j];
  }

  lemma WinnerComes(lang: Language, rows: seq<SystemAliasRow>, systemId: int, key: string)
    requires rows != [] && Hit(lang, rows[|rows| - 1], systemId, key)
    requires rows[|rows| - 1].cls == SafeClass || forall i :: 0 <= i < |rows| - 1 ==> !Hit(lang, rows[i], systemId, key)
    ensures Winner(lang, rows, systemId, key, |rows| - 1)
  {
  }

  /** The alias kept for a system under a normalized spelling comes from the winning row, and there is one whenever some row is usable. */
  lemma {:induction false} SystemAliasOutcome(lang: Language, rows: seq<SystemAliasRow>, systemId: int, key: string)
    requires key != ""
    ensures var kept := Kept(lang, rows, systemId, key);
      && (kept.Some? <==> exists i :: 0 <= i < |rows| && Hit(lang, rows[i], systemId, key))
      && (kept.Some? ==> exists i :: Winner(lang, rows, systemId, key, i) && kept.value == Candidate(rows[i].text, rows[i].cls))
    decreases |rows|
  {
    if rows != [] {
      var n := |rows| - 1;
      var init := rows[..n];
      SystemAliasOutcome(lang, init, systemId, key);
      KeptNext(lang, rows, systemId, key);
      var before := Kept(lang, init, systemId, key);
      if Hit(lang, rows[n], systemId, key) && (before.None? || rows[n].cls == SafeClass) {
        forall i | 0 <= i < n && before.None? ensures !Hit(lang, rows[i], systemId, key) { assert init[i] == rows[i]; }
        WinnerComes(lang, rows, systemId, key);
      } else if before.Some? {
        var i :| Winner(lang, init, systemId, key, i) && before.value == Candidate(init[i].text, init[i].cls);
        WinnerStays(lang, rows, systemId, key, i);
      } else {
        forall i | 0 <= i < |rows| ensures !Hit(lang, rows[i], systemId, key) { assert i < n ==> init[i] == rows[i]; }
      }
    }
  }

  predicate DepartmentHit(lang: Language, r: DepartmentAliasRow, department: string, key: string) {
    r.cls != UnsafeClass && r.department == department && lang.normalize(r.text) == key
  }

  ghost predicate LastHit(lang: Language, rows: seq<DepartmentAliasRow>, department: string, key: string, i: int) {
    && 0 <= i < |rows| && DepartmentHit(lang, rows[i], department, key)
    && forall j :: i < j < |rows| ==> !DepartmentHit(lang, rows[j], department, key)
  }

  function KeptForDepartment(lang: Language, rows: seq<DepartmentAliasRow>, department: string, key: string): Option<Alias> {
    OD.Get(Lookup(DepartmentAliases(lang, rows), department, []), key)
  }

  lemma DepartmentKeptNext(lang: Language, rows: seq<DepartmentAliasRow>, department: string, key: string)
    requires key != "" && rows != []
    ensures var n := |rows| - 1;
      KeptForDepartment(lang, rows, department, key) ==
        if DepartmentHit(lang, rows[n], department, key) then Some(Candidate(rows[n].text, rows[n].cls))
        else KeptForDepartment(lang, rows[..n], department, key)
  {
    var n := |rows| - 1;
    var d := Lookup(DepartmentAliases(lang, rows[..n]), rows[n].department, []);
    var c := Candidate(rows[n].text, rows[n].cls);
    var k := lang.normalize(rows[n].text);
    OD.PutGet(d, k, c);
    if k != key { OD.PutOther(d, k, c, key); }
  }

  /** For departments the last usable row of a spelling wins. */
  lemma {:induction false} DepartmentAliasOutcome(lang: Language, rows: seq<DepartmentAliasRow>, department: string, key: string)
    requires key != ""
    ensures var kept := KeptForDepartment(lang, rows, department, key);
      && (kept.None? <==> forall i :: 0 <= i < |rows| ==> !DepartmentHit(lang, rows[i], department, key))
      && (kept.Some? ==> exists i :: LastHit(lang, rows, department, key, i) && kept.value == Candidate(rows[i].text, rows[i].cls))
    decreases |rows|
  {
    hide DepartmentHit, KeptForDepartment;
    if rows == [] {
      NoRowsNothingKept(lang, department, key);
    } else {
      var n := |rows| - 1;
      DepartmentKeptNext(lang, rows, department, key);
      DepartmentAliasOutcome(lang, rows[..n], department, key);
      if DepartmentHit(lang, rows[n], department, key) {
        assert LastHit(lang, rows, department, key, n);
      } else if KeptForDepartment(lang, rows, department, key).Some? {
        var i :| LastHit(lang, rows[..n], department, key, i)
          && KeptForDepartment(lang, rows, department, key).value == Candidate(rows[..n][i].text, rows[..n][i].cls);
        assert LastHit(lang, rows, department, key, i);
      } else {
        forall i | 0 <= i < |rows| ensures !DepartmentHit(lang, rows[i], department, key) {
          if i < n { assert rows[..n][i] == rows[i]; }
        }
      }
    }
  }

  lemma NoRowsNothingKept(lang: Language, department: string, key: string)
    ensures KeptForDepartment(lang, [], department, key).None?
  {
  }

  /** The city of a profile is the first one found along its segments. */
  lemma {:induction false} CityOutcome(a: Adapter, rows: seq<SegmentRow>, profileId: int)
    ensures var cities := Cities(a, rows);
      && (profileId !in cities <==> forall i :: 0 <= i < |rows| && rows[i].profileId == profileId ==> a.city(rows[i].name) == "")
      && (profileId in cities ==> exists i :: FirstCity(a, rows, profileId, i) && cities[profileId] == a.city(rows[i].name))
    decreases |rows|
  {
    if rows != [] {
      var n := |rows| - 1;
      CityOutcome(a, rows[..n], profileId);
      if profileId in Cities(a, rows[..n]) {
        var i :| FirstCity(a, rows[..n], profileId, i) && Cities(a, rows[..n])[profileId] == a.city(rows[..n][i].name);
        assert FirstCity(a, rows, profileId, i);
      } else {
        forall i | 0 <= i < n && rows[i].profileId == profileId ensures a.city(rows[i].name) == "" { assert rows[..n][i] == rows[i]; }
        if profileId in Cities(a, rows) { assert FirstCity(a, rows, profileId, n); }
      }
    }
  }

  ghost predicate FirstCity(a: Adapter, rows: seq<SegmentRow>, profileId: int, i: int) {
    && 0 <= i < |rows| && rows[i].profileId == profileId && a.city(rows[i].name) != ""
    && forall j :: 0 <= j < i && rows[j].profileId == profileId ==> a.city(rows[j].name) == ""
  }

  // ---------------------------------------------------------------- departments and positions

  /** Identifier lists without repetition, all of them known. */
  ghost predicate Linked(byProfile: map<int, seq<string>>, known: set<string>) {
    forall p :: p in byProfile ==> Distinct(byProfile[p]) && forall d :: d in byProfile[p] ==> d in known
  }

  lemma LinkOne(byProfile: map<int, seq<string>>, known: set<string>, p: int, id: string)
    requires Linked(byProfile, known)
    ensures Linked(AppendUnique(byProfile, p, id), known + {id})
  {
    var values := Lookup(byProfile, p, []);
    if id !in values { DistinctConcat(values, [id]); }
  }

  lemma SetDefaultKeys<V>(d: OD.Dict<V>, k: string, v: V)
    requires OD.WellFormed(d)
    ensures OD.WellFormed(OD.SetDefault(d, k, v)) && OD.Keys(OD.SetDefault(d, k, v)) == OD.Keys(d) + {k}
  {
    if k !in OD.Keys(d) {
      OD.PutNew(d, k, v);
      OD.PutKeys(d, k, v);
      OD.PutWellFormed(d, k, v);
    }
  }

  ghost predicate GoodDepartment(a: Adapter, id: string, d: Department) {
    && d.id == id && Solid(a.lang, id)
    && AliasesAllowed(a.lang, d.aliases) && AliasesApart(a.lang, d.aliases)
  }

  ghost predicate DepartmentsInv(a: Adapter, s: Departments) {
    && OD.WellFormed(s.byId)
    && (forall i :: 0 <= i < |s.byId| ==> GoodDepartment(a, s.byId[i].0, s.byId[i].1))
    && (forall k :: k in s.idByKey ==> Solid(a.lang, s.idByKey[k]))
    && Linked(s.byProfile, OD.Keys(s.byId))
  }

  lemma AddDepartmentKeeps(a: Adapter, cities: map<int, string>, aliases: map<string, OD.Dict<Alias>>, s: Departments, r: DepartmentRow)
    requires Sane(a) && DepartmentsInv(a, s)
    requires forall n :: n in aliases ==> GoodAliases(a.lang, aliases[n])
    ensures DepartmentsInv(a, AddDepartment(a, cities, aliases, s, r))
  {
    var city := Lookup(cities, r.profileId, "");
    var id := Lookup(s.idByKey, DepartmentKey(a, r, city), DepartmentId(a, r, city));
    StableIdSolid(a, "department", if r.code != "" then r.code + "|" + city else "", r.name + "|" + city);
    GoodAliasesFit(a, Lookup(aliases, r.name, []));
    SetDefaultKeys(s.byId, id, Department(id, r.name, city, OD.Values(Lookup(aliases, r.name, []))));
    LinkOne(s.byProfile, OD.Keys(s.byId), r.profileId, id);
  }

  lemma {:induction false} DepartmentsGood(a: Adapter, cities: map<int, string>, aliases: map<string, OD.Dict<Alias>>, rows: seq<DepartmentRow>)
    requires Sane(a)
    requires forall n :: n in aliases ==> GoodAliases(a.lang, aliases[n])
    ensures DepartmentsInv(a, AllDepartments(a, cities, aliases, rows))
    decreases |rows|
  {
    if rows != [] {
      var n := |rows| - 1;
      DepartmentsGood(a, cities, aliases, rows[..n]);
      AddDepartmentKeeps(a, cities, aliases, AllDepartments(a, cities, aliases, rows[..n]), rows[n]);
    }
  }

  ghost predicate GoodPosition(a: Adapter, id: string, p: Position) {
    && p.id == id && Solid(a.lang, id)
    && AliasesAllowed(a.lang, p.aliases) && AliasesApart(a.lang, p.aliases)
  }

  ghost predicate PositionsInv(a: Adapter, s: Positions) {
    && OD.WellFormed(s.byId)
    && (forall i :: 0 <= i < |s.byId| ==> GoodPosition(a, s.byId[i].0, s.byId[i].1))
    && (forall k :: k in s.idByKey ==> Solid(a.lang, s.idByKey[k]))
    && Linked(s.byProfile, OD.Keys(s.byId))
  }

  lemma PositionAliasesGood(a: Adapter, name: string)
    requires Sane(a)
    ensures var aliases := PositionAliases(a.lang, name); AliasesAllowed(a.lang, aliases) && AliasesApart(a.lang, aliases)
  {
    assert a.lang.normalize(Strip(a.lang, CHIEF)) == CHIEF;
    assert CHIEF[0] == 'н';
  }

  lemma AddPositionKeeps(a: Adapter, s: Positions, r: PositionRow)
    requires Sane(a) && PositionsInv(a, s)
    ensures PositionsInv(a, AddPosition(a, s, r))
  {
    var id := Lookup(s.idByKey, PositionKey(a, r), PositionId(a, r));
    StableIdSolid(a, "position", r.code, r.name);
    PositionAliasesGood(a, r.name);
    SetDefaultKeys(s.byId, id, Position(id, r.name, PositionAliases(a.lang, r.name)));
    LinkOne(s.byProfile, OD.Keys(s.byId), r.profileId, id);
  }

  lemma {:induction false} PositionsGood(a: Adapter, rows: seq<PositionRow>)
    requires Sane(a)
    ensures PositionsInv(a, AllPositions(a, rows))
    decreases |rows|
  {
    if rows != [] {
      var n := |rows| - 1;
      PositionsGood(a, rows[..n]);
      AddPositionKeeps(a, AllPositions(a, rows[..n]), rows[n]);
    }
  }

  // ---------------------------------------------------------------- roles and grants

  ghost predicate RoleOf(systemId: string, r: Role) {
    exists col :: r.id == RoleId(systemId, col, r.accessLevel)
  }

  ghost predicate GoodRoles(systemId: string, roles: seq<Role>) {
    && (forall i, j :: 0 <= i < j < |roles| ==> roles[i].id != roles[j].id)
    && (forall i :: 0 <= i < |roles| ==> RoleOf(systemId, roles[i]))
  }

  ghost predicate Lists(roles: seq<Role>, roleId: string) {
    exists i :: 0 <= i < |roles| && roles[i].id == roleId
  }

  ghost predicate GoodGrant(systemIds: map<int, string>, roles: map<string, seq<Role>>, systemId: string, ids: seq<string>) {
    && Distinct(ids) && systemId in systemIds.Values
    && forall r :: r in ids ==> Lists(Lookup(roles, systemId, []), r)
  }

  ghost predicate GoodGrants(systemIds: map<int, string>, roles: map<string, seq<Role>>, granted: OD.Dict<seq<string>>) {
    && OD.WellFormed(granted)
    && forall e :: e in granted ==> GoodGrant(systemIds, roles, e.0, e.1)
  }

  ghost predicate AccessInv(a: Adapter, systemIds: map<int, string>, s: Access) {
    && (forall k :: k in s.idByAccess ==>
          k.0 in systemIds && exists col :: s.idByAccess[k] == RoleId(systemIds[k.0], col, k.2))
    && (forall id :: id in s.roles ==> id in systemIds.Values && GoodRoles(id, s.roles[id]))
    && (forall p :: p in s.byProfile ==> GoodGrants(systemIds, s.roles, s.byProfile[p]))
  }

  lemma AddRoleGood(systemId: string, roles: seq<Role>, role: Role)
    requires GoodRoles(systemId, roles)
    requires RoleOf(systemId, role)
    ensures GoodRoles(systemId, AddRole(roles, role))
  {
    var more := AddRole(roles, role);
    if more != roles {
      forall i | 0 <= i < |roles| ensures roles[i].id != role.id { assert roles[i] in roles; }
    }
  }

  lemma AddRoleLists(roles: seq<Role>, role: Role)
    ensures forall r :: Lists(AddRole(roles, role), r) <==> Lists(roles, r) || r == role.id
  {
    var more := AddRole(roles, role);
    if exists r :: r in roles && r.id == role.id {
      var r :| r in roles && r.id == role.id;
      var i :| 0 <= i < |roles| && roles[i] == r;
    } else {
      assert more[|roles|] == role;
      forall r | Lists(roles, r) ensures Lists(more, r) {
        var i :| 0 <= i < |roles| && roles[i].id == r;
        assert more[i] == roles[i];
      }
    }
  }

  lemma MoreRolesKeepGrants(systemIds: map<int, string>, roles: map<string, seq<Role>>, granted: OD.Dict<seq<string>>, id: string, more: seq<Role>)
    requires GoodGrants(systemIds, roles, granted)
    requires forall r :: Lists(Lookup(roles, id, []), r) ==> Lists(more, r)
    ensures GoodGrants(systemIds, roles[id := more], granted)
  {
    forall e | e in granted ensures GoodGrant(systemIds, roles[id := more], e.0, e.1) {
      assert GoodGrant(systemIds, roles, e.0, e.1);
    }
  }

  lemma AddGrantGood(systemIds: map<int, string>, roles: map<string, seq<Role>>, granted: OD.Dict<seq<string>>, systemId: string, roleId: string)
    requires GoodGrants(systemIds, roles, granted) && systemId in systemIds.Values
    requires Lists(Lookup(roles, systemId, []), roleId)
    ensures GoodGrants(systemIds, roles, AddGrant(granted, systemId, roleId))
  {
    var ids := GrantsUnder(granted, systemId);
    var more := if roleId in ids then ids else ids + [roleId];
    assert GoodGrant(systemIds, roles, systemId, ids);
    if roleId !in ids { DistinctConcat(ids, [roleId]); }
    OD.PutEntries(granted, systemId, more);
    OD.PutWellFormed(granted, systemId, more);
  }

  /** The identifier used for a row names a role of its system and level. */
  lemma RowRole(a: Adapter, systemIds: map<int, string>, s: Access, r: AccessRow)
    requires AccessInv(a, systemIds, s) && r.systemId in systemIds
    ensures var systemId := systemIds[r.systemId];
      var id := Lookup(s.idByAccess, (r.systemId, r.entitlementId, r.accessLevel), RoleId(systemId, r.sourceCol, r.accessLevel));
      RoleOf(systemId, Role(id, RoleName(a.lang, r), r.accessLevel))
  {
  }

  lemma GrantsKept(systemIds: map<int, string>, s: Access, p: int, systemId: string, role: Role)
    requires systemId in systemIds.Values && forall q :: q in s.byProfile ==> GoodGrants(systemIds, s.roles, s.byProfile[q])
    ensures var roles := s.roles[systemId := AddRole(Lookup(s.roles, systemId, []), role)];
      var byProfile := s.byProfile[p := AddGrant(Lookup(s.byProfile, p, []), systemId, role.id)];
      forall q :: q in byProfile ==> GoodGrants(systemIds, roles, byProfile[q])
  {
    var known := Lookup(s.roles, systemId, []);
    AddRoleLists(known, role);
    var roles := s.roles[systemId := AddRole(known, role)];
    forall q | q in s.byProfile ensures GoodGrants(systemIds, roles, s.byProfile[q]) {
      MoreRolesKeepGrants(systemIds, s.roles, s.byProfile[q], systemId, AddRole(known, role));
    }
    AddGrantGood(systemIds, roles, Lookup(s.byProfile, p, []), systemId, role.id);
  }

  lemma NoRolesGood(systemId: string)
    ensures GoodRoles(systemId, [])
  {
  }

  lemma AddAccessKeeps(a: Adapter, systemIds: map<int, string>, s: Access, r: AccessRow)
    requires AccessInv(a, systemIds, s) && r.systemId in systemIds
    ensures AccessInv(a, systemIds, AddAccess(a, systemIds[r.systemId], s, r))
  {
    hide GoodGrants, GoodRoles, RoleOf, RoleName, RoleId, AddGrant;
    NoRolesGood(systemIds[r.systemId]);
    var systemId := systemIds[r.systemId];
    var key := (r.systemId, r.entitlementId, r.accessLevel);
    var role := Role(Lookup(s.idByAccess, key, RoleId(systemId, r.sourceCol, r.accessLevel)), RoleName(a.lang, r), r.accessLevel);
    RowRole(a, systemIds, s, r);
    AddRoleGood(systemId, Lookup(s.roles, systemId, []), role);
    GrantsKept(systemIds, s, r.profileId, systemId, role);
  }

  lemma {:induction false} AccessGood(a: Adapter, systemIds: map<int, string>, rows: seq<AccessRow>)
    requires AllAccess(a, systemIds, rows).Some?
    ensures AccessInv(a, systemIds, AllAccess(a, systemIds, rows).value)
    decreases |rows|
  {
    if rows != [] {
      var n := |rows| - 1;
      AccessGood(a, systemIds, rows[..n]);
      AddAccessKeeps(a, systemIds, AllAccess(a, systemIds, rows[..n]).value, rows[n]);
    }
  }

  // ---------------------------------------------------------------- the document is valid and fits

  /** Where an identifier occurs for the first time the row has a name to show; the names of later rows are not used. */
  ghost predicate FirstsNamed<T>(lang: Language, ids: seq<T>, names: seq<string>)
    requires |ids| == |names|
  {
    forall i :: 0 <= i < |ids| && ids[i] !in ids[..i] ==> Strip(lang, names[i]) != ""
  }

  lemma FirstsNamedNext<T>(lang: Language, ids: seq<T>, names: seq<string>, id: T, name: string)
    requires |ids| == |names|
    ensures FirstsNamed(lang, ids + [id], names + [name]) <==> FirstsNamed(lang, ids, names) && (id in ids || Strip(lang, name) != "")
  {
    var all, shown, n := ids + [id], names + [name], |ids|;
    assert forall i :: 0 <= i <= n ==> all[..i] == ids[..i];
    assert all[n] == id && shown[n] == name && ids[..n] == ids;
    if FirstsNamed(lang, all, shown) {
      forall i | 0 <= i < n && ids[i] !in ids[..i] ensures Strip(lang, names[i]) != "" {
        assert all[i] == ids[i] && all[i] !in all[..i] && shown[i] == names[i];
      }
    }
  }

  /** The identifier of each department row, that of the first row of its key. */
  function DepartmentRowIds(a: Adapter, cities: map<int, string>, aliases: map<string, OD.Dict<Alias>>, rows: seq<DepartmentRow>): (r: seq<string>)
    ensures |r| == |rows|
  {
    if rows == [] then []
    else
      var init, row := rows[..|rows| - 1], rows[|rows| - 1];
      var city := Lookup(cities, row.profileId, "");
      DepartmentRowIds(a, cities, aliases, init)
      + [Lookup(AllDepartments(a, cities, aliases, init).idByKey, DepartmentKey(a, row, city), DepartmentId(a, row, city))]
  }

  function PositionRowIds(a: Adapter, rows: seq<PositionRow>): (r: seq<string>)
    ensures |r| == |rows|
  {
    if rows == [] then []
    else
      var init, row := rows[..|rows| - 1], rows[|rows| - 1];
      PositionRowIds(a, init) + [Lookup(AllPositions(a, init).idByKey, PositionKey(a, row), PositionId(a, row))]
  }

  /** The system and role of each access row. */
  function AccessRowIds(a: Adapter, systemIds: map<int, string>, rows: seq<AccessRow>): (r: seq<(string, string)>)
    ensures |r| == |rows|
  {
    if rows == [] then []
    else
      var init, row := rows[..|rows| - 1], rows[|rows| - 1];
      var systemId := Lookup(systemIds, row.systemId, "");
      var own := RoleId(systemId, row.sourceCol, row.accessLevel);
      AccessRowIds(a, systemIds, init) +
      [(systemId, match AllAccess(a, systemIds, init)
                  case None => own
                  case Some(s) => Lookup(s.idByAccess, (row.systemId, row.entitlementId, row.accessLevel), own))]
  }

  function DepartmentNames(rows: seq<DepartmentRow>): seq<string> {
    seq(|rows|, i requires 0 <= i < |rows| => rows[i].name)
  }

  function PositionNames(rows: seq<PositionRow>): seq<string> {
    seq(|rows|, i requires 0 <= i < |rows| => rows[i].name)
  }

  function AccessNames(lang: Language, rows: seq<AccessRow>): seq<string> {
    seq(|rows|, i requires 0 <= i < |rows| => RoleName(lang, rows[i]))
  }

  /** Of every department, position and role the first row has a name to show. */
  ghost predicate Displayable(a: Adapter, s: Snapshot) {
    && FirstsNamed(a.lang,
                   DepartmentRowIds(a, Cities(a, s.segments), DepartmentAliases(a.lang, s.departmentAliases), s.departments),
                   DepartmentNames(s.departments))
    && FirstsNamed(a.lang, PositionRowIds(a, s.positions), PositionNames(s.positions))
    && FirstsNamed(a.lang, AccessRowIds(a, SystemIds(a, s.systems), s.accesses), AccessNames(a.lang, s.accesses))
  }

  lemma AppendKeys<V>(d: OD.Dict<V>, k: string, v: V)
    ensures OD.Keys(d + [(k, v)]) == OD.Keys(d) + {k}
  {
    var r := d + [(k, v)];
    assert r[|d|].0 == k;
    forall q | q in OD.Keys(d) ensures q in OD.Keys(r) {
      var i :| 0 <= i < |d| && d[i].0 == q;
      assert r[i].0 == q;
    }
  }

  /** A dictionary filled by `setdefault` holds the identifiers, and shows a name for each exactly when the first rows have one. */
  ghost predicate EntriesShown<V(!new)>(lang: Language, d: OD.Dict<V>, name: V -> string, ids: seq<string>, names: seq<string>)
    requires |ids| == |names|
  {
    && (forall k :: k in OD.Keys(d) <==> k in ids)
    && ((forall e :: e in d ==> Strip(lang, name(e.1)) != "") <==> FirstsNamed(lang, ids, names))
  }

  lemma EntriesShownNext<V(!new)>(lang: Language, d: OD.Dict<V>, name: V -> string, ids: seq<string>, names: seq<string>, id: string, v: V)
    requires |ids| == |names| && EntriesShown(lang, d, name, ids, names)
    ensures EntriesShown(lang, OD.SetDefault(d, id, v), name, ids + [id], names + [name(v)])
  {
    hide FirstsNamed;
    FirstsNamedNext(lang, ids, names, id, name(v));
    AppendKeys(d, id, v);
    var more := OD.SetDefault(d, id, v);
    assert forall e :: e in more <==> e in d || (id !in OD.Keys(d) && e == (id, v));
  }

  lemma NoEntriesShown<V(!new)>(lang: Language, name: V -> string)
    ensures EntriesShown<V>(lang, [], name, [], [])
  {
  }

  lemma {:induction false} DepartmentNamesKept(a: Adapter, cities: map<int, string>, aliases: map<string, OD.Dict<Alias>>, rows: seq<DepartmentRow>)
    ensures EntriesShown(a.lang, AllDepartments(a, cities, aliases, rows).byId, (d: Department) => d.name,
                         DepartmentRowIds(a, cities, aliases, rows), DepartmentNames(rows))
    decreases |rows|
  {
    hide EntriesShown, DepartmentKey, DepartmentId;
    var name := (d: Department) => d.name;
    if rows == [] {
      assert DepartmentNames(rows) == [];
      NoEntriesShown(a.lang, name);
    } else {
      var n := |rows| - 1;
      var init, row := rows[..n], rows[n];
      DepartmentNamesKept(a, cities, aliases, init);
      var s, ids := AllDepartments(a, cities, aliases, init), DepartmentRowIds(a, cities, aliases, init);
      var city := Lookup(cities, row.profileId, "");
      var id := Lookup(s.idByKey, DepartmentKey(a, row, city), DepartmentId(a, row, city));
      assert DepartmentNames(rows) == DepartmentNames(init) + [row.name];
      EntriesShownNext(a.lang, s.byId, name, ids, DepartmentNames(init), id,
                       Department(id, row.name, city, OD.Values(Lookup(aliases, row.name, []))));
    }
  }

  lemma {:induction false} PositionNamesKept(a: Adapter, rows: seq<PositionRow>)
    ensures EntriesShown(a.lang, AllPositions(a, rows).byId, (p: Position) => p.name, PositionRowIds(a, rows), PositionNames(rows))
    decreases |rows|
  {
    hide EntriesShown, PositionKey, PositionId;
    var name := (p: Position) => p.name;
    if rows == [] {
      assert PositionNames(rows) == [];
      NoEntriesShown(a.lang, name);
    } else {
      var n := |rows| - 1;
      var init, row := rows[..n], rows[n];
      PositionNamesKept(a, init);
      var s, ids := AllPositions(a, init), PositionRowIds(a, init);
      var id := Lookup(s.idByKey, PositionKey(a, row), PositionId(a, row));
      assert PositionNames(rows) == PositionNames(init) + [row.name];
      EntriesShownNext(a.lang, s.byId, name, ids, PositionNames(init), id, Position(id, row.name, PositionAliases(a.lang, row.name)));
    }
  }

  /** Every role collected has a name to show. */
  ghost predicate RolesShown(lang: Language, roles: map<string, seq<Role>>) {
    forall id, i :: id in roles && 0 <= i < |roles[id]| ==> Strip(lang, roles[id][i].name) != ""
  }

  lemma RoleShownNext(lang: Language, roles: map<string, seq<Role>>, systemId: string, role: Role)
    ensures RolesShown(lang, roles[systemId := AddRole(Lookup(roles, systemId, []), role)]) <==>
      RolesShown(lang, roles) && (Lists(Lookup(roles, systemId, []), role.id) || Strip(lang, role.name) != "")
  {
    var known := Lookup(roles, systemId, []);
    var more := AddRole(known, role);
    var after := roles[systemId := more];
    if Lists(known, role.id) {
      var i :| 0 <= i < |known| && known[i].id == role.id;
      assert known[i] in known && more == known;
    } else {
      forall r | r in known ensures r.id != role.id {
        var i :| 0 <= i < |known| && known[i] == r;
      }
      assert more == known + [role] && more[|known|] == role;
    }
    if RolesShown(lang, after) {
      forall id, i | id in roles && 0 <= i < |roles[id]| ensures Strip(lang, roles[id][i].name) != "" {
        if id == systemId { assert more[i] == known[i]; }
        assert after[id][i] == roles[id][i];
      }
      if !Lists(known, role.id) { assert after[systemId][|known|] == role; }
    }
  }

  /** The roles collected are those of the rows, and each shows a name exactly when its first row has one. */
  ghost predicate RoleEntriesShown(lang: Language, roles: map<string, seq<Role>>, ids: seq<(string, string)>, names: seq<string>)
    requires |ids| == |names|
  {
    && (forall id, r :: Lists(Lookup(roles, id, []), r) <==> (id, r) in ids)
    && (RolesShown(lang, roles) <==> FirstsNamed(lang, ids, names))
  }

  lemma RoleEntriesShownNext(lang: Language, roles: map<string, seq<Role>>, ids: seq<(string, string)>, names: seq<string>,
                             systemId: string, role: Role)
    requires |ids| == |names| && RoleEntriesShown(lang, roles, ids, names)
    ensures RoleEntriesShown(lang, roles[systemId := AddRole(Lookup(roles, systemId, []), role)],
                             ids + [(systemId, role.id)], names + [role.name])
  {
    hide FirstsNamed, RolesShown, Lists, AddRole;
    FirstsNamedNext(lang, ids, names, (systemId, role.id), role.name);
    RoleShownNext(lang, roles, systemId, role);
    AddRoleLists(Lookup(roles, systemId, []), role);
  }

  lemma NoRoleEntriesShown(lang: Language)
    ensures RoleEntriesShown(lang, map[], [], [])
  {
  }

  lemma {:induction false} AccessNamesKept(a: Adapter, systemIds: map<int, string>, rows: seq<AccessRow>)
    requires AllAccess(a, systemIds, rows).Some?
    ensures RoleEntriesShown(a.lang, AllAccess(a, systemIds, rows).value.roles,
                             AccessRowIds(a, systemIds, rows), AccessNames(a.lang, rows))
    decreases |rows|
  {
    hide RoleEntriesShown, RoleName, RoleId, AddRole, AddGrant;
    if rows == [] {
      assert AccessNames(a.lang, rows) == [];
      NoRoleEntriesShown(a.lang);
    } else {
      var n := |rows| - 1;
      var init, row := rows[..n], rows[n];
      AccessNamesKept(a, systemIds, init);
      var s, earlier, systemId := AllAccess(a, systemIds, init).value, AccessRowIds(a, systemIds, init), systemIds[row.systemId];
      var id := Lookup(s.idByAccess, (row.systemId, row.entitlementId, row.accessLevel), RoleId(systemId, row.sourceCol, row.accessLevel));
      var role := Role(id, RoleName(a.lang, row), row.accessLevel);
      assert AccessNames(a.lang, rows) == AccessNames(a.lang, init) + [role.name];
      RoleEntriesShownNext(a.lang, s.roles, earlier, AccessNames(a.lang, init), systemId, role);
    }
  }

  ghost predicate SystemsApart(a: Adapter, rows: seq<SystemRow>) {
    forall i, j :: 0 <= i < j < |rows| ==> SystemId(a, rows[i]) != SystemId(a, rows[j])
  }

  ghost predicate SystemsSound(a: Adapter, rows: seq<SystemRow>) {
    && (forall i :: 0 <= i < |rows| ==> Strip(a.lang, rows[i].name) != "")
    && SystemsApart(a, rows)
  }

  ghost predicate ProfilesSound(a: Adapter, rows: seq<ProfileRow>) {
    && (forall i :: 0 <= i < |rows| ==> Strip(a.lang, rows[i].name) != "")
    && (forall i, j :: 0 <= i < j < |rows| ==> ProfileId(a, rows[i]) != ProfileId(a, rows[j]))
  }

  /** For identifiers that stripping leaves alone, the validator asks for names and distinct identifiers. */
  lemma SolidEntries(lang: Language, e: seq<Entry>)
    requires forall i :: 0 <= i < |e| ==> Solid(lang, e[i].id)
    ensures UniqueRequired(lang, e) <==>
      && (forall i :: 0 <= i < |e| ==> Strip(lang, e[i].name) != "")
      && (forall i, j :: 0 <= i < j < |e| ==> e[i].id != e[j].id)
  {
    forall i | 0 <= i < |e| ensures Strip(lang, e[i].id) == e[i].id { SolidStrip(lang, e[i].id); }
  }

  lemma DepartmentsFit(a: Adapter, s: Departments)
    requires DepartmentsInv(a, s)
    ensures var rows := OD.Values(s.byId);
      && (UniqueRequired(a.lang, DepartmentEntries(rows)) <==> forall e :: e in s.byId ==> Strip(a.lang, e.1.name) != "")
      && Ids(DepartmentEntries(rows)) == OD.Keys(s.byId)
      && (forall d :: d in rows ==> AliasesAllowed(a.lang, d.aliases) && AliasesApart(a.lang, d.aliases))
  {
    hide Linked, Solid, AliasesAllowed, AliasesApart, UniqueRequired;
    var rows := OD.Values(s.byId);
    var e := DepartmentEntries(rows);
    assert forall i :: 0 <= i < |rows| ==> GoodDepartment(a, s.byId[i].0, rows[i]);
    SolidEntries(a.lang, e);
    assert forall i :: 0 <= i < |e| ==> e[i].id == s.byId[i].0 && e[i].name == s.byId[i].1.name;
    assert forall i :: 0 <= i < |e| ==> s.byId[i] in s.byId;
  }

  lemma PositionsFit(a: Adapter, s: Positions)
    requires PositionsInv(a, s)
    ensures var rows := OD.Values(s.byId);
      && (UniqueRequired(a.lang, PositionEntries(rows)) <==> forall e :: e in s.byId ==> Strip(a.lang, e.1.name) != "")
      && Ids(PositionEntries(rows)) == OD.Keys(s.byId)
      && (forall p :: p in rows ==> AliasesAllowed(a.lang, p.aliases) && AliasesApart(a.lang, p.aliases))
  {
    hide Linked, Solid, AliasesAllowed, AliasesApart, UniqueRequired;
    var rows := OD.Values(s.byId);
    var e := PositionEntries(rows);
    assert forall i :: 0 <= i < |rows| ==> GoodPosition(a, s.byId[i].0, rows[i]);
    SolidEntries(a.lang, e);
    assert forall i :: 0 <= i < |e| ==> e[i].id == s.byId[i].0 && e[i].name == s.byId[i].1.name;
    assert forall i :: 0 <= i < |e| ==> s.byId[i] in s.byId;
  }

  lemma SystemsUnique(a: Adapter, s: Snapshot, access: Access)
    requires Sane(a)
    ensures UniqueRequired(a.lang, SystemEntries(SystemsOf(a, s, access))) <==> SystemsSound(a, s.systems)
  {
    var e := SystemEntries(SystemsOf(a, s, access));
    forall i | 0 <= i < |e| ensures Solid(a.lang, e[i].id) {
      StableIdSolid(a, "system", s.systems[i].ciCode, s.systems[i].name);
    }
    assert forall i :: 0 <= i < |e| ==> e[i] == Entry(SystemId(a, s.systems[i]), s.systems[i].name);
    SolidEntries(a.lang, e);
  }

  lemma ProfilesUnique(a: Adapter, s: Snapshot, access: Access)
    requires Sane(a)
    ensures UniqueRequired(a.lang, ProfileEntries(ProfilesOf(a, s, access))) <==> ProfilesSound(a, s.profiles)
  {
    var e := ProfileEntries(ProfilesOf(a, s, access));
    forall i | 0 <= i < |e| ensures Solid(a.lang, e[i].id) {
      StableIdSolid(a, "profile", s.profiles[i].code, s.profiles[i].name);
    }
    assert forall i :: 0 <= i < |e| ==> e[i] == Entry(ProfileId(a, s.profiles[i]), s.profiles[i].name);
    SolidEntries(a.lang, e);
  }

  /** The roles of a listed system are those collected for its identifier, or none. */
  lemma SystemRolesGood(a: Adapter, systemIds: map<int, string>, s: Snapshot, access: Access, i: nat)
    requires AccessInv(a, systemIds, access) && i < |s.systems|
    ensures var y := SystemsOf(a, s, access)[i]; y.id == SystemId(a, s.systems[i]) && GoodRoles(y.id, y.roles)
  {
  }

  lemma SystemRolesUnique(a: Adapter, s: Snapshot, access: Access)
    requires Sane(a) && AccessInv(a, SystemIds(a, s.systems), access) && SystemsApart(a, s.systems)
    ensures (forall y :: y in SystemsOf(a, s, access) ==> UniqueRequired(a.lang, RoleEntries(y.roles))) <==> RolesShown(a.lang, access.roles)
  {
    hide Sane, AccessInv, GoodRoles, UniqueRequired;
    var systems, ids := SystemsOf(a, s, access), SystemIds(a, s.systems);
    forall i | 0 <= i < |systems|
      ensures UniqueRequired(a.lang, RoleEntries(systems[i].roles)) <==> RolesNamed(a.lang, Lookup(access.roles, systems[i].id, []))
    {
      SystemRolesGood(a, ids, s, access, i);
      RoleEntriesUnique(a, systems[i].id, systems[i].roles);
      RolesOfSystem(a, s, access, i);
    }
    if forall y :: y in systems ==> UniqueRequired(a.lang, RoleEntries(y.roles)) {
      forall id | id in access.roles ensures RolesNamed(a.lang, access.roles[id]) {
        var i := SystemWithRoles(a, s, access, id);
        assert systems[i] in systems;
      }
    }
  }

  ghost predicate RolesNamed(lang: Language, roles: seq<Role>) {
    forall i :: 0 <= i < |roles| ==> Strip(lang, roles[i].name) != ""
  }

  /** Roles are collected for listed systems only. */
  lemma SystemWithRoles(a: Adapter, s: Snapshot, access: Access, id: string) returns (i: nat)
    requires AccessInv(a, SystemIds(a, s.systems), access) && id in access.roles
    ensures i < |s.systems| && SystemsOf(a, s, access)[i].id == id
  {
    hide GoodRoles, GoodGrants;
    SystemIdsRange(a, s.systems);
    i :| 0 <= i < |s.systems| && SystemId(a, s.systems[i]) == id;
  }

  lemma RoleEntriesUnique(a: Adapter, systemId: string, roles: seq<Role>)
    requires Sane(a) && GoodRoles(systemId, roles)
    ensures UniqueRequired(a.lang, RoleEntries(roles)) <==> RolesNamed(a.lang, roles)
  {
    var e := RoleEntries(roles);
    forall k | 0 <= k < |e| ensures Solid(a.lang, e[k].id) {
      assert RoleOf(systemId, roles[k]);
      var col :| roles[k].id == RoleId(systemId, col, roles[k].accessLevel);
      RoleIdSolid(a, systemId, col, roles[k].accessLevel);
    }
    assert forall k :: 0 <= k < |e| ==> e[k] == Entry(roles[k].id, roles[k].name);
    SolidEntries(a.lang, e);
  }

  lemma ApartByPrefix(a: Adapter, s: string, u: string, x: Role, y: Role)
    requires s != u && RoleOf(s, x) && RoleOf(u, y)
    ensures x.id != y.id
  {
    var c :| x.id == RoleId(s, c, x.accessLevel);
    var d :| y.id == RoleId(u, d, y.accessLevel);
    if x.id == y.id { RoleIdInjective(s, c, x.accessLevel, u, d, y.accessLevel); }
  }

  lemma SystemRolesApart(a: Adapter, systemIds: map<int, string>, s: Snapshot, access: Access)
    requires AccessInv(a, systemIds, access) && SystemsSound(a, s.systems)
    ensures RolesApart(SystemsOf(a, s, access))
  {
    var systems := SystemsOf(a, s, access);
    forall i, j | 0 <= i < j < |systems| ensures RoleIds(systems[i]) !! RoleIds(systems[j]) {
      SystemRolesGood(a, systemIds, s, access, i);
      SystemRolesGood(a, systemIds, s, access, j);
      forall x, y | 0 <= x < |systems[i].roles| && 0 <= y < |systems[j].roles| ensures systems[i].roles[x].id != systems[j].roles[y].id {
        ApartByPrefix(a, systems[i].id, systems[j].id, systems[i].roles[x], systems[j].roles[y]);
      }
      RoleIdsAre(systems[i]);
      RoleIdsAre(systems[j]);
    }
  }

  lemma RoleIdsAre(y: System)
    ensures forall r :: r in RoleIds(y) <==> Lists(y.roles, r)
  {
    var e := RoleEntries(y.roles);
    assert forall i :: 0 <= i < |e| ==> e[i].id == y.roles[i].id;
    forall r | Lists(y.roles, r) ensures r in RoleIds(y) {
      var i :| 0 <= i < |y.roles| && y.roles[i].id == r;
      assert e[i].id == r;
    }
  }

  lemma {:induction false} SystemIdsRange(a: Adapter, rows: seq<SystemRow>)
    ensures forall v :: v in SystemIds(a, rows).Values ==> exists i :: 0 <= i < |rows| && SystemId(a, rows[i]) == v
    decreases |rows|
  {
    if rows != [] {
      var n := |rows| - 1;
      SystemIdsRange(a, rows[..n]);
      forall v | v in SystemIds(a, rows).Values ensures exists i :: 0 <= i < |rows| && SystemId(a, rows[i]) == v {
        if v == SystemId(a, rows[n]) {
        } else {
          assert v in SystemIds(a, rows[..n]).Values;
          var i :| 0 <= i < n && SystemId(a, rows[..n][i]) == v;
          assert SystemId(a, rows[i]) == v;
        }
      }
    }
  }

  /** With distinct identifiers each listed system carries all roles collected for it. */
  lemma RolesOfSystem(a: Adapter, s: Snapshot, access: Access, i: nat)
    requires SystemsApart(a, s.systems) && i < |s.systems|
    ensures SystemsOf(a, s, access)[i].roles == Lookup(access.roles, SystemId(a, s.systems[i]), [])
  {
  }

  lemma GrantFits(a: Adapter, s: Snapshot, access: Access, g: Grant)
    requires SystemsSound(a, s.systems) && GoodGrant(SystemIds(a, s.systems), access.roles, g.systemId, g.roleIds)
    ensures GrantAllowed(SystemsOf(a, s, access), g)
  {
    var systems := SystemsOf(a, s, access);
    SystemIdsRange(a, s.systems);
    var i :| 0 <= i < |s.systems| && SystemId(a, s.systems[i]) == g.systemId;
    RolesOfSystem(a, s, access, i);
    RoleIdsAre(systems[i]);
    assert SystemEntries(systems)[i].id == g.systemId;
    forall r | r in g.roleIds ensures OwnsRole(systems, g.systemId, r) {
      assert systems[i].id == g.systemId && r in RoleIds(systems[i]);
    }
  }

  lemma GrantsFit(a: Adapter, s: Snapshot, access: Access, granted: OD.Dict<seq<string>>)
    requires SystemsSound(a, s.systems) && GoodGrants(SystemIds(a, s.systems), access.roles, granted)
    ensures forall g :: g in GrantsOf(granted) ==> GrantAllowed(SystemsOf(a, s, access), g)
  {
    var grants := GrantsOf(granted);
    forall i | 0 <= i < |grants| ensures GrantAllowed(SystemsOf(a, s, access), grants[i]) {
      assert granted[i] in granted;
      GrantFits(a, s, access, grants[i]);
    }
  }

  lemma GrantsDistinct(systemIds: map<int, string>, roles: map<string, seq<Role>>, granted: OD.Dict<seq<string>>)
    requires GoodGrants(systemIds, roles, granted)
    ensures Distinct(Publication.GrantSystems(GrantsOf(granted))) && forall g :: g in GrantsOf(granted) ==> Distinct(g.roleIds)
  {
    var grants := GrantsOf(granted);
    forall i | 0 <= i < |grants| ensures Distinct(grants[i].roleIds) {
      assert granted[i] in granted;
      assert GoodGrant(systemIds, roles, granted[i].0, granted[i].1);
    }
    assert forall i :: 0 <= i < |grants| ==> Publication.GrantSystems(grants)[i] == granted[i].0;
  }

  lemma ProfileLinked(a: Adapter, s: Snapshot, r: ProfileRow)
    requires Sane(a)
    ensures var d, p := Lookup(DepartmentsOf(a, s).byProfile, r.id, []), Lookup(AllPositions(a, s.positions).byProfile, r.id, []);
      && Distinct(d) && Distinct(p)
      && (forall x :: x in d ==> x in Ids(DepartmentEntries(OD.Values(DepartmentsOf(a, s).byId))))
      && (forall x :: x in p ==> x in Ids(PositionEntries(OD.Values(AllPositions(a, s.positions).byId))))
  {
    hide Sane, GoodDepartment, GoodPosition;
    DepartmentAliasesGood(a.lang, s.departmentAliases);
    DepartmentsGood(a, Cities(a, s.segments), DepartmentAliases(a.lang, s.departmentAliases), s.departments);
    PositionsGood(a, s.positions);
    DepartmentsFit(a, DepartmentsOf(a, s));
    PositionsFit(a, AllPositions(a, s.positions));
  }

  lemma ProfileGood(a: Adapter, s: Snapshot, access: Access, r: ProfileRow)
    requires Sane(a) && AccessInv(a, SystemIds(a, s.systems), access)
    ensures var p, doc := ProfileOf(a, s, access, r), DocumentFrom(a, s, access);
      ProfileFits(p) && (SystemsSound(a, s.systems) ==> ProfileAllowed(doc, p))
  {
    hide Sane, SystemsSound, SystemsOf, DepartmentsOf, AllPositions, GoodRoles;
    ProfileLinked(a, s, r);
    var granted := Lookup(access.byProfile, r.id, []);
    GrantsDistinct(SystemIds(a, s.systems), access.roles, granted);
    if SystemsSound(a, s.systems) { GrantsFit(a, s, access, granted); }
  }

  /** The part of `Displayable` that speaks of departments and positions. */
  ghost predicate OrganizationNamed(a: Adapter, s: Snapshot) {
    && FirstsNamed(a.lang,
                   DepartmentRowIds(a, Cities(a, s.segments), DepartmentAliases(a.lang, s.departmentAliases), s.departments),
                   DepartmentNames(s.departments))
    && FirstsNamed(a.lang, PositionRowIds(a, s.positions), PositionNames(s.positions))
  }

  lemma DepartmentsAndPositionsFit(a: Adapter, s: Snapshot)
    requires Sane(a)
    ensures var d, p := OD.Values(DepartmentsOf(a, s).byId), OD.Values(AllPositions(a, s.positions).byId);
      && (UniqueRequired(a.lang, DepartmentEntries(d)) && UniqueRequired(a.lang, PositionEntries(p)) <==> OrganizationNamed(a, s))
      && (forall x :: x in d ==> AliasesAllowed(a.lang, x.aliases) && AliasesApart(a.lang, x.aliases))
      && (forall x :: x in p ==> AliasesAllowed(a.lang, x.aliases) && AliasesApart(a.lang, x.aliases))
  {
    DepartmentAliasesGood(a.lang, s.departmentAliases);
    DepartmentsGood(a, Cities(a, s.segments), DepartmentAliases(a.lang, s.departmentAliases), s.departments);
    PositionsGood(a, s.positions);
    DepartmentsFit(a, DepartmentsOf(a, s));
    PositionsFit(a, AllPositions(a, s.positions));
    DepartmentNamesKept(a, Cities(a, s.segments), DepartmentAliases(a.lang, s.departmentAliases), s.departments);
    PositionNamesKept(a, s.positions);
  }

  lemma SystemAliasesFit(a: Adapter, s: Snapshot, access: Access)
    requires Sane(a)
    ensures forall y :: y in SystemsOf(a, s, access) ==> AliasesAllowed(a.lang, y.aliases) && AliasesApart(a.lang, y.aliases)
  {
    var table := SystemAliases(a.lang, s.systemAliases);
    SystemAliasesGood(a.lang, s.systemAliases);
    forall i | 0 <= i < |s.systems|
      ensures var y := SystemsOf(a, s, access)[i]; AliasesAllowed(a.lang, y.aliases) && AliasesApart(a.lang, y.aliases)
    {
      GoodAliasesFit(a, Lookup(table, s.systems[i].id, []));
    }
  }

  lemma ProfilesGood(a: Adapter, s: Snapshot, access: Access)
    requires Sane(a) && AccessInv(a, SystemIds(a, s.systems), access)
    ensures var doc := DocumentFrom(a, s, access);
      && (forall p :: p in doc.profiles ==> ProfileFits(p))
      && (SystemsSound(a, s.systems) ==> forall p :: p in doc.profiles ==> ProfileAllowed(doc, p))
  {
    forall i | 0 <= i < |s.profiles|
      ensures var p := ProfilesOf(a, s, access)[i];
        ProfileFits(p) && (SystemsSound(a, s.systems) ==> ProfileAllowed(DocumentFrom(a, s, access), p))
    {
      ProfileGood(a, s, access, s.profiles[i]);
    }
  }

  lemma DocumentFits(a: Adapter, s: Snapshot, access: Access)
    requires Sane(a) && AccessInv(a, SystemIds(a, s.systems), access)
    ensures Insertable(a.lang, DocumentFrom(a, s, access))
  {
    DepartmentsAndPositionsFit(a, s);
    SystemAliasesFit(a, s, access);
    ProfilesGood(a, s, access);
  }

  lemma DocumentValid(a: Adapter, s: Snapshot, access: Access)
    requires Sane(a) && AllAccess(a, SystemIds(a, s.systems), s.accesses) == Some(access)
    ensures ValidDocument(a.lang, DocumentFrom(a, s, access)) <==>
      SystemsSound(a, s.systems) && ProfilesSound(a, s.profiles) && Displayable(a, s)
  {
    hide Sane, SystemsSound, ProfilesSound, AccessInv, UniqueRequired, FirstsNamed, RolesShown, Lists, AllAccess, SystemsOf, ProfilesOf, DepartmentsOf,
      AllPositions, RolesApart, ProfileAllowed, AliasesAllowed, AliasesApart, ProfileFits;
    var ids := SystemIds(a, s.systems);
    NoInstructions(a.lang);
    AccessGood(a, ids, s.accesses);
    AccessNamesKept(a, ids, s.accesses);
    VersionSolid(a, s);
    SolidStrip(a.lang, Version(a, s));
    DepartmentsAndPositionsFit(a, s);
    SystemAliasesFit(a, s, access);
    SystemsUnique(a, s, access);
    ProfilesUnique(a, s, access);
    if SystemsSound(a, s.systems) {
      assert SystemsApart(a, s.systems) by { SoundApart(a, s.systems); }
      SystemRolesUnique(a, s, access);
      SystemRolesApart(a, ids, s, access);
    }
    ProfilesGood(a, s, access);
  }

  lemma NoInstructions(lang: Language)
    ensures UniqueRequired(lang, InstructionEntries([]))
  {
  }

  lemma SoundApart(a: Adapter, rows: seq<SystemRow>)
    requires SystemsSound(a, rows)
    ensures SystemsApart(a, rows)
  {
  }

  /**
   * The translated document is accepted by the validator exactly when the system and profile
   * identifiers are distinct and named and the first row of every department, position and role has a
   * name to show; the tables take its rows in any case.
   */
  lemma TranslationValid(a: Adapter, s: Snapshot)
    requires Sane(a) && Translate(a, s).Some?
    ensures var doc := Translate(a, s).value;
      && (ValidDocument(a.lang, doc) <==> SystemsSound(a, s.systems) && ProfilesSound(a, s.profiles) && Displayable(a, s))
      && Insertable(a.lang, doc)
      && Strip(a.lang, doc.version) == doc.version
  {
    hide Sane, ValidDocument, Insertable, SystemsSound, ProfilesSound, Displayable, AccessInv;
    var access := AllAccess(a, SystemIds(a, s.systems), s.accesses).value;
    AccessGood(a, SystemIds(a, s.systems), s.accesses);
    DocumentFits(a, s, access);
    DocumentValid(a, s, access);
    VersionSolid(a, s);
    SolidStrip(a.lang, Version(a, s));
  }

  /** On a committed database a translated snapshot is published exactly when it is sound and its version is new. */
  lemma TranslationPublishes(a: Adapter, s: Snapshot, db: Publication.Db, sha: string)
    requires Sane(a) && Translate(a, s).Some? && Publication.Lifecycle(db)
    ensures Publication.Publish(a.lang, db, Translate(a, s).value, sha).1.Some? <==>
      SystemsSound(a, s.systems) && ProfilesSound(a, s.profiles) && Displayable(a, s) && Version(a, s) !in db.releases
  {
    hide Sane, ValidDocument, Insertable, SystemsSound, ProfilesSound, Displayable, Publication.Publish;
    TranslationValid(a, s);
    PublishOutcome(a.lang, db, Translate(a, s).value, sha);
  }

  // ---------------------------------------------------------------- the access relation is preserved

  /** The source column belongs to the entitlement. */
  ghost predicate ColumnsFixed(rows: seq<AccessRow>) {
    forall i, j :: 0 <= i < |rows| && 0 <= j < |rows| && rows[i].entitlementId == rows[j].entitlementId ==>
      rows[i].sourceCol == rows[j].sourceCol
  }

  /** Row r grants the role of that identifier in that system. */
  predicate SourceGrant(systemIds: map<int, string>, r: AccessRow, systemId: string, roleId: string) {
    && r.systemId in systemIds && systemIds[r.systemId] == systemId
    && RoleId(systemId, r.sourceCol, r.accessLevel) == roleId
  }

  ghost predicate Given(systemIds: map<int, string>, rows: seq<AccessRow>, profileId: int, systemId: string, roleId: string) {
    exists j :: 0 <= j < |rows| && rows[j].profileId == profileId && SourceGrant(systemIds, rows[j], systemId, roleId)
  }

  ghost predicate Needed(systemIds: map<int, string>, rows: seq<AccessRow>, systemId: string, roleId: string) {
    exists j :: 0 <= j < |rows| && SourceGrant(systemIds, rows[j], systemId, roleId)
  }

  function AccessKey(r: AccessRow): (int, int, int) {
    (r.systemId, r.entitlementId, r.accessLevel)
  }

  ghost predicate FromSomeRow(systemIds: map<int, string>, rows: seq<AccessRow>, k: (int, int, int), id: string) {
    exists j :: (
      && 0 <= j < |rows| && AccessKey(rows[j]) == k
      && SourceGrant(systemIds, rows[j], Lookup(systemIds, k.0, ""), id))
  }

  ghost predicate IdsFromRows(systemIds: map<int, string>, ids: map<(int, int, int), string>, rows: seq<AccessRow>) {
    forall k :: k in ids ==> FromSomeRow(systemIds, rows, k, ids[k])
  }

  ghost predicate GrantsMatch(systemIds: map<int, string>, byProfile: map<int, OD.Dict<seq<string>>>, rows: seq<AccessRow>) {
    forall p, s, r :: r in GrantsUnder(Lookup(byProfile, p, []), s) <==> Given(systemIds, rows, p, s, r)
  }

  ghost predicate RolesMatch(systemIds: map<int, string>, roles: map<string, seq<Role>>, rows: seq<AccessRow>) {
    forall s, r :: Lists(Lookup(roles, s, []), r) <==> Needed(systemIds, rows, s, r)
  }

  lemma GivenAppend(systemIds: map<int, string>, rows: seq<AccessRow>, x: AccessRow, p: int, s: string, r: string)
    ensures Given(systemIds, rows + [x], p, s, r) <==>
      Given(systemIds, rows, p, s, r) || (x.profileId == p && SourceGrant(systemIds, x, s, r))
    ensures Needed(systemIds, rows + [x], s, r) <==> Needed(systemIds, rows, s, r) || SourceGrant(systemIds, x, s, r)
  {
    var all := rows + [x];
    assert all[|rows|] == x;
    assert forall j :: 0 <= j < |rows| ==> all[j] == rows[j];
  }

  /** The identifier reused for a row is the one the row itself would get. */
  lemma OwnIdReused(systemIds: map<int, string>, ids: map<(int, int, int), string>, rows: seq<AccessRow>, x: AccessRow)
    requires IdsFromRows(systemIds, ids, rows) && ColumnsFixed(rows + [x]) && x.systemId in systemIds
    ensures var own := RoleId(systemIds[x.systemId], x.sourceCol, x.accessLevel);
      && Lookup(ids, AccessKey(x), own) == own
      && IdsFromRows(systemIds, ids[AccessKey(x) := own], rows + [x])
  {
    var all := rows + [x];
    var own := RoleId(systemIds[x.systemId], x.sourceCol, x.accessLevel);
    assert all[|rows|] == x && SourceGrant(systemIds, x, systemIds[x.systemId], own);
    assert forall j :: 0 <= j < |rows| ==> all[j] == rows[j];
    if AccessKey(x) in ids {
      var j :| 0 <= j < |rows| && AccessKey(rows[j]) == AccessKey(x) && SourceGrant(systemIds, rows[j], systemIds[x.systemId], ids[AccessKey(x)]);
      assert all[j].entitlementId == all[|rows|].entitlementId;
    }
    forall k | k in ids ensures FromSomeRow(systemIds, all, k, ids[k]) {
      var j :| 0 <= j < |rows| && AccessKey(rows[j]) == k && SourceGrant(systemIds, rows[j], Lookup(systemIds, k.0, ""), ids[k]);
      assert all[j] == rows[j];
    }
  }

  lemma AddGrantMeaning(granted: OD.Dict<seq<string>>, systemId: string, roleId: string, s: string, r: string)
    ensures r in GrantsUnder(AddGrant(granted, systemId, roleId), s) <==> r in GrantsUnder(granted, s) || (s == systemId && r == roleId)
  {
    var ids := GrantsUnder(granted, systemId);
    var more := if roleId in ids then ids else ids + [roleId];
    OD.PutGet(granted, systemId, more);
    if s != systemId { OD.PutOther(granted, systemId, more, s); }
  }

  lemma GrantsMatchNext(systemIds: map<int, string>, byProfile: map<int, OD.Dict<seq<string>>>, rows: seq<AccessRow>, x: AccessRow)
    requires GrantsMatch(systemIds, byProfile, rows) && x.systemId in systemIds
    ensures var s := systemIds[x.systemId];
      var granted := AddGrant(Lookup(byProfile, x.profileId, []), s, RoleId(s, x.sourceCol, x.accessLevel));
      GrantsMatch(systemIds, byProfile[x.profileId := granted], rows + [x])
  {
    var sid := systemIds[x.systemId];
    var rid := RoleId(sid, x.sourceCol, x.accessLevel);
    var before := Lookup(byProfile, x.profileId, []);
    var after := byProfile[x.profileId := AddGrant(before, sid, rid)];
    forall p, s, r ensures r in GrantsUnder(Lookup(after, p, []), s) <==> Given(systemIds, rows + [x], p, s, r) {
      GivenAppend(systemIds, rows, x, p, s, r);
      AddGrantMeaning(before, sid, rid, s, r);
      assert r in GrantsUnder(Lookup(byProfile, p, []), s) <==> Given(systemIds, rows, p, s, r);
    }
  }

  lemma RolesMatchNext(systemIds: map<int, string>, roles: map<string, seq<Role>>, rows: seq<AccessRow>, x: AccessRow, role: Role)
    requires RolesMatch(systemIds, roles, rows) && x.systemId in systemIds
    requires role.id == RoleId(systemIds[x.systemId], x.sourceCol, x.accessLevel)
    ensures var s := systemIds[x.systemId];
      RolesMatch(systemIds, roles[s := AddRole(Lookup(roles, s, []), role)], rows + [x])
  {
    var sid := systemIds[x.systemId];
    var after := roles[sid := AddRole(Lookup(roles, sid, []), role)];
    AddRoleLists(Lookup(roles, sid, []), role);
    forall s, r ensures Lists(Lookup(after, s, []), r) <==> Needed(systemIds, rows + [x], s, r) {
      GivenAppend(systemIds, rows, x, x.profileId, s, r);
      assert Lists(Lookup(roles, s, []), r) <==> Needed(systemIds, rows, s, r);
    }
  }

  lemma {:induction false} AccessMeaning(a: Adapter, systemIds: map<int, string>, rows: seq<AccessRow>)
    requires ColumnsFixed(rows) && AllAccess(a, systemIds, rows).Some?
    ensures var s := AllAccess(a, systemIds, rows).value;
      && IdsFromRows(systemIds, s.idByAccess, rows)
      && GrantsMatch(systemIds, s.byProfile, rows)
      && RolesMatch(systemIds, s.roles, rows)
    decreases |rows|
  {
    hide IdsFromRows, GrantsMatch, RolesMatch, ColumnsFixed, RoleId, RoleName, AddRole, AddGrant, AccessKey;
    if rows == [] {
      NoAccessMeaning(systemIds);
    } else {
      var n := |rows| - 1;
      var init, x := rows[..n], rows[n];
      assert rows == init + [x];
      ColumnsPrefix(init, x);
      AccessMeaning(a, systemIds, init);
      var s := AllAccess(a, systemIds, init).value;
      OwnIdReused(systemIds, s.idByAccess, init, x);
      GrantsMatchNext(systemIds, s.byProfile, init, x);
      var own := RoleId(systemIds[x.systemId], x.sourceCol, x.accessLevel);
      RolesMatchNext(systemIds, s.roles, init, x, Role(own, RoleName(a.lang, x), x.accessLevel));
      KeyOfRow(x);
    }
  }

  lemma KeyOfRow(x: AccessRow)
    ensures AccessKey(x) == (x.systemId, x.entitlementId, x.accessLevel)
  {
  }

  lemma ColumnsPrefix(rows: seq<AccessRow>, x: AccessRow)
    requires ColumnsFixed(rows + [x])
    ensures ColumnsFixed(rows)
  {
    var all := rows + [x];
    assert forall i :: 0 <= i < |rows| ==> all[i] == rows[i];
  }

  lemma NoAccessMeaning(systemIds: map<int, string>)
    ensures IdsFromRows(systemIds, map[], []) && GrantsMatch(systemIds, map[], []) && RolesMatch(systemIds, map[], [])
  {
  }

  ghost predicate ProfileGrants(p: Profile, systemId: string, roleId: string) {
    exists g :: g in p.access && g.systemId == systemId && roleId in g.roleIds
  }

  lemma GrantsOfMeaning(granted: OD.Dict<seq<string>>, s: string, r: string)
    requires OD.WellFormed(granted)
    ensures r in GrantsUnder(granted, s) <==> exists g :: g in GrantsOf(granted) && g.systemId == s && r in g.roleIds
  {
    var grants := GrantsOf(granted);
    if g :| g in grants && g.systemId == s && r in g.roleIds {
      var i :| 0 <= i < |grants| && grants[i] == g;
      OD.GetAt(granted, i);
    }
    if r in GrantsUnder(granted, s) {
      var ids := OD.Get(granted, s).value;
      var i :| 0 <= i < |granted| && granted[i] == (s, ids);
      assert grants[i] == Grant(s, ids);
    }
  }

  lemma {:induction false} SystemIdsAt(a: Adapter, rows: seq<SystemRow>, k: nat)
    requires k < |rows| && forall i, j :: 0 <= i < j < |rows| ==> rows[i].id != rows[j].id
    ensures rows[k].id in SystemIds(a, rows) && SystemIds(a, rows)[rows[k].id] == SystemId(a, rows[k])
    decreases |rows|
  {
    if k < |rows| - 1 { SystemIdsAt(a, rows[..|rows| - 1], k); }
  }

  lemma {:induction false} SystemIdsKeys(a: Adapter, rows: seq<SystemRow>, id: int)
    ensures id in SystemIds(a, rows) <==> exists k :: 0 <= k < |rows| && rows[k].id == id
    decreases |rows|
  {
    if rows != [] {
      SystemIdsKeys(a, rows[..|rows| - 1], id);
      if id in SystemIds(a, rows[..|rows| - 1]) {
        var k :| 0 <= k < |rows| - 1 && rows[..|rows| - 1][k].id == id;
        assert rows[k].id == id;
      }
    }
  }

  /** The translation fails exactly when an entitlement belongs to no system of the snapshot. */
  lemma {:induction false} TranslationFails(a: Adapter, s: Snapshot)
    ensures Translate(a, s).None? <==>
      exists i :: 0 <= i < |s.accesses| && forall k :: 0 <= k < |s.systems| ==> s.systems[k].id != s.accesses[i].systemId
  {
    var ids := SystemIds(a, s.systems);
    if AllAccess(a, ids, s.accesses).None? {
      var i := AccessCulprit(a, ids, s.accesses);
      SystemIdsKeys(a, s.systems, s.accesses[i].systemId);
    }
    if i :| 0 <= i < |s.accesses| && forall k :: 0 <= k < |s.systems| ==> s.systems[k].id != s.accesses[i].systemId {
      SystemIdsKeys(a, s.systems, s.accesses[i].systemId);
      AccessFails(a, ids, s.accesses, i);
    }
  }

  lemma {:induction false} AccessCulprit(a: Adapter, systemIds: map<int, string>, rows: seq<AccessRow>) returns (i: nat)
    requires AllAccess(a, systemIds, rows).None?
    ensures i < |rows| && rows[i].systemId !in systemIds
    decreases |rows|
  {
    var n := |rows| - 1;
    if AllAccess(a, systemIds, rows[..n]).None? { i := AccessCulprit(a, systemIds, rows[..n]); } else { i := n; }
  }

  /** The source tables use their primary keys. */
  ghost predicate SystemKeys(rows: seq<SystemRow>) {
    forall i, j :: 0 <= i < j < |rows| ==> rows[i].id != rows[j].id
  }

  /** Some source row gives the profile this column and level of the system. */
  ghost predicate SourceAccess(s: Snapshot, profileId: int, systemId: int, col: int, level: int) {
    exists j :: (
      && 0 <= j < |s.accesses| && s.accesses[j].profileId == profileId && s.accesses[j].systemId == systemId
      && s.accesses[j].sourceCol == col && s.accesses[j].accessLevel == level)
  }

  lemma GivenIsSource(a: Adapter, s: Snapshot, k: nat, profileId: int, col: int, level: int)
    requires SystemsApart(a, s.systems) && SystemKeys(s.systems) && k < |s.systems|
    ensures var sid := SystemId(a, s.systems[k]);
      Given(SystemIds(a, s.systems), s.accesses, profileId, sid, RoleId(sid, col, level)) <==>
        SourceAccess(s, profileId, s.systems[k].id, col, level)
  {
    hide RoleId, SystemId, SystemIds;
    var ids, sid := SystemIds(a, s.systems), SystemId(a, s.systems[k]);
    SystemIdsAt(a, s.systems, k);
    forall j | 0 <= j < |s.accesses|
      ensures SourceGrant(ids, s.accesses[j], sid, RoleId(sid, col, level)) <==>
        s.accesses[j].systemId == s.systems[k].id && s.accesses[j].sourceCol == col && s.accesses[j].accessLevel == level
    {
      var r := s.accesses[j];
      if SourceGrant(ids, r, sid, RoleId(sid, col, level)) {
        RoleIdInjective(sid, r.sourceCol, r.accessLevel, sid, col, level);
        SystemIdsKeys(a, s.systems, r.systemId);
        var m :| 0 <= m < |s.systems| && s.systems[m].id == r.systemId;
        SystemIdsAt(a, s.systems, m);
      }
    }
  }

  lemma ProfileGrantsGiven(a: Adapter, s: Snapshot, access: Access, r: ProfileRow, systemId: string, roleId: string)
    requires ColumnsFixed(s.accesses)
    requires AllAccess(a, SystemIds(a, s.systems), s.accesses) == Some(access)
    ensures ProfileGrants(ProfileOf(a, s, access, r), systemId, roleId) <==>
      Given(SystemIds(a, s.systems), s.accesses, r.id, systemId, roleId)
  {
    hide SystemIds, AllAccess, ColumnsFixed, RolesMatch, GoodRoles, GoodGrant, SourceGrant, Given, DepartmentsOf, AllPositions, GrantsOf;
    var ids := SystemIds(a, s.systems);
    AccessGood(a, ids, s.accesses);
    AccessMeaning(a, ids, s.accesses);
    GrantsOfMeaning(Lookup(access.byProfile, r.id, []), systemId, roleId);
    assert roleId in GrantsUnder(Lookup(access.byProfile, r.id, []), systemId) <==> Given(ids, s.accesses, r.id, systemId, roleId);
  }

  /**
   * The access relation survives: a profile of the document has the role of a system, source column
   * and level exactly when some source row grants it.
   */
  lemma AccessPreserved(a: Adapter, s: Snapshot, i: nat, k: nat, col: int, level: int)
    requires Translate(a, s).Some? && ColumnsFixed(s.accesses)
    requires SystemsApart(a, s.systems) && SystemKeys(s.systems)
    requires i < |s.profiles| && k < |s.systems|
    ensures var doc := Translate(a, s).value;
      var systemId := doc.systems[k].id;
      ProfileGrants(doc.profiles[i], systemId, RoleId(systemId, col, level)) <==>
        SourceAccess(s, s.profiles[i].id, s.systems[k].id, col, level)
  {
    var sid := SystemId(a, s.systems[k]);
    var access := AllAccess(a, SystemIds(a, s.systems), s.accesses).value;
    ProfileGrantsGiven(a, s, access, s.profiles[i], sid, RoleId(sid, col, level));
    GivenIsSource(a, s, k, s.profiles[i].id, col, level);
  }

  /** Nothing else is granted: every role of a profile is that of some source row of the profile. */
  lemma NoForeignGrants(a: Adapter, s: Snapshot, i: nat, systemId: string, roleId: string)
    requires Translate(a, s).Some? && ColumnsFixed(s.accesses) && i < |s.profiles|
    requires ProfileGrants(Translate(a, s).value.profiles[i], systemId, roleId)
    ensures Given(SystemIds(a, s.systems), s.accesses, s.profiles[i].id, systemId, roleId)
  {
    var access := AllAccess(a, SystemIds(a, s.systems), s.accesses).value;
    ProfileGrantsGiven(a, s, access, s.profiles[i], systemId, roleId);
  }

  /** A system lists exactly the roles that some access row names, with the level of the row. */
  lemma RolesPreserved(a: Adapter, s: Snapshot, k: nat, col: int, level: int)
    requires Translate(a, s).Some? && ColumnsFixed(s.accesses)
    requires SystemsApart(a, s.systems) && SystemKeys(s.systems) && k < |s.systems|
    ensures var y := Translate(a, s).value.systems[k];
      (exists r :: r in y.roles && r.id == RoleId(y.id, col, level) && r.accessLevel == level) <==>
        exists p :: SourceAccess(s, p, s.systems[k].id, col, level)
  {
    var ids, sid := SystemIds(a, s.systems), SystemId(a, s.systems[k]);
    var rid := RoleId(sid, col, level);
    var access := AllAccess(a, ids, s.accesses).value;
    AccessGood(a, ids, s.accesses);
    AccessMeaning(a, ids, s.accesses);
    RolesOfSystem(a, s, access, k);
    var roles := Lookup(access.roles, sid, []);
    assert GoodRoles(sid, roles);
    assert Lists(roles, rid) <==> Needed(ids, s.accesses, sid, rid);
    if Lists(roles, rid) {
      var n :| 0 <= n < |roles| && roles[n].id == rid;
      assert RoleOf(sid, roles[n]);
      var c :| roles[n].id == RoleId(sid, c, roles[n].accessLevel);
      RoleIdInjective(sid, col, level, sid, c, roles[n].accessLevel);
      assert roles[n] in roles;
      var j :| 0 <= j < |s.accesses| && SourceGrant(ids, s.accesses[j], sid, rid);
      assert Given(ids, s.accesses, s.accesses[j].profileId, sid, rid);
      GivenIsSource(a, s, k, s.accesses[j].profileId, col, level);
    }
    if p :| SourceAccess(s, p, s.systems[k].id, col, level) {
      GivenIsSource(a, s, k, p, col, level);
      var j :| 0 <= j < |s.accesses| && s.accesses[j].profileId == p && SourceGrant(ids, s.accesses[j], sid, rid);
      assert Needed(ids, s.accesses, sid, rid);
    }
  }

  // ---------------------------------------------------------------- departments and positions of a profile

  /** What department rows and position rows have in common: a profile, a merging key and the identifier of their own. */
  datatype Link<K> = Link(profileId: int, key: K, ownId: string)

  function DepartmentLinks(a: Adapter, cities: map<int, string>, rows: seq<DepartmentRow>): seq<Link<(string, string)>> {
    seq(|rows|, i requires 0 <= i < |rows| =>
      var city := Lookup(cities, rows[i].profileId, "");
      Link(rows[i].profileId, DepartmentKey(a, rows[i], city), DepartmentId(a, rows[i], city)))
  }

  function PositionLinks(a: Adapter, rows: seq<PositionRow>): seq<Link<string>> {
    seq(|rows|, i requires 0 <= i < |rows| => Link(rows[i].profileId, PositionKey(a, rows[i]), PositionId(a, rows[i])))
  }

  /** Row f is the first with the key of row j; all rows of a key share its identifier. */
  ghost predicate FirstOfKey<K>(links: seq<Link<K>>, j: int, f: int) {
    && 0 <= f <= j < |links| && links[f].key == links[j].key
    && forall i :: 0 <= i < f ==> links[i].key != links[j].key
  }

  /** Some row of the profile carries, through the first row of its key, this identifier. */
  ghost predicate Linking<K>(links: seq<Link<K>>, profileId: int, id: string) {
    exists j, f :: FirstOfKey(links, j, f) && links[j].profileId == profileId && links[f].ownId == id
  }

  ghost predicate KeysMatch<K>(links: seq<Link<K>>, ids: map<K, string>) {
    && (forall j :: 0 <= j < |links| ==> links[j].key in ids)
    && (forall k :: k in ids ==> exists f :: FirstOfKey(links, f, f) && links[f].key == k && links[f].ownId == ids[k])
  }

  ghost predicate LinksMatch<K>(links: seq<Link<K>>, byProfile: map<int, seq<string>>) {
    forall p, id :: id in Lookup(byProfile, p, []) <==> Linking(links, p, id)
  }

  lemma FirstExtends<K>(links: seq<Link<K>>, x: Link<K>, j: int, f: int)
    requires 0 <= j < |links|
    ensures FirstOfKey(links + [x], j, f) <==> FirstOfKey(links, j, f)
  {
    var all := links + [x];
    assert forall i :: 0 <= i < |links| ==> all[i] == links[i];
  }

  lemma KeysMatchNext<K>(links: seq<Link<K>>, ids: map<K, string>, x: Link<K>)
    requires KeysMatch(links, ids)
    ensures KeysMatch(links + [x], ids[x.key := Lookup(ids, x.key, x.ownId)])
  {
    var all, after := links + [x], ids[x.key := Lookup(ids, x.key, x.ownId)];
    assert forall i :: 0 <= i < |links| ==> all[i] == links[i];
    forall k | k in after ensures exists f :: FirstOfKey(all, f, f) && all[f].key == k && all[f].ownId == after[k] {
      if k in ids {
        var f :| FirstOfKey(links, f, f) && links[f].key == k && links[f].ownId == ids[k];
        FirstExtends(links, x, f, f);
      } else {
        assert FirstOfKey(all, |links|, |links|);
      }
    }
  }

  /** The identifier found for a new row is that of the first row of its key. */
  lemma FirstFound<K>(links: seq<Link<K>>, ids: map<K, string>, x: Link<K>) returns (f: int)
    requires KeysMatch(links, ids)
    ensures FirstOfKey(links + [x], |links|, f) && (links + [x])[f].ownId == Lookup(ids, x.key, x.ownId)
  {
    var all := links + [x];
    assert forall i :: 0 <= i < |links| ==> all[i] == links[i];
    if x.key in ids {
      f :| FirstOfKey(links, f, f) && links[f].key == x.key && links[f].ownId == ids[x.key];
    } else {
      f := |links|;
    }
  }

  lemma LinksMatchNext<K>(links: seq<Link<K>>, ids: map<K, string>, byProfile: map<int, seq<string>>, x: Link<K>)
    requires KeysMatch(links, ids) && LinksMatch(links, byProfile)
    ensures LinksMatch(links + [x], AppendUnique(byProfile, x.profileId, Lookup(ids, x.key, x.ownId)))
  {
    var all, id0 := links + [x], Lookup(ids, x.key, x.ownId);
    var n := |links|;
    var f0 := FirstFound(links, ids, x);
    forall p, id ensures Linking(all, p, id) <==> Linking(links, p, id) || (p == x.profileId && id == id0) {
      if Linking(links, p, id) {
        var j, f :| FirstOfKey(links, j, f) && links[j].profileId == p && links[f].ownId == id;
        FirstExtends(links, x, j, f);
      }
      if Linking(all, p, id) {
        var j, f :| FirstOfKey(all, j, f) && all[j].profileId == p && all[f].ownId == id;
        if j < n { FirstExtends(links, x, j, f); } else { assert f == f0; }
      }
      if p == x.profileId && id == id0 { assert FirstOfKey(all, n, f0) && all[n].profileId == p; }
    }
    forall p, id ensures id in Lookup(AppendUnique(byProfile, x.profileId, id0), p, []) <==> Linking(all, p, id) {
      assert id in Lookup(byProfile, p, []) <==> Linking(links, p, id);
    }
  }

  lemma NoLinksMatch<K>()
    ensures KeysMatch<K>([], map[]) && LinksMatch<K>([], map[])
  {
  }

  /** A profile keeps exactly the departments its rows name, rows of one key sharing the identifier of the first. */
  lemma {:induction false} DepartmentsPreserved(a: Adapter, cities: map<int, string>, aliases: map<string, OD.Dict<Alias>>, rows: seq<DepartmentRow>)
    ensures var s := AllDepartments(a, cities, aliases, rows);
      KeysMatch(DepartmentLinks(a, cities, rows), s.idByKey) && LinksMatch(DepartmentLinks(a, cities, rows), s.byProfile)
    decreases |rows|
  {
    hide KeysMatch, LinksMatch, DepartmentKey, DepartmentId;
    if rows == [] {
      NoLinksMatch<(string, string)>();
    } else {
      var n := |rows| - 1;
      DepartmentsPreserved(a, cities, aliases, rows[..n]);
      var links := DepartmentLinks(a, cities, rows);
      assert links == DepartmentLinks(a, cities, rows[..n]) + [links[n]];
      var s := AllDepartments(a, cities, aliases, rows[..n]);
      KeysMatchNext(links[..n], s.idByKey, links[n]);
      LinksMatchNext(links[..n], s.idByKey, s.byProfile, links[n]);
    }
  }

  /** Likewise for positions. */
  lemma {:induction false} PositionsPreserved(a: Adapter, rows: seq<PositionRow>)
    ensures var s := AllPositions(a, rows);
      KeysMatch(PositionLinks(a, rows), s.idByKey) && LinksMatch(PositionLinks(a, rows), s.byProfile)
    decreases |rows|
  {
    hide KeysMatch, LinksMatch, PositionKey, PositionId;
    if rows == [] {
      NoLinksMatch<string>();
    } else {
      var n := |rows| - 1;
      PositionsPreserved(a, rows[..n]);
      var links := PositionLinks(a, rows);
      assert links == PositionLinks(a, rows[..n]) + [links[n]];
      var s := AllPositions(a, rows[..n]);
      KeysMatchNext(links[..n], s.idByKey, links[n]);
      LinksMatchNext(links[..n], s.idByKey, s.byProfile, links[n]);
    }
  }
}
