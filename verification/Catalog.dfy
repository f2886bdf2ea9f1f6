/**
 * The catalog document, the validator that guards publication, and the
 * immutable bundle that the agent and the search tools read.
 */
module Catalog {
  import opened Prelude
  import W = Words

  /**
   * Everything taken from Unicode tables, regular expressions, difflib and rounding to four digits.
   * Module Normalization supplies a concrete `normalize` and `number`.
   */
  datatype Language = Language(
    normalize: string -> string,
    number: string -> Option<nat>,
    isSpace: char -> bool,
    ratio: (string, string) -> real,
    rounded: real -> real)

  /** An alias mark after upper-casing; Unsafe stands for every mark the validator refuses. */
  datatype Safety = Absent | Safe | Ambiguous | Unsafe

  datatype Alias = Alias(value: string, safety: Safety)
  datatype Role = Role(id: string, name: string, accessLevel: int)
  datatype System = System(id: string, name: string, aliases: seq<Alias>, roles: seq<Role>)
  datatype Department = Department(id: string, name: string, city: string, aliases: seq<Alias>)
  datatype Position = Position(id: string, name: string, aliases: seq<Alias>)
  datatype Grant = Grant(systemId: string, roleIds: seq<string>)
  datatype Profile = Profile(
    id: string, name: string, city: string,
    departmentIds: seq<string>, positionIds: seq<string>, access: seq<Grant>)
  datatype Instruction = Instruction(id: string, title: string, systemId: string, citation: string)

  datatype Document = Document(
    version: string,
    departments: seq<Department>,
    positions: seq<Position>,
    systems: seq<System>,
    profiles: seq<Profile>,
    instructions: seq<Instruction>)

  function Strip(lang: Language, s: string): string {
    W.Strip(lang.isSpace, s)
  }

  // ---------------------------------------------------------------- validation

  /** A collection entry as `_validate_unique_required` sees it: identifier and display name. */
  datatype Entry = Entry(id: string, name: string)

  function DepartmentEntries(s: seq<Department>): seq<Entry> {
    seq(|s|, i requires 0 <= i < |s| => Entry(s[i].id, s[i].name))
  }

  function PositionEntries(s: seq<Position>): seq<Entry> {
    seq(|s|, i requires 0 <= i < |s| => Entry(s[i].id, s[i].name))
  }

  function SystemEntries(s: seq<System>): seq<Entry> {
    seq(|s|, i requires 0 <= i < |s| => Entry(s[i].id, s[i].name))
  }

  function RoleEntries(s: seq<Role>): seq<Entry> {
    seq(|s|, i requires 0 <= i < |s| => Entry(s[i].id, s[i].name))
  }

  function ProfileEntries(s: seq<Profile>): seq<Entry> {
    seq(|s|, i requires 0 <= i < |s| => Entry(s[i].id, s[i].name))
  }

  function InstructionEntries(s: seq<Instruction>): seq<Entry> {
    seq(|s|, i requires 0 <= i < |s| => Entry(s[i].id, s[i].title))
  }

  ghost predicate UniqueRequired(lang: Language, s: seq<Entry>) {
    && (forall i :: 0 <= i < |s| ==> Strip(lang, s[i].id) != "" && Strip(lang, s[i].name) != "")
    && (forall i, j :: 0 <= i < j < |s| ==> Strip(lang, s[i].id) != Strip(lang, s[j].id))
  }

  function Ids(s: seq<Entry>): set<string> {
    set i | 0 <= i < |s| :: s[i].id
  }

  ghost predicate AliasesAllowed(lang: Language, aliases: seq<Alias>) {
    forall a :: a in aliases ==> lang.normalize(Strip(lang, a.value)) != "" && a.safety != Unsafe
  }

  function RoleIds(s: System): set<string> {
    Ids(RoleEntries(s.roles))
  }

  /** No role identifier occurs in two systems. */
  ghost predicate RolesApart(systems: seq<System>) {
    forall i, j :: 0 <= i < j < |systems| ==> RoleIds(systems[i]) !! RoleIds(systems[j])
  }

  ghost predicate OwnsRole(systems: seq<System>, systemId: string, roleId: string) {
    exists i :: 0 <= i < |systems| && systems[i].id == systemId && roleId in RoleIds(systems[i])
  }

  ghost predicate GrantAllowed(systems: seq<System>, g: Grant) {
    && g.systemId in Ids(SystemEntries(systems))
    && forall r :: r in g.roleIds ==> OwnsRole(systems, g.systemId, r)
  }

  ghost predicate ProfileAllowed(doc: Document, p: Profile) {
    && (forall d :: d in p.departmentIds ==> d in Ids(DepartmentEntries(doc.departments)))
    && (forall d :: d in p.positionIds ==> d in Ids(PositionEntries(doc.positions)))
    && (forall g :: g in p.access ==> GrantAllowed(doc.systems, g))
  }

  /** What a published catalog promises; `ValidateCatalog` decides exactly this. */
  ghost predicate ValidDocument(lang: Language, doc: Document) {
    && Strip(lang, doc.version) != ""
    && UniqueRequired(lang, DepartmentEntries(doc.departments))
    && UniqueRequired(lang, PositionEntries(doc.positions))
    && UniqueRequired(lang, SystemEntries(doc.systems))
    && UniqueRequired(lang, ProfileEntries(doc.profiles))
    && UniqueRequired(lang, InstructionEntries(doc.instructions))
    && (forall s :: s in doc.systems ==> UniqueRequired(lang, RoleEntries(s.roles)))
    && RolesApart(doc.systems)
    && (forall p :: p in doc.profiles ==> ProfileAllowed(doc, p))
    && (forall x :: x in doc.instructions ==> x.systemId in Ids(SystemEntries(doc.systems)))
    && (forall d :: d in doc.departments ==> AliasesAllowed(lang, d.aliases))
    && (forall p :: p in doc.positions ==> AliasesAllowed(lang, p.aliases))
    && (forall s :: s in doc.systems ==> AliasesAllowed(lang, s.aliases))
  }

  method ValidateUniqueRequired(lang: Language, items: seq<Entry>) returns (ok: bool)
    ensures ok <==> UniqueRequired(lang, items)
  {
    var seen: set<string> := {};
    for i := 0 to |items|
      invariant seen == set k | 0 <= k < i :: Strip(lang, items[k].id)
      invariant UniqueRequired(lang, items[..i])
    {
      var itemId := Strip(lang, items[i].id);
      assert items[..i + 1][..i] == items[..i];
      if itemId == "" || Strip(lang, items[i].name) == "" {
        return false;
      }
      if itemId in seen {
        return false;
      }
      seen := seen + {itemId};
    }
    assert items[..|items|] == items;
    return true;
  }

  /** `role_to_system` holds exactly the ownership pairs of the systems scanned so far. */
  ghost predicate OwnerTable(table: map<string, string>, systems: seq<System>) {
    && (forall i, r :: 0 <= i < |systems| && r in RoleIds(systems[i]) ==> r in table && table[r] == systems[i].id)
    && (forall r :: r in table ==> OwnsRole(systems, table[r], r))
  }

  method CollectRoles(lang: Language, systems: seq<System>) returns (table: Option<map<string, string>>)
    ensures table.Some? <==>
      (forall s :: s in systems ==> UniqueRequired(lang, RoleEntries(s.roles))) && RolesApart(systems)
    ensures table.Some? ==> OwnerTable(table.value, systems)
  {
    var owner: map<string, string> := map[];
    for i := 0 to |systems|
      invariant forall k :: 0 <= k < i ==> UniqueRequired(lang, RoleEntries(systems[k].roles))
      invariant RolesApart(systems[..i])
      invariant OwnerTable(owner, systems[..i])
    {
      var ok := ValidateUniqueRequired(lang, RoleEntries(systems[i].roles));
      if !ok { return None; }
      var extended := AddRoles(lang, systems[i], owner);
      ExtendRolesApart(systems, i, owner);
      if extended.None? {
        RolesApartPrefix(systems, i + 1);
        return None;
      }
      ExtendOwnerTable(systems, i, owner, extended.value);
      owner := extended.value;
    }
    assert systems[..|systems|] == systems;
    return Some(owner);
  }

  /** `table` is `owner` with every id of `added` bound to `system`. */
  ghost predicate Extends(table: map<string, string>, owner: map<string, string>, added: set<string>, system: string) {
    && table.Keys == owner.Keys + added
    && (forall r :: r in owner && r !in added ==> table[r] == owner[r])
    && (forall r :: r in added ==> table[r] == system)
  }

  method AddRoles(lang: Language, system: System, owner: map<string, string>)
    returns (extended: Option<map<string, string>>)
    requires UniqueRequired(lang, RoleEntries(system.roles))
    ensures extended.None? <==> !(owner.Keys !! RoleIds(system))
    ensures extended.Some? ==> Extends(extended.value, owner, RoleIds(system), system.id)
  {
    var entries := RoleEntries(system.roles);
    var table := owner;
    ghost var added: set<string> := {};
    for a := 0 to |entries|
      invariant added == Ids(entries[..a]) && added !! owner.Keys
      invariant Extends(table, owner, added, system.id)
    {
      var roleId := system.roles[a].id;
      IdsPrefix(entries, a);
      RoleRepeats(lang, entries, a);
      assert roleId in RoleIds(system) by { assert entries[a].id == roleId; }
      if roleId in table { return None; }
      table := table[roleId := system.id];
      added := added + {roleId};
    }
    assert entries[..|entries|] == entries;
    return Some(table);
  }

  lemma RoleRepeats(lang: Language, entries: seq<Entry>, a: nat)
    requires UniqueRequired(lang, entries) && a < |entries|
    ensures entries[a].id !in Ids(entries[..a])
  {
  }

  lemma IdsPrefix(entries: seq<Entry>, a: nat)
    requires a < |entries|
    ensures Ids(entries[..a + 1]) == Ids(entries[..a]) + {entries[a].id}
  {
    var p, q := entries[..a], entries[..a + 1];
    assert q[a] == entries[a];
    assert forall i :: 0 <= i < a ==> q[i] == p[i];
  }

  lemma ExtendOwnerTable(systems: seq<System>, i: nat, before: map<string, string>, owner: map<string, string>)
    requires i < |systems| && OwnerTable(before, systems[..i])
    requires before.Keys !! RoleIds(systems[i])
    requires Extends(owner, before, RoleIds(systems[i]), systems[i].id)
    ensures OwnerTable(owner, systems[..i + 1])
  {
    var old', new' := systems[..i], systems[..i + 1];
    assert forall k :: 0 <= k < i ==> new'[k] == old'[k];
    forall r | r in owner ensures OwnsRole(new', owner[r], r) {
      if r in before {
        assert OwnsRole(old', before[r], r);
        var k :| 0 <= k < i && old'[k].id == before[r] && r in RoleIds(old'[k]);
        assert new'[k].id == owner[r] && r in RoleIds(new'[k]);
      } else {
        assert new'[i].id == owner[r] && r in RoleIds(new'[i]);
      }
    }
    forall k, r | 0 <= k < |new'| && r in RoleIds(new'[k]) ensures r in owner && owner[r] == new'[k].id {
      if k < i { assert r in RoleIds(old'[k]); }
    }
  }

  lemma RolesApartPrefix(systems: seq<System>, n: nat)
    requires n <= |systems|
    ensures RolesApart(systems) ==> RolesApart(systems[..n])
  {
  }

  lemma ExtendRolesApart(systems: seq<System>, i: nat, before: map<string, string>)
    requires i < |systems| && RolesApart(systems[..i]) && OwnerTable(before, systems[..i])
    ensures RolesApart(systems[..i + 1]) <==> before.Keys !! RoleIds(systems[i])
  {
    var old', new' := systems[..i], systems[..i + 1];
    assert forall k :: 0 <= k < i ==> new'[k] == old'[k];
    if before.Keys !! RoleIds(systems[i]) {
      forall k | 0 <= k < i ensures RoleIds(new'[k]) !! RoleIds(new'[i]) {
        assert forall r :: r in RoleIds(old'[k]) ==> r in before;
      }
    } else {
      var r :| r in before.Keys && r in RoleIds(systems[i]);
      assert OwnsRole(old', before[r], r);
      var k :| 0 <= k < i && old'[k].id == before[r] && r in RoleIds(old'[k]);
      assert r in RoleIds(new'[k]) * RoleIds(new'[i]);
    }
  }

  method RequireReferences(values: seq<string>, allowed: set<string>) returns (ok: bool)
    ensures ok <==> forall v :: v in values ==> v in allowed
  {
    for i := 0 to |values|
      invariant forall k :: 0 <= k < i ==> values[k] in allowed
    {
      if values[i] !in allowed { return false; }
    }
    return true;
  }

  /** `role_to_system.get(role) == system` says who owns the role. */
  lemma OwnerLookup(table: map<string, string>, systems: seq<System>, systemId: string, roleId: string)
    requires OwnerTable(table, systems)
    ensures (roleId in table && table[roleId] == systemId) <==> OwnsRole(systems, systemId, roleId)
  {
  }

  method CheckGrant(doc: Document, systemIds: set<string>, owner: map<string, string>, g: Grant) returns (ok: bool)
    requires systemIds == Ids(SystemEntries(doc.systems)) && OwnerTable(owner, doc.systems)
    ensures ok <==> GrantAllowed(doc.systems, g)
  {
    if g.systemId !in systemIds { return false; }
    for i := 0 to |g.roleIds|
      invariant forall k :: 0 <= k < i ==> OwnsRole(doc.systems, g.systemId, g.roleIds[k])
    {
      OwnerLookup(owner, doc.systems, g.systemId, g.roleIds[i]);
      if g.roleIds[i] !in owner || owner[g.roleIds[i]] != g.systemId { return false; }
    }
    return true;
  }

  method CheckProfile(doc: Document, owner: map<string, string>, p: Profile) returns (ok: bool)
    requires OwnerTable(owner, doc.systems)
    ensures ok <==> ProfileAllowed(doc, p)
  {
    ok := RequireReferences(p.departmentIds, Ids(DepartmentEntries(doc.departments)));
    if !ok { return; }
    ok := RequireReferences(p.positionIds, Ids(PositionEntries(doc.positions)));
    if !ok { return; }
    for i := 0 to |p.access|
      invariant forall k :: 0 <= k < i ==> GrantAllowed(doc.systems, p.access[k])
    {
      ok := CheckGrant(doc, Ids(SystemEntries(doc.systems)), owner, p.access[i]);
      if !ok { return; }
    }
    ok := true;
  }

  method ValidateAliases(lang: Language, aliases: seq<Alias>) returns (ok: bool)
    ensures ok <==> AliasesAllowed(lang, aliases)
  {
    for i := 0 to |aliases|
      invariant forall k :: 0 <= k < i ==>
        lang.normalize(Strip(lang, aliases[k].value)) != "" && aliases[k].safety != Unsafe
    {
      if lang.normalize(Strip(lang, aliases[i].value)) == "" || aliases[i].safety == Unsafe {
        assert aliases[i] in aliases;
        return false;
      }
    }
    return true;
  }

  /** The validator accepts exactly the valid documents, and trims only the version. */
  method ValidateCatalog(lang: Language, doc: Document) returns (accepted: Option<Document>)
    ensures accepted.Some? <==> ValidDocument(lang, doc)
    ensures accepted.Some? ==> accepted.value == doc.(version := Strip(lang, doc.version))
  {
    var version := Strip(lang, doc.version);
    if version == "" { return None; }
    var ok := ValidateUniqueRequired(lang, DepartmentEntries(doc.departments));
    if !ok { return None; }
    ok := ValidateUniqueRequired(lang, PositionEntries(doc.positions));
    if !ok { return None; }
    ok := ValidateUniqueRequired(lang, SystemEntries(doc.systems));
    if !ok { return None; }
    ok := ValidateUniqueRequired(lang, ProfileEntries(doc.profiles));
    if !ok { return None; }
    ok := ValidateUniqueRequired(lang, InstructionEntries(doc.instructions));
    if !ok { return None; }
    var owner := CollectRoles(lang, doc.systems);
    if owner.None? { return None; }
    for i := 0 to |doc.profiles|
      invariant forall k :: 0 <= k < i ==> ProfileAllowed(doc, doc.profiles[k])
    {
      ok := CheckProfile(doc, owner.value, doc.profiles[i]);
      if !ok { return None; }
    }
    for i := 0 to |doc.instructions|
      invariant forall k :: 0 <= k < i ==> doc.instructions[k].systemId in Ids(SystemEntries(doc.systems))
    {
      if doc.instructions[i].systemId !in Ids(SystemEntries(doc.systems)) {
        assert doc.instructions[i] in doc.instructions;
        return None;
      }
    }
    for i := 0 to |doc.departments|
      invariant forall k :: 0 <= k < i ==> AliasesAllowed(lang, doc.departments[k].aliases)
    {
      ok := ValidateAliases(lang, doc.departments[i].aliases);
      if !ok { return None; }
    }
    for i := 0 to |doc.positions|
      invariant forall k :: 0 <= k < i ==> AliasesAllowed(lang, doc.positions[k].aliases)
    {
      ok := ValidateAliases(lang, doc.positions[i].aliases);
      if !ok { return None; }
    }
    for i := 0 to |doc.systems|
      invariant forall k :: 0 <= k < i ==> AliasesAllowed(lang, doc.systems[k].aliases)
    {
      ok := ValidateAliases(lang, doc.systems[i].aliases);
      if !ok { return None; }
    }
    return Some(doc.(version := version));
  }

}
