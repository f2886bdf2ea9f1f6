/** The alias rows of a release: how often a spelling is shared, and the safety that is stored for it. */
module StoredAliases {
  import opened Prelude
  import opened Catalog

  /** An alias as the publisher collects it: stripped, normalized, a missing mark read as AMBIGUOUS. */
  datatype Collected = Collected(kind: string, id: string, raw: string, normalized: string, safety: Safety)

  datatype StoredAlias = StoredAlias(alias: Collected, safety: Safety, collisions: nat)

  function Collect(lang: Language, kind: string, id: string, a: Alias): Collected {
    var raw := Strip(lang, a.value);
    Collected(kind, id, raw, lang.normalize(raw), if a.safety == Absent then Ambiguous else a.safety)
  }

  function CollectAll(lang: Language, kind: string, id: string, aliases: seq<Alias>): seq<Collected> {
    seq(|aliases|, i requires 0 <= i < |aliases| => Collect(lang, kind, id, aliases[i]))
  }

  function OfDepartments(lang: Language, s: seq<Department>): seq<Collected> {
    if s == [] then []
    else OfDepartments(lang, s[..|s| - 1]) + CollectAll(lang, "department", s[|s| - 1].id, s[|s| - 1].aliases)
  }

  function OfPositions(lang: Language, s: seq<Position>): seq<Collected> {
    if s == [] then []
    else OfPositions(lang, s[..|s| - 1]) + CollectAll(lang, "position", s[|s| - 1].id, s[|s| - 1].aliases)
  }

  function OfSystems(lang: Language, s: seq<System>): seq<Collected> {
    if s == [] then []
    else OfSystems(lang, s[..|s| - 1]) + CollectAll(lang, "system", s[|s| - 1].id, s[|s| - 1].aliases)
  }

  function Aliases(lang: Language, doc: Document): seq<Collected> {
    OfDepartments(lang, doc.departments) + OfPositions(lang, doc.positions) + OfSystems(lang, doc.systems)
  }

  function SpellingOf(c: Collected): (string, string) {
    (c.kind, c.normalized)
  }

  /** How many collected aliases share a spelling within an entity type. */
  function Shared(s: seq<Collected>, spelling: (string, string)): nat {
    if s == [] then 0
    else Shared(s[..|s| - 1], spelling) + if SpellingOf(s[|s| - 1]) == spelling then 1 else 0
  }

  function Store(all: seq<Collected>, c: Collected): StoredAlias {
    var n := Shared(all, SpellingOf(c));
    StoredAlias(c, if n > 1 then Ambiguous else c.safety, n)
  }

  method CountSpellings(s: seq<Collected>) returns (counts: map<(string, string), nat>)
    ensures forall k :: Lookup(counts, k, 0) == Shared(s, k)
  {
    counts := map[];
    for i := 0 to |s|
      invariant forall k :: Lookup(counts, k, 0) == Shared(s[..i], k)
    {
      assert s[..i + 1][..i] == s[..i];
      var k := SpellingOf(s[i]);
      counts := counts[k := Lookup(counts, k, 0) + 1];
    }
    assert s[..|s|] == s;
  }

  method InsertAliases(lang: Language, doc: Document) returns (rows: seq<StoredAlias>)
    ensures |rows| == |Aliases(lang, doc)|
    ensures forall i :: 0 <= i < |rows| ==> rows[i] == Store(Aliases(lang, doc), Aliases(lang, doc)[i])
  {
    var aliases: seq<Collected> := [];
    for i := 0 to |doc.departments|
      invariant aliases == OfDepartments(lang, doc.departments[..i])
    {
      assert doc.departments[..i + 1][..i] == doc.departments[..i];
      aliases := aliases + CollectAll(lang, "department", doc.departments[i].id, doc.departments[i].aliases);
    }
    assert doc.departments[..|doc.departments|] == doc.departments;
    var positions: seq<Collected> := [];
    for i := 0 to |doc.positions|
      invariant positions == OfPositions(lang, doc.positions[..i])
    {
      assert doc.positions[..i + 1][..i] == doc.positions[..i];
      positions := positions + CollectAll(lang, "position", doc.positions[i].id, doc.positions[i].aliases);
    }
    assert doc.positions[..|doc.positions|] == doc.positions;
    var systems: seq<Collected> := [];
    for i := 0 to |doc.systems|
      invariant systems == OfSystems(lang, doc.systems[..i])
    {
      assert doc.systems[..i + 1][..i] == doc.systems[..i];
      systems := systems + CollectAll(lang, "system", doc.systems[i].id, doc.systems[i].aliases);
    }
    assert doc.systems[..|doc.systems|] == doc.systems;
    aliases := aliases + positions + systems;
    var counts := CountSpellings(aliases);
    rows := [];
    for i := 0 to |aliases|
      invariant |rows| == i && forall k :: 0 <= k < i ==> rows[k] == Store(aliases, aliases[k])
    {
      var collisions := Lookup(counts, SpellingOf(aliases[i]), 0);
      rows := rows + [StoredAlias(aliases[i], if collisions > 1 then Ambiguous else aliases[i].safety, collisions)];
    }
  }

  lemma {:induction false} SharedPositive(s: seq<Collected>, i: nat)
    requires i < |s|
    ensures Shared(s, SpellingOf(s[i])) >= 1
    decreases |s|
  {
    if i < |s| - 1 { SharedPositive(s[..|s| - 1], i); }
  }

  lemma {:induction false} SharedTwice(s: seq<Collected>, i: nat, j: nat)
    requires i < j < |s| && SpellingOf(s[i]) == SpellingOf(s[j])
    ensures Shared(s, SpellingOf(s[i])) >= 2
    decreases |s|
  {
    var init := s[..|s| - 1];
    if j < |s| - 1 { SharedTwice(init, i, j); } else { SharedPositive(init, i); }
  }

  lemma {:induction false} SharedOnce(s: seq<Collected>, i: nat)
    requires i < |s| && forall j :: 0 <= j < |s| && j != i ==> SpellingOf(s[j]) != SpellingOf(s[i])
    ensures Shared(s, SpellingOf(s[i])) == 1
    decreases |s|
  {
    var init := s[..|s| - 1];
    if i < |s| - 1 { SharedOnce(init, i); } else { SharedNever(init, SpellingOf(s[i])); }
  }

  lemma {:induction false} SharedNever(s: seq<Collected>, k: (string, string))
    requires forall j :: 0 <= j < |s| ==> SpellingOf(s[j]) != k
    ensures Shared(s, k) == 0
    decreases |s|
  {
    if s != [] { SharedNever(s[..|s| - 1], k); }
  }

  /**
   * An alias is stored as SAFE exactly when it is marked SAFE and no other alias of its entity type
   * has the same spelling; the stored count is one exactly then, and never zero.
   */
  lemma SafeMeansUnshared(lang: Language, doc: Document, i: nat)
    requires i < |Aliases(lang, doc)|
    ensures var all := Aliases(lang, doc);
      var row := Store(all, all[i]);
      && row.collisions >= 1
      && (row.collisions == 1 <==> forall j :: 0 <= j < |all| && j != i ==> SpellingOf(all[j]) != SpellingOf(all[i]))
      && (row.safety == Safe <==> row.collisions == 1 && all[i].safety == Safe)
  {
    var all := Aliases(lang, doc);
    SharedPositive(all, i);
    if forall j :: 0 <= j < |all| && j != i ==> SpellingOf(all[j]) != SpellingOf(all[i]) {
      SharedOnce(all, i);
    } else {
      var j :| 0 <= j < |all| && j != i && SpellingOf(all[j]) == SpellingOf(all[i]);
      SharedTwice(all, if i < j then i else j, if i < j then j else i);
    }
  }

  /** The check constraint on the safety column holds of every row of a valid document. */
  lemma {:induction false} StoredSafetyAllowed(lang: Language, doc: Document, i: nat)
    requires ValidDocument(lang, doc) && i < |Aliases(lang, doc)|
    ensures Store(Aliases(lang, doc), Aliases(lang, doc)[i]).safety in {Safe, Ambiguous}
    ensures Aliases(lang, doc)[i].normalized != ""
  {
    DepartmentAliasesMarked(lang, doc.departments);
    PositionAliasesMarked(lang, doc.positions);
    SystemAliasesMarked(lang, doc.systems);
  }

  ghost predicate Marked(s: seq<Collected>) {
    forall i :: 0 <= i < |s| ==> s[i].safety in {Safe, Ambiguous} && s[i].normalized != ""
  }

  lemma MarkedAll(lang: Language, kind: string, id: string, aliases: seq<Alias>)
    requires AliasesAllowed(lang, aliases)
    ensures Marked(CollectAll(lang, kind, id, aliases))
  {
    forall i | 0 <= i < |aliases|
      ensures Collect(lang, kind, id, aliases[i]).safety in {Safe, Ambiguous} && Collect(lang, kind, id, aliases[i]).normalized != ""
    {
      assert aliases[i] in aliases;
    }
  }

  lemma {:induction false} DepartmentAliasesMarked(lang: Language, s: seq<Department>)
    requires forall d :: d in s ==> AliasesAllowed(lang, d.aliases)
    ensures Marked(OfDepartments(lang, s))
    decreases |s|
  {
    if s != [] {
      DepartmentAliasesMarked(lang, s[..|s| - 1]);
      MarkedAll(lang, "department", s[|s| - 1].id, s[|s| - 1].aliases);
    }
  }

  lemma {:induction false} PositionAliasesMarked(lang: Language, s: seq<Position>)
    requires forall d :: d in s ==> AliasesAllowed(lang, d.aliases)
    ensures Marked(OfPositions(lang, s))
    decreases |s|
  {
    if s != [] {
      PositionAliasesMarked(lang, s[..|s| - 1]);
      MarkedAll(lang, "position", s[|s| - 1].id, s[|s| - 1].aliases);
    }
  }

  lemma {:induction false} SystemAliasesMarked(lang: Language, s: seq<System>)
    requires forall d :: d in s ==> AliasesAllowed(lang, d.aliases)
    ensures Marked(OfSystems(lang, s))
    decreases |s|
  {
    if s != [] {
      SystemAliasesMarked(lang, s[..|s| - 1]);
      MarkedAll(lang, "system", s[|s| - 1].id, s[|s| - 1].aliases);
    }
  }

  // ---------------------------------------------------------------- every alias of the document, and nothing else

  /** The row says what the alias says: stripped, normalized, with AMBIGUOUS for a missing mark. */
  predicate Gathered(lang: Language, c: Collected, kind: string, id: string, a: Alias) {
    && c.kind == kind && c.id == id && c.raw == Strip(lang, a.value) && c.normalized == lang.normalize(Strip(lang, a.value))
    && c.safety == if a.safety == Absent then Ambiguous else a.safety
  }

  lemma CollectedAll(lang: Language, kind: string, id: string, aliases: seq<Alias>, c: Collected)
    ensures c in CollectAll(lang, kind, id, aliases) <==> exists j :: 0 <= j < |aliases| && Gathered(lang, c, kind, id, aliases[j])
  {
    var all := CollectAll(lang, kind, id, aliases);
    if j :| 0 <= j < |aliases| && Gathered(lang, c, kind, id, aliases[j]) { assert all[j] == c; }
  }

  lemma {:induction false} DepartmentsCollected(lang: Language, s: seq<Department>, c: Collected)
    ensures c in OfDepartments(lang, s) <==>
      exists i, j :: 0 <= i < |s| && 0 <= j < |s[i].aliases| && Gathered(lang, c, "department", s[i].id, s[i].aliases[j])
    decreases |s|
  {
    hide Gathered;
    if s != [] {
      var init, last := s[..|s| - 1], s[|s| - 1];
      DepartmentsCollected(lang, init, c);
      CollectedAll(lang, "department", last.id, last.aliases, c);
      if i, j :| 0 <= i < |s| && 0 <= j < |s[i].aliases| && Gathered(lang, c, "department", s[i].id, s[i].aliases[j]) {
        if i < |init| { assert init[i] == s[i]; }
      }
    }
  }

  lemma {:induction false} PositionsCollected(lang: Language, s: seq<Position>, c: Collected)
    ensures c in OfPositions(lang, s) <==>
      exists i, j :: 0 <= i < |s| && 0 <= j < |s[i].aliases| && Gathered(lang, c, "position", s[i].id, s[i].aliases[j])
    decreases |s|
  {
    hide Gathered;
    if s != [] {
      var init, last := s[..|s| - 1], s[|s| - 1];
      PositionsCollected(lang, init, c);
      CollectedAll(lang, "position", last.id, last.aliases, c);
      if i, j :| 0 <= i < |s| && 0 <= j < |s[i].aliases| && Gathered(lang, c, "position", s[i].id, s[i].aliases[j]) {
        if i < |init| { assert init[i] == s[i]; }
      }
    }
  }

  lemma {:induction false} SystemsCollected(lang: Language, s: seq<System>, c: Collected)
    ensures c in OfSystems(lang, s) <==>
      exists i, j :: 0 <= i < |s| && 0 <= j < |s[i].aliases| && Gathered(lang, c, "system", s[i].id, s[i].aliases[j])
    decreases |s|
  {
    hide Gathered;
    if s != [] {
      var init, last := s[..|s| - 1], s[|s| - 1];
      SystemsCollected(lang, init, c);
      CollectedAll(lang, "system", last.id, last.aliases, c);
      if i, j :| 0 <= i < |s| && 0 <= j < |s[i].aliases| && Gathered(lang, c, "system", s[i].id, s[i].aliases[j]) {
        if i < |init| { assert init[i] == s[i]; }
      }
    }
  }

  /** The alias rows are exactly those of the departments, positions and systems of the document. */
  lemma AliasesAreTheDocument(lang: Language, doc: Document, c: Collected)
    ensures c in Aliases(lang, doc) <==>
      || (exists i, j :: 0 <= i < |doc.departments| && 0 <= j < |doc.departments[i].aliases|
            && Gathered(lang, c, "department", doc.departments[i].id, doc.departments[i].aliases[j]))
      || (exists i, j :: 0 <= i < |doc.positions| && 0 <= j < |doc.positions[i].aliases|
            && Gathered(lang, c, "position", doc.positions[i].id, doc.positions[i].aliases[j]))
      || (exists i, j :: 0 <= i < |doc.systems| && 0 <= j < |doc.systems[i].aliases|
            && Gathered(lang, c, "system", doc.systems[i].id, doc.systems[i].aliases[j]))
  {
    hide Gathered;
    DepartmentsCollected(lang, doc.departments, c);
    PositionsCollected(lang, doc.positions, c);
    SystemsCollected(lang, doc.systems, c);
  }
}
