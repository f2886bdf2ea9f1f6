/** Which rows of a snapshot become the same entity. */
module StableIds {
  import opened Prelude
  import OD = OrderedDict
  import opened Catalog
  import opened PlainText
  import opened V1Snapshot
  import opened V1SnapshotProofs
  import opened TranslatedDocument
  import CatalogLanguage
  import Normalization
  import NormalizationProofs

  // ---------------------------------------------------------------- equal identifiers

  /** Normalized text has neither hyphens nor colons. */
  ghost predicate PlainCodes(a: Adapter) {
    forall s: string :: '-' !in a.lang.normalize(s) && ':' !in a.lang.normalize(s)
  }

  lemma CanonicalCodesPlain(u: Normalization.Unicode, ratio: (string, string) -> real, rounded: real -> real,
                            city: string -> string, digest: string -> string)
    requires NormalizationProofs.Tables(u)
    ensures PlainCodes(Adapter(CatalogLanguage.LanguageOf(u, ratio, rounded), city, digest))
  {
    var a := Adapter(CatalogLanguage.LanguageOf(u, ratio, rounded), city, digest);
    forall s: string ensures '-' !in a.lang.normalize(s) && ':' !in a.lang.normalize(s) {
      if '-' in a.lang.normalize(s) { CatalogLanguage.NormalizedChars(u, s, '-'); }
      if ':' in a.lang.normalize(s) { CatalogLanguage.NormalizedChars(u, s, ':'); }
    }
  }

  lemma HyphenatedInjective(s: string, t: string)
    requires '-' !in s && '-' !in t && Hyphenated(s) == Hyphenated(t)
    ensures s == t
  {
    assert |s| == |Hyphenated(s)| == |t|;
    forall i | 0 <= i < |s| ensures s[i] == t[i] {
      assert Hyphenated(s)[i] == Hyphenated(t)[i];
      assert s[i] in s && t[i] in t;
    }
  }

  /** Two entities of a kind get one identifier exactly when their codes normalize alike, or neither has a code and their names do, up to the digest. */
  lemma SameIdentifier(a: Adapter, prefix: string, code: string, name: string, code': string, name': string)
    requires PlainCodes(a)
    ensures StableId(a, prefix, code, name) == StableId(a, prefix, code', name') <==>
      if a.lang.normalize(code) == "" then
        a.lang.normalize(code') == "" && a.digest(a.lang.normalize(name)) == a.digest(a.lang.normalize(name'))
      else a.lang.normalize(code) == a.lang.normalize(code')
  {
    var c, c' := a.lang.normalize(code), a.lang.normalize(code');
    if c == "" && c' == "" {
      SameTail(prefix + ":sha256:", a.digest(a.lang.normalize(name)), a.digest(a.lang.normalize(name')));
    } else if c == "" {
      CodeIsNoDigest(prefix, c', a.digest(a.lang.normalize(name)));
    } else if c' == "" {
      CodeIsNoDigest(prefix, c, a.digest(a.lang.normalize(name')));
    } else {
      SameTail(prefix + ":", Hyphenated(c), Hyphenated(c'));
      if Hyphenated(c) == Hyphenated(c') { HyphenatedInjective(c, c'); }
    }
  }

  lemma SameTail(head: string, x: string, y: string)
    ensures head + x == head + y <==> x == y
  {
    assert (head + x)[|head|..] == x && (head + y)[|head|..] == y;
  }

  lemma CodeIsNoDigest(prefix: string, code: string, digest: string)
    requires ':' !in code
    ensures prefix + ":" + Hyphenated(code) != prefix + ":sha256:" + digest
  {
    var x, y := prefix + ":" + Hyphenated(code), prefix + ":sha256:" + digest;
    var n := |prefix| + 7;
    assert y[n] == ':';
    if |x| > n {
      assert x[n] == Hyphenated(code)[6];
      assert code[6] in code;
    }
  }

  // ---------------------------------------------------------------- rows of one department, rows of one position

  function CityAt(a: Adapter, s: Snapshot, i: nat): string
    requires i < |s.departments|
  {
    Lookup(Cities(a, s.segments), s.departments[i].profileId, "")
  }

  /** Two department rows mean the same: equal codes, or without a code names that normalize alike, in cities that normalize alike. */
  predicate SameDepartment(a: Adapter, s: Snapshot, i: nat, j: nat)
    requires i < |s.departments| && j < |s.departments|
  {
    var x, y := s.departments[i], s.departments[j];
    && (if x.code != "" then x.code else a.lang.normalize(x.name)) == (if y.code != "" then y.code else a.lang.normalize(y.name))
    && a.lang.normalize(CityAt(a, s, i)) == a.lang.normalize(CityAt(a, s, j))
  }

  predicate SamePosition(a: Adapter, x: PositionRow, y: PositionRow) {
    (if x.code != "" then x.code else a.lang.normalize(x.name)) == (if y.code != "" then y.code else a.lang.normalize(y.name))
  }

  lemma {:induction false} DepartmentIdShared(a: Adapter, cities: map<int, string>, aliases: map<string, OD.Dict<Alias>>,
                                              rows: seq<DepartmentRow>, i: nat) returns (f: int)
    requires i < |rows|
    ensures FirstOfKey(DepartmentLinks(a, cities, rows), i, f)
    ensures DepartmentRowIds(a, cities, aliases, rows)[i] == DepartmentLinks(a, cities, rows)[f].ownId
    decreases |rows|
  {
    hide KeysMatch, LinksMatch, DepartmentKey, DepartmentId;
    var n := |rows| - 1;
    var init, links := rows[..n], DepartmentLinks(a, cities, rows);
    assert links == DepartmentLinks(a, cities, init) + [links[n]];
    if i < n {
      f := DepartmentIdShared(a, cities, aliases, init, i);
      FirstExtends(DepartmentLinks(a, cities, init), links[n], i, f);
    } else {
      DepartmentsPreserved(a, cities, aliases, init);
      f := FirstFound(DepartmentLinks(a, cities, init), AllDepartments(a, cities, aliases, init).idByKey, links[n]);
    }
  }

  lemma {:induction false} PositionIdShared(a: Adapter, rows: seq<PositionRow>, i: nat) returns (f: int)
    requires i < |rows|
    ensures FirstOfKey(PositionLinks(a, rows), i, f)
    ensures PositionRowIds(a, rows)[i] == PositionLinks(a, rows)[f].ownId
    decreases |rows|
  {
    hide KeysMatch, LinksMatch, PositionKey, PositionId;
    var n := |rows| - 1;
    var init, links := rows[..n], PositionLinks(a, rows);
    assert links == PositionLinks(a, init) + [links[n]];
    if i < n {
      f := PositionIdShared(a, init, i);
      FirstExtends(PositionLinks(a, init), links[n], i, f);
    } else {
      PositionsPreserved(a, init);
      f := FirstFound(PositionLinks(a, init), AllPositions(a, init).idByKey, links[n]);
    }
  }

  /** A department row takes the identifier of the first row that means the same, made from that row's code, name and city. */
  lemma DepartmentIdentified(a: Adapter, s: Snapshot, i: nat) returns (f: nat)
    requires i < |s.departments|
    ensures f <= i && SameDepartment(a, s, f, i) && forall h: nat :: h < f ==> !SameDepartment(a, s, h, i)
    ensures var x, city := s.departments[f], CityAt(a, s, f);
      DepartmentIdsOf(a, s)[i] == StableId(a, "department", if x.code != "" then x.code + "|" + city else "", x.name + "|" + city)
  {
    hide StableId, Cities;
    var cities := Cities(a, s.segments);
    var links := DepartmentLinks(a, cities, s.departments);
    f := DepartmentIdShared(a, cities, DepartmentAliases(a.lang, s.departmentAliases), s.departments, i);
    forall h: nat | h < f ensures !SameDepartment(a, s, h, i) { assert links[h].key != links[i].key; }
  }

  lemma PositionIdentified(a: Adapter, rows: seq<PositionRow>, i: nat) returns (f: nat)
    requires i < |rows|
    ensures f <= i && SamePosition(a, rows[f], rows[i]) && forall h: nat :: h < f ==> !SamePosition(a, rows[h], rows[i])
    ensures PositionRowIds(a, rows)[i] == StableId(a, "position", rows[f].code, rows[f].name)
  {
    hide StableId;
    var links := PositionLinks(a, rows);
    f := PositionIdShared(a, rows, i);
    forall h: nat | h < f ensures !SamePosition(a, rows[h], rows[i]) { assert links[h].key != links[i].key; }
  }

  /** Systems and profiles are identified by their own code and name, row by row. */
  lemma SystemsAndProfilesIdentified(a: Adapter, s: Snapshot)
    requires Translate(a, s).Some?
    ensures var doc := Translate(a, s).value;
      && |doc.systems| == |s.systems| && |doc.profiles| == |s.profiles|
      && (forall i :: 0 <= i < |s.systems| ==> doc.systems[i].id == StableId(a, "system", s.systems[i].ciCode, s.systems[i].name))
      && (forall i :: 0 <= i < |s.profiles| ==> doc.profiles[i].id == StableId(a, "profile", s.profiles[i].code, s.profiles[i].name))
  {
    hide StableId, AllAccess, DepartmentsOf, AllPositions, Cities;
  }

  // ---------------------------------------------------------------- versions

  /** The first twelve characters of the normalized hash, without blanks. */
  function ShortHash(a: Adapter, sha: string): string {
    var text := WithoutSpaces(a.lang.normalize(sha));
    if |text| <= 12 then text else text[..12]
  }

  lemma ShortHashPlain(a: Adapter, sha: string)
    requires PlainCodes(a)
    ensures '-' !in ShortHash(a, sha)
  {
    SpacesGone(a.lang.normalize(sha));
  }

  /** Read from the right, the last field is delimited by the last hyphen. */
  lemma LastPart(x: string, h: string, y: string, g: string)
    requires '-' !in h && '-' !in g && x + "-" + h == y + "-" + g
    ensures x == y && h == g
  {
    var s, t := x + "-" + h, y + "-" + g;
    assert s[|x|] == '-' && t[|y|] == '-';
    forall i | |x| < i < |s| ensures s[i] != '-' { assert s[i] == h[i - |x| - 1]; }
    forall i | |y| < i < |t| ensures t[i] != '-' { assert t[i] == g[i - |y| - 1]; }
    assert x == s[..|x|] && y == t[..|y|];
    assert h == s[|x| + 1..] && g == t[|y| + 1..];
  }

  /** Two snapshots get one catalog version exactly when they have the same number and the same beginning of the source hash. */
  lemma VersionsDiffer(a: Adapter, s: Snapshot, t: Snapshot)
    requires PlainCodes(a)
    ensures Version(a, s) == Version(a, t) <==> s.id == t.id && ShortHash(a, s.sourceSha) == ShortHash(a, t.sourceSha)
  {
    hide PlainCodes;
    var h, g := ShortHash(a, s.sourceSha), ShortHash(a, t.sourceSha);
    ShortHashPlain(a, s.sourceSha);
    ShortHashPlain(a, t.sourceSha);
    var x, y := "v1-snapshot-" + Decimal(s.id), "v1-snapshot-" + Decimal(t.id);
    assert Version(a, s) == x + "-" + h && Version(a, t) == y + "-" + g;
    if Version(a, s) == Version(a, t) {
      LastPart(x, h, y, g);
      SameTail("v1-snapshot-", Decimal(s.id), Decimal(t.id));
      DecimalInjective(s.id, t.id);
    }
  }
}
