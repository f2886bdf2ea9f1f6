/** The read-only search tools over one pinned bundle. */
module SearchTools {
  import opened Prelude
  import OD = OrderedDict
  import opened Words
  import opened Catalog
  import opened CatalogBundle
  import opened Ranking

  // ---------------------------------------------------------------- text scores

  function Tokens(lang: Language, s: string): set<string> {
    set w | w in Split(lang.normalize(s))
  }

  function PrefixLength(token: string): nat {
    var n := |token| - 2;
    if n < 3 then 3 else if n > 6 then 6 else n
  }

  function Prefix(s: string, n: nat): string {
    if |s| <= n then s else s[..n]
  }

  predicate TokenMatches(q: string, c: string) {
    var n := PrefixLength(q);
    q == c || Prefix(q, n) <= c || Prefix(c, n) <= q
  }

  predicate Matched(q: string, candidates: set<string>) {
    exists c | c in candidates :: TokenMatches(q, c)
  }

  /** The share of query tokens that some candidate token matches. */
  function Coverage(lang: Language, query: string, candidate: string): (r: real)
    ensures 0.0 <= r <= 1.0
  {
    var q, c := Tokens(lang, query), Tokens(lang, candidate);
    if q == {} || c == {} then 0.0
    else
      var m := set t | t in q && Matched(t, c);
      assert m <= q;
      CardAtMost(m, q);
      Fraction(|m|, |q|);
      |m| as real / |q| as real
  }

  lemma CardAtMost(a: set<string>, b: set<string>)
    requires a <= b
    ensures |a| <= |b|
  {
    assert |b| == |a| + |b - a| by { assert b == a + (b - a); }
  }

  lemma Fraction(m: nat, n: nat)
    requires m <= n && n > 0
    ensures 0.0 <= m as real / n as real <= 1.0
  {
    assert m as real <= n as real;
    assert (m as real / n as real) * n as real == m as real;
  }

  method SoftTokenCoverage(lang: Language, query: string, candidate: string) returns (r: real)
    ensures r == Coverage(lang, query, candidate)
  {
    var queryTokens, candidateTokens := Tokens(lang, query), Tokens(lang, candidate);
    if queryTokens == {} || candidateTokens == {} { return 0.0; }
    var matched := 0;
    var rest := queryTokens;
    while rest != {}
      invariant rest <= queryTokens
      invariant matched == |set t | t in queryTokens - rest && Matched(t, candidateTokens)|
      decreases rest
    {
      var t :| t in rest;
      ghost var before := set u | u in queryTokens - rest && Matched(u, candidateTokens);
      rest := rest - {t};
      ghost var after := set u | u in queryTokens - rest && Matched(u, candidateTokens);
      assert after == if Matched(t, candidateTokens) then before + {t} else before;
      if Matched(t, candidateTokens) { matched := matched + 1; }
    }
    assert queryTokens - rest == queryTokens;
    return matched as real / |queryTokens| as real;
  }

  function Max(a: real, b: real): real { if a >= b then a else b }
  function Min(a: real, b: real): real { if a <= b then a else b }

  /** One name or alias against the normalized query. */
  function Score(lang: Language, query: string, a: Alias): real {
    var candidate := lang.normalize(a.value);
    if candidate == "" then 0.0
    else
      var base :=
        if query == candidate then (if a.safety == Safe then 1.0 else 0.82)
        else
          var coverage := Coverage(lang, query, candidate);
          var substring := if Contains(candidate, query) || Contains(query, candidate) then 0.9 else 0.0;
          var token := if coverage == 0.0 then 0.0 else 0.35 + 0.6 * coverage;
          Max(Max(lang.ratio(query, candidate), token), substring);
      match a.safety
      case Unsafe => Min(base, 0.29)
      case Ambiguous => Min(base, 0.82)
      case _ => base
  }

  /** A missing mark counts as SAFE here; the validator reads it as AMBIGUOUS. */
  function Effective(a: Alias): Alias {
    if a.safety == Absent then a.(safety := Safe) else a
  }

  function Named(name: string, aliases: seq<Alias>): seq<Alias> {
    [Alias(name, Safe)] + seq(|aliases|, i requires 0 <= i < |aliases| => Effective(aliases[i]))
  }

  function Best(lang: Language, query: string, entries: seq<Alias>): real {
    if entries == [] then 0.0
    else Max(Best(lang, query, entries[..|entries| - 1]), Score(lang, query, entries[|entries| - 1]))
  }

  function Rank(lang: Language, query: string, name: string, aliases: seq<Alias>): real {
    if lang.normalize(query) == "" then 0.5 else lang.rounded(Best(lang, lang.normalize(query), Named(name, aliases)))
  }

  method ScoreEntry(lang: Language, query: string, entry: Alias) returns (score: real)
    ensures score == Score(lang, query, entry)
  {
    var candidate := lang.normalize(entry.value);
    if candidate == "" { return 0.0; }
    if query == candidate {
      score := if entry.safety == Safe then 1.0 else 0.82;
    } else {
      var coverage := SoftTokenCoverage(lang, query, candidate);
      var substring := if Contains(candidate, query) || Contains(query, candidate) then 0.9 else 0.0;
      var token := if coverage != 0.0 then 0.35 + 0.6 * coverage else 0.0;
      score := Max(Max(lang.ratio(query, candidate), token), substring);
    }
    if entry.safety == Unsafe {
      score := Min(score, 0.29);
    } else if entry.safety == Ambiguous {
      score := Min(score, 0.82);
    }
  }

  method RankText(lang: Language, query: string, name: string, aliases: seq<Alias>) returns (best: real)
    ensures best == Rank(lang, query, name, aliases)
  {
    var normalized := lang.normalize(query);
    if normalized == "" { return 0.5; }
    best := 0.0;
    var entries := Named(name, aliases);
    for i := 0 to |entries|
      invariant best == Best(lang, normalized, entries[..i])
    {
      assert entries[..i + 1][..i] == entries[..i];
      var score := ScoreEntry(lang, normalized, entries[i]);
      best := Max(best, score);
    }
    assert entries[..|entries|] == entries;
    best := lang.rounded(best);
  }

  /** What difflib promises about SequenceMatcher.ratio. */
  ghost predicate GoodRatio(lang: Language) {
    forall a, b :: 0.0 <= lang.ratio(a, b) <= 1.0 && (lang.ratio(a, b) == 1.0 ==> a == b)
  }

  lemma ScoreBounds(lang: Language, query: string, a: Alias)
    requires GoodRatio(lang)
    ensures 0.0 <= Score(lang, query, a) <= 1.0
    ensures Score(lang, query, a) == 1.0 <==>
      a.safety == Safe && lang.normalize(a.value) == query && query != ""
    ensures a.safety == Unsafe ==> Score(lang, query, a) <= 0.29
  {
    var candidate := lang.normalize(a.value);
    var coverage := Coverage(lang, query, candidate);
    assert 0.35 + 0.6 * coverage <= 0.95;
    if candidate != "" && query != candidate {
      assert lang.ratio(query, candidate) < 1.0;
    }
  }

  /** Full marks mean exactly one thing: a SAFE name or alias equals the query after normalization. */
  lemma {:induction false} ExactMatchScoresOne(lang: Language, query: string, entries: seq<Alias>)
    requires GoodRatio(lang) && query != ""
    ensures 0.0 <= Best(lang, query, entries) <= 1.0
    ensures Best(lang, query, entries) == 1.0 <==>
      exists a :: a in entries && a.safety == Safe && lang.normalize(a.value) == query
    decreases |entries|
  {
    if entries != [] {
      var n := |entries| - 1;
      ExactMatchScoresOne(lang, query, entries[..n]);
      ScoreBounds(lang, query, entries[n]);
      assert entries == entries[..n] + [entries[n]];
    }
  }

  /** The entries that are not marked UNSAFE. */
  function Others(entries: seq<Alias>): seq<Alias> {
    if entries == [] then []
    else
      var last := entries[|entries| - 1];
      Others(entries[..|entries| - 1]) + if last.safety == Unsafe then [] else [last]
  }

  /**
   * Entries marked UNSAFE never make a candidate: they lift the best score to 0.29 at most, which no
   * rounding to four digits brings to the 0.30 threshold, and above that the other entries decide alone.
   */
  lemma {:induction false} UnsafeStaysHidden(lang: Language, query: string, entries: seq<Alias>)
    ensures Best(lang, query, Others(entries)) <= Best(lang, query, entries) <= Max(0.29, Best(lang, query, Others(entries)))
    ensures Best(lang, query, entries) > 0.29 ==> Best(lang, query, entries) == Best(lang, query, Others(entries))
    decreases |entries|
  {
    if entries != [] {
      var init, last := entries[..|entries| - 1], entries[|entries| - 1];
      UnsafeStaysHidden(lang, query, init);
      if last.safety != Unsafe {
        assert Others(entries)[..|Others(entries)| - 1] == Others(init);
      } else {
        assert Others(entries) == Others(init);
      }
    }
  }

  // ---------------------------------------------------------------- filtering

  /** The entries that survive, in catalog order. */
  function Somes(s: seq<Option<Candidate>>): seq<Candidate> {
    if s == [] then []
    else Somes(s[..|s| - 1]) + (if s[|s| - 1].Some? then [s[|s| - 1].value] else [])
  }

  lemma {:induction false} SomesMembers(s: seq<Option<Candidate>>)
    ensures forall c :: c in Somes(s) <==> Some(c) in s
    decreases |s|
  {
    if s != [] {
      SomesMembers(s[..|s| - 1]);
      assert s == s[..|s| - 1] + [s[|s| - 1]];
    }
  }

  lemma {:induction false} SomesCount(s: seq<Option<Candidate>>)
    ensures |Somes(s)| == |set i | 0 <= i < |s| && s[i].Some?|
    decreases |s|
  {
    if s != [] {
      var n := |s| - 1;
      SomesCount(s[..n]);
      var a := set i | 0 <= i < n && s[..n][i].Some?;
      var b := set i | 0 <= i < |s| && s[i].Some?;
      assert b == if s[n].Some? then a + {n} else a;
    }
  }

  lemma {:induction false} SomesUnique(s: seq<Option<Candidate>>)
    requires forall i, j :: 0 <= i < j < |s| && s[i].Some? && s[j].Some? ==> s[i].value.id != s[j].value.id
    ensures UniqueIds(Somes(s))
    decreases |s|
  {
    if s != [] {
      var n := |s| - 1;
      SomesUnique(s[..n]);
      SomesMembers(s[..n]);
      var head := Somes(s[..n]);
      forall k | 0 <= k < |head| && s[n].Some? ensures head[k].id != s[n].value.id {
        assert Some(head[k]) in s[..n];
      }
    }
  }

  lemma UniqueSameMembers(a: seq<Candidate>, b: seq<Candidate>)
    requires UniqueIds(a) && UniqueIds(b) && forall c :: c in a <==> c in b
    ensures multiset(a) == multiset(b)
  {
    forall c ensures multiset(a)[c] == multiset(b)[c] {
      OnceInMultiset(a, c);
      OnceInMultiset(b, c);
      assert c in a <==> c in multiset(a);
      assert c in b <==> c in multiset(b);
    }
  }

  // ---------------------------------------------------------------- departments

  function DepartmentHit(lang: Language, d: DepartmentView, query: string, city: string): Option<Candidate> {
    var number := lang.number(query);
    var cityNormalized := lang.normalize(city);
    if number.Some? && d.number != number then None
    else if cityNormalized != "" && d.normalizedCity != cityNormalized then None
    else
      var rank := Rank(lang, query, d.row.name, d.row.aliases);
      var score := if number.Some? then Max(rank, 0.96) else rank;
      if score < 0.30 then None else Some(Candidate(d.row.id, d.row.name, score, d.row.city))
  }

  function DepartmentHits(lang: Language, b: Bundle, query: string, city: string): seq<Option<Candidate>> {
    seq(|b.departments|, i requires 0 <= i < |b.departments| => DepartmentHit(lang, b.departments[i], query, city))
  }

  function DepartmentSearch(lang: Language, b: Bundle, query: string, city: string, limit: int): ToolResult {
    TopK(b.version, Somes(DepartmentHits(lang, b, query, city)), Limit(limit), false)
  }

  method SearchDepartments(lang: Language, bundle: Bundle, query: string, city: string, limit: int)
    returns (r: ToolResult)
    ensures r == DepartmentSearch(lang, bundle, query, city, limit)
  {
    var queryNumber := lang.number(query);
    var cityNormalized := lang.normalize(city);
    var candidates: seq<Candidate> := [];
    ghost var hits := DepartmentHits(lang, bundle, query, city);
    for i := 0 to |bundle.departments|
      invariant candidates == Somes(hits[..i])
    {
      assert hits[..i + 1][..i] == hits[..i];
      var d := bundle.departments[i];
      if queryNumber.Some? && d.number != queryNumber { continue; }
      if cityNormalized != "" && d.normalizedCity != cityNormalized { continue; }
      var score := RankText(lang, query, d.row.name, d.row.aliases);
      if queryNumber.Some? { score := Max(score, 0.96); }
      if score < 0.30 { continue; }
      candidates := candidates + [Candidate(d.row.id, d.row.name, score, d.row.city)];
    }
    assert hits[..|bundle.departments|] == hits;
    r := TopK(bundle.version, candidates, Limit(limit), false);
  }

  /** The departments that pass every hard filter and the score threshold. */
  function PassingDepartments(lang: Language, b: Bundle, query: string, city: string): set<nat> {
    set i: nat | i < |b.departments| && DepartmentHit(lang, b.departments[i], query, city).Some?
  }

  /** Candidate c stands for department d, which has the queried number and city. */
  predicate AnswersWith(lang: Language, d: DepartmentView, query: string, city: string, c: Candidate) {
    && d.row.id == c.id && d.row.name == c.caption
    && (lang.number(query).Some? ==> d.number == lang.number(query))
    && (lang.normalize(city) != "" ==> d.normalizedCity == lang.normalize(city))
  }

  /**
   * Hard filters are hard: whatever is returned is a department of the bundle with the queried
   * number and city, and the status counts the departments that pass.
   */
  lemma DepartmentSearchFilters(lang: Language, b: Bundle, query: string, city: string, limit: int)
    ensures var r := DepartmentSearch(lang, b, query, city, limit);
      && (forall c :: c in r.candidates ==> exists d :: d in b.departments && AnswersWith(lang, d, query, city, c))
      && (limit >= 2 ==>
            && (r.status == NOT_FOUND <==> |PassingDepartments(lang, b, query, city)| == 0)
            && (r.status == FOUND <==> |PassingDepartments(lang, b, query, city)| == 1)
            && (r.status == AMBIGUOUS <==> |PassingDepartments(lang, b, query, city)| >= 2))
  {
    var hits := DepartmentHits(lang, b, query, city);
    SomesMembers(hits);
    SomesCount(hits);
    assert PassingDepartments(lang, b, query, city) == set i | 0 <= i < |hits| && hits[i].Some?;
    TopKIsBest(b.version, Somes(hits), Limit(limit), false);
    var r := DepartmentSearch(lang, b, query, city, limit);
    forall c | c in r.candidates ensures exists d :: d in b.departments && AnswersWith(lang, d, query, city, c) {
      var i :| 0 <= i < |hits| && hits[i] == Some(c);
      assert b.departments[i] in b.departments;
    }
  }

  lemma DepartmentHitsUnique(lang: Language, b: Bundle, query: string, city: string)
    requires forall i, j :: 0 <= i < j < |b.departments| ==> b.departments[i].row.id != b.departments[j].row.id
    ensures UniqueIds(Somes(DepartmentHits(lang, b, query, city)))
    ensures forall c :: c in Somes(DepartmentHits(lang, b, query, city)) <==>
      exists d :: d in b.departments && DepartmentHit(lang, d, query, city) == Some(c)
  {
    var hits := DepartmentHits(lang, b, query, city);
    SomesUnique(hits);
    SomesMembers(hits);
    forall c | Some(c) in hits
      ensures exists d :: d in b.departments && DepartmentHit(lang, d, query, city) == Some(c)
    {
      var i :| 0 <= i < |hits| && hits[i] == Some(c);
      assert b.departments[i] in b.departments;
    }
    forall d | d in b.departments && DepartmentHit(lang, d, query, city).Some?
      ensures DepartmentHit(lang, d, query, city) in hits
    {
      var i :| 0 <= i < |b.departments| && b.departments[i] == d;
      assert hits[i] == DepartmentHit(lang, d, query, city);
    }
  }

  /** Listing the departments of a catalog in another order changes no answer. */
  lemma DepartmentSearchIgnoresOrder(lang: Language, b: Bundle, c: Bundle, query: string, city: string, limit: int)
    requires ValidBundle(b) && ValidBundle(c) && b.version == c.version
    requires forall d :: d in b.departments <==> d in c.departments
    ensures DepartmentSearch(lang, b, query, city, limit) == DepartmentSearch(lang, c, query, city, limit)
  {
    DepartmentHitsUnique(lang, b, query, city);
    DepartmentHitsUnique(lang, c, query, city);
    var x, y := Somes(DepartmentHits(lang, b, query, city)), Somes(DepartmentHits(lang, c, query, city));
    UniqueSameMembers(x, y);
    TopKIgnoresOrder(b.version, x, y, Limit(limit), false);
  }

  // ---------------------------------------------------------------- positions

  predicate InScope(lang: Language, p: ProfileView, city: string, departmentId: string) {
    && (lang.normalize(city) != "" ==> p.normalizedCity == lang.normalize(city))
    && (departmentId != "" ==> departmentId in p.row.departmentIds)
  }

  function PositionScope(lang: Language, b: Bundle, city: string, departmentId: string): Option<set<string>> {
    if city == "" && departmentId == "" then None
    else Some(set e, x | e in b.profiles && InScope(lang, e.1, city, departmentId) && x in e.1.row.positionIds :: x)
  }

  method PositionIdsForContext(lang: Language, bundle: Bundle, city: string, departmentId: string)
    returns (allowed: Option<set<string>>)
    ensures allowed == PositionScope(lang, bundle, city, departmentId)
  {
    if city == "" && departmentId == "" { return None; }
    var cityNormalized := lang.normalize(city);
    var ids: set<string> := {};
    for i := 0 to |bundle.profiles|
      invariant ids == set e, x | e in bundle.profiles[..i] && InScope(lang, e.1, city, departmentId) && x in e.1.row.positionIds :: x
    {
      assert bundle.profiles[..i + 1] == bundle.profiles[..i] + [bundle.profiles[i]];
      var p := bundle.profiles[i].1;
      if cityNormalized != "" && p.normalizedCity != cityNormalized { continue; }
      if departmentId != "" && departmentId !in p.row.departmentIds { continue; }
      ids := ids + set x | x in p.row.positionIds;
    }
    assert bundle.profiles[..|bundle.profiles|] == bundle.profiles;
    return Some(ids);
  }

  function PositionHit(lang: Language, p: Position, query: string, allowed: Option<set<string>>): Option<Candidate> {
    if allowed.Some? && p.id !in allowed.value then None
    else
      var score := Rank(lang, query, p.name, p.aliases);
      if score < 0.30 then None else Some(Candidate(p.id, p.name, score, ""))
  }

  function PositionHits(lang: Language, b: Bundle, query: string, allowed: Option<set<string>>): seq<Option<Candidate>> {
    seq(|b.positions|, i requires 0 <= i < |b.positions| => PositionHit(lang, b.positions[i], query, allowed))
  }

  function PositionSearch(lang: Language, b: Bundle, query: string, city: string, departmentId: string, limit: int): ToolResult {
    TopK(b.version, Somes(PositionHits(lang, b, query, PositionScope(lang, b, city, departmentId))), Limit(limit), false)
  }

  method SearchPositions(lang: Language, bundle: Bundle, query: string, city: string, departmentId: string, limit: int)
    returns (r: ToolResult)
    ensures r == PositionSearch(lang, bundle, query, city, departmentId, limit)
  {
    var allowed := PositionIdsForContext(lang, bundle, city, departmentId);
    var candidates: seq<Candidate> := [];
    ghost var hits := PositionHits(lang, bundle, query, allowed);
    for i := 0 to |bundle.positions|
      invariant candidates == Somes(hits[..i])
    {
      assert hits[..i + 1][..i] == hits[..i];
      var p := bundle.positions[i];
      if allowed.Some? && p.id !in allowed.value { continue; }
      var score := RankText(lang, query, p.name, p.aliases);
      if score < 0.30 { continue; }
      candidates := candidates + [Candidate(p.id, p.name, score, "")];
    }
    assert hits[..|bundle.positions|] == hits;
    r := TopK(bundle.version, candidates, Limit(limit), false);
  }

  lemma PositionHitsUnique(lang: Language, b: Bundle, query: string, allowed: Option<set<string>>)
    requires ValidBundle(b)
    ensures var s := Somes(PositionHits(lang, b, query, allowed));
      UniqueIds(s) && forall c :: c in s ==> c.id in PositionIds(b) && (allowed.Some? ==> c.id in allowed.value)
  {
    var hits := PositionHits(lang, b, query, allowed);
    SomesUnique(hits);
    SomesMembers(hits);
    forall c | Some(c) in hits ensures c.id in PositionIds(b) && (allowed.Some? ==> c.id in allowed.value) {
      var i :| 0 <= i < |hits| && hits[i] == Some(c);
      assert b.positions[i] in b.positions;
    }
  }

  function PassingPositions(lang: Language, b: Bundle, query: string, allowed: Option<set<string>>): set<nat> {
    set i: nat | i < |b.positions| && PositionHit(lang, b.positions[i], query, allowed).Some?
  }

  /** Some profile in the city and department holds the position. */
  ghost predicate HeldInContext(lang: Language, b: Bundle, city: string, departmentId: string, positionId: string) {
    exists e :: e in b.profiles && InScope(lang, e.1, city, departmentId) && positionId in e.1.row.positionIds
  }

  /**
   * Position search stays inside its context: with a city or a department every position returned
   * is held there by some profile; the status counts the positions that pass.
   */
  lemma PositionSearchFilters(lang: Language, b: Bundle, query: string, city: string, departmentId: string, limit: int)
    requires ValidBundle(b)
    ensures var r := PositionSearch(lang, b, query, city, departmentId, limit);
      var passing := PassingPositions(lang, b, query, PositionScope(lang, b, city, departmentId));
      && (forall c :: c in r.candidates ==> c.id in PositionIds(b))
      && (city != "" || departmentId != "" ==>
            forall c :: c in r.candidates ==> HeldInContext(lang, b, city, departmentId, c.id))
      && (limit >= 2 ==>
            && (r.status == NOT_FOUND <==> |passing| == 0)
            && (r.status == FOUND <==> |passing| == 1)
            && (r.status == AMBIGUOUS <==> |passing| >= 2))
  {
    hide ValidBundle, Rank, Sort;
    var allowed := PositionScope(lang, b, city, departmentId);
    var hits := PositionHits(lang, b, query, allowed);
    PositionHitsUnique(lang, b, query, allowed);
    SomesCount(hits);
    assert PassingPositions(lang, b, query, allowed) == set i | 0 <= i < |hits| && hits[i].Some?;
    TopKIsBest(b.version, Somes(hits), Limit(limit), false);
  }

  // ---------------------------------------------------------------- profiles

  function ProfileHit(lang: Language, p: ProfileView, departmentId: string, positionId: string, city: string): Option<Candidate> {
    if departmentId !in p.row.departmentIds || positionId !in p.row.positionIds then None
    else if lang.normalize(city) != "" && p.normalizedCity != lang.normalize(city) then None
    else Some(Candidate(p.row.id, p.row.name, 1.0, p.row.city))
  }

  function ProfileHits(lang: Language, b: Bundle, departmentId: string, positionId: string, city: string): seq<Option<Candidate>> {
    seq(|b.profiles|, i requires 0 <= i < |b.profiles| => ProfileHit(lang, b.profiles[i].1, departmentId, positionId, city))
  }

  function ProfileSearch(lang: Language, b: Bundle, departmentId: string, positionId: string, city: string, limit: int): ToolResult {
    TopK(b.version, Somes(ProfileHits(lang, b, departmentId, positionId, city)), Limit(limit), false)
  }

  method ResolveProfiles(lang: Language, bundle: Bundle, departmentId: string, positionId: string, city: string, limit: int)
    returns (r: ToolResult)
    ensures r == ProfileSearch(lang, bundle, departmentId, positionId, city, limit)
  {
    var cityNormalized := lang.normalize(city);
    var candidates: seq<Candidate> := [];
    ghost var hits := ProfileHits(lang, bundle, departmentId, positionId, city);
    for i := 0 to |bundle.profiles|
      invariant candidates == Somes(hits[..i])
    {
      assert hits[..i + 1][..i] == hits[..i];
      var p := bundle.profiles[i].1;
      if departmentId !in p.row.departmentIds { continue; }
      if positionId !in p.row.positionIds { continue; }
      if cityNormalized != "" && p.normalizedCity != cityNormalized { continue; }
      candidates := candidates + [Candidate(p.row.id, p.row.name, 1.0, p.row.city)];
    }
    assert hits[..|bundle.profiles|] == hits;
    r := TopK(bundle.version, candidates, Limit(limit), false);
  }

  /** The profile exists and holds both the department and the position. */
  ghost predicate Employs(b: Bundle, profileId: string, departmentId: string, positionId: string) {
    exists i ::
      && 0 <= i < |b.profiles| && b.profiles[i].0 == profileId
      && departmentId in b.profiles[i].1.row.departmentIds && positionId in b.profiles[i].1.row.positionIds
  }

  /** Resolving a profile finds profiles of the bundle that really hold the department and the position. */
  lemma ProfileHitsInside(lang: Language, b: Bundle, departmentId: string, positionId: string, city: string)
    requires ValidBundle(b)
    ensures var s := Somes(ProfileHits(lang, b, departmentId, positionId, city));
      && UniqueIds(s)
      && forall c :: c in s ==> Employs(b, c.id, departmentId, positionId)
  {
    var hits := ProfileHits(lang, b, departmentId, positionId, city);
    SomesUnique(hits);
    SomesMembers(hits);
    forall c | Some(c) in hits ensures Employs(b, c.id, departmentId, positionId) {
      var i :| 0 <= i < |hits| && hits[i] == Some(c);
      assert b.profiles[i].0 == c.id;
    }
  }

  // ---------------------------------------------------------------- systems and roles

  /** The systems granted to the profiles; no profiles means no restriction. */
  function SystemScope(b: Bundle, profileIds: seq<string>): Option<set<string>> {
    if profileIds == [] then None
    else Some(set e, g | e in b.profiles && e.0 in profileIds && g in e.1.row.access :: g.systemId)
  }

  function RoleScope(b: Bundle, systemId: string, profileIds: seq<string>): Option<set<string>> {
    if profileIds == [] then None
    else Some(set e, g, r | e in b.profiles && e.0 in profileIds && g in e.1.row.access && g.systemId == systemId && r in g.roleIds :: r)
  }

  /** A dictionary entry is found by its key and by nothing else. */
  lemma EntryByKey(d: OD.Dict<ProfileView>, k: string)
    requires OD.WellFormed(d)
    ensures forall e :: e in d && e.0 == k <==> OD.Get(d, k) == Some(e.1) && e.0 == k
  {
    forall e | e in d && e.0 == k ensures OD.Get(d, k) == Some(e.1) {
      var i :| 0 <= i < |d| && d[i] == e;
      OD.GetAt(d, i);
    }
  }

  method SystemIdsForProfiles(bundle: Bundle, profileIds: seq<string>) returns (allowed: Option<set<string>>)
    requires OD.WellFormed(bundle.profiles)
    ensures allowed == SystemScope(bundle, profileIds)
  {
    if profileIds == [] { return None; }
    var ids: set<string> := {};
    for i := 0 to |profileIds|
      invariant ids == set e, g | e in bundle.profiles && e.0 in profileIds[..i] && g in e.1.row.access :: g.systemId
    {
      assert profileIds[..i + 1] == profileIds[..i] + [profileIds[i]];
      EntryByKey(bundle.profiles, profileIds[i]);
      var profile := OD.Get(bundle.profiles, profileIds[i]);
      ghost var fresh' := set e, g | e in bundle.profiles && e.0 == profileIds[i] && g in e.1.row.access :: g.systemId;
      if profile.None? {
        assert forall e :: e in bundle.profiles ==> e.0 != profileIds[i];
        continue;
      }
      var granted := set g | g in profile.value.row.access :: g.systemId;
      assert granted == fresh' by {
        assert (profileIds[i], profile.value) in bundle.profiles;
        forall x | x in granted ensures x in fresh' {
          var g :| g in profile.value.row.access && g.systemId == x;
          var e := (profileIds[i], profile.value);
          assert e in bundle.profiles && g in e.1.row.access;
        }
      }
      ids := ids + granted;
    }
    assert profileIds[..|profileIds|] == profileIds;
    return Some(ids);
  }

  method RoleIdsForProfiles(bundle: Bundle, systemId: string, profileIds: seq<string>)
    returns (allowed: Option<set<string>>)
    requires OD.WellFormed(bundle.profiles)
    ensures allowed == RoleScope(bundle, systemId, profileIds)
  {
    if profileIds == [] { return None; }
    var ids: set<string> := {};
    for i := 0 to |profileIds|
      invariant ids == set e, g, r | e in bundle.profiles && e.0 in profileIds[..i] && g in e.1.row.access
        && g.systemId == systemId && r in g.roleIds :: r
    {
      assert profileIds[..i + 1] == profileIds[..i] + [profileIds[i]];
      EntryByKey(bundle.profiles, profileIds[i]);
      var profile := OD.Get(bundle.profiles, profileIds[i]);
      if profile.None? {
        assert forall e :: e in bundle.profiles ==> e.0 != profileIds[i];
        continue;
      }
      ghost var fresh' := set e, g, r | e in bundle.profiles && e.0 == profileIds[i] && g in e.1.row.access
        && g.systemId == systemId && r in g.roleIds :: r;
      var granted := set g, r | g in profile.value.row.access && g.systemId == systemId && r in g.roleIds :: r;
      assert granted == fresh' by {
        assert (profileIds[i], profile.value) in bundle.profiles;
        forall x | x in granted ensures x in fresh' {
          var g :| g in profile.value.row.access && g.systemId == systemId && x in g.roleIds;
          var e := (profileIds[i], profile.value);
          assert e in bundle.profiles && g in e.1.row.access;
        }
      }
      ids := ids + granted;
    }
    assert profileIds[..|profileIds|] == profileIds;
    return Some(ids);
  }

  function SystemHit(lang: Language, e: (string, System), query: string, allowed: Option<set<string>>): Option<Candidate> {
    if allowed.Some? && e.0 !in allowed.value then None
    else
      var score := Rank(lang, query, e.1.name, e.1.aliases);
      if query != "" && score < 0.30 then None else Some(Candidate(e.0, e.1.name, score, ""))
  }

  function SystemHits(lang: Language, b: Bundle, query: string, allowed: Option<set<string>>): seq<Option<Candidate>> {
    seq(|b.systems|, i requires 0 <= i < |b.systems| => SystemHit(lang, b.systems[i], query, allowed))
  }

  function SystemSearch(lang: Language, b: Bundle, query: string, profileIds: seq<string>, limit: int): ToolResult {
    TopK(b.version, Somes(SystemHits(lang, b, query, SystemScope(b, profileIds))), Limit(limit), query == "")
  }

  method SearchSystems(lang: Language, bundle: Bundle, query: string, profileIds: seq<string>, limit: int)
    returns (r: ToolResult)
    requires OD.WellFormed(bundle.profiles)
    ensures r == SystemSearch(lang, bundle, query, profileIds, limit)
  {
    var allowed := SystemIdsForProfiles(bundle, profileIds);
    var candidates: seq<Candidate> := [];
    ghost var hits := SystemHits(lang, bundle, query, allowed);
    for i := 0 to |bundle.systems|
      invariant candidates == Somes(hits[..i])
    {
      assert hits[..i + 1][..i] == hits[..i];
      var (systemId, system) := bundle.systems[i];
      if allowed.Some? && systemId !in allowed.value { continue; }
      var score := RankText(lang, query, system.name, system.aliases);
      if query != "" && score < 0.30 { continue; }
      candidates := candidates + [Candidate(systemId, system.name, score, "")];
    }
    assert hits[..|bundle.systems|] == hits;
    r := TopK(bundle.version, candidates, Limit(limit), query == "");
  }

  function RoleHit(lang: Language, role: Role, query: string, accessLevel: Option<int>, allowed: Option<set<string>>): Option<Candidate> {
    if allowed.Some? && role.id !in allowed.value then None
    else if accessLevel.Some? && role.accessLevel != accessLevel.value then None
    else
      var score := Rank(lang, query, role.name, []);
      if query != "" && score < 0.30 then None else Some(Candidate(role.id, role.name, score, ""))
  }

  function RoleHits(lang: Language, roles: seq<Role>, query: string, accessLevel: Option<int>, allowed: Option<set<string>>): seq<Option<Candidate>> {
    seq(|roles|, i requires 0 <= i < |roles| => RoleHit(lang, roles[i], query, accessLevel, allowed))
  }

  function RoleSearch(lang: Language, b: Bundle, systemId: string, profileIds: seq<string>, query: string,
                      accessLevel: Option<int>, limit: int): ToolResult {
    match OD.Get(b.systems, systemId)
    case None => ToolResult(INVALID, b.version, [])
    case Some(system) =>
      TopK(b.version, Somes(RoleHits(lang, system.roles, query, accessLevel, RoleScope(b, systemId, profileIds))),
             Limit(limit), query == "")
  }

  method SearchRoles(lang: Language, bundle: Bundle, systemId: string, profileIds: seq<string>, query: string,
                     accessLevel: Option<int>, limit: int) returns (r: ToolResult)
    requires OD.WellFormed(bundle.profiles)
    ensures r == RoleSearch(lang, bundle, systemId, profileIds, query, accessLevel, limit)
  {
    var found := OD.Get(bundle.systems, systemId);
    if found.None? { return ToolResult(INVALID, bundle.version, []); }
    var roles := found.value.roles;
    var allowed := RoleIdsForProfiles(bundle, systemId, profileIds);
    var candidates: seq<Candidate> := [];
    ghost var hits := RoleHits(lang, roles, query, accessLevel, allowed);
    for i := 0 to |roles|
      invariant candidates == Somes(hits[..i])
    {
      assert hits[..i + 1][..i] == hits[..i];
      var role := roles[i];
      if allowed.Some? && role.id !in allowed.value { continue; }
      if accessLevel.Some? && role.accessLevel != accessLevel.value { continue; }
      var score := RankText(lang, query, role.name, []);
      if query != "" && score < 0.30 { continue; }
      candidates := candidates + [Candidate(role.id, role.name, score, "")];
    }
    assert hits[..|roles|] == hits;
    r := TopK(bundle.version, candidates, Limit(limit), query == "");
  }

  /** Systems of a profile are listed once each, and all of them when no more than the limit. */
  lemma SystemHitsInside(lang: Language, b: Bundle, profileIds: seq<string>)
    requires ValidBundle(b) && profileIds != []
    ensures var s := Somes(SystemHits(lang, b, "", SystemScope(b, profileIds)));
      && UniqueIds(s)
      && (forall c :: c in s ==> c.id in OD.Keys(b.systems) && c.id in SystemScope(b, profileIds).value)
      && (forall k :: k in OD.Keys(b.systems) && k in SystemScope(b, profileIds).value ==> exists c :: c in s && c.id == k)
  {
    var allowed := SystemScope(b, profileIds);
    var hits := SystemHits(lang, b, "", allowed);
    SomesUnique(hits);
    SomesMembers(hits);
    forall c | Some(c) in hits ensures c.id in OD.Keys(b.systems) && c.id in allowed.value {
      var i :| 0 <= i < |hits| && hits[i] == Some(c);
      assert b.systems[i].0 == c.id;
    }
    forall k | k in OD.Keys(b.systems) && k in allowed.value ensures exists c :: c in Somes(hits) && c.id == k {
      var i :| 0 <= i < |b.systems| && b.systems[i].0 == k;
      assert hits[i].Some? && hits[i].value.id == k;
      assert Some(hits[i].value) in hits;
    }
  }

  lemma RoleHitsInside(lang: Language, roles: seq<Role>, allowed: set<string>)
    requires forall x, y :: 0 <= x < y < |roles| ==> roles[x].id != roles[y].id
    ensures var s := Somes(RoleHits(lang, roles, "", None, Some(allowed)));
      && UniqueIds(s)
      && (forall c :: c in s ==> c.id in allowed && c.id in Ids(RoleEntries(roles)))
      && (forall r :: r in allowed && r in Ids(RoleEntries(roles)) ==> exists c :: c in s && c.id == r)
  {
    var hits := RoleHits(lang, roles, "", None, Some(allowed));
    SomesUnique(hits);
    SomesMembers(hits);
    var e := RoleEntries(roles);
    forall c | Some(c) in hits ensures c.id in allowed && c.id in Ids(e) {
      var i :| 0 <= i < |hits| && hits[i] == Some(c);
      assert e[i].id == c.id;
    }
    forall r | r in allowed && r in Ids(e) ensures exists c :: c in Somes(hits) && c.id == r {
      var i :| 0 <= i < |e| && e[i].id == r;
      assert hits[i].Some? && hits[i].value.id == r;
      assert Some(hits[i].value) in hits;
    }
  }
}
