/** What the text scores behind every search mean, and which entries they let pass. */
module TextScores {
  import opened Prelude
  import opened Words
  import opened Catalog
  import opened CatalogBundle
  import opened Ranking
  import opened SearchTools

  // ---------------------------------------------------------------- tokens

  /** How long a common beginning has to be for a token of the query. */
  function Beginning(q: string): nat {
    if |q| <= 5 then 3 else if |q| <= 8 then |q| - 2 else 6
  }

  /** Two tokens match when they begin alike for that long, or one begins with the whole other. */
  predicate BeginAlike(q: string, c: string) {
    q <= c || c <= q || (Beginning(q) <= |q| && Beginning(q) <= |c| && q[..Beginning(q)] == c[..Beginning(q)])
  }

  lemma MatchedTokens(q: string, c: string)
    ensures TokenMatches(q, c) <==> BeginAlike(q, c)
  {
    var n := PrefixLength(q);
    assert n == Beginning(q);
    if |q| > n && |c| >= n { assert q[..n] <= c <==> q[..n] == c[..n]; }
    if |c| > n && |q| >= n { assert c[..n] <= q <==> q[..n] == c[..n]; }
  }

  function WordsOf(lang: Language, s: string): set<string> {
    set w | w in Split(lang.normalize(s))
  }

  function Answered(lang: Language, query: string, candidate: string): set<string> {
    set q | q in WordsOf(lang, query) && exists c | c in WordsOf(lang, candidate) :: BeginAlike(q, c)
  }

  /** The share counts the words of the query that some word of the candidate matches. */
  lemma ShareMeaning(lang: Language, query: string, candidate: string)
    ensures WordsOf(lang, query) == {} ==> Coverage(lang, query, candidate) == 0.0
    ensures Coverage(lang, query, candidate) * |WordsOf(lang, query)| as real == |Answered(lang, query, candidate)| as real
    ensures Coverage(lang, query, candidate) > 0.0 <==> Answered(lang, query, candidate) != {}
  {
    var q, c := Tokens(lang, query), Tokens(lang, candidate);
    forall t, u ensures TokenMatches(t, u) <==> BeginAlike(t, u) { MatchedTokens(t, u); }
    var m := set t | t in q && Matched(t, c);
    assert m == Answered(lang, query, candidate);
    if q != {} && c != {} {
      ShareTimes(|m|, |q|);
    } else {
      assert m == {};
    }
  }

  lemma ShareTimes(m: nat, n: nat)
    requires n > 0
    ensures (m as real / n as real) * n as real == m as real
    ensures m as real / n as real > 0.0 <==> m > 0
  {
  }

  // ---------------------------------------------------------------- one entry

  /** One text stands inside the other. */
  ghost predicate Overlap(a: string, b: string) {
    Inside(a, b) || Inside(b, a)
  }

  predicate StandsAt(part: string, text: string, i: int) {
    0 <= i <= |text| - |part| && text[i..i + |part|] == part
  }

  ghost predicate Inside(part: string, text: string) {
    exists i :: StandsAt(part, text, i)
  }

  lemma {:induction false} ContainsMeaning(text: string, part: string)
    ensures Contains(text, part) <==> Inside(part, text)
    decreases |text|
  {
    hide StandsAt;
    StartsHere(text, part);
    if part <= text {
      assert StandsAt(part, text, 0);
    } else {
      assert !StandsAt(part, text, 0);
      if text != "" {
        var rest := text[1..];
        ContainsMeaning(rest, part);
        forall i ensures StandsAt(part, rest, i) <==> i >= 0 && StandsAt(part, text, i + 1) { StandsLater(text, part, i); }
        if i :| StandsAt(part, text, i) { assert StandsAt(part, rest, i - 1); }
      }
    }
  }

  lemma StartsHere(text: string, part: string)
    ensures part <= text <==> StandsAt(part, text, 0)
    ensures StandsAt(part, "", 0) <==> part == ""
    ensures forall i :: StandsAt(part, text, i) ==> 0 <= i && (text == "" ==> i == 0)
  {
  }

  lemma StandsLater(text: string, part: string, i: int)
    requires text != ""
    ensures StandsAt(part, text[1..], i) <==> i >= 0 && StandsAt(part, text, i + 1)
  {
    if 0 <= i && i + 1 <= |text| - |part| {
      var here, later := text[i + 1..i + 1 + |part|], text[1..][i..i + |part|];
      assert |here| == |later|;
      forall k | 0 <= k < |here| ensures here[k] == later[k] {
        assert here[k] == text[i + 1 + k];
        assert later[k] == text[1..][i + k];
      }
      assert here == later;
    }
  }

  /** The mark of an entry caps its score. */
  function Cap(safety: Safety, x: real): real {
    if safety == Unsafe && x > 0.29 then 0.29
    else if safety == Ambiguous && x > 0.82 then 0.82
    else x
  }

  /** x is the best of three likenesses: the ratio, the share of matched words, and 0.9 for an overlap. */
  ghost predicate BestLikeness(lang: Language, query: string, candidate: string, x: real) {
    var share := Coverage(lang, query, candidate);
    && x >= lang.ratio(query, candidate)
    && (Overlap(query, candidate) ==> x >= 0.9)
    && (share > 0.0 ==> x >= 0.35 + 0.6 * share)
    && (|| x == lang.ratio(query, candidate)
        || (Overlap(query, candidate) && x == 0.9)
        || (share > 0.0 && x == 0.35 + 0.6 * share))
  }

  /**
   * The score of a name or alias: none if it is blank, full marks for an equal SAFE one and 0.82 for
   * another equal one, otherwise the best likeness; UNSAFE and AMBIGUOUS marks cap it.
   */
  lemma ScoreMeaning(lang: Language, query: string, a: Alias)
    requires GoodRatio(lang)
    ensures var candidate := lang.normalize(a.value);
      var score := Score(lang, query, a);
      && (candidate == "" ==> score == 0.0)
      && (candidate != "" && query == candidate ==> score == Cap(a.safety, if a.safety == Safe then 1.0 else 0.82))
      && (candidate != "" && query != candidate ==> exists x :: BestLikeness(lang, query, candidate, x) && score == Cap(a.safety, x))
  {
    var candidate := lang.normalize(a.value);
    ContainsMeaning(candidate, query);
    ContainsMeaning(query, candidate);
    if candidate != "" && query != candidate {
      var coverage := Coverage(lang, query, candidate);
      var x := Max(Max(lang.ratio(query, candidate), if coverage == 0.0 then 0.0 else 0.35 + 0.6 * coverage),
                   if Overlap(query, candidate) then 0.9 else 0.0);
      assert BestLikeness(lang, query, candidate, x);
    }
  }

  // ---------------------------------------------------------------- a name with its aliases

  lemma {:induction false} BestIsGreatest(lang: Language, query: string, entries: seq<Alias>)
    ensures forall a :: a in entries ==> Score(lang, query, a) <= Best(lang, query, entries)
    ensures Best(lang, query, entries) == 0.0 || exists a :: a in entries && Score(lang, query, a) == Best(lang, query, entries)
    ensures Best(lang, query, entries) >= 0.0
    decreases |entries|
  {
    hide Score;
    if entries != [] {
      var init, last := entries[..|entries| - 1], entries[|entries| - 1];
      BestIsGreatest(lang, query, init);
      assert entries == init + [last];
    }
  }

  /** Rounding to four digits, half to even: exactly the scores from 0.29995 on reach the threshold. */
  ghost predicate RoundsToFour(lang: Language) {
    forall x :: lang.rounded(x) >= 0.30 <==> x >= 0.29995
  }

  /** The text resembles the query: equal, overlapping, alike enough, or with a word that begins alike. */
  ghost predicate Resembles(lang: Language, query: string, text: string) {
    var candidate := lang.normalize(text);
    candidate != "" && (
      || query == candidate || Overlap(query, candidate) || lang.ratio(query, candidate) >= 0.29995
      || Answered(lang, query, candidate) != {})
  }

  /** The query is blank, or resembles the name or an alias that is not UNSAFE. */
  ghost predicate Fits(lang: Language, query: string, name: string, aliases: seq<Alias>) {
    var q := lang.normalize(query);
    q == "" || Resembles(lang, q, name) || exists a :: a in aliases && a.safety != Unsafe && Resembles(lang, q, a.value)
  }

  lemma EntryReaches(lang: Language, query: string, a: Alias)
    requires GoodRatio(lang)
    ensures Score(lang, query, a) >= 0.29995 <==> a.safety != Unsafe && Resembles(lang, query, a.value)
  {
    hide Score, Coverage, Answered, Overlap;
    var candidate := lang.normalize(a.value);
    ScoreMeaning(lang, query, a);
    ShareMeaning(lang, query, candidate);
    if candidate != "" && query != candidate {
      var x :| BestLikeness(lang, query, candidate, x) && Score(lang, query, a) == Cap(a.safety, x);
    }
  }

  /** Ranking lets an entry pass exactly when its name or one of its usable aliases resembles the query. */
  lemma RankReaches(lang: Language, query: string, name: string, aliases: seq<Alias>)
    requires GoodRatio(lang) && RoundsToFour(lang)
    ensures Rank(lang, query, name, aliases) >= 0.30 <==> Fits(lang, query, name, aliases)
  {
    hide Score, Best, Resembles;
    var q, entries := lang.normalize(query), Named(name, aliases);
    if q != "" {
      BestIsGreatest(lang, q, entries);
      forall a | a in entries ensures Score(lang, q, a) >= 0.29995 <==> a.safety != Unsafe && Resembles(lang, q, a.value) {
        EntryReaches(lang, q, a);
      }
      NamedEntries(lang, q, name, aliases);
    }
  }

  /** The entries scored are the name as SAFE and the aliases, a missing mark read as SAFE. */
  lemma NamedEntries(lang: Language, q: string, name: string, aliases: seq<Alias>)
    ensures var entries := Named(name, aliases);
      (exists e :: e in entries && e.safety != Unsafe && Resembles(lang, q, e.value)) <==>
        Resembles(lang, q, name) || exists a :: a in aliases && a.safety != Unsafe && Resembles(lang, q, a.value)
  {
    hide Resembles;
    var entries := Named(name, aliases);
    assert entries[0] == Alias(name, Safe) && entries[0] in entries;
    assert |entries| == |aliases| + 1 && forall i :: 0 <= i < |aliases| ==> entries[i + 1] == Effective(aliases[i]);
    if e :| e in entries && e.safety != Unsafe && Resembles(lang, q, e.value) {
      var i :| 0 <= i < |entries| && entries[i] == e;
      if i > 0 { assert aliases[i - 1] in aliases && Effective(aliases[i - 1]) == e; }
    }
    if a :| a in aliases && a.safety != Unsafe && Resembles(lang, q, a.value) {
      var i :| 0 <= i < |aliases| && aliases[i] == a;
      assert entries[i + 1] in entries && entries[i + 1] == Effective(a);
    }
  }

  /** The rank is 0.5 for a blank query, and otherwise the rounded score of the entry that scores best. */
  lemma RankMeaning(lang: Language, query: string, name: string, aliases: seq<Alias>)
    requires GoodRatio(lang)
    ensures var q := lang.normalize(query);
      var rank := Rank(lang, query, name, aliases);
      if q == "" then rank == 0.5
      else exists e ::
        && IsEntry(name, aliases, e) && rank == lang.rounded(Score(lang, q, e))
        && forall x :: IsEntry(name, aliases, x) ==> Score(lang, q, x) <= Score(lang, q, e)
  {
    hide Score, Best;
    var q, entries := lang.normalize(query), Named(name, aliases);
    if q != "" {
      BestIsGreatest(lang, q, entries);
      forall e ensures IsEntry(name, aliases, e) <==> e in entries { EntriesAre(name, aliases, e); }
      assert entries[0] in entries && IsEntry(name, aliases, entries[0]);
      ScoreBounds(lang, q, entries[0]);
    }
  }

  /** What is scored: the name as a SAFE entry, and the aliases, a missing mark read as SAFE. */
  ghost predicate IsEntry(name: string, aliases: seq<Alias>, e: Alias) {
    || e == Alias(name, Safe)
    || exists a :: a in aliases && e.value == a.value && e.safety == if a.safety == Absent then Safe else a.safety
  }

  lemma EntriesAre(name: string, aliases: seq<Alias>, e: Alias)
    ensures IsEntry(name, aliases, e) <==> e in Named(name, aliases)
  {
    var entries := Named(name, aliases);
    assert entries[0] == Alias(name, Safe);
    assert |entries| == |aliases| + 1 && forall i :: 0 <= i < |aliases| ==> entries[i + 1] == Effective(aliases[i]);
    if e in entries {
      var i :| 0 <= i < |entries| && entries[i] == e;
      if i > 0 { assert aliases[i - 1] in aliases && Effective(aliases[i - 1]) == e; }
    }
    if a :| a in aliases && e.value == a.value && e.safety == if a.safety == Absent then Safe else a.safety {
      var i :| 0 <= i < |aliases| && aliases[i] == a;
      assert entries[i + 1] == e;
    }
  }

  // ---------------------------------------------------------------- which entries pass

  /** A position passes exactly when it is in scope and its name or a usable alias resembles the query. */
  lemma PositionsThatPass(lang: Language, b: Bundle, query: string, allowed: Option<set<string>>, i: nat)
    requires GoodRatio(lang) && RoundsToFour(lang) && i < |b.positions|
    ensures var p := b.positions[i];
      i in PassingPositions(lang, b, query, allowed) <==>
        (allowed.None? || p.id in allowed.value) && Fits(lang, query, p.name, p.aliases)
    ensures var p, hit := b.positions[i], PositionHit(lang, b.positions[i], query, allowed);
      hit.Some? ==> hit.value == Candidate(p.id, p.name, Rank(lang, query, p.name, p.aliases), "")
  {
    hide Rank, Fits;
    RankReaches(lang, query, b.positions[i].name, b.positions[i].aliases);
  }

  /**
   * A department passes exactly when it is in the city, if one is named, and has the number that the
   * query names or, without one, a name or usable alias that resembles the query.
   */
  lemma DepartmentsThatPass(lang: Language, b: Bundle, query: string, city: string, i: nat)
    requires GoodRatio(lang) && RoundsToFour(lang) && i < |b.departments|
    ensures var d := b.departments[i];
      i in PassingDepartments(lang, b, query, city) <==>
        && (lang.normalize(city) == "" || d.normalizedCity == lang.normalize(city))
        && if lang.number(query).Some? then d.number == lang.number(query) else Fits(lang, query, d.row.name, d.row.aliases)
    ensures var d, hit := b.departments[i], DepartmentHit(lang, b.departments[i], query, city);
      var rank := Rank(lang, query, d.row.name, d.row.aliases);
      hit.Some? ==> hit.value == Candidate(d.row.id, d.row.name, if lang.number(query).Some? && rank < 0.96 then 0.96 else rank, d.row.city)
  {
    hide Rank, Fits;
    RankReaches(lang, query, b.departments[i].row.name, b.departments[i].row.aliases);
  }

  /** A system passes exactly when it is granted, if profiles are given, and without a query or resembling it. */
  lemma SystemsThatPass(lang: Language, e: (string, System), query: string, allowed: Option<set<string>>)
    requires GoodRatio(lang) && RoundsToFour(lang)
    ensures SystemHit(lang, e, query, allowed).Some? <==>
      (allowed.None? || e.0 in allowed.value) && (query == "" || Fits(lang, query, e.1.name, e.1.aliases))
  {
    hide Rank, Fits;
    RankReaches(lang, query, e.1.name, e.1.aliases);
  }

  lemma RolesThatPass(lang: Language, r: Role, query: string, level: Option<int>, allowed: Option<set<string>>)
    requires GoodRatio(lang) && RoundsToFour(lang)
    ensures RoleHit(lang, r, query, level, allowed).Some? <==>
      && (allowed.None? || r.id in allowed.value) && (level.None? || r.accessLevel == level.value)
      && (query == "" || Fits(lang, query, r.name, []))
  {
    hide Rank, Fits;
    RankReaches(lang, query, r.name, []);
  }
}
