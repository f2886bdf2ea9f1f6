/** Canonical text as the language of the catalog: the assumptions of the snapshot translation hold of it. */
module CatalogLanguage {
  import opened Prelude
  import W = Words
  import opened Catalog
  import opened Normalization
  import opened NormalizationProofs
  import V1Snapshot
  import V1SnapshotProofs

  function LanguageOf(u: Unicode, ratio: (string, string) -> real, rounded: real -> real): Language {
    Language(s => Normalize(u, s), s => DepartmentNumber(u, s), u.isSpace, ratio, rounded)
  }

  lemma {:induction false} LeftStripped(u: Unicode, s: string)
    requires Tables(u)
    ensures Normalize(u, W.StripLeft(u.isSpace, s)) == Normalize(u, s)
    decreases |s|
  {
    hide Normalize, Tables;
    if s != "" && u.isSpace(s[0]) {
      LeftStripped(u, s[1..]);
      SpaceAround(u, s[1..], s[0]);
      assert [s[0]] + s[1..] == s;
    }
  }

  lemma {:induction false} RightStripped(u: Unicode, s: string)
    requires Tables(u)
    ensures Normalize(u, W.StripRight(u.isSpace, s)) == Normalize(u, s)
    decreases |s|
  {
    hide Normalize, Tables;
    if s != "" && u.isSpace(s[|s| - 1]) {
      var init := s[..|s| - 1];
      RightStripped(u, init);
      SpaceAround(u, init, s[|s| - 1]);
      assert init + [s[|s| - 1]] == s;
    }
  }

  /** Stripping a value never changes its canonical text. */
  lemma StripInvisible(u: Unicode, ratio: (string, string) -> real, rounded: real -> real, s: string)
    requires Tables(u)
    ensures var lang := LanguageOf(u, ratio, rounded); lang.normalize(Strip(lang, s)) == lang.normalize(s)
  {
    LeftStripped(u, s);
    RightStripped(u, W.StripLeft(u.isSpace, s));
  }

  lemma NormalizedChars(u: Unicode, s: string, c: char)
    requires Tables(u) && c in Normalize(u, s) && c != ' '
    ensures Letter(c)
  {
    TokensAreRuns(u, s);
    JoinClean(Tokens(u, s));
  }

  lemma WordNormal(u: Unicode, w: string)
    requires Tables(u) && w != "" && AllLetters(w) && !OrdinalEnd(w)
    ensures Normalize(u, w) == w
  {
    NormalizeClean(u, [w]);
  }

  /** With canonical text, hexadecimal digests and blank-free ASCII the translation's assumptions hold. */
  lemma AdapterSane(u: Unicode, ratio: (string, string) -> real, rounded: real -> real, city: string -> string, digest: string -> string)
    requires Tables(u) && forall c: char :: '!' <= c <= '~' ==> !u.isSpace(c)
    requires forall s: string :: digest(s) != "" && forall c :: c in digest(s) ==> Letter(c)
    ensures V1SnapshotProofs.Sane(V1Snapshot.Adapter(LanguageOf(u, ratio, rounded), city, digest))
  {
    var lang := LanguageOf(u, ratio, rounded);
    forall s: string ensures lang.normalize(Strip(lang, s)) == lang.normalize(s) { StripInvisible(u, ratio, rounded, s); }
    forall s: string, c: char | c in lang.normalize(s) && c != ' ' ensures !lang.isSpace(c) { NormalizedChars(u, s, c); }
    ChiefNormal(u);
  }

  /** The empty text stays empty, so that a search without a query scores all entries alike. */
  lemma EmptyNormal(u: Unicode, ratio: (string, string) -> real, rounded: real -> real)
    ensures LanguageOf(u, ratio, rounded).normalize("") == ""
  {
    EmptyHasNoTokens(u);
  }

  lemma ChiefNormal(u: Unicode)
    requires Tables(u)
    ensures Normalize(u, V1Snapshot.CHIEF) == V1Snapshot.CHIEF
  {
    var w := V1Snapshot.CHIEF;
    assert w[|w| - 1] == 'к';
    WordNormal(u, w);
  }

  /** Tables as assumed do exist. */
  lemma TablesExist()
    ensures exists u: Unicode :: Tables(u) && Underscore(u) && forall c: char :: '!' <= c <= '~' ==> !u.isSpace(c)
  {
    var u := Unicode(c => [c], c => '0' <= c <= '9', c => Letter(c) || c == 'ё' || c == '_', c => c == ' ');
    assert Tables(u);
  }
}
