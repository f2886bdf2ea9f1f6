/** Canonical form, idempotence and department numbers. */
module NormalizationProofs {
  import opened Prelude
  import W = Words
  import opened Normalization

  /** What is assumed of the Unicode tables. */
  ghost predicate Tables(u: Unicode) {
    && (forall c: char :: Letter(c) ==> u.lower(c) == [c] && u.isWord(c) && !u.isSpace(c))
    && (forall c: char :: Letter(c) ==> (u.isDigit(c) <==> '0' <= c <= '9'))
    && (forall c: char :: u.isDigit(c) ==> u.isWord(c))
    && (forall c: char :: Hyphen(c) ==> !u.isWord(c))
    && (forall c: char :: u.isSpace(c) ==> u.lower(c) == [c] && !u.isWord(c) && c != '№')
    && u.isSpace(' ') && u.isWord('ё')
  }

  // ---------------------------------------------------------------- runs of letters

  ghost predicate AllLetters(s: string) {
    forall i :: 0 <= i < |s| ==> Letter(s[i])
  }

  ghost predicate GoodTokens(tokens: seq<string>) {
    forall i :: 0 <= i < |tokens| ==> tokens[i] != "" && AllLetters(tokens[i])
  }

  function Closed(word: string): seq<string> {
    if word == "" then [] else [word]
  }

  /** The maximal runs of letters; `word` is the run being read. */
  function Runs(s: string, word: string): seq<string>
    decreases |s|
  {
    if s == "" then Closed(word)
    else if Letter(s[0]) then Runs(s[1..], word + [s[0]])
    else Closed(word) + Runs(s[1..], "")
  }

  lemma {:induction false} RunsSkipGap(s: string)
    ensures Runs(SkipGap(s), "") == Runs(s, "")
    decreases |s|
  {
    if s != "" && !Letter(s[0]) { RunsSkipGap(s[1..]); }
  }

  /** Replacing gaps by blanks and splitting yields the runs of letters. */
  lemma {:induction false} SplitSqueeze(s: string, word: string)
    ensures W.SplitFrom(Squeeze(s), word) == Runs(s, word)
    decreases |s|
  {
    if s == "" {
    } else if Letter(s[0]) {
      var q := Squeeze(s);
      assert q[0] == s[0] && q[1..] == Squeeze(s[1..]) && s[0] != ' ';
      SplitSqueeze(s[1..], word + [s[0]]);
    } else {
      GapShrinks(s[1..]);
      var q := Squeeze(s);
      assert q[0] == ' ' && q[1..] == Squeeze(SkipGap(s[1..]));
      SplitSqueeze(SkipGap(s[1..]), "");
      RunsSkipGap(s[1..]);
    }
  }

  lemma {:induction false} RunsGood(s: string, word: string)
    requires AllLetters(word)
    ensures GoodTokens(Runs(s, word))
    decreases |s|
  {
    if s == "" {
    } else if Letter(s[0]) {
      RunsGood(s[1..], word + [s[0]]);
    } else {
      RunsGood(s[1..], "");
    }
  }

  lemma {:induction false} RunsOfWord(w: string, rest: string, word: string)
    requires AllLetters(w)
    ensures Runs(w + rest, word) == Runs(rest, word + w)
    decreases |w|
  {
    if w == "" {
      assert w + rest == rest && word + w == word;
    } else {
      assert (w + rest)[1..] == w[1..] + rest;
      RunsOfWord(w[1..], rest, word + [w[0]]);
      assert word + [w[0]] + w[1..] == word + w;
    }
  }

  lemma {:induction false} RunsOfJoin(tokens: seq<string>)
    requires GoodTokens(tokens)
    ensures Runs(W.Join(tokens), "") == tokens
    decreases |tokens|
  {
    if |tokens| == 1 {
      RunsOfWord(tokens[0], "", "");
      assert tokens[0] + "" == tokens[0] && "" + tokens[0] == tokens[0];
    } else if |tokens| > 1 {
      var rest := " " + W.Join(tokens[1..]);
      assert W.Join(tokens) == tokens[0] + rest;
      RunsOfWord(tokens[0], rest, "");
      assert "" + tokens[0] == tokens[0];
      assert rest[1..] == W.Join(tokens[1..]);
      RunsOfJoin(tokens[1..]);
      assert tokens == [tokens[0]] + tokens[1..];
    }
  }

  lemma TokensAreRuns(u: Unicode, s: string)
    ensures Tokens(u, s) == Runs(DropEndings(u, false, Fold(u, s)), "")
    ensures GoodTokens(Tokens(u, s))
  {
    SplitSqueeze(DropEndings(u, false, Fold(u, s)), "");
    RunsGood(DropEndings(u, false, Fold(u, s)), "");
  }

  /** Canonical text: letters of the alphabet and single blanks between words. */
  ghost predicate Canonical(t: string) {
    exists tokens :: GoodTokens(tokens) && t == W.Join(tokens)
  }

  lemma NormalizeCanonical(u: Unicode, s: string)
    ensures Canonical(Normalize(u, s))
    ensures Normalize(u, s) == W.Join(Tokens(u, s)) || s == ""
  {
    TokensAreRuns(u, s);
    assert s == "" ==> Normalize(u, s) == W.Join([]);
  }

  // ---------------------------------------------------------------- text that is already folded

  ghost predicate Clean(s: string) {
    forall i :: 0 <= i < |s| ==> Letter(s[i]) || s[i] == ' '
  }

  lemma {:induction false} JoinClean(tokens: seq<string>)
    requires GoodTokens(tokens)
    ensures Clean(W.Join(tokens))
    decreases |tokens|
  {
    if |tokens| > 1 { JoinClean(tokens[1..]); }
  }

  lemma {:induction false} FoldClean(u: Unicode, s: string)
    requires Tables(u) && Clean(s)
    ensures Fold(u, s) == s
    decreases |s|
  {
    if s != "" {
      FoldClean(u, s[1..]);
      assert u.lower(s[0]) == [s[0]];
      assert FoldChars([s[0]]) == [s[0]];
    }
  }

  // ---------------------------------------------------------------- ordinals that survive

  predicate AsciiDigitEnd(w: string) {
    w != "" && '0' <= w[|w| - 1] <= '9'
  }

  /** A digit followed by й, ый or ой at the end of the text. */
  predicate OrdinalEnd(w: string) {
    || (|w| > 1 && w[|w| - 1] == 'й' && AsciiDigitEnd(w[..|w| - 1]))
    || (|w| > 2 && w[|w| - 1] == 'й' && w[|w| - 2] in {'ы', 'о'} && AsciiDigitEnd(w[..|w| - 2]))
  }

  /** An ordinal ending that the pattern misses: a word character outside the alphabet follows at once. */
  ghost predicate ExposedOrdinal(u: Unicode, m: string) {
    exists e :: 0 < e < |m| && OrdinalEnd(m[..e]) && u.isWord(m[e]) && !Letter(m[e])
  }

  /** The same, reading from left to right; `word` is the run of letters before s. */
  predicate ExposedFrom(u: Unicode, word: string, s: string)
    decreases |s|
  {
    s != "" &&
    if Letter(s[0]) then ExposedFrom(u, word + [s[0]], s[1..])
    else (OrdinalEnd(word) && u.isWord(s[0])) || ExposedFrom(u, "", s[1..])
  }

  ghost predicate SomeOrdinal(tokens: seq<string>) {
    exists i :: 0 <= i < |tokens| && OrdinalEnd(tokens[i])
  }

  lemma SomeOrdinalClosed(word: string, rest: seq<string>)
    ensures SomeOrdinal(Closed(word) + rest) <==> OrdinalEnd(word) || SomeOrdinal(rest)
  {
    var all := Closed(word) + rest;
    if SomeOrdinal(rest) {
      var i :| 0 <= i < |rest| && OrdinalEnd(rest[i]);
      assert all[|Closed(word)| + i] == rest[i];
    }
    if word != "" { assert all[0] == word; }
    if SomeOrdinal(all) {
      var i :| 0 <= i < |all| && OrdinalEnd(all[i]);
      if i >= |Closed(word)| { assert all[i] == rest[i - |Closed(word)|]; }
    }
  }

  predicate HalfOrdinal(w: string) {
    |w| > 1 && w[|w| - 1] in {'ы', 'о'} && AsciiDigitEnd(w[..|w| - 1])
  }

  /** Where the scan of DropEndings stands: the run read so far ends no ordinal that the pattern would take. */
  ghost predicate Scanning(u: Unicode, digit: bool, word: string, s: string) {
    && AllLetters(word)
    && (word != "" ==> (digit <==> AsciiDigitEnd(word)))
    && (OrdinalEnd(word) ==> s != "" && u.isWord(s[0]))
    && (HalfOrdinal(word) && s != "" && s[0] == 'й' ==> !EndsHere(u, s[1..]))
  }

  lemma ScanLetter(u: Unicode, digit: bool, word: string, s: string)
    requires Tables(u) && Scanning(u, digit, word, s) && s != "" && Letter(s[0])
    requires !(digit && 0 < Suffix(u, s) <= |s|)
    ensures Scanning(u, u.isDigit(s[0]), word + [s[0]], s[1..])
  {
    var next := word + [s[0]];
    assert next[|next| - 1] == s[0] && next[..|next| - 1] == word;
    if OrdinalEnd(next) && |next| > 2 { assert next[..|next| - 2] == word[..|word| - 1]; }
  }

  /** After a pattern match the run that follows is as good as empty. */
  lemma ExposedRestart(u: Unicode, word: string, rest: string)
    requires Tables(u) && EndsHere(u, rest)
    ensures ExposedFrom(u, word, rest) <==> ExposedFrom(u, "", rest)
  {
  }

  lemma ExposedAfterEnding(u: Unicode, word: string, s: string)
    requires Tables(u) && Ending(u, s) > 0
    ensures Ending(u, s) <= |s| && EndsHere(u, s[Ending(u, s)..])
    ensures ExposedFrom(u, word, s) <==> ExposedFrom(u, "", s[Ending(u, s)..])
  {
    var n := Ending(u, s);
    if n == 1 {
      assert Letter('й');
      ExposedRestart(u, word + ['й'], s[1..]);
    } else {
      assert Letter('й') && Letter('ы') && Letter('о');
      assert s[1..][1..] == s[2..];
      ExposedRestart(u, word + [s[0]] + ['й'], s[2..]);
    }
  }

  lemma ExposedAfterSuffix(u: Unicode, word: string, s: string)
    requires Tables(u) && Suffix(u, s) > 0
    ensures Suffix(u, s) <= |s| && EndsHere(u, s[Suffix(u, s)..])
    ensures ExposedFrom(u, word, s) <==> ExposedFrom(u, "", s[Suffix(u, s)..])
  {
    if Hyphen(s[0]) {
      assert !Letter(s[0]);
      ExposedAfterEnding(u, "", s[1..]);
      assert s[1..][Ending(u, s[1..])..] == s[Suffix(u, s)..];
    } else {
      ExposedAfterEnding(u, word, s);
    }
  }

  /** An ordinal is left in the tokens exactly when one is exposed in the folded text. */
  lemma {:induction false} OrdinalsLeft(u: Unicode, digit: bool, word: string, s: string)
    requires Tables(u) && Scanning(u, digit, word, s)
    ensures SomeOrdinal(Runs(DropEndings(u, digit, s), word)) <==> ExposedFrom(u, word, s)
    decreases |s|
  {
    if s == "" {
      SomeOrdinalClosed(word, []);
      assert Closed(word) + [] == Closed(word);
    } else if digit && 0 < Suffix(u, s) <= |s| {
      var rest := s[Suffix(u, s)..];
      ExposedAfterSuffix(u, word, s);
      var x := DropEndings(u, digit, s);
      assert x[0] == ' ' && x[1..] == DropEndings(u, u.isDigit('й'), rest);
      assert Scanning(u, u.isDigit('й'), "", rest);
      OrdinalsLeft(u, u.isDigit('й'), "", rest);
      SomeOrdinalClosed(word, Runs(x[1..], ""));
    } else {
      var x := DropEndings(u, digit, s);
      assert x[0] == s[0] && x[1..] == DropEndings(u, u.isDigit(s[0]), s[1..]);
      if Letter(s[0]) {
        ScanLetter(u, digit, word, s);
        OrdinalsLeft(u, u.isDigit(s[0]), word + [s[0]], s[1..]);
      } else {
        assert Scanning(u, u.isDigit(s[0]), "", s[1..]);
        OrdinalsLeft(u, u.isDigit(s[0]), "", s[1..]);
        SomeOrdinalClosed(word, Runs(x[1..], ""));
      }
    }
  }

  lemma OrdinalEndTail(w: string, c: char, v: string)
    requires !Letter(c)
    ensures OrdinalEnd(w + [c] + v) <==> OrdinalEnd(v)
  {
    hide OrdinalEnd;
    var all, n := w + [c] + v, |w| + 1 + |v|;
    EndsByIndex(all);
    EndsByIndex(v);
    assert Letter('й') && Letter('ы') && Letter('о') && all[|w|] == c;
    if |v| >= 1 { assert all[n - 1] == v[|v| - 1]; }
    if |v| >= 2 { assert all[n - 2] == v[|v| - 2]; }
    if |v| >= 3 { assert all[n - 3] == v[|v| - 3]; }
  }

  /** The same, character by character. */
  lemma EndsByIndex(w: string)
    ensures var n := |w|;
      OrdinalEnd(w) <==>
        n > 1 && w[n - 1] == 'й' && ('0' <= w[n - 2] <= '9' || (n > 2 && w[n - 2] in {'ы', 'о'} && '0' <= w[n - 3] <= '9'))
  {
  }

  ghost predicate ExposedAfter(u: Unicode, word: string, s: string) {
    exists e :: 0 <= e < |s| && OrdinalEnd(word + s[..e]) && u.isWord(s[e]) && !Letter(s[e])
  }

  lemma ExposedAfterStep(u: Unicode, word: string, s: string, next: string)
    requires s != "" && forall e :: 0 < e < |s| ==> (OrdinalEnd(word + s[..e]) <==> OrdinalEnd(next + s[1..][..e - 1]))
    ensures ExposedAfter(u, word, s) <==>
      (OrdinalEnd(word) && u.isWord(s[0]) && !Letter(s[0])) || ExposedAfter(u, next, s[1..])
  {
    assert word + s[..0] == word;
    if e :| 0 <= e < |s| && OrdinalEnd(word + s[..e]) && u.isWord(s[e]) && !Letter(s[e]) {
      if e > 0 { assert s[1..][e - 1] == s[e] && OrdinalEnd(next + s[1..][..e - 1]); }
    }
    if e :| 0 <= e < |s[1..]| && OrdinalEnd(next + s[1..][..e]) && u.isWord(s[1..][e]) && !Letter(s[1..][e]) {
      assert OrdinalEnd(word + s[..e + 1]) && s[e + 1] == s[1..][e];
    }
  }

  lemma {:induction false} ExposedFromMeaning(u: Unicode, word: string, s: string)
    ensures ExposedFrom(u, word, s) <==> ExposedAfter(u, word, s)
    decreases |s|
  {
    if s != "" {
      var next := if Letter(s[0]) then word + [s[0]] else "";
      forall e | 0 < e < |s| ensures OrdinalEnd(word + s[..e]) <==> OrdinalEnd(next + s[1..][..e - 1]) {
        assert s[..e] == [s[0]] + s[1..][..e - 1];
        assert word + s[..e] == word + [s[0]] + s[1..][..e - 1];
        if !Letter(s[0]) {
          OrdinalEndTail(word, s[0], s[1..][..e - 1]);
          assert "" + s[1..][..e - 1] == s[1..][..e - 1];
        }
      }
      ExposedAfterStep(u, word, s, next);
      ExposedFromMeaning(u, next, s[1..]);
    }
  }

  lemma TokensKeepOrdinals(u: Unicode, s: string)
    requires Tables(u)
    ensures SomeOrdinal(Tokens(u, s)) <==> ExposedOrdinal(u, Fold(u, s))
  {
    var m := Fold(u, s);
    TokensAreRuns(u, s);
    OrdinalsLeft(u, false, "", m);
    ExposedFromMeaning(u, "", m);
    assert forall e :: 0 <= e <= |m| ==> "" + m[..e] == m[..e];
  }

  // ---------------------------------------------------------------- idempotence

  lemma EndingShape(u: Unicode, t: string)
    requires Tables(u) && Ending(u, t) > 0
    ensures Ending(u, t) <= |t| && AllLetters(t[..Ending(u, t)])
    ensures Ending(u, t) < |t| ==> !Letter(t[Ending(u, t)])
    ensures t[..Ending(u, t)] in {"й", "ый", "ой"}
  {
    assert Letter('й') && Letter('ы') && Letter('о');
    if t[0] == 'й' && EndsHere(u, t[1..]) {
      assert t[..1] == "й" && (|t| > 1 ==> t[1..][0] == t[1]);
    } else {
      assert t[..2] == [t[0], 'й'] && (|t| > 2 ==> t[2..][0] == t[2]);
      assert [t[0], 'й'] == if t[0] == 'ы' then "ый" else "ой";
    }
  }

  lemma EndingInRun(u: Unicode, word: string, t: string)
    requires Tables(u) && Ending(u, t) > 0 && AllLetters(word) && AsciiDigitEnd(word)
    ensures SomeOrdinal(Runs(t, word))
  {
    hide Tables, Ending;
    EndingShape(u, t);
    var n := Ending(u, t);
    var ending, rest := t[..n], t[n..];
    assert t == ending + rest;
    RunsOfWord(ending, rest, word);
    var run := word + ending;
    assert run[..|word|] == word;
    assert OrdinalEnd(run);
    assert rest != "" ==> rest[0] == t[n];
    assert Runs(t, word)[0] == run;
  }

  /** Canonical text without ordinals is left alone. */
  lemma {:induction false} NothingToDrop(u: Unicode, digit: bool, word: string, t: string)
    requires Tables(u) && Clean(t) && AllLetters(word) && (digit ==> AsciiDigitEnd(word))
    requires !SomeOrdinal(Runs(t, word))
    ensures DropEndings(u, digit, t) == t
    decreases |t|
  {
    if t != "" {
      assert forall c: char :: Hyphen(c) ==> !Letter(c) && c != ' ';
      if digit && 0 < Suffix(u, t) <= |t| {
        EndingInRun(u, word, t);
        assert false;
      } else if Letter(t[0]) {
        NothingToDrop(u, u.isDigit(t[0]), word + [t[0]], t[1..]);
      } else {
        SomeOrdinalClosed(word, Runs(t[1..], ""));
        NothingToDrop(u, u.isDigit(t[0]), "", t[1..]);
      }
    }
  }

  lemma {:induction false} CleanNotExposed(u: Unicode, word: string, t: string)
    requires Tables(u) && Clean(t)
    ensures !ExposedFrom(u, word, t)
    decreases |t|
  {
    if t != "" { CleanNotExposed(u, if Letter(t[0]) then word + [t[0]] else "", t[1..]); }
  }

  lemma NormalizeClean(u: Unicode, tokens: seq<string>)
    requires Tables(u) && GoodTokens(tokens)
    ensures var t := W.Join(tokens); Normalize(u, t) == t <==> !SomeOrdinal(tokens)
  {
    var t := W.Join(tokens);
    JoinClean(tokens);
    FoldClean(u, t);
    RunsOfJoin(tokens);
    TokensAreRuns(u, t);
    if !SomeOrdinal(tokens) {
      NothingToDrop(u, false, "", t);
    }
    if Normalize(u, t) == t && t != "" {
      RunsOfJoin(Tokens(u, t));
      OrdinalsLeft(u, false, "", t);
      CleanNotExposed(u, "", t);
    }
  }

  /** Normalizing twice changes nothing exactly when the folded text exposes no ordinal. */
  lemma NormalizeIdempotent(u: Unicode, s: string)
    requires Tables(u)
    ensures Normalize(u, Normalize(u, s)) == Normalize(u, s) <==> !ExposedOrdinal(u, Fold(u, s))
  {
    TokensAreRuns(u, s);
    TokensKeepOrdinals(u, s);
    NormalizeClean(u, Tokens(u, s));
  }

  /** In particular when every word character of the folded text belongs to the alphabet. */
  lemma PlainTextIdempotent(u: Unicode, s: string)
    requires Tables(u) && forall i :: 0 <= i < |Fold(u, s)| && u.isWord(Fold(u, s)[i]) ==> Letter(Fold(u, s)[i])
    ensures Normalize(u, Normalize(u, s)) == Normalize(u, s)
  {
    NormalizeIdempotent(u, s);
  }

  // ---------------------------------------------------------------- department numbers

  predicate ShortNumber(t: string) {
    1 <= |t| <= 4 && forall i :: 0 <= i < |t| ==> '0' <= t[i] <= '9'
  }

  function FirstShort(tokens: seq<string>): Option<string> {
    if tokens == [] then None
    else if ShortNumber(tokens[0]) then Some(tokens[0])
    else FirstShort(tokens[1..])
  }

  /** What follows the first token of canonical text. */
  function Rest(more: seq<string>): string {
    if more == [] then "" else " " + W.Join(more)
  }

  lemma JoinRest(tokens: seq<string>)
    requires tokens != []
    ensures W.Join(tokens) == tokens[0] + Rest(tokens[1..])
  {
  }

  lemma RestEnds(u: Unicode, more: seq<string>)
    requires Tables(u)
    ensures EndsHere(u, Rest(more)) && (Rest(more) != "" ==> Rest(more)[0] == ' ' && !u.isDigit(' '))
  {
  }

  lemma DigitsEndToken(u: Unicode, t: string, rest: string, k: nat)
    requires Tables(u) && AllLetters(t) && t != "" && 1 <= k
    requires EndsHere(u, rest) && (rest != "" ==> !u.isDigit(rest[0]))
    ensures DigitsEnd(u, t + rest, k) <==> k == |t| && forall i :: 0 <= i < |t| ==> '0' <= t[i] <= '9'
  {
    var s := t + rest;
    assert forall i :: 0 <= i < |t| ==> s[i] == t[i];
    if k < |t| {
      assert s[k..][0] == t[k];
    } else if k == |t| {
      assert s[..k] == t && s[k..] == rest;
    } else if k <= |s| {
      assert s[..k][|t|] == rest[0];
    }
  }

  lemma DigitGroupToken(u: Unicode, t: string, rest: string)
    requires Tables(u) && AllLetters(t) && t != ""
    requires EndsHere(u, rest) && (rest != "" ==> !u.isDigit(rest[0]))
    ensures DigitGroup(u, t + rest) == if ShortNumber(t) then Some(t) else None
  {
    DigitsEndToken(u, t, rest, 4);
    DigitsEndToken(u, t, rest, 3);
    DigitsEndToken(u, t, rest, 2);
    DigitsEndToken(u, t, rest, 1);
    assert (t + rest)[..|t|] == t;
  }

  lemma NothingInBlank(u: Unicode, word: bool, s: string)
    requires Tables(u) && (s == "" || s[0] == ' ')
    ensures MatchHere(u, word, s).None?
  {
    assert !u.isWord(' ') && !u.isDigit(' ');
    if s != "" { assert NUMBER_WORD[0] == 'н' && s[..1][0] == ' '; }
    forall k: nat | 1 <= k <= |s| ensures !DigitsEnd(u, s, k) { assert s[..k][0] == ' '; }
  }

  lemma {:induction false} InsideToken(u: Unicode, w: string, more: seq<string>)
    requires Tables(u) && AllLetters(w)
    ensures SearchDigits(u, true, w + Rest(more)) == if more == [] then None else SearchDigits(u, false, W.Join(more))
    decreases |w|
  {
    var s := w + Rest(more);
    if w == "" {
      assert s == Rest(more);
      NothingInBlank(u, true, s);
      if more != [] { assert s[1..] == W.Join(more) && !u.isWord(s[0]); }
    } else {
      assert s[0] == w[0] && s[1..] == w[1..] + Rest(more);
      InsideToken(u, w[1..], more);
    }
  }

  lemma TokenEndsAt(t: string, rest: string, n: nat)
    requires AllLetters(t) && (rest != "" ==> !Letter(rest[0]))
    requires n < |t + rest| && !Letter((t + rest)[n]) && AllLetters((t + rest)[..n])
    ensures |t| == n
  {
    var s := t + rest;
    assert forall i :: 0 <= i < |t| ==> s[i] == t[i];
    assert |t| < |s| ==> s[|t|] == rest[0];
    assert forall i :: 0 <= i < n ==> s[..n][i] == s[i];
  }

  /** The word "номер" before a blank is a whole token. */
  lemma NumberWordIsToken(u: Unicode, t: string, more: seq<string>)
    requires Tables(u) && AllLetters(t) && t != "" && GoodTokens(more)
    ensures var s := t + Rest(more); var n := |NUMBER_WORD|;
      NUMBER_WORD <= s && |s| > n && u.isSpace(s[n]) ==>
        t == NUMBER_WORD && more != [] && SkipSpaces(u, s[n..]) == W.Join(more)
  {
    var s, n := t + Rest(more), |NUMBER_WORD|;
    if NUMBER_WORD <= s && |s| > n && u.isSpace(s[n]) {
      assert AllLetters(NUMBER_WORD) && s[..n] == NUMBER_WORD;
      assert !Letter(s[n]) by { SpaceIsNoLetter(u, s[n]); }
      hide Tables, AllLetters;
      TokenEndsAt(t, Rest(more), n);
      assert s[..n] == t && s[n..] == Rest(more);
      SkipToNext(u, more);
    }
  }

  lemma SpaceIsNoLetter(u: Unicode, c: char)
    requires Tables(u) && u.isSpace(c)
    ensures !Letter(c)
  {
  }

  lemma SkipToNext(u: Unicode, more: seq<string>)
    requires Tables(u) && GoodTokens(more) && more != []
    ensures SkipSpaces(u, Rest(more)) == W.Join(more)
  {
    assert Rest(more)[1..] == W.Join(more);
    assert W.Join(more)[0] == more[0][0] && Letter(more[0][0]);
    assert SkipSpaces(u, Rest(more)) == SkipSpaces(u, W.Join(more));
  }

  lemma AtToken(u: Unicode, t: string, more: seq<string>)
    requires Tables(u) && AllLetters(t) && t != "" && GoodTokens(more)
    ensures MatchHere(u, false, t + Rest(more)) ==
      if ShortNumber(t) then Some(t)
      else if t == NUMBER_WORD && more != [] && ShortNumber(more[0]) then Some(more[0]) else None
  {
    var s, n := t + Rest(more), |NUMBER_WORD|;
    RestEnds(u, more);
    DigitGroupToken(u, t, Rest(more));
    NumberWordIsToken(u, t, more);
    assert s[0] == t[0];
    if more != [] {
      JoinRest(more);
      RestEnds(u, more[1..]);
      DigitGroupToken(u, more[0], Rest(more[1..]));
    }
    if t == NUMBER_WORD {
      assert !ShortNumber(t) by { assert t[0] == 'н'; }
      assert |NUMBER_WORD| == |t| && s[..n] == t;
      if more != [] { assert s[n] == ' '; }
    }
  }

  lemma LetterIsWord(u: Unicode, c: char)
    requires Tables(u) && Letter(c)
    ensures u.isWord(c)
  {
  }

  /** On canonical text the regular expression finds the first token of one to four digits. */
  lemma {:induction false} SearchExact(u: Unicode, tokens: seq<string>)
    requires Tables(u) && GoodTokens(tokens)
    ensures SearchDigits(u, false, W.Join(tokens)) == FirstShort(tokens)
    decreases |tokens|
  {
    hide Tables, MatchHere, ShortNumber;
    if tokens == [] {
      NothingInBlank(u, false, "");
    } else {
      var t, more := tokens[0], tokens[1..];
      JoinRest(tokens);
      AtToken(u, t, more);
      LetterIsWord(u, t[0]);
      var s := t + Rest(more);
      assert s[0] == t[0] && s[1..] == t[1..] + Rest(more);
      InsideToken(u, t[1..], more);
      SearchExact(u, more);
    }
  }

  lemma {:induction false} SplitWord(w: string, rest: string, word: string)
    requires AllLetters(w)
    ensures W.SplitFrom(w + rest, word) == W.SplitFrom(rest, word + w)
    decreases |w|
  {
    if w == "" {
      assert w + rest == rest && word + w == word;
    } else {
      assert (w + rest)[1..] == w[1..] + rest && w[0] != ' ';
      SplitWord(w[1..], rest, word + [w[0]]);
      assert word + [w[0]] + w[1..] == word + w;
    }
  }

  lemma {:induction false} SplitJoin(tokens: seq<string>)
    requires GoodTokens(tokens)
    ensures W.Split(W.Join(tokens)) == tokens
    decreases |tokens|
  {
    if tokens != [] {
      var t, more := tokens[0], tokens[1..];
      JoinRest(tokens);
      SplitWord(t, Rest(more), "");
      assert "" + t == t;
      if more != [] {
        assert Rest(more)[1..] == W.Join(more);
        SplitJoin(more);
      }
      assert tokens == [t] + more;
    }
  }

  /** The number named by a list of tokens: the first ordinal word or else the first token of one to four digits. */
  function NumberOf(tokens: seq<string>): Option<nat> {
    if FirstOrdinal(tokens).Some? then FirstOrdinal(tokens)
    else match FirstShort(tokens) case None => None case Some(t) => Some(Value(t))
  }

  lemma DepartmentNumberExact(u: Unicode, s: string)
    requires Tables(u)
    ensures DepartmentNumber(u, s) == NumberOf(Tokens(u, s))
  {
    var tokens := Tokens(u, s);
    TokensAreRuns(u, s);
    SplitJoin(tokens);
    SearchExact(u, tokens);
    if tokens != [] { assert W.Join(tokens) != "" by { JoinRest(tokens); } }
  }

  lemma {:induction false} FirstOrdinalFound(tokens: seq<string>)
    requires FirstOrdinal(tokens).Some?
    ensures exists i :: 0 <= i < |tokens| && tokens[i] in ORDINALS && ORDINALS[tokens[i]] == FirstOrdinal(tokens).value
    decreases |tokens|
  {
    if tokens[0] !in ORDINALS {
      FirstOrdinalFound(tokens[1..]);
      var i :| 0 <= i < |tokens[1..]| && tokens[1..][i] in ORDINALS && ORDINALS[tokens[1..][i]] == FirstOrdinal(tokens).value;
      assert tokens[i + 1] == tokens[1..][i];
    }
  }

  lemma {:induction false} FirstShortFound(tokens: seq<string>)
    requires FirstShort(tokens).Some?
    ensures ShortNumber(FirstShort(tokens).value) && FirstShort(tokens).value in tokens
    decreases |tokens|
  {
    if !ShortNumber(tokens[0]) { FirstShortFound(tokens[1..]); }
  }

  lemma {:induction false} ValueBound(t: string)
    ensures |t| <= 4 ==> Value(t) < 10000
    ensures |t| <= 3 ==> Value(t) < 1000
    ensures |t| <= 2 ==> Value(t) < 100
    ensures |t| <= 1 ==> Value(t) < 10
    decreases |t|
  {
    if t != "" { ValueBound(t[..|t| - 1]); }
  }

  /** A department number is never cut out of a longer one: it is an ordinal word or a whole token of one to four digits. */
  lemma NumberIsWholeToken(u: Unicode, s: string)
    requires Tables(u) && DepartmentNumber(u, s).Some?
    ensures var n := DepartmentNumber(u, s).value;
      exists i :: (
        && 0 <= i < |Tokens(u, s)|
        && var t := Tokens(u, s)[i]; (t in ORDINALS && ORDINALS[t] == n) || (ShortNumber(t) && Value(t) == n && n < 10000))
  {
    var tokens := Tokens(u, s);
    DepartmentNumberExact(u, s);
    if FirstOrdinal(tokens).Some? {
      FirstOrdinalFound(tokens);
    } else {
      FirstShortFound(tokens);
      var i :| 0 <= i < |tokens| && tokens[i] == FirstShort(tokens).value;
      ValueBound(tokens[i]);
    }
  }

  // ---------------------------------------------------------------- the second pass cuts ordinals

  /** The token without its ordinal ending. */
  function Cut(t: string): string {
    if !OrdinalEnd(t) then t
    else if AsciiDigitEnd(t[..|t| - 1]) then t[..|t| - 1]
    else t[..|t| - 2]
  }

  function CutAll(tokens: seq<string>): seq<string> {
    seq(|tokens|, i requires 0 <= i < |tokens| => Cut(tokens[i]))
  }

  lemma CutAllAppend(a: seq<string>, b: seq<string>)
    ensures CutAll(a + b) == CutAll(a) + CutAll(b)
  {
  }

  lemma CutRun(word: string, ending: string)
    requires AsciiDigitEnd(word) && ending in {"й", "ый", "ой"}
    ensures OrdinalEnd(word + ending) && Cut(word + ending) == word
  {
    var run := word + ending;
    assert run[..|word|] == word;
    if |ending| == 2 {
      assert ending[0] in {'ы', 'о'} && run[|run| - 2] == ending[0];
      assert run[..|run| - 1][|run| - 2] == ending[0];
    }
  }

  lemma ClosedCut(word: string)
    requires !OrdinalEnd(word)
    ensures CutAll(Closed(word)) == Closed(word)
  {
  }

  /** Where the pattern takes an ending, the run that it ends is cut and the scan restarts. */
  lemma RunsAtEnding(u: Unicode, word: string, t: string)
    requires Tables(u) && Ending(u, t) > 0 && AllLetters(word) && AsciiDigitEnd(word)
    ensures Ending(u, t) <= |t|
    ensures CutAll(Runs(t, word)) == [word] + CutAll(Runs(t[Ending(u, t)..], ""))
  {
    hide Tables, Ending, Cut, OrdinalEnd, Runs, CutAll;
    EndingShape(u, t);
    var n := Ending(u, t);
    var ending, rest := t[..n], t[n..];
    assert t == ending + rest;
    RunsOfWord(ending, rest, word);
    CutRun(word, ending);
    assert rest != "" ==> rest[0] == t[n];
    RunEnds(word + ending, rest);
    CutOne(word + ending, word, Runs(rest, ""));
  }

  lemma CutOne(run: string, word: string, more: seq<string>)
    requires Cut(run) == word
    ensures CutAll([run] + more) == [word] + CutAll(more)
  {
    hide Cut;
    CutAllAppend([run], more);
    assert CutAll([run]) == [word];
  }

  lemma RunEnds(word: string, rest: string)
    requires word != "" && (rest != "" ==> !Letter(rest[0]))
    ensures Runs(rest, word) == [word] + Runs(rest, "")
  {
  }

  lemma CleanNoHyphen(u: Unicode, t: string)
    requires Clean(t)
    ensures Suffix(u, t) == Ending(u, t)
  {
    if t != "" { assert Letter(t[0]) || t[0] == ' '; }
  }

  lemma BlankKeepsRuns(x: string, word: string)
    ensures Runs(" " + x, word) == Closed(word) + Runs(x, "")
  {
    assert (" " + x)[1..] == x;
  }

  lemma LetterKeepsRuns(c: char, x: string, word: string)
    requires Letter(c)
    ensures Runs([c] + x, word) == Runs(x, word + [c])
  {
    assert ([c] + x)[1..] == x;
  }

  /** On canonical text the second pass cuts every ordinal ending and changes nothing else. */
  lemma {:induction false} SecondPassCuts(u: Unicode, digit: bool, word: string, t: string)
    requires Tables(u) && Clean(t) && Scanning(u, digit, word, t) && (digit ==> word != "")
    ensures Runs(DropEndings(u, digit, t), word) == CutAll(Runs(t, word))
    decreases |t|
  {
    hide Tables, Scanning, Suffix, Ending, DropEndings, OrdinalEnd, Cut;
    CleanNoHyphen(u, t);
    ScanFacts(u, digit, word, t);
    SuffixFits(u, t);
    if t == "" {
      DropNothing(u, digit);
      ClosedCut(word);
    } else {
      DropUnfold(u, digit, t);
      if digit && 0 < Suffix(u, t) {
        var n := Suffix(u, t);
        RunsAtEnding(u, word, t);
        ScanRestarts(u, t[n..]);
        SecondPassCuts(u, u.isDigit('й'), "", t[n..]);
        BlankKeepsRuns(DropEndings(u, u.isDigit('й'), t[n..]), word);
      } else if Letter(t[0]) {
        ScanGoesOn(u, digit, word, t);
        SecondPassCuts(u, u.isDigit(t[0]), word + [t[0]], t[1..]);
        LetterKeepsRuns(t[0], DropEndings(u, u.isDigit(t[0]), t[1..]), word);
      } else {
        ScanRestarts(u, t[1..]);
        ClosedCut(word);
        SecondPassCuts(u, u.isDigit(t[0]), "", t[1..]);
        CutAllAppend(Closed(word), Runs(t[1..], ""));
        BlankKeepsRuns(DropEndings(u, u.isDigit(t[0]), t[1..]), word);
      }
    }
  }

  lemma SuffixFits(u: Unicode, t: string)
    ensures Suffix(u, t) <= |t|
  {
  }

  /** What the scan knows where it stands in canonical text. */
  lemma ScanFacts(u: Unicode, digit: bool, word: string, t: string)
    requires Tables(u) && Clean(t) && Scanning(u, digit, word, t) && (digit ==> word != "")
    ensures AllLetters(word) && (digit ==> AsciiDigitEnd(word))
    ensures t == "" || !Letter(t[0]) ==> !OrdinalEnd(word)
    ensures t != "" && !Letter(t[0]) ==> t[0] == ' ' && !u.isDigit(t[0])
    ensures !u.isDigit('й')
  {
    assert Letter('й');
  }

  lemma ScanRestarts(u: Unicode, rest: string)
    ensures Scanning(u, false, "", rest)
  {
  }

  lemma ScanGoesOn(u: Unicode, digit: bool, word: string, t: string)
    requires Tables(u) && Scanning(u, digit, word, t) && t != "" && Letter(t[0])
    requires !(digit && 0 < Suffix(u, t))
    ensures Scanning(u, u.isDigit(t[0]), word + [t[0]], t[1..])
  {
    ScanLetter(u, digit, word, t);
  }

  /** Normalized text, normalized again, has the same tokens with every ordinal ending cut. */
  lemma SecondPass(u: Unicode, s: string)
    requires Tables(u)
    ensures Tokens(u, Normalize(u, s)) == CutAll(Tokens(u, s))
  {
    hide Tables, DropEndings, Fold, Cut;
    var tokens := Tokens(u, s);
    TokensAreRuns(u, s);
    var t := W.Join(tokens);
    NormalizeCanonical(u, s);
    EmptyHasNoTokens(u);
    JoinClean(tokens);
    FoldClean(u, t);
    RunsOfJoin(tokens);
    TokensAreRuns(u, t);
    ScanRestarts(u, t);
    SecondPassCuts(u, false, "", t);
  }

  lemma EmptyHasNoTokens(u: Unicode)
    ensures Tokens(u, "") == []
  {
  }

  // ---------------------------------------------------------------- when the two numbers agree

  /** The character i places before the end, and not a digit. */
  predicate NoDigitAt(w: string, i: nat) {
    i < |w| && !('0' <= w[|w| - 1 - i] <= '9')
  }

  lemma OrdinalLast(k: string)
    requires k in ORDINALS
    ensures NoDigitAt(k, 0)
  {
  }

  lemma OrdinalSecondLast(k: string)
    requires k in ORDINALS
    ensures NoDigitAt(k, 1)
  {
  }

  lemma OrdinalThirdLast(k: string)
    requires k in ORDINALS
    ensures NoDigitAt(k, 2)
  {
  }

  /** A cut token ends in a digit, and so did the token before its ending. */
  lemma CutDigits(t: string)
    requires OrdinalEnd(t)
    ensures !NoDigitAt(Cut(t), 0) && (!NoDigitAt(t, 1) || !NoDigitAt(t, 2))
  {
  }

  lemma CutIsNoOrdinalWord(t: string)
    ensures Cut(t) in ORDINALS <==> t in ORDINALS
    ensures t in ORDINALS ==> Cut(t) == t
  {
    hide OrdinalEnd, NoDigitAt;
    if OrdinalEnd(t) {
      CutDigits(t);
      if t in ORDINALS {
        OrdinalSecondLast(t);
        OrdinalThirdLast(t);
      }
      if Cut(t) in ORDINALS { OrdinalLast(Cut(t)); }
    }
  }

  lemma {:induction false} CutKeepsOrdinalWords(tokens: seq<string>)
    ensures FirstOrdinal(CutAll(tokens)) == FirstOrdinal(tokens)
    decreases |tokens|
  {
    hide Cut;
    if tokens != [] {
      CutIsNoOrdinalWord(tokens[0]);
      CutKeepsOrdinalWords(tokens[1..]);
      assert CutAll(tokens)[1..] == CutAll(tokens[1..]);
    }
  }

  /** One to four digits with an ordinal ending, such as "2й". */
  predicate ShortOrdinal(t: string) {
    OrdinalEnd(t) && ShortNumber(Cut(t))
  }

  /** The short ordinal that precedes every short number, without its ending. */
  function LeadingOrdinal(tokens: seq<string>): Option<string> {
    if tokens == [] || ShortNumber(tokens[0]) then None
    else if ShortOrdinal(tokens[0]) then Some(Cut(tokens[0]))
    else LeadingOrdinal(tokens[1..])
  }

  lemma ShortIsUncut(t: string)
    ensures ShortNumber(t) ==> !OrdinalEnd(t)
    ensures ShortNumber(Cut(t)) <==> ShortNumber(t) || ShortOrdinal(t)
  {
    if OrdinalEnd(t) { assert t[|t| - 1] == 'й'; }
  }

  lemma {:induction false} CutShort(tokens: seq<string>)
    ensures FirstShort(CutAll(tokens)) == if LeadingOrdinal(tokens).Some? then LeadingOrdinal(tokens) else FirstShort(tokens)
    decreases |tokens|
  {
    hide ShortNumber;
    if tokens != [] {
      ShortIsUncut(tokens[0]);
      CutShort(tokens[1..]);
      assert CutAll(tokens)[1..] == CutAll(tokens[1..]);
    }
  }

  /**
   * Raw and normalized text name the same department exactly when an ordinal word decides, or no
   * short ordinal is left before the first short number, or both have the same value.
   */
  lemma NumbersAgree(u: Unicode, s: string)
    requires Tables(u)
    ensures var tokens := Tokens(u, s);
      var leading, short := LeadingOrdinal(tokens), FirstShort(tokens);
      DepartmentNumber(u, Normalize(u, s)) == DepartmentNumber(u, s) <==>
        || FirstOrdinal(tokens).Some?
        || leading.None?
        || (short.Some? && Value(short.value) == Value(leading.value))
  {
    hide Tables, Tokens, DepartmentNumber;
    var tokens := Tokens(u, s);
    DepartmentNumberExact(u, s);
    DepartmentNumberExact(u, Normalize(u, s));
    SecondPass(u, s);
    CutKeepsOrdinalWords(tokens);
    CutShort(tokens);
  }

  /** Where no ordinal is exposed no short ordinal is left, so the numbers agree. */
  lemma NumbersAgreeUnexposed(u: Unicode, s: string)
    requires Tables(u) && !ExposedOrdinal(u, Fold(u, s))
    ensures DepartmentNumber(u, Normalize(u, s)) == DepartmentNumber(u, s)
  {
    hide Tables, Tokens, ExposedOrdinal, Normalize;
    NormalizeIdempotent(u, s);
  }

  // ---------------------------------------------------------------- white space, and tables that exist

  lemma {:induction false} FoldAppend(u: Unicode, a: string, b: string)
    ensures Fold(u, a + b) == Fold(u, a) + Fold(u, b)
    decreases |a|
  {
    if a == "" {
      assert a + b == b;
    } else {
      assert (a + b)[1..] == a[1..] + b;
      FoldAppend(u, a[1..], b);
    }
  }

  lemma SuffixBeforeSpace(u: Unicode, s: string, c: char)
    requires Tables(u) && u.isSpace(c) && s != ""
    ensures Suffix(u, s + [c]) == Suffix(u, s)
  {
    var t := s + [c];
    assert t[0] == s[0] && t[1..] == s[1..] + [c] && (|s| > 1 ==> t[1..][1..] == s[1..][1..] + [c] && t[2..] == s[2..] + [c]);
    assert |s| > 2 ==> t[1..][2..] == s[1..][2..] + [c];
    assert u.isWord('й') by { assert Letter('й'); }
    EndingBeforeSpace(u, s, c);
    if |s| > 1 { EndingBeforeSpace(u, s[1..], c); }
  }

  lemma EndingBeforeSpace(u: Unicode, s: string, c: char)
    requires Tables(u) && u.isSpace(c) && s != ""
    ensures Ending(u, s + [c]) == Ending(u, s) && Ending(u, s) <= |s|
    ensures Ending(u, [c]) == 0
  {
    var t := s + [c];
    assert t[1..] == s[1..] + [c];
    if |s| > 1 { assert t[2..] == s[2..] + [c]; }
    assert Letter('й') && Letter('ы') && Letter('о');
  }

  lemma {:induction false} DropBeforeSpace(u: Unicode, digit: bool, s: string, c: char)
    requires Tables(u) && u.isSpace(c)
    ensures DropEndings(u, digit, s + [c]) == DropEndings(u, digit, s) + [c]
    decreases |s|
  {
    var t := s + [c];
    if s == "" {
      assert t == [c] && [c][1..] == "";
      assert Suffix(u, [c]) == 0 by { assert Letter('й') && Letter('ы') && Letter('о'); }
    } else {
      SuffixBeforeSpace(u, s, c);
      if digit && 0 < Suffix(u, s) <= |s| {
        assert t[Suffix(u, s)..] == s[Suffix(u, s)..] + [c];
        DropBeforeSpace(u, u.isDigit('й'), s[Suffix(u, s)..], c);
      } else {
        SuffixInside(u, s);
        assert t[1..] == s[1..] + [c];
        DropBeforeSpace(u, u.isDigit(s[0]), s[1..], c);
      }
    }
  }

  lemma SuffixInside(u: Unicode, s: string)
    ensures Suffix(u, s) <= |s|
  {
  }

  lemma {:induction false} RunsBeforeGap(s: string, c: char, word: string)
    requires !Letter(c)
    ensures Runs(s + [c], word) == Runs(s, word)
    decreases |s|
  {
    var t := s + [c];
    if s == "" {
      assert t == [c] && t[1..] == "" && Runs("", "") == [];
    } else {
      assert t[0] == s[0] && t[1..] == s[1..] + [c];
      RunsBeforeGap(s[1..], c, if Letter(s[0]) then word + [s[0]] else "");
    }
  }

  lemma SpaceFolds(u: Unicode, c: char)
    requires Tables(u) && u.isSpace(c)
    ensures Fold(u, [c]) == [c] && !Letter(c) && !u.isDigit(c)
  {
    assert c != 'ё';
    assert u.lower(c) == [c];
    assert FoldChars([c]) == FoldChar(c) + FoldChars("");
    assert Fold(u, [c]) == FoldChars([c]) + Fold(u, "");
  }

  /** White space at either end makes no difference. */
  lemma SpaceAround(u: Unicode, s: string, c: char)
    requires Tables(u) && u.isSpace(c)
    ensures Normalize(u, [c] + s) == Normalize(u, s) && Normalize(u, s + [c]) == Normalize(u, s)
  {
    var m := Fold(u, s);
    SpaceFolds(u, c);
    FoldAppend(u, [c], s);
    FoldAppend(u, s, [c]);
    TokensAreRuns(u, s);
    TokensAreRuns(u, [c] + s);
    TokensAreRuns(u, s + [c]);
    DropBeforeSpace(u, false, m, c);
    RunsBeforeGap(DropEndings(u, false, m), c, "");
    assert ([c] + m)[1..] == m;
    var x := DropEndings(u, false, [c] + m);
    assert x == [c] + DropEndings(u, false, m);
    assert x[1..] == DropEndings(u, false, m);
    assert Closed("") + Runs(x[1..], "") == Runs(x[1..], "");
    assert Tokens(u, [c] + s) == Tokens(u, s) && Tokens(u, s + [c]) == Tokens(u, s);
    assert Tokens(u, "") == [];
  }

  // ---------------------------------------------------------------- spellings that make no difference

  lemma SameFoldSameText(u: Unicode, s: string, t: string)
    requires Fold(u, s) == Fold(u, t)
    ensures Normalize(u, s) == Normalize(u, t)
  {
    TokensAreRuns(u, s);
    TokensAreRuns(u, t);
    assert Tokens(u, "") == [];
  }

  lemma FoldOne(u: Unicode, c: char)
    ensures Fold(u, [c]) == FoldChars(u.lower(c))
  {
    assert [c][1..] == "";
  }

  lemma FoldInContext(u: Unicode, a: string, x: string, y: string, b: string)
    requires Fold(u, x) == Fold(u, y)
    ensures Normalize(u, a + x + b) == Normalize(u, a + y + b)
  {
    FoldAppend(u, a + x, b);
    FoldAppend(u, a, x);
    FoldAppend(u, a + y, b);
    FoldAppend(u, a, y);
    SameFoldSameText(u, a + x + b, a + y + b);
  }

  /** ё and е are one letter. */
  lemma YoIsYe(u: Unicode, a: string, b: string)
    requires Tables(u) && u.lower('ё') == ['ё']
    ensures Normalize(u, a + ['ё'] + b) == Normalize(u, a + ['е'] + b)
  {
    assert Letter('е');
    FoldOne(u, 'ё');
    FoldOne(u, 'е');
    assert FoldChars(['ё']) == FoldChars(['е']) by { assert ['ё'][1..] == "" && ['е'][1..] == ""; }
    FoldInContext(u, a, ['ё'], ['е'], b);
  }

  /** The number sign reads as the word for it. */
  lemma NumberSignIsWord(u: Unicode, a: string, b: string)
    requires Tables(u) && u.lower('№') == ['№']
    ensures Normalize(u, a + ['№'] + b) == Normalize(u, a + (" " + NUMBER_WORD + " ") + b)
  {
    var word := " " + NUMBER_WORD + " ";
    FoldOne(u, '№');
    assert FoldChars(['№']) == word by { assert ['№'][1..] == "" && FoldChars("") == ""; }
    assert Letter('н') && Letter('о') && Letter('м') && Letter('е') && Letter('р');
    FoldClean(u, word);
    FoldInContext(u, a, ['№'], word, b);
  }

  /** A capital letter makes no difference: only the lower-case form counts. */
  lemma CaseIsInvisible(u: Unicode, a: string, c: char, d: char, b: string)
    requires u.lower(c) == u.lower(d)
    ensures Normalize(u, a + [c] + b) == Normalize(u, a + [d] + b)
  {
    FoldOne(u, c);
    FoldOne(u, d);
    FoldInContext(u, a, [c], [d], b);
  }

  /** Whether an ordinal ending starts here does not depend on what follows a digit. */
  lemma SuffixBeforeDigit(u: Unicode, a: string, d: char, rest: string)
    requires Tables(u) && '0' <= d <= '9' && a != ""
    ensures Suffix(u, a + [d] + rest) == Suffix(u, a + [d]) && Suffix(u, a + [d]) <= |a|
  {
    EndingBeforeDigit(u, a, d, rest);
    var s, t := a + [d] + rest, a + [d];
    assert s[1..] == a[1..] + [d] + rest && t[1..] == a[1..] + [d];
    if |a| > 1 { EndingBeforeDigit(u, a[1..], d, rest); }
    assert a[1..] == "" ==> t[1..] == [d] && s[1..] == [d] + rest;
    assert Ending(u, [d]) == 0 && Ending(u, [d] + rest) == 0 by { assert ([d] + rest)[0] == d; }
  }

  lemma EndingBeforeDigit(u: Unicode, a: string, d: char, rest: string)
    requires Tables(u) && '0' <= d <= '9' && a != ""
    ensures Ending(u, a + [d] + rest) == Ending(u, a + [d]) && Ending(u, a + [d]) <= |a|
  {
    var s, t := a + [d] + rest, a + [d];
    assert Letter(d) && u.isWord(d);
    assert forall i :: 0 <= i < |t| ==> s[i] == t[i];
    assert s[1..][0] == t[1..][0];
    if |a| > 1 { assert s[2..][0] == t[2..][0]; }
  }

  lemma DigitStart(u: Unicode, d: char, rest: string)
    requires Tables(u) && '0' <= d <= '9'
    ensures u.isDigit(d) && Suffix(u, [d] + rest) == 0
  {
    assert Letter(d) && ([d] + rest)[0] == d;
  }

  lemma DropUnfold(u: Unicode, digit: bool, s: string)
    requires s != "" && Suffix(u, s) <= |s|
    ensures DropEndings(u, digit, s) ==
      if digit && 0 < Suffix(u, s) then " " + DropEndings(u, u.isDigit('й'), s[Suffix(u, s)..])
      else [s[0]] + DropEndings(u, u.isDigit(s[0]), s[1..])
  {
  }

  /** The scan up to and including a digit is independent of what follows it. */
  lemma {:induction false} DropSplit(u: Unicode, digit: bool, a: string, d: char, rest: string)
    requires Tables(u) && '0' <= d <= '9'
    ensures DropEndings(u, digit, a + [d] + rest) == DropEndings(u, digit, a + [d]) + DropEndings(u, true, rest)
    decreases |a|
  {
    hide Tables, Suffix, DropEndings;
    var s, t := a + [d] + rest, a + [d];
    if a == "" {
      DigitStart(u, d, rest);
      DigitStart(u, d, "");
      assert s == [d] + rest && s[1..] == rest && t == [d] + "" && t[1..] == "";
      DropUnfold(u, digit, s);
      DropUnfold(u, digit, t);
      DropNothing(u, true);
    } else {
      SuffixBeforeDigit(u, a, d, rest);
      DropUnfold(u, digit, s);
      DropUnfold(u, digit, t);
      var n := Suffix(u, t);
      if digit && 0 < n {
        assert s[n..] == a[n..] + [d] + rest && t[n..] == a[n..] + [d];
        DropSplit(u, u.isDigit('й'), a[n..], d, rest);
      } else {
        assert s[1..] == a[1..] + [d] + rest && t[1..] == a[1..] + [d];
        DropSplit(u, u.isDigit(s[0]), a[1..], d, rest);
      }
    }
  }

  lemma DropNothing(u: Unicode, digit: bool)
    ensures DropEndings(u, digit, "") == ""
  {
  }

  /**
   * An ordinal ending after a digit, with or without a hyphen, reads as a blank: "2-й отдел" and
   * "2 отдел" are the same text. The texts are compared after folding.
   */
  lemma OrdinalEndingInvisible(u: Unicode, s: string, t: string, a: string, d: char, ending: string, b: string)
    requires Tables(u) && '0' <= d <= '9'
    requires ending != "" && Suffix(u, ending + b) == |ending|
    requires Fold(u, s) == a + [d] + (ending + b) && Fold(u, t) == a + [d] + (" " + b)
    ensures Normalize(u, s) == Normalize(u, t)
  {
    DropSplit(u, false, a, d, ending + b);
    DropSplit(u, false, a, d, " " + b);
    assert (ending + b)[|ending|..] == b && (" " + b)[1..] == b;
    assert Letter('й') && !u.isDigit('й') && !u.isDigit(' ') && !Hyphen(' ');
    assert Suffix(u, " " + b) == 0;
    assert DropEndings(u, true, ending + b) == " " + DropEndings(u, false, b);
    assert DropEndings(u, true, " " + b) == " " + DropEndings(u, false, b);
    TokensAreRuns(u, s);
    TokensAreRuns(u, t);
    assert Tokens(u, "") == [];
  }

  // ---------------------------------------------------------------- a case that is not idempotent

  ghost predicate Underscore(u: Unicode) {
    u.isWord('_') && u.lower('_') == ['_'] && !u.isDigit('_')
  }

  lemma ExampleDropped(u: Unicode)
    requires Tables(u) && Underscore(u)
    ensures DropEndings(u, true, ['й', '_']) == ['й', '_'] && DropEndings(u, true, ['й']) == [' ']
  {
    var s, t := ['й', '_'], ['й'];
    assert s[1..] == ['_'] && t[1..] == [] && s[1..][1..] == [];
    assert !Hyphen('й');
    assert Suffix(u, s) == 0 && Suffix(u, t) == 1;
    assert DropEndings(u, u.isDigit('й'), ['_']) == ['_'] by { assert ['_'][1..] == [] && Letter('й'); }
  }

  lemma ExampleRuns(u: Unicode)
    ensures Runs(['2', 'й', '_'], "") == [['2', 'й']] && Runs(['2', ' '], "") == [['2']]
  {
    var s, t := ['2', 'й', '_'], ['2', ' '];
    assert s[1..] == ['й', '_'] && s[1..][1..] == ['_'] && ['_'][1..] == [] && t[1..] == [' '] && [' '][1..] == [];
    assert "" + ['2'] == ['2'] && ['2'] + ['й'] == ['2', 'й'];
    assert Runs(['_'], ['2', 'й']) == [['2', 'й']] && Runs([' '], ['2']) == [['2']];
    assert Runs(['й', '_'], ['2']) == [['2', 'й']];
  }

  lemma ExampleFolded(u: Unicode)
    requires Tables(u) && Underscore(u)
    ensures Fold(u, ['2', 'й', '_']) == ['2', 'й', '_'] && Fold(u, ['2', 'й']) == ['2', 'й']
  {
    FoldClean(u, ['2', 'й']);
    FoldAppend(u, ['2', 'й'], ['_']);
    assert ['2', 'й'] + ['_'] == ['2', 'й', '_'];
    assert ['_'][1..] == [];
    assert FoldChars(['_']) == ['_'];
    assert Fold(u, ['_']) == ['_'];
  }

  lemma ExampleTokens(u: Unicode)
    requires Tables(u) && Underscore(u)
    ensures Tokens(u, ['2', 'й', '_']) == [['2', 'й']] && Tokens(u, ['2', 'й']) == [['2']]
  {
    var s, t := ['2', 'й', '_'], ['2', 'й'];
    ExampleFolded(u);
    ExampleDropped(u);
    ExampleRuns(u);
    TokensAreRuns(u, s);
    TokensAreRuns(u, t);
    assert s[1..] == ['й', '_'] && t[1..] == ['й'];
    assert u.isDigit('2') by { assert Letter('2'); }
    assert DropEndings(u, false, s) == ['2'] + DropEndings(u, true, s[1..]);
    assert DropEndings(u, false, t) == ['2'] + DropEndings(u, true, t[1..]);
    assert ['2'] + ['й', '_'] == s && ['2'] + [' '] == ['2', ' '];
  }

  lemma OrdinalWordsLong()
    ensures forall k :: k in ORDINALS ==> |k| > 2
  {
  }

  lemma ShortIsNoOrdinal(w: string)
    requires |w| <= 2
    ensures FirstOrdinal([w]).None?
  {
    OrdinalWordsLong();
    assert |[w][1..]| == 0;
  }

  lemma ExampleNumbers()
    ensures NumberOf([['2', 'й']]).None? && NumberOf([['2']]) == Some(2)
  {
    hide FirstOrdinal;
    var a: string, b: string := ['2', 'й'], ['2'];
    ShortIsNoOrdinal(a);
    ShortIsNoOrdinal(b);
    assert |[a][1..]| == 0 && |[b][1..]| == 0;
    assert a[1] == 'й' && !ShortNumber(a) && ShortNumber(b);
    assert b[..0] == "" && Value("") == 0;
  }

  /** On "2й_" the ordinal survives the first pass and is cut by the second, and only then is it read as a number. */
  lemma ExposedOrdinalExample(u: Unicode)
    requires Tables(u) && Underscore(u)
    ensures var s := ['2', 'й', '_'];
      && Normalize(u, s) == ['2', 'й'] && Normalize(u, Normalize(u, s)) == ['2']
      && DepartmentNumber(u, s).None? && DepartmentNumber(u, Normalize(u, s)) == Some(2)
  {
    ExampleTokens(u);
    ExampleNumbers();
    DepartmentNumberExact(u, ['2', 'й', '_']);
    DepartmentNumberExact(u, ['2', 'й']);
  }

  // ---------------------------------------------------------------- the ordinal words

  const NOMINATIVES := [
    "первый", "второй", "третий", "четвертый", "пятый", "шестой", "седьмой", "восьмой", "девятый", "десятый",
    "одиннадцатый", "двенадцатый", "тринадцатый", "четырнадцатый", "пятнадцатый", "шестнадцатый", "семнадцатый",
    "восемнадцатый", "девятнадцатый", "двадцатый"]

  const GENITIVES := [
    "первого", "второго", "третьего", "четвертого", "пятого", "шестого", "седьмого", "восьмого", "девятого", "десятого"]

  /** The words for first to twentieth stand for their place. */
  lemma NominativesInOrder(i: nat)
    ensures i < |NOMINATIVES| ==> NOMINATIVES[i] in ORDINALS && ORDINALS[NOMINATIVES[i]] == i + 1
  {
  }

  /** So do the genitives of the first ten. */
  lemma GenitivesInOrder(i: nat)
    ensures i < |GENITIVES| ==> GENITIVES[i] in ORDINALS && ORDINALS[GENITIVES[i]] == i + 1
  {
  }
}
