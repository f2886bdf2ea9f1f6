/** Quoting and reading back one shell word: shlex.quote and the POSIX lexer with comments. */
module ShellWords {
  import opened Prelude

  predicate Blank(c: char) {
    c == ' ' || c == '\t' || c == '\r' || c == '\n'
  }

  /** Characters that shlex.quote leaves bare. */
  predicate Safe(c: char) {
    || '0' <= c <= '9' || 'a' <= c <= 'z' || 'A' <= c <= 'Z'
    || c in {'_', '@', '%', '+', '=', ':', ',', '.', '/', '-'}
  }

  /** `value.replace("'", "'\"'\"'")` */
  function Guarded(s: string): string {
    if s == "" then "" else (if s[0] == '\'' then "'\"'\"'" else [s[0]]) + Guarded(s[1..])
  }

  function Quote(s: string): string {
    if s == "" then "''"
    else if forall i :: 0 <= i < |s| ==> Safe(s[i]) then s
    else "'" + Guarded(s) + "'"
  }

  datatype State = Between | InWord | InQuotes(mark: char) | Escaped(quoted: bool)

  /** The rest of the text after the line that s begins in. */
  function NextLine(s: string): string {
    if s == "" then "" else if s[0] == '\n' then s[1..] else NextLine(s[1..])
  }

  lemma {:induction false} NextLineShrinks(s: string)
    ensures |NextLine(s)| <= |s|
    decreases |s|
  {
    if s != "" && s[0] != '\n' { NextLineShrinks(s[1..]); }
  }

  function Emit(token: string, quoted: bool): seq<string> {
    if token != "" || quoted then [token] else []
  }

  function Prepend(words: seq<string>, rest: Option<seq<string>>): Option<seq<string>> {
    match rest
    case None => None
    case Some(more) => Some(words + more)
  }

  /** The words of a text; None stands for an unclosed quotation or a dangling backslash. */
  function Lex(st: State, token: string, quoted: bool, s: string): Option<seq<string>>
    decreases |s|
  {
    if s == "" then
      match st
      case Between => Some([])
      case InWord => Some(Emit(token, quoted))
      case _ => None
    else
      var c, rest := s[0], s[1..];
      match st
      case Between =>
        if Blank(c) then Lex(Between, "", false, rest)
        else if c == '#' then NextLineShrinks(rest); Lex(Between, "", false, NextLine(rest))
        else if c == '\\' then Lex(Escaped(false), "", false, rest)
        else if c == '\'' || c == '"' then Lex(InQuotes(c), "", false, rest)
        else Lex(InWord, [c], false, rest)
      case InWord =>
        if Blank(c) then Prepend(Emit(token, quoted), Lex(Between, "", false, rest))
        else if c == '#' then NextLineShrinks(rest); Prepend(Emit(token, quoted), Lex(Between, "", false, NextLine(rest)))
        else if c == '\\' then Lex(Escaped(false), token, quoted, rest)
        else if c == '\'' || c == '"' then Lex(InQuotes(c), token, quoted, rest)
        else Lex(InWord, token + [c], quoted, rest)
      case InQuotes(mark) =>
        if c == mark then Lex(InWord, token, true, rest)
        else if c == '\\' && mark == '"' then Lex(Escaped(true), token, true, rest)
        else Lex(InQuotes(mark), token + [c], true, rest)
      case Escaped(inQuotes) =>
        var more := if inQuotes && c != '\\' && c != '"' then token + ['\\', c] else token + [c];
        Lex(if inQuotes then InQuotes('"') else InWord, more, quoted, rest)
  }

  /** Characters no value may contain. */
  predicate Forbidden(c: char) {
    c == '\n' || c == '\r' || c == '\t' || c == '\0'
  }

  predicate Allowed(s: string) {
    forall i :: 0 <= i < |s| ==> !Forbidden(s[i])
  }

  /** `_literal`: exactly one word, or nothing; None stands for a refusal. */
  function Literal(raw: string): Option<string> {
    match Lex(Between, "", false, raw)
    case None => None
    case Some(words) =>
      if |words| > 1 then None
      else
        var value := if words == [] then "" else words[0];
        if Allowed(value) then Some(value) else None
  }

  // ---------------------------------------------------------------- round trip

  /** Characters that mean nothing to the lexer. */
  predicate Plain(c: char) {
    !Blank(c) && c != '#' && c != '\\' && c != '\'' && c != '"'
  }

  predicate AllPlain(s: string) {
    forall i :: 0 <= i < |s| ==> Plain(s[i])
  }

  lemma {:induction false} LexPlain(token: string, quoted: bool, s: string)
    requires AllPlain(s) && (token != "" || quoted)
    ensures Lex(InWord, token, quoted, s) == Some([token + s])
    decreases |s|
  {
    if s == "" {
      assert token + s == token;
    } else {
      LexPlain(token + [s[0]], quoted, s[1..]);
      assert token + [s[0]] + s[1..] == token + s;
    }
  }

  /** Reading the guarded text inside single quotes adds exactly the original text. */
  lemma {:induction false} LexGuarded(token: string, s: string)
    ensures Lex(InQuotes('\''), token, true, Guarded(s) + "'") == Some([token + s])
    decreases |s|
  {
    hide Lex;
    var text := Guarded(s) + "'";
    if s == "" {
      ClosingQuote(token);
      assert text == "'" && token + s == token;
    } else {
      var tail := Guarded(s[1..]) + "'";
      LexGuarded(token + [s[0]], s[1..]);
      assert token + [s[0]] + s[1..] == token + s;
      if s[0] == '\'' {
        assert text == ['\'', '"', '\'', '"', '\''] + tail;
        QuotedApostrophe(token, text, tail);
      } else {
        assert text == [s[0]] + tail;
        QuotedCharacter(token, s[0], tail);
      }
    }
  }

  lemma ClosingQuote(token: string)
    ensures Lex(InQuotes('\''), token, true, "'") == Some([token])
  {
    assert "'"[1..] == "";
  }

  lemma QuotedCharacter(token: string, c: char, tail: string)
    requires c != '\''
    ensures Lex(InQuotes('\''), token, true, [c] + tail) == Lex(InQuotes('\''), token + [c], true, tail)
  {
    assert ([c] + tail)[1..] == tail;
  }

  /** Closing the quotes, a double-quoted apostrophe, opening them again. */
  lemma QuotedApostrophe(token: string, text: string, tail: string)
    requires text == ['\'', '"', '\'', '"', '\''] + tail
    ensures Lex(InQuotes('\''), token, true, text) == Lex(InQuotes('\''), token + ['\''], true, tail)
  {
    var a := text[1..];
    var b := a[1..];
    var c := b[1..];
    var d := c[1..];
    assert d[1..] == tail;
    assert Lex(InQuotes('\''), token, true, text) == Lex(InWord, token, true, a);
    assert Lex(InWord, token, true, a) == Lex(InQuotes('"'), token, true, b);
    assert Lex(InQuotes('"'), token, true, b) == Lex(InQuotes('"'), token + ['\''], true, c);
    assert Lex(InQuotes('"'), token + ['\''], true, c) == Lex(InWord, token + ['\''], true, d);
  }

  /** Every value the parser accepts is read back from its quoted form. */
  lemma QuoteRoundTrip(s: string)
    requires Allowed(s)
    ensures Literal(Quote(s)) == Some(s)
  {
    hide Lex, Guarded, Safe, Forbidden;
    if s == "" {
      EmptyRoundTrip();
    } else if forall i :: 0 <= i < |s| ==> Safe(s[i]) {
      SafeRoundTrip(s);
    } else {
      GuardedRoundTrip(s);
    }
  }

  lemma EmptyRoundTrip()
    ensures Literal("''") == Some("")
  {
    assert "''"[1..] == "'" && "'"[1..] == "";
    assert Lex(InQuotes('\''), "", false, "'") == Lex(InWord, "", true, "");
  }

  lemma SafeRoundTrip(s: string)
    requires Allowed(s) && s != "" && forall i :: 0 <= i < |s| ==> Safe(s[i])
    ensures Literal(s) == Some(s)
  {
    hide Forbidden;
    assert Safe(s[0]);
    LexPlain([s[0]], false, s[1..]);
    assert [s[0]] + s[1..] == s;
  }

  lemma GuardedRoundTrip(s: string)
    requires Allowed(s)
    ensures Literal("'" + Guarded(s) + "'") == Some(s)
  {
    hide Guarded, Forbidden, Lex;
    var inner := Guarded(s) + "'";
    var text := "'" + Guarded(s) + "'";
    assert text == ['\''] + inner;
    FirstQuote(inner);
    LexGuarded("", s);
    assert "" + s == s;
  }

  lemma FirstQuote(inner: string)
    requires inner != ""
    ensures Lex(Between, "", false, ['\''] + inner) == Lex(InQuotes('\''), "", true, inner)
  {
    assert (['\''] + inner)[1..] == inner;
  }

  // ---------------------------------------------------------------- values written without quotes

  function Size(words: seq<string>): nat {
    if words == [] then 0 else |words[0]| + Size(words[1..])
  }

  lemma {:induction false} SizeAppend(a: seq<string>, b: seq<string>)
    ensures Size(a + b) == Size(a) + Size(b)
    decreases |a|
  {
    if a == [] {
      assert a + b == b;
    } else {
      assert (a + b)[1..] == a[1..] + b;
      SizeAppend(a[1..], b);
    }
  }

  lemma EmitSize(token: string, quoted: bool)
    ensures Size(Emit(token, quoted)) == |token|
  {
    assert Size([token]) == |token| + Size([token][1..]);
  }

  /** Reading never adds characters, and every quote, backslash, blank or comment costs some. */
  lemma {:induction false} LexShrinks(st: State, token: string, quoted: bool, s: string)
    requires Lex(st, token, quoted, s).Some? && (st.Between? ==> token == "")
    ensures var n := Size(Lex(st, token, quoted, s).value);
      n <= |token| + |s| - (if st.InQuotes? then 1 else 0) && ((st.Between? || st.InWord?) && !AllPlain(s) ==> n < |token| + |s|)
    decreases |s|
  {
    EmitSize(token, quoted);
    if s != "" {
      var c, rest := s[0], s[1..];
      NextLineShrinks(rest);
      match st
      case Between =>
        if Blank(c) { LexShrinks(Between, "", false, rest); }
        else if c == '#' { LexShrinks(Between, "", false, NextLine(rest)); }
        else if c == '\\' { LexShrinks(Escaped(false), "", false, rest); }
        else if c == '\'' || c == '"' { LexShrinks(InQuotes(c), "", false, rest); }
        else { LexShrinks(InWord, [c], false, rest); }
      case InWord =>
        if Blank(c) {
          LexShrinks(Between, "", false, rest);
          SizeAppend(Emit(token, quoted), Lex(Between, "", false, rest).value);
        } else if c == '#' {
          LexShrinks(Between, "", false, NextLine(rest));
          SizeAppend(Emit(token, quoted), Lex(Between, "", false, NextLine(rest)).value);
        }
        else if c == '\\' { LexShrinks(Escaped(false), token, quoted, rest); }
        else if c == '\'' || c == '"' { LexShrinks(InQuotes(c), token, quoted, rest); }
        else { LexShrinks(InWord, token + [c], quoted, rest); }
      case InQuotes(mark) =>
        if c == mark { LexShrinks(InWord, token, true, rest); }
        else if c == '\\' && mark == '"' { LexShrinks(Escaped(true), token, true, rest); }
        else { LexShrinks(InQuotes(mark), token + [c], true, rest); }
      case Escaped(inQuotes) =>
        var more := if inQuotes && c != '\\' && c != '"' then token + ['\\', c] else token + [c];
        LexShrinks(if inQuotes then InQuotes('"') else InWord, more, quoted, rest);
    }
  }

  /** A value written as it is comes back exactly when no character means anything to the lexer. */
  lemma UnquotedExact(s: string)
    ensures Literal(s) == Some(s) <==> AllPlain(s) && Allowed(s)
  {
    if Literal(s) == Some(s) {
      var words := Lex(Between, "", false, s).value;
      LexShrinks(Between, "", false, s);
      if words != [] { assert Size(words) == |s| + Size(words[1..]); }
    }
    if AllPlain(s) && s != "" {
      LexPlain([s[0]], false, s[1..]);
      assert [s[0]] + s[1..] == s;
    }
  }
}
