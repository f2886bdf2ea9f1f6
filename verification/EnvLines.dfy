/** Which lines of an environment file set something, and which lines a rewrite keeps. */
module EnvLines {
  import opened Prelude
  import W = Words
  import opened EnvFile
  import opened EnvFileProofs

  ghost predicate White(space: char -> bool, s: string) {
    forall i :: 0 <= i < |s| ==> space(s[i])
  }

  lemma {:induction false} LeftPast(space: char -> bool, lead: string, s: string)
    requires White(space, lead) && (s == "" || !space(s[0]))
    ensures W.StripLeft(space, lead + s) == s
    decreases |lead|
  {
    if lead == "" {
      assert lead + s == s;
    } else {
      assert (lead + s)[1..] == lead[1..] + s;
      LeftPast(space, lead[1..], s);
    }
  }

  lemma {:induction false} RightPast(space: char -> bool, s: string, trail: string)
    requires White(space, trail) && (s == "" || !space(s[|s| - 1]))
    ensures W.StripRight(space, s + trail) == s
    decreases |trail|
  {
    if trail == "" {
      assert s + trail == s;
    } else {
      var init := trail[..|trail| - 1];
      assert (s + trail)[..|s + trail| - 1] == s + init;
      RightPast(space, s, init);
    }
  }

  /**
   * A setting is read, and found again by a rewrite, under its key, with or without `export` and with any white space
   * around it. The value keeps everything after the first equals sign up to the white space at the end of the line.
   */
  lemma SettingFound(space: char -> bool, lead: string, exported: bool, gap: string, key: string, raw: string, trail: string)
    requires Spaces(space) && Identifier(key) && White(space, lead) && White(space, gap) && White(space, trail)
    requires raw == "" || !space(raw[|raw| - 1])
    ensures var line := lead + (if exported then "export " + gap else "") + key + "=" + raw + trail;
      ReadSetting(space, line) == Some(Setting(key, raw)) && LineKey(space, line) == key
  {
    hide Spaces, Identifier, White, WithoutExport, ReadSetting, LineKey, W.Strip;
    var body := (if exported then "export " + gap else "") + (key + "=" + raw);
    var line := lead + (if exported then "export " + gap else "") + key + "=" + raw + trail;
    assert line == lead + (body + trail);
    EndsOfLine(space, exported, gap, key, raw);
    StripsTo(space, lead, body, trail);
    ExportPassed(space, exported, gap, key, raw);
    BodyRead(space, line, body, key, raw);
    SameKey(space, line);
  }

  lemma StripsTo(space: char -> bool, lead: string, body: string, trail: string)
    requires White(space, lead) && White(space, trail) && body != "" && !space(body[0]) && !space(body[|body| - 1])
    ensures W.Strip(space, lead + (body + trail)) == body
  {
    hide White;
    LeftPast(space, lead, body + trail);
    RightPast(space, body, trail);
  }

  lemma BodyRead(space: char -> bool, line: string, body: string, key: string, raw: string)
    requires W.Strip(space, line) == body && body != "" && body[0] != '#' && W.Strip(space, key) == key && '=' !in key
    requires WithoutExport(space, body) == key + "=" + raw
    ensures ReadSetting(space, line) == Some(Setting(key, raw))
  {
    hide W.Strip, WithoutExport;
    var text := key + "=" + raw;
    EqualsAtHere(key, raw);
    assert text[|key|] == '=' && text[..|key|] == key && text[|key|..][1..] == raw;
  }

  lemma EndsOfLine(space: char -> bool, exported: bool, gap: string, key: string, raw: string)
    requires Spaces(space) && Identifier(key) && (raw == "" || !space(raw[|raw| - 1]))
    ensures var body := (if exported then "export " + gap else "") + (key + "=" + raw);
      body != "" && !space(body[0]) && body[0] != '#' && !space(body[|body| - 1])
  {
    var text := key + "=" + raw;
    var body := (if exported then "export " + gap else "") + text;
    assert text[|text| - 1] == if raw == "" then '=' else raw[|raw| - 1];
    assert body[|body| - 1] == text[|text| - 1];
    assert text[0] == key[0] && IdentifierChar(key[0]);
    assert body[0] == if exported then 'e' else key[0];
  }

  lemma KeyStarts(space: char -> bool, key: string)
    requires Spaces(space) && Identifier(key)
    ensures key != "" && !space(key[0])
  {
    assert IdentifierChar(key[0]);
  }

  lemma ExportPassed(space: char -> bool, exported: bool, gap: string, key: string, raw: string)
    requires Spaces(space) && Identifier(key) && White(space, gap)
    ensures var text := key + "=" + raw;
      WithoutExport(space, (if exported then "export " + gap else "") + text) == text && W.Strip(space, key) == key && '=' !in key && '=' in text
  {
    hide W.Strip, W.StripLeft, Spaces, Identifier, White;
    var text := key + "=" + raw;
    IdentifierPlain(space, key);
    KeyStarts(space, key);
    assert text[|key|] == '=' && text[0] == key[0];
    if exported {
      var s := "export " + gap + text;
      assert s == EXPORT + (gap + text);
      assert s[..|EXPORT|] == EXPORT && s[|EXPORT|..] == gap + text;
      LeftPast(space, gap, text);
    } else {
      NotExport(key, raw);
      assert "" + text == text;
    }
  }

  /** A comment sets nothing, and no rewrite drops it. */
  lemma CommentIgnored(space: char -> bool, known: seq<string>, lead: string, rest: string)
    requires Spaces(space) && White(space, lead) && GoodKeys(known)
    ensures ReadSetting(space, lead + "#" + rest).None? && LineKey(space, lead + "#" + rest) !in known
  {
    var line, body := lead + "#" + rest, "#" + rest;
    assert line == lead + body;
    assert !space(body[0]);
    LeftPast(space, lead, body);
    StripRightKeepsHead(space, body);
    if '=' in body {
      var key := Before(body);
      EqualsAtMeaning(body);
      assert body[0] == '#' && key[0] == '#';
      assert W.StripLeft(space, key) == key;
      StripRightKeepsHead(space, key);
      assert W.Strip(space, key)[0] == '#';
      assert !IdentifierChar('#');
    }
  }

  lemma {:induction false} StripRightKeepsHead(space: char -> bool, s: string)
    requires s != "" && !space(s[0])
    ensures W.StripRight(space, s) != "" && W.StripRight(space, s)[0] == s[0]
    decreases |s|
  {
    if space(s[|s| - 1]) { StripRightKeepsHead(space, s[..|s| - 1]); }
  }

  /** A line without an equals sign sets nothing and is never dropped. */
  lemma NoEqualsIgnored(space: char -> bool, known: seq<string>, line: string)
    requires GoodKeys(known) && '=' !in line
    ensures ReadSetting(space, line).None? && LineKey(space, line) !in known
  {
    NoKey(space, known, line);
    var stripped := W.Strip(space, line);
    if stripped != "" && '=' in WithoutExport(space, stripped) {
      if EXPORT <= stripped { EqualsSurvives(space, stripped[|EXPORT|..]); }
      EqualsOfStrip(space, W.StripLeft(space, line));
      EqualsSurvives(space, line);
    }
  }

  lemma {:induction false} EqualsOfStrip(space: char -> bool, s: string)
    requires '=' in W.StripRight(space, s)
    ensures '=' in s
    decreases |s|
  {
    if s != "" && space(s[|s| - 1]) { EqualsOfStrip(space, s[..|s| - 1]); }
  }

  // ---------------------------------------------------------------- what is kept

  ghost predicate Ascending(at: seq<nat>) {
    forall i, j :: 0 <= i < j < |at| ==> at[i] < at[j]
  }

  /** The places of the kept lines: all lines that set no known key, in order. */
  ghost predicate Picks(space: char -> bool, known: seq<string>, lines: seq<string>, kept: seq<string>, at: seq<nat>) {
    && |at| == |kept| && Ascending(at)
    && (forall i :: i in at <==> 0 <= i < |lines| && LineKey(space, lines[i]) !in known)
    && (forall i :: 0 <= i < |at| && at[i] < |lines| ==> kept[i] == lines[at[i]])
  }

  /** A rewrite keeps exactly the lines that set no known key, as they are and in order. */
  lemma {:induction false} ForeignExactly(space: char -> bool, known: seq<string>, lines: seq<string>) returns (at: seq<nat>)
    ensures Picks(space, known, lines, Foreign(space, known, lines), at)
    decreases |lines|
  {
    hide LineKey, Picks;
    if lines == [] {
      at := [];
      PicksNothing(space, known);
    } else {
      var n := |lines| - 1;
      var init := lines[..n];
      var before := ForeignExactly(space, known, init);
      at := before;
      if LineKey(space, lines[n]) !in known {
        at := before + [n];
        PicksLast(space, known, init, lines[n], Foreign(space, known, init), before);
        assert init + [lines[n]] == lines;
      } else {
        PicksNotLast(space, known, init, lines[n], Foreign(space, known, init), before);
        assert init + [lines[n]] == lines;
        assert Foreign(space, known, init) + [] == Foreign(space, known, init);
      }
    }
  }

  lemma PicksNothing(space: char -> bool, known: seq<string>)
    ensures Picks(space, known, [], [], [])
  {
  }

  lemma PicksLast(space: char -> bool, known: seq<string>, lines: seq<string>, line: string, kept: seq<string>, at: seq<nat>)
    requires Picks(space, known, lines, kept, at) && LineKey(space, line) !in known
    ensures Picks(space, known, lines + [line], kept + [line], at + [|lines|])
  {
    hide LineKey;
    var all, more := lines + [line], at + [|lines|];
    forall i | 0 <= i < |at| ensures at[i] < |lines| && all[at[i]] == lines[at[i]] { assert at[i] in at; }
    forall i ensures i in more <==> 0 <= i < |all| && LineKey(space, all[i]) !in known {
      assert i in more <==> i in at || i == |lines|;
    }
  }

  lemma PicksNotLast(space: char -> bool, known: seq<string>, lines: seq<string>, line: string, kept: seq<string>, at: seq<nat>)
    requires Picks(space, known, lines, kept, at) && LineKey(space, line) in known
    ensures Picks(space, known, lines + [line], kept, at)
  {
    hide LineKey;
    forall i | 0 <= i < |at| ensures at[i] < |lines| && (lines + [line])[at[i]] == lines[at[i]] { assert at[i] in at; }
  }

  lemma {:induction false} TrimmedExactly(lines: seq<string>) returns (n: nat)
    ensures n <= |lines| && TrimEnd(lines) == lines[..n]
    ensures (n > 0 ==> lines[n - 1] != "") && forall i :: n <= i < |lines| ==> lines[i] == ""
    decreases |lines|
  {
    n := |lines|;
    if lines != [] && lines[|lines| - 1] == "" {
      n := TrimmedExactly(lines[..|lines| - 1]);
    }
  }

  /**
   * What is written: the lines that set no known key, as they are and in order, without empty lines at the end; then,
   * if any line is left, an empty line; then the assignments.
   */
  lemma RewrittenExactly(space: char -> bool, known: seq<string>, assignments: seq<string>, source: string)
    returns (kept: seq<string>, at: seq<nat>, n: nat)
    ensures Picks(space, known, Lines(true, source, ""), kept, at)
    ensures n <= |kept| && (n > 0 ==> kept[n - 1] != "") && (forall i :: n <= i < |kept| ==> kept[i] == "")
    ensures Rewrite(space, known, assignments, source) == Content((if n == 0 then [] else kept[..n] + [""]) + assignments)
  {
    hide Foreign, TrimEnd, Content, Picks, Lines;
    kept := Foreign(space, known, Lines(true, source, ""));
    at := ForeignExactly(space, known, Lines(true, source, ""));
    n := TrimmedExactly(kept);
  }
}
