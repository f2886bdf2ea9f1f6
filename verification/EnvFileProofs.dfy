/** What is written is read back, and rewriting twice is rewriting once. */
module EnvFileProofs {
  import opened Prelude
  import W = Words
  import opened ShellWords
  import opened EnvFile

  /** What is assumed of Unicode white space. */
  ghost predicate Spaces(space: char -> bool) {
    && (forall c: char :: '!' <= c <= '~' ==> !space(c))
    && space(' ') && space('\n') && space('\r')
  }

  ghost predicate Unbroken(all: bool, s: string) {
    forall i :: 0 <= i < |s| ==> !Break(all, s[i])
  }

  ghost predicate AllUnbroken(all: bool, lines: seq<string>) {
    forall i :: 0 <= i < |lines| ==> Unbroken(all, lines[i])
  }

  // ---------------------------------------------------------------- lines written are lines read

  /** The lines that one written line is split into. */
  function Pieces(all: bool, line: string, current: string): seq<string> {
    Lines(all, line + "\n", current)
  }

  lemma {:induction false} LinesOfLine(all: bool, line: string, rest: string, current: string)
    requires Unbroken(false, line)
    ensures Lines(all, line + "\n" + rest, current) == Pieces(all, line, current) + Lines(all, rest, "")
    decreases |line|
  {
    var s, t := line + "\n" + rest, line + "\n";
    if line == "" {
      assert s[0] == '\n' && s[1..] == rest && t[0] == '\n' && t[1..] == "";
      assert Pieces(all, line, current) == [current] + Lines(all, "", "");
    } else {
      assert s[0] == line[0] && s[1..] == line[1..] + "\n" + rest;
      assert t[0] == line[0] && t[1..] == line[1..] + "\n";
      if Break(all, line[0]) {
        LinesOfLine(all, line[1..], rest, "");
      } else {
        LinesOfLine(all, line[1..], rest, current + [line[0]]);
      }
    }
  }

  lemma {:induction false} PiecesUnbroken(all: bool, line: string, current: string)
    requires Unbroken(all, line)
    ensures Pieces(all, line, current) == [current + line]
    decreases |line|
  {
    var t := line + "\n";
    if line == "" {
      assert t[0] == '\n' && t[1..] == "" && current + line == current;
      assert Lines(all, t, current) == [current] + Lines(all, "", "");
    } else {
      assert t[0] == line[0] && t[1..] == line[1..] + "\n";
      PiecesUnbroken(all, line[1..], current + [line[0]]);
      assert current + [line[0]] + line[1..] == current + line;
    }
  }

  function AllPieces(all: bool, lines: seq<string>): seq<string> {
    if lines == [] then [] else Pieces(all, lines[0], "") + AllPieces(all, lines[1..])
  }

  lemma {:induction false} LinesOfUnlines(all: bool, lines: seq<string>)
    requires AllUnbroken(false, lines)
    ensures Lines(all, Unlines(lines), "") == AllPieces(all, lines)
    decreases |lines|
  {
    if lines != [] {
      LinesOfLine(all, lines[0], Unlines(lines[1..]), "");
      LinesOfUnlines(all, lines[1..]);
    }
  }

  lemma {:induction false} AllPiecesUnbroken(all: bool, lines: seq<string>)
    requires AllUnbroken(all, lines)
    ensures AllPieces(all, lines) == lines
    decreases |lines|
  {
    if lines != [] {
      PiecesUnbroken(all, lines[0], "");
      assert "" + lines[0] == lines[0];
      AllPiecesUnbroken(all, lines[1..]);
    }
  }

  lemma {:induction false} AllPiecesAppend(all: bool, a: seq<string>, b: seq<string>)
    ensures AllPieces(all, a + b) == AllPieces(all, a) + AllPieces(all, b)
    decreases |a|
  {
    if a == [] {
      assert a + b == b;
    } else {
      assert (a + b)[1..] == a[1..] + b;
      AllPiecesAppend(all, a[1..], b);
    }
  }

  /** Written lines without line ends come back as they are. */
  lemma ReadBack(lines: seq<string>)
    requires AllUnbroken(false, lines)
    ensures Lines(false, Content(lines), "") == if lines == [] then [""] else lines
  {
    LinesOfUnlines(false, lines);
    AllPiecesUnbroken(false, lines);
    if lines == [] {
      PiecesUnbroken(false, "", "");
      assert "" + "\n" == "\n" && "" + "" == "";
    }
  }

  lemma {:induction false} LinesUnbroken(all: bool, s: string, current: string)
    requires Unbroken(all, current)
    ensures AllUnbroken(all, Lines(all, s, current))
    decreases |s|
  {
    if s == "" {
    } else if s[0] == '\r' && |s| > 1 && s[1] == '\n' {
      LinesUnbroken(all, s[2..], "");
    } else if Break(all, s[0]) {
      LinesUnbroken(all, s[1..], "");
    } else {
      LinesUnbroken(all, s[1..], current + [s[0]]);
    }
  }

  // ---------------------------------------------------------------- settings lines

  lemma {:induction false} EqualsAtHere(a: string, b: string)
    requires '=' !in a
    ensures EqualsAt(a + "=" + b) == |a|
    decreases |a|
  {
    var s := a + "=" + b;
    if a != "" {
      assert s[0] == a[0] && s[1..] == a[1..] + "=" + b;
      EqualsAtHere(a[1..], b);
    }
  }

  lemma IdentifierPlain(space: char -> bool, key: string)
    requires Spaces(space) && Identifier(key)
    ensures W.Strip(space, key) == key && '=' !in key && ' ' !in key && key[0] != '#'
  {
    assert !space(key[0]) && !space(key[|key| - 1]);
  }

  lemma NotExport(key: string, rest: string)
    requires ' ' !in key
    ensures !(EXPORT <= key + "=" + rest)
  {
    var s := key + "=" + rest;
    assert '=' !in EXPORT && EXPORT[6] == ' ';
    var k := if |key| < |EXPORT| then |key| else 6;
    assert s[k] == if k == |key| then '=' else key[k];
    assert EXPORT[k] in EXPORT;
    assert s[k] != EXPORT[k];
  }

  /** A line KEY=rest is recognized by its key, whatever follows. */
  lemma AssignmentKey(space: char -> bool, key: string, rest: string)
    requires Spaces(space) && Identifier(key)
    ensures LineKey(space, key + "=" + rest) == key
  {
    var s := key + "=" + rest;
    IdentifierPlain(space, key);
    NotExport(key, rest);
    EqualsAtHere(key, rest);
    assert s[0] == key[0] && !space(s[0]);
    assert s[|key|] == '=' && s[..|key|] == key;
  }

  /** A line KEY=raw that does not end in white space is read as that setting. */
  lemma AssignmentRead(space: char -> bool, key: string, raw: string)
    requires Spaces(space) && Identifier(key) && (raw != "" ==> !space(raw[|raw| - 1]))
    ensures ReadSetting(space, key + "=" + raw) == Some(Setting(key, raw))
  {
    var s := key + "=" + raw;
    IdentifierPlain(space, key);
    NotExport(key, raw);
    EqualsAtHere(key, raw);
    assert s[0] == key[0] && !space(s[0]);
    assert s[|s| - 1] == if raw == "" then '=' else raw[|raw| - 1];
    assert W.Strip(space, s) == s;
    assert s[|key|] == '=' && s[..|key|] == key;
    assert s[|key|..][1..] == raw;
  }

  lemma QuoteEnds(space: char -> bool, v: string)
    requires Spaces(space)
    ensures Quote(v) != "" && !space(Quote(v)[|Quote(v)| - 1])
  {
    if v != "" && forall i :: 0 <= i < |v| ==> Safe(v[i]) { assert Safe(v[|v| - 1]); }
  }

  // ---------------------------------------------------------------- kept lines set nothing

  lemma {:induction false} RightTail(space: char -> bool, s: string) returns (tail: string)
    ensures s == W.StripRight(space, s) + tail && forall i :: 0 <= i < |tail| ==> space(tail[i])
    decreases |s|
  {
    if s != "" && space(s[|s| - 1]) {
      var rest := RightTail(space, s[..|s| - 1]);
      tail := rest + [s[|s| - 1]];
    } else {
      tail := "";
    }
  }

  lemma {:induction false} LeftKeepsTail(space: char -> bool, s: string, tail: string)
    requires !space('=') && '=' in s
    ensures W.StripLeft(space, s + tail) == W.StripLeft(space, s) + tail && '=' in W.StripLeft(space, s)
    decreases |s|
  {
    assert (s + tail)[1..] == s[1..] + tail;
    if space(s[0]) { LeftKeepsTail(space, s[1..], tail); }
  }

  lemma {:induction false} EqualsAtTail(s: string, tail: string)
    requires '=' in s
    ensures EqualsAt(s + tail) == EqualsAt(s) < |s|
    decreases |s|
  {
    assert (s + tail)[1..] == s[1..] + tail;
    if s[0] != '=' { EqualsAtTail(s[1..], tail); }
  }

  lemma ExportTail(space: char -> bool, t: string, tail: string)
    requires !space('=') && '=' in WithoutExport(space, t)
    ensures WithoutExport(space, t + tail) == WithoutExport(space, t) + tail
  {
    var n := |EXPORT|;
    if EXPORT <= t {
      assert (t + tail)[n..] == t[n..] + tail;
      EqualsSurvives(space, t[n..]);
      LeftKeepsTail(space, t[n..], tail);
    } else if |t| >= n {
      assert (t + tail)[..n] == t[..n];
    } else {
      var i :| 0 <= i < |t| && t[i] == '=';
      assert (t + tail)[i] == '=' && '=' !in EXPORT && EXPORT[i] in EXPORT;
    }
  }

  lemma {:induction false} EqualsSurvives(space: char -> bool, s: string)
    requires '=' in W.StripLeft(space, s)
    ensures '=' in s
    decreases |s|
  {
    if s != "" && space(s[0]) { EqualsSurvives(space, s[1..]); }
  }

  /** The reader and the writer agree on the key of every line that sets something. */
  lemma SameKey(space: char -> bool, line: string)
    requires Spaces(space) && ReadSetting(space, line).Some?
    ensures LineKey(space, line) == ReadSetting(space, line).value.key
  {
    var candidate := W.StripLeft(space, line);
    var tail := RightTail(space, candidate);
    var t := W.StripRight(space, candidate);
    ExportTail(space, t, tail);
    var text := WithoutExport(space, t);
    EqualsAtTail(text, tail);
    assert (text + tail)[..EqualsAt(text)] == text[..EqualsAt(text)];
    assert '=' in text + tail;
  }

  /** No kept line is read as one of the known settings. */
  ghost predicate Silent(space: char -> bool, known: seq<string>, lines: seq<string>) {
    forall i :: 0 <= i < |lines| ==> LineKey(space, lines[i]) !in known
  }

  lemma {:induction false} ForeignSilent(space: char -> bool, known: seq<string>, lines: seq<string>)
    ensures Silent(space, known, Foreign(space, known, lines))
    ensures forall x :: x in Foreign(space, known, lines) ==> x in lines
    decreases |lines|
  {
    if lines != [] {
      ForeignSilent(space, known, lines[..|lines| - 1]);
      assert lines == lines[..|lines| - 1] + [lines[|lines| - 1]];
    }
  }

  lemma {:induction false} TrimEndPrefix(lines: seq<string>)
    ensures TrimEnd(lines) <= lines
    decreases |lines|
  {
    if lines != [] && lines[|lines| - 1] == "" { TrimEndPrefix(lines[..|lines| - 1]); }
  }

  /** The keys of a table are identifiers, none of them empty. */
  ghost predicate GoodKeys(keys: seq<string>) {
    forall k :: k in keys ==> Identifier(k)
  }

  lemma KeptGood(space: char -> bool, known: seq<string>, source: string)
    requires Spaces(space) && GoodKeys(known)
    ensures Silent(space, known, Kept(space, known, source)) && AllUnbroken(true, Kept(space, known, source))
  {
    var lines := Lines(true, source, "");
    var foreign := Foreign(space, known, lines);
    ForeignSilent(space, known, lines);
    LinesUnbroken(true, source, "");
    TrimEndPrefix(foreign);
    var kept := TrimEnd(foreign);
    forall i | 0 <= i < |kept| ensures LineKey(space, kept[i]) !in known && Unbroken(true, kept[i]) {
      assert kept[i] == foreign[i] && foreign[i] in lines;
    }
    assert LineKey(space, "") == "";
  }

  // ---------------------------------------------------------------- reading what was written

  lemma {:induction false} SilentReads(space: char -> bool, known: seq<string>, wanted: string -> bool, lines: seq<string>)
    requires Spaces(space) && Silent(space, known, lines) && forall k :: wanted(k) ==> k in known
    ensures ReadLines(space, wanted, lines) == Some(map[])
    decreases |lines|
  {
    if lines != [] {
      var line := lines[|lines| - 1];
      SilentReads(space, known, wanted, lines[..|lines| - 1]);
      if ReadSetting(space, line).Some? { SameKey(space, line); }
    }
  }

  /** The settings named by the keys, and nothing else. */
  ghost predicate Settles(keys: seq<string>, settings: map<string, string>, parsed: map<string, string>) {
    && (forall k :: k in parsed <==> k in keys)
    && (forall k :: k in keys && k in settings ==> parsed[k] == settings[k])
  }

  lemma SettingLineRead(space: char -> bool, wanted: string -> bool, parsed: map<string, string>, k: string, v: string)
    requires Spaces(space) && Identifier(k) && wanted(k) && Allowed(v)
    ensures ReadLine(space, wanted, parsed, k + "=" + Quote(v)) == Some(parsed[k := v])
  {
    QuoteEnds(space, v);
    AssignmentRead(space, k, Quote(v));
    QuoteRoundTrip(v);
  }

  lemma ReadLinesNext(space: char -> bool, wanted: string -> bool, lines: seq<string>, line: string)
    requires ReadLines(space, wanted, lines).Some?
    ensures ReadLines(space, wanted, lines + [line]) == ReadLine(space, wanted, ReadLines(space, wanted, lines).value, line)
  {
    assert (lines + [line])[..|lines|] == lines;
  }

  lemma {:induction false} SettingsRead(space: char -> bool, wanted: string -> bool, before: seq<string>,
                                        keys: seq<string>, settings: map<string, string>)
    requires Spaces(space) && GoodKeys(keys) && (forall k :: k in keys ==> wanted(k) && k in settings && Allowed(settings[k]))
    requires ReadLines(space, wanted, before) == Some(map[])
    ensures ReadLines(space, wanted, before + QuotedSettings(keys, settings)).Some?
    ensures Settles(keys, settings, ReadLines(space, wanted, before + QuotedSettings(keys, settings)).value)
    decreases |keys|
  {
    var lines := QuotedSettings(keys, settings);
    if keys == [] {
      assert before + lines == before;
    } else {
      var n := |keys| - 1;
      var k, init := keys[n], keys[..n];
      assert keys == init + [k];
      SettingsRead(space, wanted, before, init, settings);
      var earlier := before + QuotedSettings(init, settings);
      assert before + lines == earlier + [k + "=" + Quote(settings[k])];
      ReadLinesNext(space, wanted, earlier, k + "=" + Quote(settings[k]));
      SettingLineRead(space, wanted, ReadLines(space, wanted, earlier).value, k, settings[k]);
    }
  }

  lemma QuotedUnbroken(keys: seq<string>, settings: map<string, string>)
    requires GoodKeys(keys) && forall k :: k in keys ==> k in settings && Allowed(settings[k])
    ensures AllUnbroken(false, QuotedSettings(keys, settings))
  {
    var lines := QuotedSettings(keys, settings);
    forall i | 0 <= i < |lines| ensures Unbroken(false, lines[i]) {
      var k := keys[i];
      assert k in keys && Identifier(k);
      QuoteUnbroken(settings[k]);
      forall j | 0 <= j < |lines[i]| ensures !Break(false, lines[i][j]) {
        if j < |k| { assert IdentifierChar(k[j]); }
        else if j > |k| { assert lines[i][j] == Quote(settings[k])[j - |k| - 1]; }
      }
    }
  }

  lemma {:induction false} GuardedUnbroken(v: string)
    requires Unbroken(false, v)
    ensures Unbroken(false, Guarded(v))
    decreases |v|
  {
    if v != "" { GuardedUnbroken(v[1..]); }
  }

  lemma QuoteUnbroken(v: string)
    requires Allowed(v)
    ensures Unbroken(false, Quote(v))
  {
    forall i | 0 <= i < |v| ensures !Break(false, v[i]) { assert !Forbidden(v[i]); }
    GuardedUnbroken(v);
  }

  /** The keys of both tables are identifiers. */
  lemma TablesGood()
    ensures GoodKeys(INSTALLER_KEYS) && GoodKeys(CERTIFICATE_KEYS)
    ensures INSTALLER_KEYS != [] && CERTIFICATE_KEYS != []
  {
    hide Identifier;
    forall i | 0 <= i < |INSTALLER_KEYS| ensures Identifier(INSTALLER_KEYS[i]) { InstallerKeyGood(i); }
    forall i | 0 <= i < |CERTIFICATE_KEYS| ensures Identifier(CERTIFICATE_KEYS[i]) { CertificateKeyGood(i); }
  }

  lemma InstallerKeyGood(i: nat)
    requires i < |INSTALLER_KEYS|
    ensures Identifier(INSTALLER_KEYS[i])
  {
    hide Identifier;
    if i < 6 { EarlyKeyGood(i); } else { LateKeyGood(i); }
  }

  lemma EarlyKeyGood(i: nat)
    requires i < 6
    ensures i < |INSTALLER_KEYS| && Identifier(INSTALLER_KEYS[i])
  {
  }

  lemma LateKeyGood(i: nat)
    requires 6 <= i < |INSTALLER_KEYS|
    ensures Identifier(INSTALLER_KEYS[i])
  {
  }

  lemma CertificateKeyGood(i: nat)
    requires i < |CERTIFICATE_KEYS|
    ensures Identifier(CERTIFICATE_KEYS[i])
  {
  }

  /** The installer's file gives back every setting, whatever else the source file held. */
  lemma EffectiveEnvReadsBack(space: char -> bool, known: seq<string>, settings: map<string, string>, source: string)
    requires Spaces(space) && GoodKeys(known) && known != []
    requires forall k :: k in known ==> k in settings && Allowed(settings[k])
    ensures var parsed := ReadLines(space, k => k in known,
                                    Lines(false, Rewrite(space, known, QuotedSettings(known, settings), source), ""));
      parsed.Some? && Settles(known, settings, parsed.value)
  {
    var kept, lines := Kept(space, known, source), QuotedSettings(known, settings);
    KeptGood(space, known, source);
    forall i | 0 <= i < |kept| ensures Unbroken(false, kept[i]) { assert Unbroken(true, kept[i]); }
    QuotedUnbroken(known, settings);
    ReadBack(kept + lines);
    SilentReads(space, known, k => k in known, kept);
    SettingsRead(space, k => k in known, kept, known, settings);
  }

  lemma InstallerEnvReadsBack(space: char -> bool, settings: map<string, string>, source: string)
    requires Spaces(space) && forall k :: k in INSTALLER_KEYS ==> k in settings && Allowed(settings[k])
    ensures var parsed := ReadLines(space, k => k in INSTALLER_KEYS,
        Lines(false, Rewrite(space, INSTALLER_KEYS, QuotedSettings(INSTALLER_KEYS, settings), source), ""));
      parsed.Some? && Settles(INSTALLER_KEYS, settings, parsed.value)
  {
    hide *;
    TablesGood();
    EffectiveEnvReadsBack(space, INSTALLER_KEYS, settings, source);
  }

  /** The runtime file gives back every RMV2_ setting except the privileged ones. */
  lemma RuntimeEnvReadsBack(space: char -> bool, keys: seq<string>, values: map<string, string>)
    requires Spaces(space) && GoodKeys(keys) && forall k :: k in keys ==> k in values && Allowed(values[k])
    ensures var parsed := ReadLines(space, k => PREFIX <= k, Lines(false, Content(QuotedSettings(RuntimeKeys(keys), values)), ""));
      && parsed.Some?
      && (forall k :: k in parsed.value <==> k in keys && PREFIX <= k && k !in PRIVILEGED)
      && (forall k :: k in parsed.value ==> parsed.value[k] == values[k])
  {
    RuntimeKeysMember(keys);
    var chosen := RuntimeKeys(keys);
    QuotedUnbroken(chosen, values);
    ReadBack(QuotedSettings(chosen, values));
    SettingsRead(space, k => PREFIX <= k, [], chosen, values);
    assert [] + QuotedSettings(chosen, values) == QuotedSettings(chosen, values);
    if chosen == [] {
      assert [""][..0] == [];
      assert ReadLines(space, k => PREFIX <= k, [""][..0]) == Some(map[]);
    }
  }

  // ---------------------------------------------------------------- paths written without quotes

  lemma {:induction false} StripRightOf(space: char -> bool, s: string, v: string)
    requires s != "" && !space(s[|s| - 1])
    ensures W.StripRight(space, s + v) == s + W.StripRight(space, v)
    decreases |v|
  {
    if v != "" && space(v[|v| - 1]) {
      assert (s + v)[..|s + v| - 1] == s + v[..|v| - 1];
      StripRightOf(space, s, v[..|v| - 1]);
    } else if v == "" {
      assert s + v == s;
    }
  }

  lemma {:induction false} StripRightShrinks(space: char -> bool, v: string)
    ensures var r := W.StripRight(space, v); |r| <= |v| && (r != "" ==> !space(r[|r| - 1]))
    ensures |W.StripRight(space, v)| == |v| ==> W.StripRight(space, v) == v
    decreases |v|
  {
    if v != "" && space(v[|v| - 1]) { StripRightShrinks(space, v[..|v| - 1]); }
  }

  /** Whatever is written after the key, the reader sees it without the white space at its end. */
  lemma AnyAssignmentRead(space: char -> bool, key: string, v: string)
    requires Spaces(space) && Identifier(key)
    ensures ReadSetting(space, key + "=" + v) == Some(Setting(key, W.StripRight(space, v)))
  {
    hide Spaces, Identifier, ReadSetting, W.Strip, W.StripRight;
    var r := W.StripRight(space, v);
    StripRightShrinks(space, v);
    AlreadyStripped(space, r);
    StripAssignment(space, key, v);
    StripAssignment(space, key, r);
    SameReading(space, key + "=" + v, key + "=" + r);
    AssignmentRead(space, key, r);
  }

  lemma StripAssignment(space: char -> bool, key: string, v: string)
    requires Spaces(space) && Identifier(key)
    ensures W.Strip(space, key + "=" + v) == key + "=" + W.StripRight(space, v)
  {
    hide W.StripRight;
    var s := key + "=" + v;
    assert s[0] == key[0] && IdentifierChar(key[0]);
    assert W.StripLeft(space, s) == s;
    StripRightOf(space, key + "=", v);
  }

  lemma AlreadyStripped(space: char -> bool, s: string)
    requires s != "" ==> !space(s[|s| - 1])
    ensures W.StripRight(space, s) == s
  {
  }

  lemma SameReading(space: char -> bool, x: string, y: string)
    requires W.Strip(space, x) == W.Strip(space, y)
    ensures ReadSetting(space, x) == ReadSetting(space, y)
  {
  }

  /** Nothing in the path means anything to the reader. */
  ghost predicate PlainPath(space: char -> bool, v: string) {
    AllPlain(v) && Allowed(v) && (v != "" ==> !space(v[|v| - 1]))
  }

  /** A path written without quotes is read back exactly when nothing in it means anything to the reader. */
  lemma PathReadsBack(space: char -> bool, v: string)
    ensures Literal(W.StripRight(space, v)) == Some(v) <==> PlainPath(space, v)
  {
    var r := W.StripRight(space, v);
    StripRightShrinks(space, v);
    UnquotedExact(r);
    if Literal(r) == Some(v) {
      var words := Lex(Between, "", false, r).value;
      LexShrinks(Between, "", false, r);
      if words != [] { assert Size(words) == |v| + Size(words[1..]); }
      assert r == v;
    }
  }

  /** The value that the reader finds for the key of a path. */
  function Found(space: char -> bool, paths: map<string, string>, k: string): Option<string> {
    Literal(W.StripRight(space, Lookup(paths, k, "")))
  }

  lemma PathLineRead(space: char -> bool, wanted: string -> bool, parsed: map<string, string>, paths: map<string, string>, k: string)
    requires Spaces(space) && Identifier(k) && wanted(k)
    ensures ReadLine(space, wanted, parsed, k + "=" + Lookup(paths, k, "")) ==
      match Found(space, paths, k) { case None => None case Some(v) => Some(parsed[k := v]) }
  {
    AnyAssignmentRead(space, k, Lookup(paths, k, ""));
  }

  lemma {:induction false} PathsRead(space: char -> bool, wanted: string -> bool, before: seq<string>,
                                     keys: seq<string>, paths: map<string, string>)
    requires Spaces(space) && GoodKeys(keys) && forall k :: k in keys ==> wanted(k)
    requires ReadLines(space, wanted, before) == Some(map[])
    ensures var parsed := ReadLines(space, wanted, before + PathSettings(keys, paths));
      && (parsed.Some? <==> forall k :: k in keys ==> Found(space, paths, k).Some?)
      && (parsed.Some? ==> forall k :: k in parsed.value <==> k in keys)
      && (parsed.Some? ==> forall k :: k in keys ==> Some(parsed.value[k]) == Found(space, paths, k))
    decreases |keys|
  {
    hide Found, Spaces, Identifier, ReadLine, ReadLines, PathSettings;
    var lines := PathSettings(keys, paths);
    if keys == [] {
      assert lines == [] by { NoPathSettings(paths); }
      assert before + lines == before;
    } else {
      var n := |keys| - 1;
      var k, init := keys[n], keys[..n];
      assert keys == init + [k];
      PathSettingsNext(init, k, paths);
      PathsRead(space, wanted, before, init, paths);
      var earlier, line := before + PathSettings(init, paths), k + "=" + Lookup(paths, k, "");
      assert before + lines == earlier + [line];
      if ReadLines(space, wanted, earlier).Some? {
        ReadLinesNext(space, wanted, earlier, line);
        PathLineRead(space, wanted, ReadLines(space, wanted, earlier).value, paths, k);
      } else {
        assert (earlier + [line])[..|earlier|] == earlier;
        ReadFails(space, wanted, earlier + [line], |earlier|);
      }
    }
  }

  lemma NoPathSettings(paths: map<string, string>)
    ensures PathSettings([], paths) == []
  {
  }

  lemma PathSettingsNext(keys: seq<string>, k: string, paths: map<string, string>)
    ensures PathSettings(keys + [k], paths) == PathSettings(keys, paths) + [k + "=" + Lookup(paths, k, "")]
  {
  }

  /** The reader returns no value with a forbidden character. */
  lemma {:induction false} ReadValuesAllowed(space: char -> bool, wanted: string -> bool, lines: seq<string>)
    ensures var parsed := ReadLines(space, wanted, lines);
      parsed.Some? ==> forall k :: k in parsed.value ==> Allowed(parsed.value[k])
    decreases |lines|
  {
    hide ReadSetting, Identifier;
    if lines != [] { ReadValuesAllowed(space, wanted, lines[..|lines| - 1]); }
  }

  /** Each key has its path, and a key without one is empty. */
  ghost predicate PathsGiven(keys: seq<string>, paths: map<string, string>, parsed: map<string, string>) {
    && (forall k :: k in parsed <==> k in keys)
    && (forall k :: k in keys ==> parsed[k] == Lookup(paths, k, ""))
  }

  lemma PathLinesUnbroken(keys: seq<string>, paths: map<string, string>)
    requires GoodKeys(keys) && forall k :: k in keys ==> Allowed(Lookup(paths, k, ""))
    ensures AllUnbroken(false, PathSettings(keys, paths))
  {
    var lines := PathSettings(keys, paths);
    forall i, j | 0 <= i < |lines| && 0 <= j < |lines[i]| ensures !Break(false, lines[i][j]) {
      var k := keys[i];
      var v := Lookup(paths, k, "");
      assert k in keys;
      if j < |k| { assert IdentifierChar(k[j]); }
      else if j > |k| { assert lines[i][j] == v[j - |k| - 1] && !Forbidden(v[j - |k| - 1]); }
    }
  }

  /**
   * Certificate paths are written without quotes. The rewritten file gives all of them back exactly
   * when none holds anything that means something to the reader, whatever else the file held.
   */
  lemma PathsReadBack(space: char -> bool, known: seq<string>, paths: map<string, string>, source: string)
    requires Spaces(space) && GoodKeys(known) && known != []
    ensures var parsed := ReadLines(space, k => k in known,
        Lines(false, Rewrite(space, known, PathSettings(known, paths), source), ""));
      parsed.Some? && PathsGiven(known, paths, parsed.value) <==> forall k :: k in known ==> PlainPath(space, Lookup(paths, k, ""))
  {
    hide Rewrite, Spaces, Identifier, Allowed, AllPlain;
    var wanted := (k: string) => k in known;
    var content := Rewrite(space, known, PathSettings(known, paths), source);
    ReadValuesAllowed(space, wanted, Lines(false, content, ""));
    if forall k :: k in known ==> Allowed(Lookup(paths, k, "")) {
      var kept, lines := Kept(space, known, source), PathSettings(known, paths);
      KeptGood(space, known, source);
      KeptUnbroken(space, known, source);
      PathLinesUnbroken(known, paths);
      RewriteLines(space, known, lines, source);
      SilentReads(space, known, wanted, kept);
      PathsRead(space, wanted, kept, known, paths);
      forall k | k in known ensures Found(space, paths, k) == Some(Lookup(paths, k, "")) <==> PlainPath(space, Lookup(paths, k, "")) {
        PathReadsBack(space, Lookup(paths, k, ""));
      }
    }
  }

  /** The lines that are read from a rewritten file. */
  lemma RewriteLines(space: char -> bool, known: seq<string>, assignments: seq<string>, source: string)
    requires Spaces(space) && GoodKeys(known) && assignments != [] && AllUnbroken(false, assignments)
    ensures Lines(false, Rewrite(space, known, assignments, source), "") == Kept(space, known, source) + assignments
  {
    KeptUnbroken(space, known, source);
    ReadBack(Kept(space, known, source) + assignments);
  }

  lemma CertificateEnvReadsBack(space: char -> bool, paths: map<string, string>, source: string)
    requires Spaces(space)
    ensures var parsed := ReadLines(space, k => k in CERTIFICATE_KEYS,
        Lines(false, Rewrite(space, CERTIFICATE_KEYS, PathSettings(CERTIFICATE_KEYS, paths), source), ""));
      parsed.Some? && PathsGiven(CERTIFICATE_KEYS, paths, parsed.value)
      <==> forall k :: k in CERTIFICATE_KEYS ==> PlainPath(space, Lookup(paths, k, ""))
  {
    hide *;
    TablesGood();
    PathsReadBack(space, CERTIFICATE_KEYS, paths, source);
  }

  // ---------------------------------------------------------------- what happens to the other settings

  /** The reader passes over the line. */
  ghost predicate Skipped(space: char -> bool, wanted: string -> bool, line: string) {
    var s := ReadSetting(space, line);
    s.Some? ==> !wanted(s.value.key)
  }

  lemma KnownSkipped(space: char -> bool, known: seq<string>, wanted: string -> bool, line: string)
    requires Spaces(space) && LineKey(space, line) in known && forall k :: k in known ==> !wanted(k)
    ensures Skipped(space, wanted, line)
  {
    if ReadSetting(space, line).Some? { SameKey(space, line); }
  }

  lemma {:induction false} SkippedTail(space: char -> bool, wanted: string -> bool, lines: seq<string>, tail: seq<string>)
    requires forall i :: 0 <= i < |tail| ==> Skipped(space, wanted, tail[i])
    ensures ReadLines(space, wanted, lines + tail) == ReadLines(space, wanted, lines)
    decreases |tail|
  {
    if tail == [] {
      assert lines + tail == lines;
    } else {
      assert (lines + tail)[..|lines + tail| - 1] == lines + tail[..|tail| - 1];
      SkippedTail(space, wanted, lines, tail[..|tail| - 1]);
    }
  }

  lemma {:induction false} ForeignReads(space: char -> bool, known: seq<string>, wanted: string -> bool, lines: seq<string>)
    requires Spaces(space) && forall k :: k in known ==> !wanted(k)
    ensures ReadLines(space, wanted, Foreign(space, known, lines)) == ReadLines(space, wanted, lines)
    decreases |lines|
  {
    hide Spaces, ReadLine, LineKey;
    if lines != [] {
      var init, line := lines[..|lines| - 1], lines[|lines| - 1];
      ForeignReads(space, known, wanted, init);
      assert lines == init + [line];
      if LineKey(space, line) in known {
        KnownSkipped(space, known, wanted, line);
        SkippedTail(space, wanted, init, [line]);
        assert Foreign(space, known, lines) == Foreign(space, known, init);
      } else {
        var kept := Foreign(space, known, init);
        assert (kept + [line])[..|kept|] == kept;
      }
    }
  }

  lemma {:induction false} TrimEndReads(space: char -> bool, wanted: string -> bool, lines: seq<string>)
    ensures ReadLines(space, wanted, TrimEnd(lines)) == ReadLines(space, wanted, lines)
    decreases |lines|
  {
    if lines != [] && lines[|lines| - 1] == "" {
      TrimEndReads(space, wanted, lines[..|lines| - 1]);
      SkippedTail(space, wanted, lines[..|lines| - 1], [""]);
      assert lines == lines[..|lines| - 1] + [""];
    }
  }

  /**
   * A reader of other settings finds in the rewritten file what it would find in the source split at
   * every Unicode line end, although the reader itself splits at stream line ends only.
   */
  lemma ForeignSettingsRead(space: char -> bool, known: seq<string>, wanted: string -> bool, assignments: seq<string>, source: string)
    requires Spaces(space) && GoodKeys(known) && assignments != []
    requires AllUnbroken(false, assignments) && Assigns(known, assignments) && forall k :: k in known ==> !wanted(k)
    ensures ReadLines(space, wanted, Lines(false, Rewrite(space, known, assignments, source), "")) ==
      ReadLines(space, wanted, Lines(true, source, ""))
  {
    hide Rewrite, Spaces, GoodKeys, Lines, ReadLines;
    var lines := Lines(true, source, "");
    var kept := TrimEnd(Foreign(space, known, lines));
    RewriteLines(space, known, assignments, source);
    forall i | 0 <= i < |assignments| ensures Skipped(space, wanted, assignments[i]) {
      assert AssignsOne(known, assignments[i]);
      var k, rest :| k in known && assignments[i] == k + "=" + rest;
      AssignmentSkipped(space, known, wanted, k, rest);
    }
    SkippedTail(space, wanted, Kept(space, known, source), assignments);
    ForeignReads(space, known, wanted, lines);
    TrimEndReads(space, wanted, Foreign(space, known, lines));
    if kept != [] { SkippedTail(space, wanted, kept, [""]); }
  }

  lemma AssignmentSkipped(space: char -> bool, known: seq<string>, wanted: string -> bool, k: string, rest: string)
    requires Spaces(space) && GoodKeys(known) && k in known && forall key :: key in known ==> !wanted(key)
    ensures Skipped(space, wanted, k + "=" + rest)
  {
    hide Spaces, Identifier;
    AssignmentKey(space, k, rest);
    KnownSkipped(space, known, wanted, k + "=" + rest);
  }

  /** No character ends a line for the writer but not for the reader. */
  ghost predicate StreamBreaksOnly(s: string) {
    forall i :: 0 <= i < |s| ==> (Break(true, s[i]) <==> Break(false, s[i]))
  }

  lemma {:induction false} SameLines(s: string, current: string)
    requires StreamBreaksOnly(s)
    ensures Lines(true, s, current) == Lines(false, s, current)
    decreases |s|
  {
    if s == "" {
    } else if s[0] == '\r' && |s| > 1 && s[1] == '\n' {
      SameLines(s[2..], "");
    } else if Break(true, s[0]) {
      SameLines(s[1..], "");
    } else {
      SameLines(s[1..], current + [s[0]]);
    }
  }

  /**
   * Rewriting keeps the other settings exactly when the source reads the same under both ways of
   * splitting, in particular when it holds none of the special line ends.
   */
  lemma ForeignSettingsKept(space: char -> bool, known: seq<string>, wanted: string -> bool, assignments: seq<string>, source: string)
    requires Spaces(space) && GoodKeys(known) && assignments != []
    requires AllUnbroken(false, assignments) && Assigns(known, assignments) && forall k :: k in known ==> !wanted(k)
    ensures var written := Rewrite(space, known, assignments, source);
      var before, after := ReadLines(space, wanted, Lines(false, source, "")), ReadLines(space, wanted, Lines(false, written, ""));
      && (after == before <==> ReadLines(space, wanted, Lines(true, source, "")) == before)
      && (StreamBreaksOnly(source) ==> after == before)
  {
    ForeignSettingsRead(space, known, wanted, assignments, source);
    if StreamBreaksOnly(source) { SameLines(source, ""); }
  }

  lemma {:induction false} LinesPast(all: bool, a: string, rest: string, current: string)
    requires Unbroken(all, a)
    ensures Lines(all, a + rest, current) == Lines(all, rest, current + a)
    decreases |a|
  {
    if a == "" {
      assert a + rest == rest && current + a == current;
    } else {
      assert (a + rest)[0] == a[0] && (a + rest)[1..] == a[1..] + rest;
      LinesPast(all, a[1..], rest, current + [a[0]]);
      assert current + [a[0]] + a[1..] == current + a;
    }
  }

  /** A character in the middle of a line that ends a line for the writer only. */
  lemma CutLine(a: string, c: char, b: string)
    requires Unbroken(true, a) && Unbroken(true, b) && b != "" && Break(true, c) && !Break(false, c)
    ensures Lines(true, a + [c] + b, "") == [a, b] && Lines(false, a + [c] + b, "") == [a + [c] + b]
  {
    hide Break, Lines;
    var s := a + [c] + b;
    assert s == a + ([c] + b);
    LinesPast(true, a, [c] + b, "");
    assert "" + a == a;
    LinesAtBreak(a, c, b);
    WholeLine(true, b);
    WholeLine(false, s) by {
      forall i | 0 <= i < |s| ensures !Break(false, s[i]) {
        if i < |a| { WriterBreaks(a[i]); } else if i > |a| { WriterBreaks(b[i - |a| - 1]); }
      }
    }
  }

  lemma WriterBreaks(c: char)
    requires !Break(true, c)
    ensures !Break(false, c)
  {
  }

  lemma LinesAtBreak(current: string, c: char, b: string)
    requires Break(true, c) && !Break(false, c)
    ensures Lines(true, [c] + b, current) == [current] + Lines(true, b, "")
  {
    assert ([c] + b)[1..] == b;
  }

  /** A text without line ends is one line. */
  lemma WholeLine(all: bool, s: string)
    requires Unbroken(all, s) && s != ""
    ensures Lines(all, s, "") == [s]
  {
    LinesPast(all, s, "", "");
    assert s + "" == s && "" + s == s;
  }

  lemma NothingSet(space: char -> bool, line: string)
    requires '=' !in line
    ensures ReadSetting(space, line).None?
  {
    var left := W.StripLeft(space, line);
    if '=' in left { EqualsSurvives(space, line); }
    var tail := RightTail(space, left);
    var stripped := W.Strip(space, line);
    assert forall i :: 0 <= i < |stripped| ==> stripped[i] == left[i];
    if EXPORT <= stripped && '=' in WithoutExport(space, stripped) { EqualsSurvives(space, stripped[|EXPORT|..]); }
  }

  lemma PlainSettingRead(space: char -> bool, wanted: string -> bool, k: string, v: string)
    requires Spaces(space) && Identifier(k) && wanted(k) && PlainPath(space, v)
    ensures ReadLines(space, wanted, [k + "=" + v]) == Some(map[k := v])
  {
    hide Spaces, Identifier;
    var line := k + "=" + v;
    AssignmentRead(space, k, v);
    UnquotedExact(v);
    assert [line][..0] == [];
    assert ReadLines(space, wanted, [line][..0]) == Some(map[]);
  }

  /** Otherwise a rewrite for other settings cuts a value at the first such character, and the rest of it is lost. */
  lemma ForeignSettingCut(space: char -> bool, known: seq<string>, assignments: seq<string>, k: string, v: string, c: char, w: string)
    requires Spaces(space) && GoodKeys(known) && assignments != []
    requires AllUnbroken(false, assignments) && Assigns(known, assignments) && Identifier(k) && k !in known
    requires Break(true, c) && !Break(false, c) && Unbroken(true, v) && Unbroken(true, w) && w != "" && '=' !in w
    requires PlainPath(space, v) && PlainPath(space, w)
    ensures var wanted, source := x => x == k, k + "=" + v + [c] + w;
      && ReadLines(space, wanted, Lines(false, source, "")) == Some(map[k := v + [c] + w])
      && ReadLines(space, wanted, Lines(false, Rewrite(space, known, assignments, source), "")) == Some(map[k := v])
  {
    hide Rewrite, Spaces, Lines, Literal, ReadSetting, Assigns, Foreign;
    var wanted, source := (x: string) => x == k, k + "=" + v + [c] + w;
    var first := k + "=" + v;
    KeyUnbroken(k);
    assert Unbroken(true, first);
    CutLine(first, c, w);
    var whole := v + [c] + w;
    assert source == k + "=" + whole;
    assert PlainPath(space, whole) by {
      assert whole[|whole| - 1] == w[|w| - 1];
      forall i | 0 <= i < |whole| ensures Plain(whole[i]) && !Forbidden(whole[i]) {
        if i < |v| { assert whole[i] == v[i]; } else if i > |v| { assert whole[i] == w[i - |v| - 1]; }
      }
    }
    PlainSettingRead(space, wanted, k, whole);
    ForeignSettingsRead(space, known, wanted, assignments, source);
    PlainSettingRead(space, wanted, k, v);
    NothingSet(space, w);
    ReadLinesNext(space, wanted, [first], w);
    assert [first] + [w] == [first, w];
  }

  lemma KeyUnbroken(k: string)
    requires Identifier(k)
    ensures Unbroken(true, k + "=")
  {
    forall i | 0 <= i < |k + "="| ensures !Break(true, (k + "=")[i]) {
      if i < |k| { assert IdentifierChar(k[i]); }
    }
  }

  // ---------------------------------------------------------------- rewriting twice

  lemma {:induction false} ForeignAppend(space: char -> bool, known: seq<string>, a: seq<string>, b: seq<string>)
    ensures Foreign(space, known, a + b) == Foreign(space, known, a) + Foreign(space, known, b)
    decreases |b|
  {
    if b == [] {
      assert a + b == a;
    } else {
      assert (a + b)[..|a + b| - 1] == a + b[..|b| - 1];
      ForeignAppend(space, known, a, b[..|b| - 1]);
    }
  }

  lemma {:induction false} ForeignOfSilent(space: char -> bool, known: seq<string>, lines: seq<string>)
    requires Silent(space, known, lines)
    ensures Foreign(space, known, lines) == lines
    decreases |lines|
  {
    if lines != [] {
      ForeignOfSilent(space, known, lines[..|lines| - 1]);
      assert lines == lines[..|lines| - 1] + [lines[|lines| - 1]];
    }
  }

  ghost predicate AllEmpty(lines: seq<string>) {
    forall i :: 0 <= i < |lines| ==> lines[i] == ""
  }

  lemma {:induction false} TrimEndOf(a: seq<string>, b: seq<string>)
    ensures AllEmpty(b) ==> TrimEnd(a + b) == TrimEnd(a)
    ensures !AllEmpty(b) ==> |TrimEnd(a + b)| > |a|
    decreases |b|
  {
    if b == [] {
      assert a + b == a;
    } else if b[|b| - 1] == "" {
      assert (a + b)[..|a + b| - 1] == a + b[..|b| - 1];
      TrimEndOf(a, b[..|b| - 1]);
    }
  }

  lemma {:induction false} TrimEndTwice(lines: seq<string>)
    ensures TrimEnd(TrimEnd(lines)) == TrimEnd(lines)
    decreases |lines|
  {
    if lines != [] && lines[|lines| - 1] == "" { TrimEndTwice(lines[..|lines| - 1]); }
  }

  /** The foreign lines of a rewritten file: the kept ones and what line ends inside the settings leave over. */
  lemma ForeignOfRewritten(space: char -> bool, known: seq<string>, assignments: seq<string>, source: string)
    requires Spaces(space) && GoodKeys(known) && assignments != [] && AllUnbroken(false, assignments)
    ensures Foreign(space, known, Lines(true, Rewrite(space, known, assignments, source), "")) ==
      Kept(space, known, source) + Foreign(space, known, AllPieces(true, assignments))
  {
    var kept := Kept(space, known, source);
    KeptGood(space, known, source);
    forall i | 0 <= i < |kept| ensures Unbroken(false, kept[i]) { assert Unbroken(true, kept[i]); }
    LinesOfUnlines(true, kept + assignments);
    AllPiecesAppend(true, kept, assignments);
    AllPiecesUnbroken(true, kept);
    ForeignAppend(space, known, kept, AllPieces(true, assignments));
    ForeignOfSilent(space, known, kept);
  }

  lemma KeptUnbroken(space: char -> bool, known: seq<string>, source: string)
    requires Spaces(space) && GoodKeys(known)
    ensures AllUnbroken(false, Kept(space, known, source))
  {
    var kept := Kept(space, known, source);
    KeptGood(space, known, source);
    forall i | 0 <= i < |kept| ensures Unbroken(false, kept[i]) { assert Unbroken(true, kept[i]); }
  }

  lemma KeptDecides(space: char -> bool, known: seq<string>, assignments: seq<string>, a: string, b: string)
    requires Spaces(space) && GoodKeys(known) && assignments != [] && AllUnbroken(false, assignments)
    requires Rewrite(space, known, assignments, a) == Rewrite(space, known, assignments, b)
    ensures Kept(space, known, a) == Kept(space, known, b)
  {
    var x, y := Kept(space, known, a), Kept(space, known, b);
    KeptUnbroken(space, known, a);
    KeptUnbroken(space, known, b);
    ReadBack(x + assignments);
    ReadBack(y + assignments);
    assert |x| == |y|;
    assert x == (x + assignments)[..|x|] && y == (y + assignments)[..|y|];
  }

  /**
   * Rewriting a rewritten file changes nothing exactly when line ends inside the settings leave no
   * text over that would pass for a foreign line.
   */
  lemma RewriteIdempotent(space: char -> bool, known: seq<string>, assignments: seq<string>, source: string)
    requires Spaces(space) && GoodKeys(known) && assignments != [] && AllUnbroken(false, assignments)
    ensures var once := Rewrite(space, known, assignments, source);
      Rewrite(space, known, assignments, once) == once <==> AllEmpty(Foreign(space, known, AllPieces(true, assignments)))
  {
    var once := Rewrite(space, known, assignments, source);
    var kept, left := Kept(space, known, source), Foreign(space, known, AllPieces(true, assignments));
    var core := TrimEnd(Foreign(space, known, Lines(true, source, "")));
    TrimEndTwice(Foreign(space, known, Lines(true, source, "")));
    ForeignOfRewritten(space, known, assignments, source);
    TrimEndOf(kept, left);
    TrimEndOf(core, [""]);
    if AllEmpty(left) {
      assert TrimEnd(kept) == core;
    } else if Rewrite(space, known, assignments, once) == once {
      KeptDecides(space, known, assignments, once, source);
      assert false;
    }
  }

  /** Every line is KEY=rest for one of the known keys. */
  ghost predicate Assigns(known: seq<string>, lines: seq<string>) {
    forall i :: 0 <= i < |lines| ==> AssignsOne(known, lines[i])
  }

  ghost predicate AssignsOne(known: seq<string>, line: string) {
    exists k, rest :: k in known && line == k + "=" + rest
  }

  lemma {:induction false} AssignmentsDropped(space: char -> bool, known: seq<string>, lines: seq<string>)
    requires Spaces(space) && GoodKeys(known) && Assigns(known, lines)
    ensures Foreign(space, known, lines) == []
    decreases |lines|
  {
    if lines != [] {
      var n := |lines| - 1;
      AssignmentsDropped(space, known, lines[..n]);
      assert AssignsOne(known, lines[n]);
      var k, rest :| k in known && lines[n] == k + "=" + rest;
      AssignmentKey(space, k, rest);
    }
  }

  lemma {:induction false} ForeignMember(space: char -> bool, known: seq<string>, lines: seq<string>, x: string)
    requires x in lines && LineKey(space, x) !in known
    ensures x in Foreign(space, known, lines)
    decreases |lines|
  {
    var init, last := lines[..|lines| - 1], lines[|lines| - 1];
    assert lines == init + [last];
    if x in init { ForeignMember(space, known, init, x); }
  }

  lemma {:induction false} PieceMember(all: bool, lines: seq<string>, n: nat, x: string)
    requires n < |lines| && x in Pieces(all, lines[n], "")
    ensures x in AllPieces(all, lines)
    decreases n
  {
    if n > 0 { PieceMember(all, lines[1..], n - 1, x); }
  }

  lemma CutPieces(a: string, c: char, b: string)
    requires Unbroken(true, a) && Unbroken(true, b) && Break(true, c) && !Break(false, c)
    ensures Pieces(true, a + [c] + b, "") == [a, b]
  {
    hide Lines;
    var rest := b + "\n";
    assert a + [c] + b + "\n" == a + ([c] + rest) && "" + a == a && "" + b == b && ([c] + rest)[1..] == rest;
    LinesPast(true, a, [c] + rest, "");
    LinesStep(true, [c] + rest, a);
    PiecesUnbroken(true, b, "");
    assert [a] + [b] == [a, b];
  }

  lemma LinesStep(all: bool, s: string, current: string)
    requires s != "" && s[0] != '\r' && Break(all, s[0])
    ensures Lines(all, s, current) == [current] + Lines(all, s[1..], "")
  {
  }

  /** A line end that only the rewriter sees leaves the rest of its line over, and every rewrite adds it once more. */
  lemma FragmentLeft(space: char -> bool, known: seq<string>, assignments: seq<string>, n: nat, a: string, c: char, b: string, source: string)
    requires Spaces(space) && GoodKeys(known) && AllUnbroken(false, assignments)
    requires n < |assignments| && assignments[n] == a + [c] + b && Break(true, c) && !Break(false, c)
    requires Unbroken(true, a) && Unbroken(true, b) && b != "" && '=' !in b
    ensures var once := Rewrite(space, known, assignments, source); Rewrite(space, known, assignments, once) != once
  {
    hide Rewrite, Spaces, LineKey, Foreign, AllPieces, Pieces, Break;
    CutPieces(a, c, b);
    assert b == [a, b][1];
    PieceMember(true, assignments, n, b);
    NoKey(space, known, b);
    var left := Foreign(space, known, AllPieces(true, assignments));
    ForeignMember(space, known, AllPieces(true, assignments), b);
    RewriteIdempotent(space, known, assignments, source);
    var i :| 0 <= i < |left| && left[i] == b;
    assert !AllEmpty(left);
  }

  lemma NoKey(space: char -> bool, known: seq<string>, line: string)
    requires GoodKeys(known) && '=' !in line
    ensures LineKey(space, line) !in known
  {
    var left := W.StripLeft(space, line);
    if '=' in left { EqualsSurvives(space, line); }
    if EXPORT <= left && '=' in WithoutExport(space, left) { EqualsSurvives(space, left[|EXPORT|..]); }
  }

  lemma {:induction false} GuardedPlain(v: string)
    requires '\'' !in v
    ensures Guarded(v) == v
    decreases |v|
  {
    if v != "" {
      GuardedPlain(v[1..]);
      assert [v[0]] + v[1..] == v;
    }
  }

  /**
   * So an allowed value with such a line end inside it breaks idempotence: quoting does not hide it
   * from the rewriter, and what follows it is kept as a foreign line.
   */
  lemma SettingLeavesFragment(space: char -> bool, known: seq<string>, settings: map<string, string>, n: nat,
                              x: string, c: char, y: string, source: string)
    requires Spaces(space) && GoodKeys(known) && forall k :: k in known ==> k in settings && Allowed(settings[k])
    requires n < |known| && settings[known[n]] == x + [c] + y && Break(true, c) && !Break(false, c)
    requires Unbroken(true, x) && Unbroken(true, y) && '\'' !in x && '\'' !in y && '=' !in y
    ensures var assignments := QuotedSettings(known, settings);
      var once := Rewrite(space, known, assignments, source);
      Rewrite(space, known, assignments, once) != once
  {
    hide Rewrite, Spaces, Quote, Identifier, Break;
    var k := known[n];
    var assignments := QuotedSettings(known, settings);
    QuotedUnbroken(known, settings);
    assert k in known;
    QuotedCut(k, x, c, y);
    FragmentLeft(space, known, assignments, n, k + "='" + x, c, y + "'", source);
  }

  /** Where the rewriter cuts a quoted setting. */
  lemma QuotedCut(k: string, x: string, c: char, y: string)
    requires Identifier(k) && Break(true, c) && !Break(false, c)
    requires Unbroken(true, x) && Unbroken(true, y) && '\'' !in x && '\'' !in y
    ensures k + "=" + Quote(x + [c] + y) == k + "='" + x + [c] + (y + "'")
    ensures Unbroken(true, k + "='" + x) && Unbroken(true, y + "'")
  {
    hide Guarded;
    var v, a := x + [c] + y, k + "='" + x;
    assert v[|x|] == c && !Safe(c);
    GuardedPlain(v);
    KeyUnbroken(k);
    forall i | 0 <= i < |a| ensures !Break(true, a[i]) {
      if i <= |k| { assert a[i] == (k + "=")[i]; } else if i > |k| + 1 { assert a[i] == x[i - |k| - 2]; }
    }
  }

  /** In particular when the settings hold no line end of any kind; the foreign lines are then kept as they were. */
  lemma RewriteStable(space: char -> bool, known: seq<string>, assignments: seq<string>, source: string)
    requires Spaces(space) && GoodKeys(known) && assignments != []
    requires AllUnbroken(true, assignments) && Assigns(known, assignments)
    ensures var once := Rewrite(space, known, assignments, source);
      && Rewrite(space, known, assignments, once) == once
      && TrimEnd(Foreign(space, known, Lines(true, once, ""))) == TrimEnd(Foreign(space, known, Lines(true, source, "")))
  {
    var foreign := Foreign(space, known, Lines(true, source, ""));
    forall i | 0 <= i < |assignments| ensures Unbroken(false, assignments[i]) { assert Unbroken(true, assignments[i]); }
    AllPiecesUnbroken(true, assignments);
    AssignmentsDropped(space, known, assignments);
    RewriteIdempotent(space, known, assignments, source);
    ForeignOfRewritten(space, known, assignments, source);
    assert Kept(space, known, source) + [] == Kept(space, known, source);
    TrimEndTwice(foreign);
    TrimEndOf(TrimEnd(foreign), [""]);
  }
}
