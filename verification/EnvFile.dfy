/** Environment files: reading settings line by line and rewriting the lines that hold them. */
module EnvFile {
  import opened Prelude
  import W = Words
  import opened ShellWords

  // ---------------------------------------------------------------- lines

  /** Line ends of a text stream, and with `all` those of str.splitlines(). */
  predicate Break(all: bool, c: char) {
    c == '\n' || c == '\r' || (all && (
      || '\U{000B}' <= c <= '\U{000C}' || '\U{001C}' <= c <= '\U{001E}'
      || c == '\U{0085}' || '\U{2028}' <= c <= '\U{2029}'))
  }

  /** `current` is the line being read; a carriage return and a line feed end one line together. */
  function Lines(all: bool, s: string, current: string): seq<string>
    decreases |s|
  {
    if s == "" then (if current == "" then [] else [current])
    else if s[0] == '\r' && |s| > 1 && s[1] == '\n' then [current] + Lines(all, s[2..], "")
    else if Break(all, s[0]) then [current] + Lines(all, s[1..], "")
    else Lines(all, s[1..], current + [s[0]])
  }

  function Unlines(lines: seq<string>): string {
    if lines == [] then "" else lines[0] + "\n" + Unlines(lines[1..])
  }

  /** `"\n".join(lines) + "\n"` */
  function Content(lines: seq<string>): string {
    if lines == [] then "\n" else Unlines(lines)
  }

  // ---------------------------------------------------------------- one line

  const EXPORT := "export "

  function WithoutExport(space: char -> bool, s: string): string {
    if EXPORT <= s then W.StripLeft(space, s[|EXPORT|..]) else s
  }

  /** Where the first equals sign stands; the length if there is none. */
  function EqualsAt(s: string): nat {
    if s == "" || s[0] == '=' then 0 else 1 + EqualsAt(s[1..])
  }

  lemma {:induction false} EqualsAtMeaning(s: string)
    ensures EqualsAt(s) <= |s| && (EqualsAt(s) < |s| ==> s[EqualsAt(s)] == '=')
    ensures forall i :: 0 <= i < EqualsAt(s) ==> s[i] != '='
    decreases |s|
  {
    if s != "" && s[0] != '=' { EqualsAtMeaning(s[1..]); }
  }

  function Before(s: string): string {
    EqualsAtMeaning(s);
    s[..EqualsAt(s)]
  }

  datatype Setting = Setting(key: string, raw: string)

  /** The assignment that a parser finds in a line. */
  function ReadSetting(space: char -> bool, line: string): Option<Setting> {
    var stripped := W.Strip(space, line);
    if stripped == "" || stripped[0] == '#' then None
    else
      var text := WithoutExport(space, stripped);
      if '=' !in text then None
      else
        EqualsAtMeaning(text);
        Some(Setting(W.Strip(space, Before(text)), text[EqualsAt(text)..][1..]))
  }

  /** The key by which a writer recognizes a line. */
  function LineKey(space: char -> bool, line: string): string {
    var candidate := WithoutExport(space, W.StripLeft(space, line));
    if '=' in candidate then W.Strip(space, Before(candidate)) else ""
  }

  predicate IdentifierChar(c: char) {
    '0' <= c <= '9' || 'a' <= c <= 'z' || 'A' <= c <= 'Z' || c == '_'
  }

  predicate Identifier(s: string) {
    s != "" && !('0' <= s[0] <= '9') && forall i :: 0 <= i < |s| ==> IdentifierChar(s[i])
  }

  // ---------------------------------------------------------------- reading

  /** One more line: None stands for a refused value. */
  function ReadLine(space: char -> bool, wanted: string -> bool, parsed: map<string, string>, line: string): Option<map<string, string>> {
    match ReadSetting(space, line)
    case None => Some(parsed)
    case Some(s) =>
      if !Identifier(s.key) || !wanted(s.key) then Some(parsed)
      else
        match Literal(s.raw)
        case None => None
        case Some(value) => Some(parsed[s.key := value])
  }

  function ReadLines(space: char -> bool, wanted: string -> bool, lines: seq<string>): Option<map<string, string>> {
    if lines == [] then Some(map[])
    else
      match ReadLines(space, wanted, lines[..|lines| - 1])
      case None => None
      case Some(parsed) => ReadLine(space, wanted, parsed, lines[|lines| - 1])
  }

  lemma {:induction false} ReadFails(space: char -> bool, wanted: string -> bool, lines: seq<string>, n: nat)
    requires n <= |lines| && ReadLines(space, wanted, lines[..n]).None?
    ensures ReadLines(space, wanted, lines).None?
    decreases |lines|
  {
    if n < |lines| {
      assert lines[..|lines| - 1][..n] == lines[..n];
      ReadFails(space, wanted, lines[..|lines| - 1], n);
    } else {
      assert lines[..n] == lines;
    }
  }

  method ParseEnv(space: char -> bool, wanted: string -> bool, text: string) returns (parsed: Option<map<string, string>>)
    ensures parsed == ReadLines(space, wanted, Lines(false, text, ""))
  {
    var lines := Lines(false, text, "");
    var found: map<string, string> := map[];
    for i := 0 to |lines|
      invariant ReadLines(space, wanted, lines[..i]) == Some(found)
    {
      assert lines[..i + 1][..i] == lines[..i];
      var setting := ReadSetting(space, lines[i]);
      if setting.None? || !Identifier(setting.value.key) || !wanted(setting.value.key) { continue; }
      var value := Literal(setting.value.raw);
      if value.None? {
        ReadFails(space, wanted, lines, i + 1);
        return None;
      }
      found := found[setting.value.key := value.value];
    }
    assert lines[..|lines|] == lines;
    return Some(found);
  }

  // ---------------------------------------------------------------- rewriting

  /** The settings of the installer, in the order in which they are written. */
  const INSTALLER_KEYS := [
    "RMV2_APP_PORT", "RMV2_INSTALL_DIR", "RMV2_SERVICE_NAME", "RMV2_DATABASE_DSN", "RMV2_STATE_SCHEMA",
    "RMV2_CATALOG_SCHEMA", "RMV2_V1_INSTALL_DIR", "RMV2_V1_SERVICE_NAME", "RMV2_V1_APP_PORT",
    "RMV2_V1_STATE_SCHEMA", "RMV2_V1_CATALOG_SCHEMA", "RMV2_V1_ENV_FILE"]

  const CERTIFICATE_KEYS := ["RMV2_GIGACHAT_CERT_FILE", "RMV2_GIGACHAT_KEY_FILE", "RMV2_GIGACHAT_CA_BUNDLE"]

  /** The lines that set none of the known keys. */
  function Foreign(space: char -> bool, known: seq<string>, lines: seq<string>): seq<string> {
    if lines == [] then []
    else
      var line := lines[|lines| - 1];
      Foreign(space, known, lines[..|lines| - 1]) + if LineKey(space, line) in known then [] else [line]
  }

  function TrimEnd(lines: seq<string>): seq<string> {
    if lines != [] && lines[|lines| - 1] == "" then TrimEnd(lines[..|lines| - 1]) else lines
  }

  /** What is kept of a file, with the blank line that separates it from the settings. */
  function Kept(space: char -> bool, known: seq<string>, source: string): seq<string> {
    var kept := TrimEnd(Foreign(space, known, Lines(true, source, "")));
    if kept == [] then [] else kept + [""]
  }

  function Rewrite(space: char -> bool, known: seq<string>, assignments: seq<string>, source: string): string {
    Content(Kept(space, known, source) + assignments)
  }

  /** The loop shared by `write_effective_env` and `_updated_env`. */
  method RewriteEnv(space: char -> bool, known: seq<string>, assignments: seq<string>, source: string) returns (content: string)
    ensures content == Rewrite(space, known, assignments, source)
  {
    var lines := Lines(true, source, "");
    var kept: seq<string> := [];
    for i := 0 to |lines|
      invariant kept == Foreign(space, known, lines[..i])
    {
      assert lines[..i + 1][..i] == lines[..i];
      if LineKey(space, lines[i]) !in known { kept := kept + [lines[i]]; }
    }
    assert lines[..|lines|] == lines;
    while kept != [] && kept[|kept| - 1] == ""
      invariant TrimEnd(kept) == TrimEnd(Foreign(space, known, lines))
    {
      kept := kept[..|kept| - 1];
    }
    if kept != [] { kept := kept + [""]; }
    content := Content(kept + assignments);
  }

  /** `KEY='value'` for each known key, in the order of the table. */
  function QuotedSettings(keys: seq<string>, settings: map<string, string>): seq<string> {
    seq(|keys|, i requires 0 <= i < |keys| => keys[i] + "=" + Quote(Lookup(settings, keys[i], "")))
  }

  /** `write_effective_env`: the effective settings replace those of the source file. */
  method WriteEffectiveEnv(space: char -> bool, known: seq<string>, settings: map<string, string>, source: string)
    returns (content: string)
    requires forall k :: k in known ==> k in settings
    ensures content == Rewrite(space, known, QuotedSettings(known, settings), source)
  {
    var assignments: seq<string> := [];
    for i := 0 to |known|
      invariant |assignments| == i && forall k :: 0 <= k < i ==> assignments[k] == known[k] + "=" + Quote(settings[known[k]])
    {
      assignments := assignments + [known[i] + "=" + Quote(settings[known[i]])];
    }
    assert assignments == QuotedSettings(known, settings);
    content := RewriteEnv(space, known, assignments, source);
  }

  /** Certificate paths are written without quotes; a missing one becomes empty. */
  function PathSettings(keys: seq<string>, paths: map<string, string>): seq<string> {
    seq(|keys|, i requires 0 <= i < |keys| => keys[i] + "=" + Lookup(paths, keys[i], ""))
  }

  method UpdatedEnv(space: char -> bool, paths: map<string, string>, existing: string) returns (content: string)
    ensures content == Rewrite(space, CERTIFICATE_KEYS, PathSettings(CERTIFICATE_KEYS, paths), existing)
  {
    var assignments: seq<string> := [];
    for i := 0 to |CERTIFICATE_KEYS|
      invariant |assignments| == i
      invariant forall k :: 0 <= k < i ==> assignments[k] == CERTIFICATE_KEYS[k] + "=" + Lookup(paths, CERTIFICATE_KEYS[k], "")
    {
      assignments := assignments + [CERTIFICATE_KEYS[i] + "=" + Lookup(paths, CERTIFICATE_KEYS[i], "")];
    }
    assert assignments == PathSettings(CERTIFICATE_KEYS, paths);
    content := RewriteEnv(space, CERTIFICATE_KEYS, assignments, existing);
  }

  const PREFIX := "RMV2_"
  const PRIVILEGED := ["RMV2_MIGRATION_DSN", "RMV2_CATALOG_IMPORT_DSN", "RMV2_CATALOG_WRITER_ROLE"]

  predicate RuntimeKey(k: string) {
    PREFIX <= k && k !in PRIVILEGED
  }

  function RuntimeKeys(keys: seq<string>): seq<string> {
    if keys == [] then []
    else
      var k := keys[|keys| - 1];
      RuntimeKeys(keys[..|keys| - 1]) + if RuntimeKey(k) then [k] else []
  }

  lemma {:induction false} RuntimeKeysMember(keys: seq<string>)
    ensures forall k :: k in RuntimeKeys(keys) <==> k in keys && RuntimeKey(k)
    decreases |keys|
  {
    if keys != [] {
      RuntimeKeysMember(keys[..|keys| - 1]);
      assert keys == keys[..|keys| - 1] + [keys[|keys| - 1]];
    }
  }

  /** `write_runtime_env`, for the keys in whatever order they are written. */
  method WriteRuntimeEnv(keys: seq<string>, values: map<string, string>) returns (content: string)
    requires forall k :: k in keys ==> k in values
    ensures content == Content(QuotedSettings(RuntimeKeys(keys), values))
  {
    var lines: seq<string> := [];
    for i := 0 to |keys|
      invariant lines == QuotedSettings(RuntimeKeys(keys[..i]), values)
    {
      assert keys[..i + 1][..i] == keys[..i];
      if PREFIX <= keys[i] && keys[i] !in PRIVILEGED { lines := lines + [keys[i] + "=" + Quote(values[keys[i]])]; }
    }
    assert keys[..|keys|] == keys;
    content := Content(lines);
  }
}
