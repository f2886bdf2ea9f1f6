/** Canonical search text and department numbers. */
module Normalization {
  import opened Prelude
  import W = Words

  /** The Unicode tables behind str.lower(), \d, \w and str.strip(). */
  datatype Unicode = Unicode(lower: char -> string, isDigit: char -> bool, isWord: char -> bool, isSpace: char -> bool)

  /** [0-9a-zа-я] */
  predicate Letter(c: char) {
    '0' <= c <= '9' || 'a' <= c <= 'z' || 'а' <= c <= 'я'
  }

  predicate Hyphen(c: char) {
    c == '-' || c == '\U{2010}' || c == '\U{2011}' || c == '\U{2013}' || c == '\U{2014}'
  }

  const NUMBER_WORD := "номер"

  const ORDINALS: map<string, nat> := map[
    "первый" := 1, "первого" := 1, "второй" := 2, "второго" := 2, "третий" := 3, "третьего" := 3,
    "четвертый" := 4, "четвертого" := 4, "пятый" := 5, "пятого" := 5, "шестой" := 6, "шестого" := 6,
    "седьмой" := 7, "седьмого" := 7, "восьмой" := 8, "восьмого" := 8, "девятый" := 9, "девятого" := 9,
    "десятый" := 10, "десятого" := 10, "одиннадцатый" := 11, "двенадцатый" := 12, "тринадцатый" := 13,
    "четырнадцатый" := 14, "пятнадцатый" := 15, "шестнадцатый" := 16, "семнадцатый" := 17,
    "восемнадцатый" := 18, "девятнадцатый" := 19, "двадцатый" := 20]

  // ---------------------------------------------------------------- normalize_query

  function FoldChar(c: char): string {
    if c == 'ё' then "е" else if c == '№' then " " + NUMBER_WORD + " " else [c]
  }

  function FoldChars(s: string): string {
    if s == "" then "" else FoldChar(s[0]) + FoldChars(s[1..])
  }

  /** Lower case, without ё and №. */
  function Fold(u: Unicode, s: string): string {
    if s == "" then "" else FoldChars(u.lower(s[0])) + Fold(u, s[1..])
  }

  /** A word boundary after a word character. */
  predicate EndsHere(u: Unicode, rest: string) {
    rest == "" || !u.isWord(rest[0])
  }

  /** How many characters an ordinal ending (й, ый or ой at a word boundary) takes at the start of s; 0 if there is none. */
  function Ending(u: Unicode, s: string): nat {
    if s != "" && s[0] == 'й' && EndsHere(u, s[1..]) then 1
    else if |s| > 1 && (s[0] == 'ы' || s[0] == 'о') && s[1] == 'й' && EndsHere(u, s[2..]) then 2
    else 0
  }

  /** The same with one optional hyphen before it. */
  function Suffix(u: Unicode, s: string): nat {
    if s != "" && Hyphen(s[0]) then (if Ending(u, s[1..]) > 0 then 1 + Ending(u, s[1..]) else 0)
    else Ending(u, s)
  }

  /** Every ordinal ending directly after a digit becomes a blank; `digit` tells whether the previous character is a digit. */
  function DropEndings(u: Unicode, digit: bool, s: string): string
    decreases |s|
  {
    if s == "" then ""
    else if digit && 0 < Suffix(u, s) <= |s| then " " + DropEndings(u, u.isDigit('й'), s[Suffix(u, s)..])
    else [s[0]] + DropEndings(u, u.isDigit(s[0]), s[1..])
  }

  function SkipGap(s: string): string {
    if s != "" && !Letter(s[0]) then SkipGap(s[1..]) else s
  }

  lemma {:induction false} GapShrinks(s: string)
    ensures |SkipGap(s)| <= |s|
    decreases |s|
  {
    if s != "" && !Letter(s[0]) { GapShrinks(s[1..]); }
  }

  /** Every run of other characters becomes one blank. */
  function Squeeze(s: string): string
    decreases |s|
  {
    if s == "" then ""
    else if Letter(s[0]) then [s[0]] + Squeeze(s[1..])
    else
      GapShrinks(s[1..]);
      " " + Squeeze(SkipGap(s[1..]))
  }

  function Tokens(u: Unicode, s: string): seq<string> {
    W.Split(Squeeze(DropEndings(u, false, Fold(u, s))))
  }

  function Normalize(u: Unicode, s: string): string {
    if s == "" then "" else W.Join(Tokens(u, s))
  }

  // ---------------------------------------------------------------- parse_department_number

  predicate AllDigits(u: Unicode, s: string) {
    forall i :: 0 <= i < |s| ==> u.isDigit(s[i])
  }

  /** k digits and a word boundary. */
  predicate DigitsEnd(u: Unicode, s: string, k: nat) {
    k <= |s| && AllDigits(u, s[..k]) && EndsHere(u, s[k..])
  }

  /** `(\d{1,4})\b`, longest first. */
  function DigitGroup(u: Unicode, s: string): Option<string> {
    if DigitsEnd(u, s, 4) then Some(s[..4])
    else if DigitsEnd(u, s, 3) then Some(s[..3])
    else if DigitsEnd(u, s, 2) then Some(s[..2])
    else if DigitsEnd(u, s, 1) then Some(s[..1])
    else None
  }

  function SkipSpaces(u: Unicode, s: string): string {
    if s != "" && u.isSpace(s[0]) then SkipSpaces(u, s[1..]) else s
  }

  /** The regular expression tried at one place; `word` tells whether the previous character is a word character. */
  function MatchHere(u: Unicode, word: bool, s: string): Option<string> {
    if word == (s != "" && u.isWord(s[0])) then None
    else
      var n := |NUMBER_WORD|;
      if NUMBER_WORD <= s && |s| > n && u.isSpace(s[n]) && DigitGroup(u, SkipSpaces(u, s[n..])).Some?
      then DigitGroup(u, SkipSpaces(u, s[n..]))
      else DigitGroup(u, s)
  }

  /** re.search: the leftmost place that matches. */
  function SearchDigits(u: Unicode, word: bool, s: string): Option<string>
    decreases |s|
  {
    if MatchHere(u, word, s).Some? then MatchHere(u, word, s)
    else if s == "" then None
    else SearchDigits(u, u.isWord(s[0]), s[1..])
  }

  function Value(digits: string): nat {
    if digits == "" then 0
    else
      var c := digits[|digits| - 1];
      10 * Value(digits[..|digits| - 1]) + (if '0' <= c <= '9' then (c - '0') as nat else 0)
  }

  function FirstOrdinal(tokens: seq<string>): Option<nat> {
    if tokens == [] then None
    else if tokens[0] in ORDINALS then Some(ORDINALS[tokens[0]])
    else FirstOrdinal(tokens[1..])
  }

  function DepartmentNumber(u: Unicode, s: string): Option<nat> {
    var normalized := Normalize(u, s);
    if normalized == "" then None
    else
      var ordinal := FirstOrdinal(W.Split(normalized));
      if ordinal.Some? then ordinal
      else
        match SearchDigits(u, false, normalized)
        case None => None
        case Some(digits) => Some(Value(digits))
  }
}
