/** Small vocabulary shared by every module. */
module Prelude {

  datatype Option<+T> = None | Some(value: T)

  ghost predicate Distinct<T>(s: seq<T>) {
    forall i, j :: 0 <= i < j < |s| ==> s[i] != s[j]
  }

  /** Joining two distinct sequences without a common element. */
  lemma DistinctConcat<T>(a: seq<T>, b: seq<T>)
    requires Distinct(a) && Distinct(b) && forall x :: x in a ==> x !in b
    ensures Distinct(a + b)
  {
    var c := a + b;
    forall i, j | 0 <= i < j < |c| ensures c[i] != c[j] {
      if i < |a| <= j { assert a[i] in a && b[j - |a|] in b; }
    }
  }

  /** `m.get(k, otherwise)` */
  function Lookup<K, V>(m: map<K, V>, k: K, otherwise: V): V {
    if k in m then m[k] else otherwise
  }

  /** A value of an optional text field: Python's `x or ""`. */
  function OrEmpty(o: Option<string>): string {
    match o
    case None => ""
    case Some(s) => s
  }
}

/** Python dictionaries: finite maps that remember the order in which keys first appeared. */
module OrderedDict {
  import opened Prelude

  type Dict<+V> = seq<(string, V)>

  ghost predicate WellFormed<V>(d: Dict<V>) {
    forall i, j :: 0 <= i < j < |d| ==> d[i].0 != d[j].0
  }

  function Keys<V>(d: Dict<V>): set<string> {
    set i | 0 <= i < |d| :: d[i].0
  }

  function Get<V>(d: Dict<V>, k: string): (r: Option<V>)
    ensures r.Some? <==> k in Keys(d)
    ensures r.Some? ==> (k, r.value) in d
  {
    if d == [] then None
    else if d[0].0 == k then
      assert d[0].0 in Keys(d); Some(d[0].1)
    else
      assert Keys(d) == {d[0].0} + Keys(d[1..]) by { KeysCons(d); }
      Get(d[1..], k)
  }

  lemma KeysCons<V>(d: Dict<V>)
    requires d != []
    ensures Keys(d) == {d[0].0} + Keys(d[1..])
  {
    forall k | k in Keys(d) ensures k in {d[0].0} + Keys(d[1..]) {
      var i :| 0 <= i < |d| && d[i].0 == k;
      if i > 0 { assert d[1..][i - 1] == d[i]; }
    }
  }

  /** In a well-formed dictionary the value found is the one stored under the key. */
  lemma {:induction false} GetAt<V>(d: Dict<V>, i: nat)
    requires WellFormed(d) && i < |d|
    ensures Get(d, d[i].0) == Some(d[i].1)
  {
    if i > 0 {
      assert d[0].0 != d[i].0;
      GetAt(d[1..], i - 1);
    }
  }

  /** `d[k] = v`: replace in place, or append a new key at the end. */
  function Put<V>(d: Dict<V>, k: string, v: V): Dict<V> {
    if d == [] then [(k, v)]
    else if d[0].0 == k then [(k, v)] + d[1..]
    else [d[0]] + Put(d[1..], k, v)
  }

  lemma {:induction false} PutKeys<V>(d: Dict<V>, k: string, v: V)
    ensures Keys(Put(d, k, v)) == Keys(d) + {k}
    decreases |d|
  {
    var r := Put(d, k, v);
    KeysCons(r);
    if d == [] {
      assert Keys(r[1..]) == {};
    } else {
      KeysCons(d);
      if d[0].0 == k {
        assert r[1..] == d[1..];
      } else {
        assert r[1..] == Put(d[1..], k, v);
        PutKeys(d[1..], k, v);
      }
    }
  }

  lemma {:induction false} PutWellFormed<V>(d: Dict<V>, k: string, v: V)
    requires WellFormed(d)
    ensures WellFormed(Put(d, k, v))
    decreases |d|
  {
    if d != [] && d[0].0 != k {
      var t := Put(d[1..], k, v);
      PutWellFormed(d[1..], k, v);
      PutKeys(d[1..], k, v);
      forall j | 0 <= j < |t| ensures t[j].0 != d[0].0 {
        assert t[j].0 in Keys(t);
        if t[j].0 != k {
          var i :| 0 <= i < |d[1..]| && d[1..][i].0 == t[j].0;
          assert d[i + 1].0 == t[j].0;
        }
      }
      assert Put(d, k, v) == [d[0]] + t;
    } else if d != [] {
      var r := Put(d, k, v);
      forall i, j | 0 <= i < j < |r| ensures r[i].0 != r[j].0 {
        assert r[j] == d[j];
        assert r[i].0 == d[i].0;
      }
    }
  }

  /** Reading a key just written gives the value written. */
  lemma {:induction false} PutGet<V>(d: Dict<V>, k: string, v: V)
    ensures Get(Put(d, k, v), k) == Some(v)
    decreases |d|
  {
    if d != [] && d[0].0 != k {
      PutGet(d[1..], k, v);
      assert Put(d, k, v)[1..] == Put(d[1..], k, v);
    }
  }

  /** A new key goes to the end and nothing else moves. */
  lemma {:induction false} PutNew<V>(d: Dict<V>, k: string, v: V)
    requires k !in Keys(d)
    ensures Put(d, k, v) == d + [(k, v)]
    decreases |d|
  {
    if d != [] {
      KeysCons(d);
      PutNew(d[1..], k, v);
      assert d == [d[0]] + d[1..];
    }
  }

  /** Writing a key brings in no other entry. */
  lemma {:induction false} PutEntries<V>(d: Dict<V>, k: string, v: V)
    ensures forall e :: e in Put(d, k, v) ==> e == (k, v) || e in d
    decreases |d|
  {
    if d != [] && d[0].0 != k {
      PutEntries(d[1..], k, v);
      assert d == [d[0]] + d[1..];
    }
  }

  /** `d.setdefault(k, v)` */
  function SetDefault<V>(d: Dict<V>, k: string, v: V): Dict<V> {
    if k in Keys(d) then d else d + [(k, v)]
  }

  /** `list(d.values())` */
  function Values<V>(d: Dict<V>): (r: seq<V>)
    ensures |r| == |d| && forall i :: 0 <= i < |d| ==> r[i] == d[i].1
  {
    seq(|d|, i requires 0 <= i < |d| => d[i].1)
  }

  /** Other keys are untouched. */
  lemma {:induction false} PutOther<V>(d: Dict<V>, k: string, v: V, q: string)
    requires q != k
    ensures Get(Put(d, k, v), q) == Get(d, q)
  {
    if d == [] {
    } else if d[0].0 == k {
      assert Put(d, k, v)[1..] == d[1..];
    } else {
      PutOther(d[1..], k, v, q);
      assert Put(d, k, v)[1..] == Put(d[1..], k, v);
    }
  }
}

/** Space-separated words and substring tests, as the search tools use them. */
module Words {

  /** Python's split() on text whose only white space is the blank; `word` is the word being read. */
  function SplitFrom(s: string, word: string): seq<string> {
    var done := if word == "" then [] else [word];
    if s == "" then done
    else if s[0] == ' ' then done + SplitFrom(s[1..], "")
    else SplitFrom(s[1..], word + [s[0]])
  }

  function Split(s: string): seq<string> {
    SplitFrom(s, "")
  }

  /** " ".join(words) */
  function Join(words: seq<string>): string {
    if words == [] then ""
    else if |words| == 1 then words[0]
    else words[0] + " " + Join(words[1..])
  }

  /** Python's str.lstrip(), str.rstrip() and str.strip(). */
  function StripLeft(space: char -> bool, s: string): string {
    if s != "" && space(s[0]) then StripLeft(space, s[1..]) else s
  }

  function StripRight(space: char -> bool, s: string): string {
    if s != "" && space(s[|s| - 1]) then StripRight(space, s[..|s| - 1]) else s
  }

  function Strip(space: char -> bool, s: string): string {
    StripRight(space, StripLeft(space, s))
  }

  lemma {:induction false} StripIdempotent(space: char -> bool, s: string)
    ensures Strip(space, Strip(space, s)) == Strip(space, s)
  {
    LeftTrimmed(space, s);
    RightKeepsLeft(space, StripLeft(space, s));
    RightTrimmed(space, StripLeft(space, s));
  }

  lemma {:induction false} LeftTrimmed(space: char -> bool, s: string)
    ensures var t := StripLeft(space, s); t == "" || !space(t[0])
    decreases |s|
  {
    if s != "" && space(s[0]) { LeftTrimmed(space, s[1..]); }
  }

  lemma {:induction false} RightTrimmed(space: char -> bool, s: string)
    ensures StripRight(space, StripRight(space, s)) == StripRight(space, s)
    decreases |s|
  {
    if s != "" && space(s[|s| - 1]) { RightTrimmed(space, s[..|s| - 1]); }
  }

  lemma {:induction false} RightKeepsLeft(space: char -> bool, s: string)
    requires s == "" || !space(s[0])
    ensures StripLeft(space, StripRight(space, s)) == StripRight(space, s)
    decreases |s|
  {
    if s != "" && space(s[|s| - 1]) { RightKeepsLeft(space, s[..|s| - 1]); }
  }

  predicate Contains(text: string, part: string) {
    part <= text || (text != "" && Contains(text[1..], part))
  }
}
