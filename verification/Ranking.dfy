/** Candidates, their total order (-score, label, id), and the sorted, truncated result. */
module Ranking {
  import opened Prelude

  datatype Status = FOUND | AMBIGUOUS | NOT_FOUND | INVALID

  datatype Candidate = Candidate(id: string, caption: string, score: real, city: string)

  datatype ToolResult = ToolResult(status: Status, catalogVersion: string, candidates: seq<Candidate>)

  // ---------------------------------------------------------------- the order

  /** Python string comparison: by code point, a prefix first. */
  predicate TextAtMost(a: string, b: string) {
    a == "" || (b != "" && (a[0] < b[0] || (a[0] == b[0] && TextAtMost(a[1..], b[1..]))))
  }

  lemma {:induction false} TextTotal(a: string, b: string)
    ensures TextAtMost(a, b) || TextAtMost(b, a)
    ensures TextAtMost(a, b) && TextAtMost(b, a) ==> a == b
  {
    if a != "" && b != "" {
      TextTotal(a[1..], b[1..]);
      assert a == [a[0]] + a[1..] && b == [b[0]] + b[1..];
    }
  }

  lemma {:induction false} TextTransitive(a: string, b: string, c: string)
    requires TextAtMost(a, b) && TextAtMost(b, c)
    ensures TextAtMost(a, c)
  {
    if a != "" && a[0] == b[0] && b[0] == c[0] {
      TextTransitive(a[1..], b[1..], c[1..]);
    }
  }

  predicate Before(a: Candidate, b: Candidate) {
    a.score > b.score || (a.score == b.score &&
      if a.caption == b.caption then TextAtMost(a.id, b.id) else TextAtMost(a.caption, b.caption))
  }

  lemma BeforeTotal(a: Candidate, b: Candidate)
    ensures Before(a, b) || Before(b, a)
    ensures Before(a, b) && Before(b, a) ==> a.id == b.id
  {
    TextTotal(a.caption, b.caption);
    TextTotal(a.id, b.id);
  }

  lemma BeforeTransitive(a: Candidate, b: Candidate, c: Candidate)
    requires Before(a, b) && Before(b, c)
    ensures Before(a, c)
  {
    if a.score == b.score == c.score {
      if a.caption == b.caption == c.caption {
        TextTransitive(a.id, b.id, c.id);
      } else {
        TextTotal(a.caption, a.caption);
        TextTotal(b.caption, b.caption);
        TextTransitive(a.caption, b.caption, c.caption);
        TextTotal(a.caption, b.caption);
      }
    }
  }

  // ---------------------------------------------------------------- sorting

  ghost predicate Sorted(s: seq<Candidate>) {
    forall i, j :: 0 <= i < j < |s| ==> Before(s[i], s[j])
  }

  ghost predicate UniqueIds(s: seq<Candidate>) {
    forall i, j :: 0 <= i < j < |s| ==> s[i].id != s[j].id
  }

  function Insert(c: Candidate, s: seq<Candidate>): seq<Candidate> {
    if s == [] || (Before(c, s[0]) && !Before(s[0], c)) then [c] + s
    else [s[0]] + Insert(c, s[1..])
  }

  /** `sorted(...)`: stable, so equal keys keep their order of arrival. */
  function Sort(s: seq<Candidate>): seq<Candidate> {
    if s == [] then [] else Insert(s[|s| - 1], Sort(s[..|s| - 1]))
  }

  lemma {:induction false} InsertKeeps(c: Candidate, s: seq<Candidate>)
    requires Sorted(s)
    ensures Sorted(Insert(c, s))
    ensures multiset(Insert(c, s)) == multiset{c} + multiset(s)
    decreases |s|
  {
    if s == [] {
    } else {
      assert s == [s[0]] + s[1..];
      var r := Insert(c, s);
      if Before(c, s[0]) && !Before(s[0], c) {
        forall j | 0 <= j < |s| ensures Before(c, s[j]) {
          if j > 0 { BeforeTransitive(c, s[0], s[j]); }
        }
      } else {
        BeforeTotal(c, s[0]);
        var t := Insert(c, s[1..]);
        InsertKeeps(c, s[1..]);
        forall j | 0 <= j < |t| ensures Before(s[0], t[j]) {
          assert t[j] in multiset(t);
          if t[j] != c { assert t[j] in s[1..]; }
        }
        assert r == [s[0]] + t;
      }
    }
  }

  lemma {:induction false} SortKeeps(s: seq<Candidate>)
    ensures Sorted(Sort(s))
    ensures multiset(Sort(s)) == multiset(s)
    decreases |s|
  {
    hide Insert, Before;
    if s != [] {
      var init, last := s[..|s| - 1], s[|s| - 1];
      SortKeeps(init);
      InsertKeeps(last, Sort(init));
      assert s == init + [last];
      assert multiset(s) == multiset(init) + multiset{last};
    }
  }

  lemma SameMembers(s: seq<Candidate>, t: seq<Candidate>)
    requires multiset(s) == multiset(t)
    ensures |s| == |t|
    ensures forall x :: x in s <==> x in t
  {
    assert |multiset(s)| == |s| && |multiset(t)| == |t|;
    forall x ensures x in s <==> x in t {
      assert x in s <==> x in multiset(s);
      assert x in t <==> x in multiset(t);
    }
  }

  lemma LeastIsFirst(s: seq<Candidate>, t: seq<Candidate>)
    requires Sorted(s) && Sorted(t) && s != [] && t != []
    requires s[0] in t && t[0] in s && UniqueIds(s)
    ensures s[0] == t[0]
  {
    var j :| 0 <= j < |s| && s[j] == t[0];
    if j > 0 {
      assert Before(s[0], t[0]) && Before(t[0], s[0]);
      BeforeTotal(s[0], t[0]);
    }
  }

  /** With unique ids the sorted sequence is determined by its members alone. */
  lemma {:induction false} SortedIsUnique(s: seq<Candidate>, t: seq<Candidate>)
    requires Sorted(s) && Sorted(t) && multiset(s) == multiset(t)
    requires UniqueIds(s)
    ensures s == t
    decreases |s|
  {
    hide Sorted, UniqueIds;
    SameMembers(s, t);
    if s != [] {
      LeastIsFirst(s, t);
      SortedTail(s);
      SortedTail(t);
      TailMembers(s);
      TailMembers(t);
      SortedIsUnique(s[1..], t[1..]);
      assert s == [s[0]] + s[1..] && t == [t[0]] + t[1..];
    }
  }

  lemma SortedTail(s: seq<Candidate>)
    requires s != [] && Sorted(s)
    ensures Sorted(s[1..]) && (UniqueIds(s) ==> UniqueIds(s[1..]))
  {
    hide Before;
  }

  lemma TailMembers(s: seq<Candidate>)
    requires s != []
    ensures multiset(s[1..]) == multiset(s) - multiset{s[0]}
  {
    assert s == [s[0]] + s[1..];
  }

  lemma SortUniqueIds(s: seq<Candidate>)
    requires UniqueIds(s)
    ensures UniqueIds(Sort(s))
  {
    SortKeeps(s);
    var t := Sort(s);
    forall i, j | 0 <= i < j < |t| ensures t[i].id != t[j].id {
      if t[i].id == t[j].id {
        assert t[i] in multiset(s) && t[j] in multiset(s);
        SameMembers(s, t);
        assert t[i] in s && t[j] in s;
        assert t[i] == t[j];
        TwiceInMultiset(t, i, j);
        OnceInMultiset(s, t[i]);
      }
    }
  }

  lemma TwiceInMultiset(t: seq<Candidate>, i: nat, j: nat)
    requires i < j < |t| && t[i] == t[j]
    ensures multiset(t)[t[i]] >= 2
  {
    assert t == t[..j] + t[j..];
    assert t[..j][i] == t[i] && t[j..][0] == t[j];
    assert multiset(t) == multiset(t[..j]) + multiset(t[j..]);
    assert t[i] in multiset(t[..j]) && t[i] in multiset(t[j..]);
  }

  lemma {:induction false} OnceInMultiset(s: seq<Candidate>, c: Candidate)
    requires UniqueIds(s)
    ensures multiset(s)[c] <= 1
    decreases |s|
  {
    if s != [] {
      assert s == [s[0]] + s[1..];
      OnceInMultiset(s[1..], c);
      assert s[0] !in s[1..];
    }
  }

  // ---------------------------------------------------------------- `_limit` and `_result`

  function Limit(value: int): (n: nat)
    ensures 1 <= n <= 10 && (1 <= value <= 10 ==> n == value)
  {
    if value < 1 then 1 else if value > 10 then 10 else value
  }

  function Take(s: seq<Candidate>, limit: nat): seq<Candidate> {
    if |s| <= limit then s else s[..limit]
  }

  function TopK(version: string, candidates: seq<Candidate>, limit: nat, listMode: bool): ToolResult {
    var ranked := Take(Sort(candidates), limit);
    ToolResult(
      if ranked == [] then NOT_FOUND else if |ranked| == 1 || listMode then FOUND else AMBIGUOUS,
      version,
      ranked)
  }

  /** Everything `_result` promises: the best `limit` candidates in order, and an honest status. */
  lemma TopKIsBest(version: string, candidates: seq<Candidate>, limit: nat, listMode: bool)
    requires limit >= 1
    ensures var r := TopK(version, candidates, limit, listMode);
      && Sorted(r.candidates)
      && |r.candidates| == (if |candidates| <= limit then |candidates| else limit)
      && (forall x :: x in r.candidates ==> x in candidates)
      && (forall x, y :: x in candidates && x !in r.candidates && y in r.candidates ==> Before(y, x))
      && (r.status == NOT_FOUND <==> candidates == [])
      && (UniqueIds(candidates) ==> UniqueIds(r.candidates))
      && (|candidates| <= limit ==> forall x :: x in candidates ==> x in r.candidates)
  {
    SortKeeps(candidates);
    var t := Sort(candidates);
    SameMembers(candidates, t);
    if UniqueIds(candidates) { SortUniqueIds(candidates); }
    var r := TopK(version, candidates, limit, listMode).candidates;
    forall x, y | x in candidates && x !in r && y in r ensures Before(y, x) {
      assert x in t;
      var i :| 0 <= i < |t| && t[i] == x;
      var j :| 0 <= j < |r| && r[j] == y;
      assert t[j] == y;
      assert i >= |r|;
    }
  }

  /** The ids of the candidates ranked before x. */
  function IdsAhead(candidates: seq<Candidate>, x: Candidate): set<string> {
    set y | y in candidates && y.id != x.id && Before(y, x) :: y.id
  }

  lemma {:induction false} PrefixIds(t: seq<Candidate>, p: nat)
    requires UniqueIds(t) && p <= |t|
    ensures |set i | 0 <= i < p :: t[i].id| == p
    decreases p
  {
    if p > 0 {
      PrefixIds(t, p - 1);
      var before := set i | 0 <= i < p - 1 :: t[i].id;
      assert t[p - 1].id !in before;
      assert (set i | 0 <= i < p :: t[i].id) == before + {t[p - 1].id};
    }
  }

  /** In a sorted list the candidates before a place are the ones ranked before. */
  lemma AheadIsPrefix(t: seq<Candidate>, p: nat)
    requires Sorted(t) && UniqueIds(t) && p < |t|
    ensures IdsAhead(t, t[p]) == set i | 0 <= i < p :: t[i].id
  {
    var ahead, prefix := IdsAhead(t, t[p]), set i | 0 <= i < p :: t[i].id;
    forall id | id in ahead ensures id in prefix {
      var y :| y in t && y.id != t[p].id && Before(y, t[p]) && y.id == id;
      var i :| 0 <= i < |t| && t[i] == y;
      if i > p { BeforeTotal(t[i], t[p]); }
    }
    forall i | 0 <= i < p ensures t[i].id in ahead { assert t[i] in t && Before(t[i], t[p]); }
  }

  /** A candidate is shown exactly when fewer candidates than the limit are ranked before it. */
  lemma ShownByRank(version: string, candidates: seq<Candidate>, x: Candidate, limit: nat, listMode: bool)
    requires UniqueIds(candidates) && x in candidates
    ensures x in TopK(version, candidates, limit, listMode).candidates <==> |IdsAhead(candidates, x)| < limit
  {
    hide Before, UniqueIds, Sort;
    var t := Sort(candidates);
    SortKeeps(candidates);
    SortUniqueIds(candidates);
    SameMembers(candidates, t);
    var p :| 0 <= p < |t| && t[p] == x;
    AheadIsPrefix(t, p);
    PrefixIds(t, p);
    assert IdsAhead(candidates, x) == IdsAhead(t, x);
    PlaceInPrefix(t, p, limit);
  }

  lemma PlaceInPrefix(t: seq<Candidate>, p: nat, limit: nat)
    requires UniqueIds(t) && p < |t|
    ensures t[p] in Take(t, limit) <==> p < limit
  {
    if t[p] in Take(t, limit) {
      var i :| 0 <= i < |Take(t, limit)| && Take(t, limit)[i] == t[p];
    }
    if p < limit { assert Take(t, limit)[p] == t[p]; }
  }

  /** The result does not depend on the order in which the catalog lists its entries. */
  lemma TopKIgnoresOrder(version: string, a: seq<Candidate>, b: seq<Candidate>, limit: nat, listMode: bool)
    requires multiset(a) == multiset(b) && UniqueIds(a)
    ensures TopK(version, a, limit, listMode) == TopK(version, b, limit, listMode)
  {
    SortKeeps(a);
    SortKeeps(b);
    SortUniqueIds(a);
    SortedIsUnique(Sort(a), Sort(b));
  }
}
