/** The orderings the chatbot's handlers take from Python built-ins:
    `sorted(keys)` on strings, `sorted(pairs, key=score, reverse=True)`
    (a stable sort, so equal scores keep their table order) and
    `max(keys, key=score)` (the first maximal element wins). */
module Ranking {
  import opened Text

  /** A coin name paired with a score computed for it. */
  type Scored = (string, real)

  // ---------------------------------------------------------------------
  // sorted(...) on strings

  predicate NamesSorted(s: seq<string>) {
    forall i, j :: 0 <= i < j < |s| ==> LexLe(s[i], s[j])
  }

  function InsertName(x: string, s: seq<string>): (r: seq<string>)
    requires NamesSorted(s)
    ensures NamesSorted(r)
    ensures multiset(r) == multiset(s) + multiset{x}
    ensures |r| == |s| + 1
    ensures r[0] == x || (s != [] && r[0] == s[0])
  {
    if s == [] then [x]
    else if LexLe(x, s[0]) then
      NamesCons(x, s);
      [x] + s
    else
      var rest := InsertName(x, s[1..]);
      LexLeTotal(x, s[0]);
      assert s == [s[0]] + s[1..];
      NamesCons(s[0], rest);
      [s[0]] + rest
  }

  /** An ascending list stays so under a head no greater than its first name. */
  lemma NamesCons(h: string, t: seq<string>)
    requires NamesSorted(t) && (t != [] ==> LexLe(h, t[0]))
    ensures NamesSorted([h] + t)
  {
    var r := [h] + t;
    forall i, j | 0 <= i < j < |r|
      ensures LexLe(r[i], r[j])
    {
      assert r[j] == t[j - 1];
      if i > 0 {
        assert r[i] == t[i - 1];
      } else if j > 1 {
        LexLeTransitive(h, t[0], t[j - 1]);
      }
    }
  }

  /** `sorted(names)`: the same names, in ascending code-point order. */
  function SortNames(s: seq<string>): (r: seq<string>)
    ensures NamesSorted(r)
    ensures multiset(r) == multiset(s)
  {
    if s == [] then []
    else
      assert s == [s[0]] + s[1..];
      InsertName(s[0], SortNames(s[1..]))
  }

  // ---------------------------------------------------------------------
  // sorted(pairs, key=lambda x: x[1], reverse=True)

  predicate SortedDesc(s: seq<Scored>) {
    forall i, j :: 0 <= i < j < |s| ==> s[i].1 >= s[j].1
  }

  /** The entries of `s` whose score is exactly `w`, in their order in `s`. */
  function WithScore(s: seq<Scored>, w: real): (r: seq<Scored>)
    ensures forall x :: x in r <==> x in s && x.1 == w
  {
    if s == [] then []
    else if s[0].1 == w then [s[0]] + WithScore(s[1..], w)
    else WithScore(s[1..], w)
  }

  /** Puts `x` in front of the first entry whose score is not higher than its own. */
  function InsertDesc(x: Scored, s: seq<Scored>): (r: seq<Scored>)
    requires SortedDesc(s)
    ensures SortedDesc(r)
    ensures multiset(r) == multiset(s) + multiset{x}
    ensures |r| == |s| + 1
    ensures r[0] == x || (s != [] && r[0] == s[0])
  {
    if s == [] then [x]
    else if s[0].1 <= x.1 then
      SortedCons(x, s);
      [x] + s
    else
      var rest := InsertDesc(x, s[1..]);
      assert s == [s[0]] + s[1..];
      SortedCons(s[0], rest);
      [s[0]] + rest
  }

  /** A non-increasing list stays so under a head no lower than its first entry. */
  lemma SortedCons(h: Scored, t: seq<Scored>)
    requires SortedDesc(t) && (t != [] ==> t[0].1 <= h.1)
    ensures SortedDesc([h] + t)
  {
    var r := [h] + t;
    forall i, j | 0 <= i < j < |r|
      ensures r[i].1 >= r[j].1
    {
      assert r[j] == t[j - 1];
      if i > 0 {
        assert r[i] == t[i - 1];
      }
    }
  }

  /** Python's stable `sorted(..., reverse=True)` on the score: the result is a
      permutation of `s` with non-increasing scores. Stability is `SortDescStable`. */
  function SortDesc(s: seq<Scored>): (r: seq<Scored>)
    ensures SortedDesc(r)
    ensures multiset(r) == multiset(s)
    ensures |r| == |s|
  {
    if s == [] then []
    else
      assert s == [s[0]] + s[1..];
      InsertDesc(s[0], SortDesc(s[1..]))
  }

  /** Sorting a list that is already in non-increasing order changes nothing. */
  lemma {:induction false} SortDescOfSorted(s: seq<Scored>)
    requires SortedDesc(s)
    ensures SortDesc(s) == s
  {
    if s != [] {
      SortDescOfSorted(s[1..]);
      assert s == [s[0]] + s[1..];
    }
  }

  lemma {:induction false} WithScoreInsert(x: Scored, s: seq<Scored>, w: real)
    requires SortedDesc(s)
    ensures WithScore(InsertDesc(x, s), w) ==
            if x.1 == w then [x] + WithScore(s, w) else WithScore(s, w)
  {
    if s != [] && !(s[0].1 <= x.1) {
      WithScoreInsert(x, s[1..], w);
      if x.1 == w {
        assert s[0].1 != w;
      }
    }
  }

  /** Stability: among entries of equal score, the sorted order is the input order. */
  lemma {:induction false} SortDescStable(s: seq<Scored>, w: real)
    ensures WithScore(SortDesc(s), w) == WithScore(s, w)
  {
    if s != [] {
      SortDescStable(s[1..], w);
      WithScoreInsert(s[0], SortDesc(s[1..]), w);
    }
  }

  /** `x` occurs in `s` at an earlier position than `y`. */
  predicate Before<T(==)>(s: seq<T>, x: T, y: T) {
    exists p, q :: 0 <= p < q < |s| && s[p] == x && s[q] == y
  }

  /** Dropping a first entry other than `x` keeps `x` before `y` and
      nothing else. */
  lemma BeforeTail<T>(s: seq<T>, x: T, y: T)
    requires s != [] && s[0] != x
    ensures Before(s, x, y) <==> Before(s[1..], x, y)
  {
    if Before(s, x, y) {
      var p, q :| 0 <= p < q < |s| && s[p] == x && s[q] == y;
      assert s[1..][p - 1] == x && s[1..][q - 1] == y;
    }
    if Before(s[1..], x, y) {
      var p, q :| 0 <= p < q < |s[1..]| && s[1..][p] == x && s[1..][q] == y;
      assert s[p + 1] == x && s[q + 1] == y;
    }
  }

  /** When `s` starts with `x`, `x` is before `y` exactly when `y` comes later. */
  lemma BeforeHead<T>(s: seq<T>, x: T, y: T)
    requires s != [] && s[0] == x
    ensures Before(s, x, y) <==> y in s[1..]
  {
    if y in s[1..] {
      var q :| 0 <= q < |s[1..]| && s[1..][q] == y;
      assert s[q + 1] == y;
    }
    if Before(s, x, y) {
      var p, q :| 0 <= p < q < |s| && s[p] == x && s[q] == y;
      assert s[1..][q - 1] == y;
    }
  }

  /** Two entries of score `w` are in the same order in `s` as among the
      entries of score `w`. */
  lemma {:induction false} BeforeWithScore(s: seq<Scored>, w: real, x: Scored, y: Scored)
    requires x.1 == w && y.1 == w
    ensures Before(s, x, y) <==> Before(WithScore(s, w), x, y)
  {
    if s != [] {
      var rest := WithScore(s[1..], w);
      if s[0].1 != w {
        BeforeTail(s, x, y);
        BeforeWithScore(s[1..], w, x, y);
      } else if s[0] != x {
        BeforeTail(s, x, y);
        BeforeWithScore(s[1..], w, x, y);
        BeforeTail([s[0]] + rest, x, y);
        assert ([s[0]] + rest)[1..] == rest;
      } else {
        BeforeHead(s, x, y);
        BeforeHead([s[0]] + rest, x, y);
        assert ([s[0]] + rest)[1..] == rest;
      }
    }
  }

  /** Stability in the form `sorted` promises it: of two entries with the
      same score, the one earlier in the input is earlier in the output. */
  lemma SortDescKeepsTies(s: seq<Scored>, x: Scored, y: Scored)
    requires x.1 == y.1 && Before(s, x, y)
    ensures Before(SortDesc(s), x, y)
  {
    BeforeWithScore(s, x.1, x, y);
    SortDescStable(s, x.1);
    BeforeWithScore(SortDesc(s), x.1, x, y);
  }

  // ---------------------------------------------------------------------
  // max(keys, key=score)

  /** Index of the first entry of maximal score: what `max` returns, since it
      replaces its running best only on a strictly greater score. */
  function FirstArgMax(s: seq<Scored>): (i: nat)
    requires |s| > 0
    ensures i < |s|
    ensures forall j :: 0 <= j < |s| ==> s[j].1 <= s[i].1
    ensures forall j :: 0 <= j < i ==> s[j].1 < s[i].1
  {
    if |s| == 1 then 0
    else
      var j := 1 + FirstArgMax(s[1..]);
      if s[j].1 > s[0].1 then j else 0
  }

  lemma {:induction false} WithScoreAtFirst(s: seq<Scored>, i: nat)
    requires i < |s|
    requires forall j :: 0 <= j < i ==> s[j].1 != s[i].1
    ensures WithScore(s, s[i].1) == [s[i]] + WithScore(s[i + 1..], s[i].1)
  {
    if i > 0 {
      WithScoreAtFirst(s[1..], i - 1);
      assert s[1..][i - 1 + 1..] == s[i + 1..];
    }
  }

  /** The sorted list starts with a maximal score. */
  lemma SortDescHeadScore(s: seq<Scored>)
    requires |s| > 0
    ensures SortDesc(s)[0].1 == s[FirstArgMax(s)].1
  {
    var r := SortDesc(s);
    var i := FirstArgMax(s);
    assert r[0] in multiset(r);
    assert r[0] in s;
    assert s[i] in multiset(s);
    assert s[i] in r;
  }

  /** Two lists that agree on their entries of score `s[i].1`, where `s[i]` is
      the first such entry of `s` and the other list starts with that score,
      start with `s[i]`. */
  lemma FirstOfScore(s: seq<Scored>, r: seq<Scored>, i: nat)
    requires i < |s| && |r| > 0 && r[0].1 == s[i].1
    requires forall j :: 0 <= j < i ==> s[j].1 != s[i].1
    requires WithScore(r, s[i].1) == WithScore(s, s[i].1)
    ensures r[0] == s[i]
  {
    WithScoreAtFirst(s, i);
    WithScoreAtFirst(r, 0);
    var w := s[i].1;
    assert WithScore(r, w)[0] == r[0];
    assert WithScore(s, w)[0] == s[i];
  }

  /** The head of the stable descending sort is the entry `max` would pick. */
  lemma SortDescHead(s: seq<Scored>)
    requires |s| > 0
    ensures SortDesc(s)[0] == s[FirstArgMax(s)]
  {
    var i := FirstArgMax(s);
    SortDescHeadScore(s);
    SortDescStable(s, s[i].1);
    FirstOfScore(s, SortDesc(s), i);
  }

  /** Index of the first entry of score `w`. */
  function FirstWithScore(s: seq<Scored>, w: real): (j: nat)
    requires exists k :: 0 <= k < |s| && s[k].1 == w
    ensures j < |s| && s[j].1 == w
    ensures forall k :: 0 <= k < j ==> s[k].1 != w
  {
    if s[0].1 == w then 0
    else
      assert exists k :: 0 <= k < |s[1..]| && s[1..][k].1 == w by {
        var k :| 0 <= k < |s| && s[k].1 == w;
        assert s[1..][k - 1] == s[k];
      }
      1 + FirstWithScore(s[1..], w)
  }

  /** The second entry of the sorted list is the first entry of `s`, in input
      order, among those of maximal score other than the one at
      `FirstArgMax(s)`: every other entry before it scores strictly less. */
  lemma SecondIsFirstOfScore(s: seq<Scored>)
    requires |s| > 1
    ensures var i := FirstArgMax(s);
      exists j :: 0 <= j < |s| && j != i && SortDesc(s)[1] == s[j] &&
        forall k :: 0 <= k < j && k != i ==> s[k].1 < s[j].1
  {
    var i := FirstArgMax(s);
    var r := SortDesc(s);
    SortDescHead(s);
    SortDescSecond(s);
    SortDescStable(s, r[1].1);
    SecondOfRanking(s, r, i);
  }

  /** The same for any list `r` that starts with `s[i]`, the first entry of
      maximal score, continues with an entry that bounds the others, and keeps
      the input order of that entry's score. */
  lemma SecondOfRanking(s: seq<Scored>, r: seq<Scored>, i: nat)
    requires i < |s| && |r| > 1 && r[0] == s[i]
    requires forall j :: 0 <= j < i ==> s[j].1 < s[i].1
    requires exists j :: 0 <= j < |s| && j != i && r[1] == s[j]
    requires forall j :: 0 <= j < |s| && j != i ==> s[j].1 <= r[1].1
    requires WithScore(r, r[1].1) == WithScore(s, r[1].1)
    ensures exists j :: (0 <= j < |s| && j != i && r[1] == s[j] &&
      forall k :: 0 <= k < j && k != i ==> s[k].1 < s[j].1)
  {
    if r[1].1 == s[i].1 {
      SecondOfTop(s, r, i);
    } else {
      SecondBelowTop(s, r, i);
    }
  }

  /** `SecondIsFirstOfScore` when the second entry ties with the first. */
  lemma SecondOfTop(s: seq<Scored>, r: seq<Scored>, i: nat)
    requires i < |s| && |r| > 1 && r[0] == s[i] && r[1].1 == s[i].1
    requires forall j :: 0 <= j < i ==> s[j].1 < s[i].1
    requires exists j :: 0 <= j < |s| && j != i && r[1] == s[j]
    requires forall j :: 0 <= j < |s| && j != i ==> s[j].1 <= r[1].1
    requires WithScore(r, r[1].1) == WithScore(s, r[1].1)
    ensures exists j :: (0 <= j < |s| && j != i && r[1] == s[j] &&
      forall k :: 0 <= k < j && k != i ==> s[k].1 < s[j].1)
  {
    var w := r[1].1;
    WithScoreAtFirst(r, 0);
    WithScoreAtFirst(r[1..], 0);
    assert r[1..][1..] == r[2..];
    assert WithScore(r, w)[1] == r[1];
    WithScoreAtFirst(s, i);
    var t := s[i + 1..];
    assert exists k :: 0 <= k < |t| && t[k].1 == w by {
      var j0 :| 0 <= j0 < |s| && j0 != i && r[1] == s[j0];
      assert t[j0 - i - 1] == s[j0];
    }
    var jt := FirstWithScore(t, w);
    WithScoreAtFirst(t, jt);
    assert WithScore(s, w)[1] == t[jt];
    var j := i + 1 + jt;
    assert s[j] == t[jt] && r[1] == s[j] && j != i;
    forall k | 0 <= k < j && k != i
      ensures s[k].1 < s[j].1
    {
      if k > i {
        assert s[k] == t[k - i - 1] && t[k - i - 1].1 != w;
      }
    }
  }

  /** `SecondIsFirstOfScore` when the second entry scores below the first. */
  lemma SecondBelowTop(s: seq<Scored>, r: seq<Scored>, i: nat)
    requires i < |s| && |r| > 1 && r[0] == s[i] && r[1].1 != s[i].1
    requires exists j :: 0 <= j < |s| && j != i && r[1] == s[j]
    requires forall j :: 0 <= j < |s| && j != i ==> s[j].1 <= r[1].1
    requires WithScore(r, r[1].1) == WithScore(s, r[1].1)
    ensures exists j :: (0 <= j < |s| && j != i && r[1] == s[j] &&
      forall k :: 0 <= k < j && k != i ==> s[k].1 < s[j].1)
  {
    var w := r[1].1;
    WithScoreAtFirst(r, 1);
    var j0 :| 0 <= j0 < |s| && j0 != i && r[1] == s[j0];
    var j := FirstWithScore(s, w);
    WithScoreAtFirst(s, j);
    assert WithScore(r, w)[0] == r[1];
    assert WithScore(s, w)[0] == s[j];
    assert r[1] == s[j] && j != i;
    forall k | 0 <= k < j && k != i
      ensures s[k].1 < s[j].1
    {
      assert s[k].1 != w && s[k].1 <= w;
    }
  }

  /** The second entry of the sorted list is an entry other than the one at
      `FirstArgMax(s)`, and every other entry scores at most as much. */
  lemma SortDescSecond(s: seq<Scored>)
    requires |s| > 1
    ensures exists j :: 0 <= j < |s| && j != FirstArgMax(s) && SortDesc(s)[1] == s[j]
    ensures forall j :: 0 <= j < |s| && j != FirstArgMax(s) ==> s[j].1 <= SortDesc(s)[1].1
  {
    SortDescHead(s);
    SecondOfSorted(s, SortDesc(s), FirstArgMax(s));
  }

  /** In a non-increasing permutation `r` of `s` that starts with `s[i]`, the
      second entry comes from another index of `s` and bounds all of them. */
  lemma SecondOfSorted(s: seq<Scored>, r: seq<Scored>, i: nat)
    requires i < |s| && |r| == |s| > 1
    requires SortedDesc(r) && multiset(r) == multiset(s) && r[0] == s[i]
    ensures exists j :: 0 <= j < |s| && j != i && r[1] == s[j]
    ensures forall j :: 0 <= j < |s| && j != i ==> s[j].1 <= r[1].1
  {
    var t := s[..i] + s[i + 1..];
    TailPermutation(s, r, i);
    assert r[1] in multiset(r[1..]);
    assert r[1] in t;
    var k :| 0 <= k < |t| && t[k] == r[1];
    assert s[if k < i then k else k + 1] == r[1];
    forall j | 0 <= j < |s| && j != i
      ensures s[j].1 <= r[1].1
    {
      assert t[if j < i then j else j - 1] == s[j];
      assert s[j] in multiset(t);
      assert s[j] in r[1..];
    }
  }

  /** Removing the entry at `i` removes one copy of it from the multiset. */
  lemma RemoveAt(s: seq<Scored>, i: nat)
    requires i < |s|
    ensures multiset(s) == multiset(s[..i] + s[i + 1..]) + multiset{s[i]}
  {
    assert s == s[..i] + [s[i]] + s[i + 1..];
  }

  /** A permutation of `s` that starts with `s[i]` continues with a
      permutation of the other entries of `s`. */
  lemma TailPermutation(s: seq<Scored>, r: seq<Scored>, i: nat)
    requires i < |s| && |r| > 0 && multiset(r) == multiset(s) && r[0] == s[i]
    ensures multiset(r[1..]) == multiset(s[..i] + s[i + 1..])
  {
    var t := s[..i] + s[i + 1..];
    RemoveAt(s, i);
    assert r == [r[0]] + r[1..];
    assert multiset(r) == multiset{r[0]} + multiset(r[1..]);
    forall y ensures multiset(r[1..])[y] == multiset(t)[y] {
      assert multiset(r)[y] == multiset{r[0]}[y] + multiset(r[1..])[y];
      assert multiset(s)[y] == multiset{s[i]}[y] + multiset(t)[y];
    }
  }
}
