/** The string operations of Python 3 that the chatbot relies on:
    `str.strip()`, `str.lower()` (ASCII letters), `str.split()` with no
    separator, `startswith`, the `in` substring test and the code-point
    order that `sorted` uses on strings. */
module Text {

  /** Python's `str.isspace()` for a single character. */
  predicate IsSpace(c: char) {
    c == ' ' || ('\t' <= c <= '\r') || ('\U{1c}' <= c <= '\U{1f}') ||
    c == '\U{85}' || c == '\U{a0}' || c == '\U{1680}' || ('\U{2000}' <= c <= '\U{200a}') ||
    c == '\U{2028}' || c == '\U{2029}' || c == '\U{202f}' || c == '\U{205f}' || c == '\U{3000}'
  }

  predicate AllSpace(s: string) {
    forall i {:trigger IsSpace(s[i])} :: 0 <= i < |s| ==> IsSpace(s[i])
  }

  /** Number of whitespace characters at the front of `s`. */
  function LeadingSpaces(s: string): (k: nat)
    ensures k <= |s|
    ensures AllSpace(s[..k])
    ensures k < |s| ==> !IsSpace(s[k])
  {
    if s != [] && IsSpace(s[0]) then
      var k := 1 + LeadingSpaces(s[1..]);
      assert s[..k] == [s[0]] + s[1..][..k - 1];
      k
    else 0
  }

  /** Number of whitespace characters at the end of `s`. */
  function TrailingSpaces(s: string): (k: nat)
    ensures k <= |s|
    ensures AllSpace(s[|s| - k..])
    ensures k < |s| ==> !IsSpace(s[|s| - 1 - k])
  {
    if s != [] && IsSpace(s[|s| - 1]) then
      var init := s[..|s| - 1];
      var m := TrailingSpaces(init);
      SpaceSuffixGrows(s, m);
      m + 1
    else 0
  }

  lemma SpaceSuffixGrows(s: string, m: nat)
    requires s != [] && IsSpace(s[|s| - 1]) && m <= |s| - 1
    requires AllSpace(s[..|s| - 1][|s| - 1 - m..])
    ensures AllSpace(s[|s| - (m + 1)..])
  {
    var init := s[..|s| - 1];
    var suffix := s[|s| - (m + 1)..];
    forall i | 0 <= i < |suffix|
      ensures IsSpace(suffix[i])
    {
      if i < m {
        assert suffix[i] == init[|init| - m..][i];
      }
    }
  }

  /** `str.strip()`: `s` without its leading and trailing whitespace. */
  function Strip(s: string): (r: string)
    ensures exists a, b :: 0 <= a <= b <= |s| && r == s[a..b] && AllSpace(s[..a]) && AllSpace(s[b..])
    ensures r != [] ==> !IsSpace(r[0]) && !IsSpace(r[|r| - 1])
    ensures r == [] <==> AllSpace(s)
  {
    var a := LeadingSpaces(s);
    var b := a + |s[a..]| - TrailingSpaces(s[a..]);
    StripBounds(s, a, b);
    assert a < b ==> s[a..b][0] == s[a] && s[a..b][b - a - 1] == s[b - 1];
    s[a..b]
  }

  /** The cut points `Strip` uses: spaces before `a` and from `b` on, and
      non-space characters at both ends of what lies between. */
  lemma StripBounds(s: string, a: nat, b: nat)
    requires a == LeadingSpaces(s) && b == a + |s[a..]| - TrailingSpaces(s[a..])
    ensures a <= b <= |s| && AllSpace(s[..a]) && AllSpace(s[b..])
    ensures a < b ==> !IsSpace(s[a]) && !IsSpace(s[b - 1])
    ensures a == b ==> AllSpace(s)
  {
    var t := s[a..];
    var m := TrailingSpaces(t);
    assert s[b..] == t[|t| - m..];
    if a < b {
      assert s[b - 1] == t[|t| - 1 - m];
    } else {
      assert t[|t| - m..] == t;
      SpacesJoin(s, a);
    }
  }

  /** Two runs of whitespace make one. */
  lemma SpacesJoin(s: string, a: nat)
    requires a <= |s| && AllSpace(s[..a]) && AllSpace(s[a..])
    ensures AllSpace(s)
  {
    forall i | 0 <= i < |s| ensures IsSpace(s[i]) {
      if i < a { assert s[..a][i] == s[i]; } else { assert s[a..][i - a] == s[i]; }
    }
  }

  lemma StripExactly(s: string, a: nat, b: nat)
    requires a <= b <= |s| && AllSpace(s[..a]) && AllSpace(s[b..])
    requires a < b ==> !IsSpace(s[a]) && !IsSpace(s[b - 1])
    ensures Strip(s) == s[a..b]
  {
    if a == b {
      StripBlank(s, a);
    } else {
      StripSolid(s, a, b);
    }
  }

  lemma StripBlank(s: string, a: nat)
    requires a <= |s| && AllSpace(s[..a]) && AllSpace(s[a..])
    ensures Strip(s) == []
  {
    SpacesJoin(s, a);
  }

  lemma StripSolid(s: string, a: nat, b: nat)
    requires a < b <= |s| && AllSpace(s[..a]) && AllSpace(s[b..])
    requires !IsSpace(s[a]) && !IsSpace(s[b - 1])
    ensures Strip(s) == s[a..b]
  {
    LeadingExactly(s, a);
    TrailingOfSuffix(s, a, b);
    var t := s[a..];
    assert Strip(s) == s[a..a + |t| - (|s| - b)];
  }

  lemma TrailingOfSuffix(s: string, a: nat, b: nat)
    requires a < b <= |s| && AllSpace(s[b..]) && !IsSpace(s[b - 1])
    ensures TrailingSpaces(s[a..]) == |s| - b
  {
    var t := s[a..];
    assert t[|t| - (|s| - b)..] == s[b..];
    assert t[|t| - 1 - (|s| - b)] == s[b - 1];
    TrailingExactly(t, |s| - b);
  }

  lemma {:induction false} LeadingExactly(s: string, a: nat)
    requires a <= |s| && AllSpace(s[..a]) && (a < |s| ==> !IsSpace(s[a]))
    ensures LeadingSpaces(s) == a
  {
    if a > 0 {
      assert s[..a][0] == s[0];
      assert s[1..][..a - 1] == s[..a][1..];
      LeadingExactly(s[1..], a - 1);
    }
  }

  lemma {:induction false} TrailingExactly(s: string, m: nat)
    requires m <= |s| && AllSpace(s[|s| - m..]) && (m < |s| ==> !IsSpace(s[|s| - 1 - m]))
    ensures TrailingSpaces(s) == m
  {
    if m > 0 {
      var init := s[..|s| - 1];
      assert s[|s| - m..][m - 1] == s[|s| - 1];
      assert init[|init| - (m - 1)..] == s[|s| - m..][..m - 1];
      TrailingExactly(init, m - 1);
    }
  }

  /** Stripping twice changes nothing more than stripping once. */
  lemma StripIdempotent(s: string)
    ensures Strip(Strip(s)) == Strip(s)
  {
    var r := Strip(s);
    var k := LeadingSpaces(r);
    if r != [] {
      assert k == 0;
      assert TrailingSpaces(r) == 0;
    }
  }

  /** ASCII part of `str.lower()` on one character. */
  function LowerChar(c: char): char {
    if 'A' <= c <= 'Z' then (c as int + 32) as char else c
  }

  /** `str.lower()` restricted to ASCII letters: same length, each character lowered. */
  function Lower(s: string): (r: string)
    ensures |r| == |s|
    ensures forall i :: 0 <= i < |s| ==> r[i] == LowerChar(s[i])
  {
    if s == [] then [] else [LowerChar(s[0])] + Lower(s[1..])
  }

  /** `s.startswith(p)`: `p` agrees with `s` character by character; every
      string starts with the empty one. */
  predicate StartsWith(s: string, p: string)
    ensures StartsWith(s, p) <==> |p| <= |s| && forall i :: 0 <= i < |p| ==> s[i] == p[i]
  {
    |p| <= |s| && s[..|p|] == p
  }

  /** `p in s` for strings: `p` occurs in `s` as a contiguous piece. The
      empty string is in every string, and nothing longer than `s` is. */
  predicate Contains(s: string, p: string)
    ensures Contains(s, p) ==> |p| <= |s|
    ensures p == [] ==> Contains(s, p)
    decreases |s|
  {
    StartsWith(s, p) || (s != [] && Contains(s[1..], p))
  }

  /** `p` occurs in `s` starting at index `i`. */
  predicate OccursAt(s: string, p: string, i: int) {
    0 <= i && i + |p| <= |s| && s[i..i + |p|] == p
  }

  /** The recursive substring test means exactly "`p` occurs somewhere in `s`". */
  lemma {:induction false} ContainsIff(s: string, p: string)
    ensures Contains(s, p) <==> exists i :: OccursAt(s, p, i)
    decreases |s|
  {
    if StartsWith(s, p) {
      assert s[0..|p|] == s[..|p|];
      assert OccursAt(s, p, 0);
    }
    if s != [] {
      ContainsIff(s[1..], p);
      if Contains(s[1..], p) {
        var i :| OccursAt(s[1..], p, i);
        assert s[1..][i..i + |p|] == s[i + 1..i + 1 + |p|];
        assert OccursAt(s, p, i + 1);
      }
      if exists i :: OccursAt(s, p, i) {
        var i :| OccursAt(s, p, i);
        if i > 0 {
          assert s[1..][i - 1..i - 1 + |p|] == s[i..i + |p|];
          assert OccursAt(s[1..], p, i - 1);
        } else {
          assert s[..|p|] == s[0..|p|];
        }
      }
    } else if p == [] {
      assert OccursAt(s, p, 0);
      assert StartsWith(s, p);
    }
  }

  /** Lower-casing leaves a string without capital letters as it is. */
  lemma LowerUnchanged(s: string)
    requires forall i :: 0 <= i < |s| ==> !('A' <= s[i] <= 'Z')
    ensures Lower(s) == s
  {
  }

  /** A string cannot contain a piece with a character it lacks. */
  lemma MissingCharNeverContains(s: string, p: string, k: nat)
    requires k < |p| && forall i :: 0 <= i < |s| ==> s[i] != p[k]
    ensures !Contains(s, p)
  {
    ContainsIff(s, p);
  }

  /** A string cannot contain a longer one. */
  lemma {:induction false} ShorterNeverContains(s: string, p: string)
    requires |s| < |p|
    ensures !Contains(s, p)
    decreases |s|
  {
    if s != [] {
      ShorterNeverContains(s[1..], p);
    }
  }

  /** A longer keyword that contains a shorter one adds nothing to an `or` of
      substring tests: whatever contains "trending" contains "trend". */
  lemma {:induction false} ContainsTransitive(s: string, p: string, q: string)
    requires Contains(s, p) && Contains(p, q)
    ensures Contains(s, q)
  {
    ContainsIff(s, p);
    ContainsIff(p, q);
    var i :| OccursAt(s, p, i);
    var j :| OccursAt(p, q, j);
    assert s[i + j..i + j + |q|] == q by {
      forall k | 0 <= k < |q| ensures s[i + j..i + j + |q|][k] == q[k] {
        assert s[i..i + |p|][j + k] == p[j + k];
        assert p[j..j + |q|][k] == q[k];
      }
    }
    assert OccursAt(s, q, i + j);
    ContainsIff(s, q);
  }

  /** Length of the run of non-space characters at the front of `s`. */
  function WordLength(s: string): (k: nat)
    ensures k <= |s|
    ensures forall i :: 0 <= i < k ==> !IsSpace(s[i])
    ensures k < |s| ==> IsSpace(s[k])
  {
    if s != [] && !IsSpace(s[0]) then 1 + WordLength(s[1..]) else 0
  }

  /** A non-empty run of non-whitespace characters. */
  predicate IsWord(w: string) {
    w != [] && forall i :: 0 <= i < |w| ==> !IsSpace(w[i])
  }

  /** `str.split()` with no argument: the maximal runs of non-whitespace, in
      order. There are none exactly when `s` is all whitespace;
      `WordsSkipsSpaces` and `WordsCons` give the rest of the definition. */
  function Words(s: string): (ws: seq<string>)
    ensures forall w :: w in ws ==> IsWord(w)
    ensures ws == [] <==> AllSpace(s)
    decreases |s|, 1
  {
    var a := LeadingSpaces(s);
    if a == |s| then
      SpacesJoin(s, a);
      []
    else
      WordsFrom(s[a..])
  }

  /** The words of a string that starts with a word. */
  function WordsFrom(t: string): (ws: seq<string>)
    requires t != [] && !IsSpace(t[0])
    ensures ws != [] && forall w :: w in ws ==> IsWord(w)
    decreases |t|, 0
  {
    var k := WordLength(t);
    [t[..k]] + Words(t[k..])
  }

  /** Leading whitespace does not change the words. */
  lemma WordsSkipsSpaces(sp: string, s: string)
    requires AllSpace(sp)
    ensures Words(sp + s) == Words(s)
  {
    var a := LeadingSpaces(s);
    var whole := sp + s;
    assert whole[..|sp| + a] == sp + s[..a];
    assert |sp| + a < |whole| ==> whole[|sp| + a] == s[a];
    LeadingExactly(whole, |sp| + a);
    assert whole[|sp| + a..] == s[a..];
  }

  /** A word followed by whitespace or by nothing is the first word. */
  lemma WordsCons(w: string, s: string)
    requires IsWord(w) && (s != [] ==> IsSpace(s[0]))
    ensures Words(w + s) == [w] + Words(s)
  {
    var whole := w + s;
    LeadingExactly(whole, 0);
    assert whole[0..] == whole;
    var k := WordLength(whole);
    assert forall i :: 0 <= i < |w| ==> whole[i] == w[i];
    if s != [] {
      assert whole[|w|] == s[0];
    }
    assert whole[..k] == w && whole[k..] == s;
  }

  /** A line made of two words, whitespace between them and possibly after
      them, splits into those two words. */
  lemma TwoWords(a: string, sp: string, b: string, tail: string)
    requires IsWord(a) && IsWord(b) && sp != [] && AllSpace(sp) && AllSpace(tail)
    ensures Words(a + sp + b + tail) == [a, b]
  {
    var after := b + tail;
    var rest := sp + after;
    assert a + sp + b + tail == a + rest;
    assert rest[0] == sp[0];
    WordsCons(a, rest);
    WordsSkipsSpaces(sp, after);
    assert tail != [] ==> IsSpace(tail[0]);
    WordsCons(b, tail);
  }

  /** Python's `<=` on strings: lexicographic by code point, a prefix first. */
  predicate LexLe(a: string, b: string)
    ensures StartsWith(b, a) ==> LexLe(a, b)
    decreases |a|
  {
    a == [] || (b != [] && (a[0] < b[0] || (a[0] == b[0] && LexLe(a[1..], b[1..]))))
  }

  lemma {:induction false} LexLeTotal(a: string, b: string)
    ensures LexLe(a, b) || LexLe(b, a)
    decreases |a|
  {
    if a != [] && b != [] && a[0] == b[0] {
      LexLeTotal(a[1..], b[1..]);
    }
  }

  lemma {:induction false} LexLeTransitive(a: string, b: string, c: string)
    requires LexLe(a, b) && LexLe(b, c)
    ensures LexLe(a, c)
    decreases |a|
  {
    if a != [] && a[0] == b[0] && b[0] == c[0] {
      LexLeTransitive(a[1..], b[1..], c[1..]);
    }
  }

  lemma {:induction false} LexLeAntisymmetric(a: string, b: string)
    requires LexLe(a, b) && LexLe(b, a)
    ensures a == b
    decreases |a|
  {
    if a != [] {
      LexLeAntisymmetric(a[1..], b[1..]);
      assert a == [a[0]] + a[1..] && b == [b[0]] + b[1..];
    }
  }

  /** Decimal rendering of integers, as `str()` and f-strings print them. */
  function Digit(d: nat): (c: char)
    requires d < 10
    ensures '0' <= c <= '9' && c as int - '0' as int == d
  {
    ('0' as int + d) as char
  }

  predicate IsDigits(s: string) {
    forall i :: 0 <= i < |s| ==> '0' <= s[i] <= '9'
  }

  function NatToString(n: nat): (s: string)
    ensures s != [] && IsDigits(s)
    ensures |s| > 1 ==> s[0] != '0'
    decreases n
  {
    if n < 10 then [Digit(n)] else NatToString(n / 10) + [Digit(n % 10)]
  }

  /** Reads a run of decimal digits back into a number. */
  function ParseNat(s: string): nat
    requires IsDigits(s)
  {
    if s == [] then 0 else 10 * ParseNat(s[..|s| - 1]) + (s[|s| - 1] as int - '0' as int)
  }

  lemma {:induction false} ParseNatToString(n: nat)
    ensures ParseNat(NatToString(n)) == n
    decreases n
  {
    if n >= 10 {
      var s := NatToString(n);
      assert s[..|s| - 1] == NatToString(n / 10);
      ParseNatToString(n / 10);
    }
  }

  function IntToString(i: int): (s: string)
    ensures s != []
    ensures s[0] == '-' <==> i < 0
  {
    if i < 0 then "-" + NatToString(-i) else NatToString(i)
  }

  /** An optional minus sign followed by at least one digit. */
  predicate IsNumeral(s: string) {
    s != [] && (s[0] == '-' ==> IsDigits(s[1..])) && (s[0] != '-' ==> IsDigits(s))
  }

  /** Inverse of IntToString. */
  function ParseInt(s: string): int
    requires IsNumeral(s)
  {
    if s[0] == '-' then -(ParseNat(s[1..]) as int) else ParseNat(s)
  }

  lemma ParseIntToString(i: int)
    ensures IsNumeral(IntToString(i)) && ParseInt(IntToString(i)) == i
  {
    if i < 0 {
      var d := NatToString(-i);
      assert IntToString(i) == "-" + d;
      assert ("-" + d)[1..] == d;
      ParseNatToString(-i);
    } else {
      var d := NatToString(i);
      assert IntToString(i) == d;
      assert d[0] != '-';
      ParseNatToString(i);
    }
  }
}
