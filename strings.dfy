/** The part of Go's `strings` package and of RE2's character classes that the
    extractor relies on, over strings modelled as sequences of characters. */
module Strings {

  /** RE2's `\s`: tab, newline, form feed, carriage return and space. */
  predicate IsSpace(c: char) {
    c == '\t' || c == '\n' || c == '\U{C}' || c == '\r' || c == ' '
  }

  /** RE2's `\w`: ASCII letters, digits and underscore. */
  predicate IsWord(c: char) {
    ('0' <= c <= '9') || ('A' <= c <= 'Z') || ('a' <= c <= 'z') || c == '_'
  }

  /** A non-empty run of `\w` characters. */
  predicate IsToken(w: string) {
    |w| > 0 && forall k :: 0 <= k < |w| ==> IsWord(w[k])
  }

  /** Lower-casing of one character, exact on ASCII. */
  function LowerChar(c: char): (d: char)
    ensures IsWord(c) <==> IsWord(d)
    ensures 'A' <= c <= 'Z' ==> d as int == c as int + 32
    ensures !('A' <= c <= 'Z') ==> d == c
  {
    if 'A' <= c <= 'Z' then (c as int + 32) as char else c
  }

  /** `strings.ToLower`, restricted to ASCII case mapping. */
  function ToLower(s: string): (r: string)
    ensures |r| == |s|
    ensures forall k :: 0 <= k < |s| ==> r[k] == LowerChar(s[k])
  {
    seq(|s|, k requires 0 <= k < |s| => LowerChar(s[k]))
  }

  /** `t` occurs in `s` at index `i`. */
  predicate OccursAt(s: string, t: string, i: nat) {
    i + |t| <= |s| && s[i..i + |t|] == t
  }

  /** `strings.Index` searching from `from`: the least index at or after `from`
      where `t` occurs, or -1. */
  function IndexFrom(s: string, t: string, from: nat): (r: int)
    requires from <= |s|
    ensures r == -1 || (from <= r && r + |t| <= |s| && OccursAt(s, t, r))
    ensures r == -1 ==> forall i :: from <= i <= |s| ==> !OccursAt(s, t, i)
    ensures r != -1 ==> forall i :: from <= i < r ==> !OccursAt(s, t, i)
    decreases |s| - from
  {
    if OccursAt(s, t, from) then from
    else if from == |s| then -1
    else IndexFrom(s, t, from + 1)
  }

  /** `strings.Index(s, t)`. */
  function Index(s: string, t: string): int {
    IndexFrom(s, t, 0)
  }

  /** `strings.Contains(s, t)`, which Go defines as `Index(s, t) >= 0`. */
  predicate Contains(s: string, t: string) {
    Index(s, t) >= 0
  }

  lemma ContainsIff(s: string, t: string)
    ensures Contains(s, t) <==> exists i :: 0 <= i <= |s| && OccursAt(s, t, i)
  {
    if Contains(s, t) {
      assert OccursAt(s, t, Index(s, t));
    }
  }

  /** The first occurrence of `t` is what `Index` finds. */
  lemma IndexIs(s: string, t: string, r: nat)
    requires OccursAt(s, t, r)
    requires forall i :: 0 <= i < r ==> !OccursAt(s, t, i)
    ensures Index(s, t) == r
  {
    assert r <= |s|;
  }

  /** A one-character string occurs exactly where that character is. */
  lemma OccursChar(s: string, c: char, i: nat)
    ensures OccursAt(s, [c], i) <==> i < |s| && s[i] == c
  {
    if i < |s| {
      assert s[i..i + 1] == [s[i]];
    }
  }

  /** The first position of a character is what `Index` finds for it. */
  lemma IndexOfChar(s: string, c: char, r: nat)
    requires r < |s| && s[r] == c
    requires forall k :: 0 <= k < r ==> s[k] != c
    ensures Index(s, [c]) == r
  {
    forall i | 0 <= i < r ensures !OccursAt(s, [c], i) {
      OccursChar(s, c, i);
    }
    OccursChar(s, c, r);
    IndexIs(s, [c], r);
  }

  /** A single character `c` occurs in `s` exactly when `[c]` is contained in it. */
  lemma ContainsChar(s: string, c: char)
    ensures Contains(s, [c]) <==> c in s
  {
    ContainsIff(s, [c]);
    if c in s {
      var i :| 0 <= i < |s| && s[i] == c;
      assert OccursAt(s, [c], i);
    }
    if Contains(s, [c]) {
      var i :| 0 <= i <= |s| && OccursAt(s, [c], i);
      assert s[i] == s[i..i + 1][0];
    }
  }

  /** Number of characters of `s` before its first newline (all of `s` when it
      has none); the length of its first line. */
  function LineLength(s: string): (n: nat)
    ensures n <= |s|
    ensures forall k :: 0 <= k < n ==> s[k] != '\n'
    ensures n == |s| || s[n] == '\n'
    ensures |s| > 0 && s[0] != '\n' ==> n >= 1
    decreases |s|
  {
    if s == [] || s[0] == '\n' then 0 else 1 + LineLength(s[1..])
  }

  /** `strings.Split(s, "\n")`: the pieces between newlines, always at least one. */
  function SplitLines(s: string): (lines: seq<string>)
    ensures |lines| >= 1
    decreases |s|
  {
    var n := LineLength(s);
    if n == |s| then [s] else [s[..n]] + SplitLines(s[n + 1..])
  }

  /** No piece of a split contains a newline. */
  lemma {:induction false} SplitLinesNoNewline(s: string)
    ensures forall k :: 0 <= k < |SplitLines(s)| ==> '\n' !in SplitLines(s)[k]
    decreases |s|
  {
    var n := LineLength(s);
    if n < |s| {
      SplitLinesNoNewline(s[n + 1..]);
      var lines := SplitLines(s);
      assert lines == [s[..n]] + SplitLines(s[n + 1..]);
      forall k | 0 <= k < |lines| ensures '\n' !in lines[k] {
        if k > 0 {
          assert lines[k] == SplitLines(s[n + 1..])[k - 1];
        }
      }
    }
  }

  /** `strings.Join(lines, "\n")`. */
  function JoinLines(lines: seq<string>): string
    requires |lines| >= 1
  {
    if |lines| == 1 then lines[0] else lines[0] + "\n" + JoinLines(lines[1..])
  }

  /** Joining the pieces of a split gives back the string. */
  lemma {:induction false} JoinSplitLines(s: string)
    ensures JoinLines(SplitLines(s)) == s
    decreases |s|
  {
    var n := LineLength(s);
    if n < |s| {
      JoinSplitLines(s[n + 1..]);
      assert s == s[..n] + "\n" + s[n + 1..];
    }
  }

  /** Splitting the join of newline-free pieces gives back the pieces. */
  lemma {:induction false} SplitJoinLines(lines: seq<string>)
    requires |lines| >= 1
    requires forall k :: 0 <= k < |lines| ==> '\n' !in lines[k]
    ensures SplitLines(JoinLines(lines)) == lines
    decreases |lines|
  {
    var l := lines[0];
    assert forall k :: 0 <= k < |l| ==> l[k] != '\n';
    if |lines| > 1 {
      var s := JoinLines(lines);
      var rest := JoinLines(lines[1..]);
      assert s == l + ("\n" + rest);
      LineLengthExtends(l, "\n" + rest);
      assert s[..|l|] == l;
      assert s[|l| + 1..] == rest;
      SplitJoinLines(lines[1..]);
    }
  }

  /** The line length of `a` is unchanged by appending text that starts with
      a newline. */
  lemma {:induction false} LineLengthExtends(a: string, c: string)
    requires |c| > 0 && c[0] == '\n'
    ensures LineLength(a + c) == LineLength(a)
    decreases |a|
  {
    var s := a + c;
    if a != [] && a[0] != '\n' {
      assert s[1..] == a[1..] + c;
      LineLengthExtends(a[1..], c);
    }
  }
}
