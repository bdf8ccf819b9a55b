/** The five regular expressions the extractor compiles, each written out as an
    explicit scanner with RE2's leftmost-first semantics, and the `FindAll`
    search that returns their leftmost non-overlapping matches.

    In every pattern a `\s*` or `\s+` is followed by something that cannot be
    white space (a letter, `{` or `\w`), and a `\w+` is followed by the end of
    the pattern, so the greedy run that a backtracking search tries first is
    also the only one that can succeed: each run is scanned to its maximum. */
module Regexp {
  import opened Strings

  datatype Option<T> = None | Some(value: T)

  datatype Pattern =
    | NamedOperation      // (?m)^\s*(query|mutation)\s+(\w+)
    | AnonymousQuery      // (?m)^\s*\{
    | AnonymousMutation   // (?m)^\s*mutation\s*\{
    | SelectionField      // \{\s*(\w+)
    | LeadingField        // ^\s*(\w+)

  /** Number of capture groups of each pattern. */
  function GroupCount(pat: Pattern): nat {
    match pat
    case NamedOperation => 2
    case AnonymousQuery => 0
    case AnonymousMutation => 0
    case SelectionField => 1
    case LeadingField => 1
  }

  /** A match: its span, and what Go's submatch search returns for it (the
      whole match, then one string per group). */
  datatype Match = Match(start: nat, end: nat, groups: seq<string>)

  /** End of the longest run of `\s` starting at `i`. */
  function SkipSpace(s: string, i: nat): (j: nat)
    requires i <= |s|
    ensures i <= j <= |s|
    ensures forall k :: i <= k < j ==> IsSpace(s[k])
    ensures j == |s| || !IsSpace(s[j])
    decreases |s| - i
  {
    if i < |s| && IsSpace(s[i]) then SkipSpace(s, i + 1) else i
  }

  /** End of the longest run of `\w` starting at `i`. */
  function SkipWord(s: string, i: nat): (j: nat)
    requires i <= |s|
    ensures i <= j <= |s|
    ensures forall k :: i <= k < j ==> IsWord(s[k])
    ensures j == |s| || !IsWord(s[j])
    decreases |s| - i
  {
    if i < |s| && IsWord(s[i]) then SkipWord(s, i + 1) else i
  }

  /** A maximal run of `\s` from `i` to `j` is what `SkipSpace` finds. */
  lemma SkipSpaceIs(s: string, i: nat, j: nat)
    requires i <= j <= |s|
    requires forall k :: i <= k < j ==> IsSpace(s[k])
    requires j == |s| || !IsSpace(s[j])
    ensures SkipSpace(s, i) == j
  {
  }

  /** A maximal run of `\w` from `i` to `j` is what `SkipWord` finds. */
  lemma SkipWordIs(s: string, i: nat, j: nat)
    requires i <= j <= |s|
    requires forall k :: i <= k < j ==> IsWord(s[k])
    requires j == |s| || !IsWord(s[j])
    ensures SkipWord(s, i) == j
  {
  }

  /** Only white space from `i` up to `j`. */
  predicate SpaceRun(s: string, i: nat, j: nat) {
    i <= j <= |s| && forall k :: i <= k < j ==> IsSpace(s[k])
  }

  /** `(?m)^`: the start of the text or just after a newline. */
  predicate AtLineStart(s: string, p: nat) {
    p == 0 || (0 < p <= |s| && s[p - 1] == '\n')
  }

  /** The alternative `(query|mutation)` tried at `a`: the first branch that
      matches, or "" when neither does. */
  function OperationKeyword(s: string, a: nat): (op: string)
    ensures op == "" || op == "query" || op == "mutation"
    ensures op != "" ==> OccursAt(s, op, a)
    ensures OccursAt(s, "query", a) ==> op == "query"
    ensures OccursAt(s, "mutation", a) ==> op == "mutation"
  {
    KeywordsDiffer(s, a);
    if OccursAt(s, "query", a) then "query"
    else if OccursAt(s, "mutation", a) then "mutation"
    else ""
  }

  /** `query` and `mutation` cannot both start at `a`. */
  lemma KeywordsDiffer(s: string, a: nat)
    ensures !(OccursAt(s, "query", a) && OccursAt(s, "mutation", a))
  {
    if a + 8 <= |s| {
      assert s[a..a + 5][0] == s[a] == s[a..a + 8][0];
    }
  }

  /** `(?m)^\s*(query|mutation)\s+(\w+)` tried at `p`: a match starts only
      at a line start, captures a keyword and a name that ends it, and that
      name runs as far as the `\w` characters go. */
  function NamedOperationAt(s: string, p: nat): (r: Option<Match>)
    requires p <= |s|
    ensures r.Some? ==> AtLineStart(s, p) && r.value.start == p && p < r.value.end <= |s|
    ensures r.Some? ==> |r.value.groups| == 3 && r.value.groups[0] == s[p..r.value.end]
    ensures r.Some? ==> r.value.groups[1] == "query" || r.value.groups[1] == "mutation"
    ensures r.Some? ==>
      (0 < |r.value.groups[2]| < r.value.end - p &&
       r.value.groups[2] == s[r.value.end - |r.value.groups[2]|..r.value.end])
    ensures r.Some? ==> r.value.end == |s| || !IsWord(s[r.value.end])
  {
    if !AtLineStart(s, p) then None
    else
      var a := SkipSpace(s, p);
      var op := OperationKeyword(s, a);
      if op == "" then None
      else
        var b := a + |op|;
        var c := SkipSpace(s, b);
        var d := SkipWord(s, c);
        if c == b || d == c then None
        else Some(Match(p, d, [s[p..d], op, s[c..d]]))
  }

  /** `(?m)^\s*\{` tried at `p`: a match starts at a line start and is
      white space closed by `{`. */
  function AnonymousQueryAt(s: string, p: nat): (r: Option<Match>)
    requires p <= |s|
    ensures r.Some? ==> AtLineStart(s, p) && r.value.start == p && p < r.value.end <= |s|
    ensures r.Some? ==> r.value.groups == [s[p..r.value.end]]
    ensures r.Some? ==> SpaceRun(s, p, r.value.end - 1) && s[r.value.end - 1] == '{'
  {
    if !AtLineStart(s, p) then None
    else
      var a := SkipSpace(s, p);
      if a < |s| && s[a] == '{' then Some(Match(p, a + 1, [s[p..a + 1]])) else None
  }

  /** `(?m)^\s*mutation\s*\{` tried at `p`: a match starts at a line start
      and ends with `{`. */
  function AnonymousMutationAt(s: string, p: nat): (r: Option<Match>)
    requires p <= |s|
    ensures r.Some? ==> AtLineStart(s, p) && r.value.start == p && p < r.value.end <= |s|
    ensures r.Some? ==> r.value.groups == [s[p..r.value.end]] && s[r.value.end - 1] == '{'
  {
    if !AtLineStart(s, p) then None
    else
      var a := SkipSpace(s, p);
      if !OccursAt(s, "mutation", a) then None
      else
        var b := SkipSpace(s, a + |"mutation"|);
        if b < |s| && s[b] == '{' then Some(Match(p, b + 1, [s[p..b + 1]])) else None
  }

  /** `\{\s*(\w+)` tried at `p`: a match starts with `{` and ends with its
      capture, which runs as far as the `\w` characters go. */
  function SelectionFieldAt(s: string, p: nat): (r: Option<Match>)
    requires p <= |s|
    ensures r.Some? ==> p < |s| && s[p] == '{' && r.value.start == p && p < r.value.end <= |s|
    ensures r.Some? ==> |r.value.groups| == 2 && r.value.groups[0] == s[p..r.value.end]
    ensures r.Some? ==>
      (0 < |r.value.groups[1]| < r.value.end - p &&
       r.value.groups[1] == s[r.value.end - |r.value.groups[1]|..r.value.end])
    ensures r.Some? ==> r.value.end == |s| || !IsWord(s[r.value.end])
  {
    if p < |s| && s[p] == '{' then
      var a := SkipSpace(s, p + 1);
      var d := SkipWord(s, a);
      if d == a then None else Some(Match(p, d, [s[p..d], s[a..d]]))
    else None
  }

  /** `^\s*(\w+)` (no multi-line flag, so `^` is only the start of the text)
      tried at `p`. */
  function LeadingFieldAt(s: string, p: nat): (r: Option<Match>)
    requires p <= |s|
    ensures r.Some? ==> p == 0 && r.value.start == 0 && 0 < r.value.end <= |s|
    ensures r.Some? ==> |r.value.groups| == 2 && r.value.groups[0] == s[..r.value.end]
    ensures r.Some? ==>
      (0 < |r.value.groups[1]| <= r.value.end &&
       r.value.groups[1] == s[r.value.end - |r.value.groups[1]|..r.value.end])
    ensures r.Some? ==> SpaceRun(s, 0, r.value.end - |r.value.groups[1]|)
    ensures r.Some? ==> r.value.end == |s| || !IsWord(s[r.value.end])
  {
    if p != 0 then None
    else
      var a := SkipSpace(s, 0);
      var d := SkipWord(s, a);
      if d == a then None else Some(Match(0, d, [s[..d], s[a..d]]))
  }

  /** The match of `pat` that starts at `p`, if any. Every match is non-empty
      and has the whole match and one string per group. */
  function MatchAt(pat: Pattern, s: string, p: nat): (r: Option<Match>)
    requires p <= |s|
    ensures r.Some? ==> r.value.start == p && p < r.value.end <= |s|
    ensures r.Some? ==> |r.value.groups| == GroupCount(pat) + 1
    ensures r.Some? ==> r.value.groups[0] == s[p..r.value.end]
  {
    match pat
    case NamedOperation => NamedOperationAt(s, p)
    case AnonymousQuery => AnonymousQueryAt(s, p)
    case AnonymousMutation => AnonymousMutationAt(s, p)
    case SelectionField => SelectionFieldAt(s, p)
    case LeadingField => LeadingFieldAt(s, p)
  }

  /** The attempts of a pattern at every position of a text, index `p`
      holding the match that starts at `p`, if any. */
  predicate IsAttemptTable(t: seq<Option<Match>>) {
    forall p :: 0 <= p < |t| && t[p].Some? ==> t[p].value.start == p < t[p].value.end < |t|
  }

  function Attempts(pat: Pattern, s: string): (t: seq<Option<Match>>)
    ensures |t| == |s| + 1 && IsAttemptTable(t)
    ensures forall p :: 0 <= p <= |s| ==> t[p] == MatchAt(pat, s, p)
  {
    seq(|s| + 1, p requires 0 <= p <= |s| => MatchAt(pat, s, p))
  }

  /** Go's search for all matches, continued from `pos`: the leftmost match at
      or after `pos`, then the search goes on from its end. The matches lie at
      or after `pos` and come in document order without overlapping. */
  function Scan(t: seq<Option<Match>>, pos: nat): (ms: seq<Match>)
    requires IsAttemptTable(t)
    ensures forall i :: 0 <= i < |ms| ==> pos <= ms[i].start < ms[i].end < |t|
    ensures forall i, j :: 0 <= i < j < |ms| ==> ms[i].end <= ms[j].start
    decreases |t| - pos
  {
    if pos >= |t| then []
    else
      match t[pos]
      case Some(m) => [m] + Scan(t, m.end)
      case None => Scan(t, pos + 1)
  }

  /** Every reported match is the attempt at its own start. */
  lemma {:induction false} ScanSound(t: seq<Option<Match>>, pos: nat)
    requires IsAttemptTable(t)
    ensures forall i :: 0 <= i < |Scan(t, pos)| ==> t[Scan(t, pos)[i].start] == Some(Scan(t, pos)[i])
    decreases |t| - pos
  {
    if pos < |t| {
      match t[pos]
      case None =>
        ScanSound(t, pos + 1);
      case Some(m) =>
        ScanSound(t, m.end);
        var rest := Scan(t, m.end);
        assert Scan(t, pos) == [m] + rest;
    }
  }

  /** `p` lies strictly inside one of the matches `ms`. */
  predicate InsideSome(ms: seq<Match>, p: nat) {
    exists i :: 0 <= i < |ms| && ms[i].start < p < ms[i].end
  }

  /** `p` is the start of one of the matches `ms`. */
  predicate StartsSome(ms: seq<Match>, p: nat) {
    exists i :: 0 <= i < |ms| && ms[i].start == p
  }

  /** Leftmost non-overlapping: every position where the pattern matches and
      that is not swallowed by an earlier match starts a reported match. */
  lemma {:induction false} ScanComplete(t: seq<Option<Match>>, pos: nat, p: nat)
    requires IsAttemptTable(t)
    requires pos <= p < |t| && t[p].Some?
    requires !InsideSome(Scan(t, pos), p)
    ensures StartsSome(Scan(t, pos), p)
    decreases |t| - pos
  {
    match t[pos]
    case None =>
      ScanComplete(t, pos + 1, p);
    case Some(m) =>
      var rest := Scan(t, m.end);
      if p == pos {
        assert Scan(t, pos)[0].start == p;
      } else {
        ConsInside(m, rest, p);
        ScanComplete(t, m.end, p);
        ConsStarts(m, rest, p);
      }
  }

  lemma ConsInside(m: Match, rest: seq<Match>, p: nat)
    requires !InsideSome([m] + rest, p)
    ensures m.end <= p || p <= m.start
    ensures !InsideSome(rest, p)
  {
    var ms := [m] + rest;
    assert ms[0] == m;
    forall i | 0 <= i < |rest| ensures !(rest[i].start < p < rest[i].end) {
      assert rest[i] == ms[i + 1];
    }
  }

  lemma ConsStarts(m: Match, rest: seq<Match>, p: nat)
    requires StartsSome(rest, p)
    ensures StartsSome([m] + rest, p)
  {
    var i :| 0 <= i < |rest| && rest[i].start == p;
    assert ([m] + rest)[i + 1] == rest[i];
  }

  /** Go's `FindAllStringSubmatch(s, -1)`. */
  function FindAll(pat: Pattern, s: string): seq<Match> {
    Scan(Attempts(pat, s), 0)
  }

  /** Go's `FindStringSubmatch`: the leftmost match. */
  function FindFirst(pat: Pattern, s: string): Option<Match> {
    var ms := FindAll(pat, s);
    if ms == [] then None else Some(ms[0])
  }

  /** Go's `MatchString`. */
  predicate MatchString(pat: Pattern, s: string) {
    FindFirst(pat, s).Some?
  }

  /** Every match `FindAll` reports is a real match of the pattern at its start. */
  lemma FindAllSound(pat: Pattern, s: string)
    ensures forall i :: 0 <= i < |FindAll(pat, s)| ==>
      FindAll(pat, s)[i].start <= |s| &&
      MatchAt(pat, s, FindAll(pat, s)[i].start) == Some(FindAll(pat, s)[i])
  {
    ScanSound(Attempts(pat, s), 0);
  }

  /** Every position where the pattern matches, outside the reported matches,
      starts a reported match. */
  lemma FindAllComplete(pat: Pattern, s: string, p: nat)
    requires p <= |s| && MatchAt(pat, s, p).Some?
    requires !InsideSome(FindAll(pat, s), p)
    ensures StartsSome(FindAll(pat, s), p)
  {
    ScanComplete(Attempts(pat, s), 0, p);
  }

  /** `MatchString` holds exactly when the pattern matches somewhere. */
  lemma MatchStringIff(pat: Pattern, s: string)
    ensures MatchString(pat, s) <==> exists p :: 0 <= p <= |s| && MatchAt(pat, s, p).Some?
  {
    FindAllSound(pat, s);
    if p :| 0 <= p <= |s| && MatchAt(pat, s, p).Some? {
      if FindAll(pat, s) == [] {
        FindAllComplete(pat, s, p);
      }
    }
  }

  /** Past position 0 `^\s*(\w+)` cannot match, so its whole search is the
      attempt at position 0. */
  lemma LeadingFieldFirst(s: string)
    ensures FindFirst(LeadingField, s) == MatchAt(LeadingField, s, 0)
  {
    FindAllSound(LeadingField, s);
  }

  /** What `^\s*(\w+)` captures: the token after the leading white space,
      taken as far as it goes. */
  lemma LeadingFieldShape(s: string)
    requires MatchAt(LeadingField, s, 0).Some?
    ensures var w := MatchAt(LeadingField, s, 0).value.groups[1];
      exists a :: 0 <= a && a + |w| <= |s| && LeadsWith(s, a, w)
  {
    var a := SkipSpace(s, 0);
    assert LeadsWith(s, a, MatchAt(LeadingField, s, 0).value.groups[1]);
  }

  /** `s` is `a` white-space characters, then the token `w`, then something
      that does not continue the token. */
  predicate LeadsWith(s: string, a: nat, w: string)
    requires a + |w| <= |s|
  {
    SpaceRun(s, 0, a) &&
    IsToken(w) && s[a..a + |w|] == w &&
    (a + |w| == |s| || !IsWord(s[a + |w|]))
  }

  /** A token captured by a pattern is a substring of the text. */
  lemma OccursContains(s: string, w: string, c: nat)
    requires OccursAt(s, w, c)
    ensures Contains(s, w)
  {
    ContainsIff(s, w);
  }

  /** What a named-operation match is made of: from the start of a line,
      white space, the captured keyword `query` or `mutation` as it occurs,
      at least one white-space character, then the captured name, a token
      taken as far as it goes, which ends the match. */
  predicate NamedMatchShape(s: string, m: Match) {
    |m.groups| == 3 && m.end <= |s| && AtLineStart(s, m.start) &&
    (m.groups[1] == "query" || m.groups[1] == "mutation") && IsToken(m.groups[2]) &&
    exists a: nat, c: nat :: m.start <= a && a + |m.groups[1]| < c && SpaceRun(s, m.start, a) &&
      OccursAt(s, m.groups[1], a) && SpaceRun(s, a + |m.groups[1]|, c) && OccursAt(s, m.groups[2], c) &&
      m.end == c + |m.groups[2]| && (m.end == |s| || !IsWord(s[m.end]))
  }

  /** What `(?m)^\s*(query|mutation)\s+(\w+)` reports: the keyword after the
      leading white space, and the token after it, which occurs in the text. */
  lemma NamedOperationShape(s: string, p: nat)
    requires p <= |s| && MatchAt(NamedOperation, s, p).Some?
    ensures var m := MatchAt(NamedOperation, s, p).value;
      NamedMatchShape(s, m) && Contains(s, m.groups[2])
  {
    assert MatchAt(NamedOperation, s, p) == NamedOperationAt(s, p);
    var m := MatchAt(NamedOperation, s, p).value;
    var a := SkipSpace(s, p);
    var op := m.groups[1];
    var c := SkipSpace(s, a + |op|);
    var d := SkipWord(s, c);
    assert m == Match(p, d, [s[p..d], op, s[c..d]]);
    assert OccursAt(s, m.groups[2], c);
    assert NamedMatchShape(s, m) by {
      assert SpaceRun(s, p, a) && SpaceRun(s, a + |op|, c);
      assert a + |op| < c && m.end == c + |m.groups[2]|;
    }
    OccursContains(s, m.groups[2], c);
  }

  /** A `{` at `b`, then white space, then the token `w` taken as far as it
      goes. */
  predicate TokenAfterBrace(s: string, b: nat, w: string) {
    b < |s| && s[b] == '{' && IsToken(w) &&
    exists a :: b < a && a + |w| <= |s| && SpaceRun(s, b + 1, a) && OccursAt(s, w, a) &&
      (a + |w| == |s| || !IsWord(s[a + |w|]))
  }

  /** What `\{\s*(\w+)` reports: a `{`, then only white space and the captured
      token, which ends the match; in particular no further `{`. */
  lemma SelectionFieldShape(s: string, p: nat)
    requires p <= |s| && MatchAt(SelectionField, s, p).Some?
    ensures var m := MatchAt(SelectionField, s, p).value;
      TokenAfterBrace(s, p, m.groups[1]) && OccursAt(s, m.groups[1], m.end - |m.groups[1]|) &&
      Contains(s, m.groups[1]) && forall k :: p < k < m.end ==> s[k] != '{'
  {
    var m := MatchAt(SelectionField, s, p).value;
    var a := SkipSpace(s, p + 1);
    var d := SkipWord(s, a);
    assert m.groups[1] == s[a..d];
    assert OccursAt(s, m.groups[1], a);
    assert SpaceRun(s, p + 1, a);
    OccursContains(s, m.groups[1], a);
  }

  /** The two anonymous-operation patterns end in a `{`, so they need one. */
  lemma AnonymousNeedsBrace(pat: Pattern, s: string)
    requires pat == AnonymousQuery || pat == AnonymousMutation
    requires MatchString(pat, s)
    ensures '{' in s
  {
    FindAllSound(pat, s);
    var m := FindFirst(pat, s).value;
    assert MatchAt(pat, s, m.start) == Some(m);
    assert s[m.end - 1] == '{';
  }

  // ---------------------------------------------------------------------
  // When each pattern matches, stated without the scanners

  /** `\s+(\w+)` can follow `kw` at `a`: the keyword, at least one white-space
      character, then a word character. */
  predicate NamedAfter(s: string, a: nat, kw: string) {
    exists c :: a + |kw| < c < |s| && OccursAt(s, kw, a) && SpaceRun(s, a + |kw|, c) && IsWord(s[c])
  }

  /** `(?m)^\s*(query|mutation)\s+(\w+)` matches at `p` exactly when `p`
      starts a line and, after white space, `query` or `mutation` is followed
      by white space and a word character. */
  lemma NamedOperationIff(s: string, p: nat)
    requires p <= |s|
    ensures MatchAt(NamedOperation, s, p).Some? <==>
      AtLineStart(s, p) &&
      exists a :: p <= a <= |s| && SpaceRun(s, p, a) && (NamedAfter(s, a, "query") || NamedAfter(s, a, "mutation"))
  {
    assert MatchAt(NamedOperation, s, p) == NamedOperationAt(s, p);
    if NamedOperationAt(s, p).Some? {
      NamedOperationOnlyIf(s, p);
    }
    if AtLineStart(s, p) && exists a :: p <= a <= |s| && SpaceRun(s, p, a) && (NamedAfter(s, a, "query") || NamedAfter(s, a, "mutation")) {
      var a :| p <= a <= |s| && SpaceRun(s, p, a) && (NamedAfter(s, a, "query") || NamedAfter(s, a, "mutation"));
      NamedOperationIf(s, p, a, if NamedAfter(s, a, "query") then "query" else "mutation");
    }
  }

  lemma NamedOperationIf(s: string, p: nat, a: nat, kw: string)
    requires kw == "query" || kw == "mutation"
    requires AtLineStart(s, p) && p <= a <= |s| && SpaceRun(s, p, a) && NamedAfter(s, a, kw)
    ensures NamedOperationAt(s, p).Some?
  {
    NamedAfterIs(s, p, a, kw);
  }

  lemma NamedOperationOnlyIf(s: string, p: nat)
    requires p <= |s| && NamedOperationAt(s, p).Some?
    ensures var a := SkipSpace(s, p);
      SpaceRun(s, p, a) && NamedAfter(s, a, OperationKeyword(s, a))
  {
    var a := SkipSpace(s, p);
    var op := OperationKeyword(s, a);
    var c := SkipSpace(s, a + |op|);
    assert SpaceRun(s, a + |op|, c);
  }

  lemma NamedAfterIs(s: string, p: nat, a: nat, kw: string)
    requires kw == "query" || kw == "mutation"
    requires p <= a <= |s| && SpaceRun(s, p, a) && NamedAfter(s, a, kw)
    ensures SkipSpace(s, p) == a && OperationKeyword(s, a) == kw
    ensures SkipSpace(s, a + |kw|) > a + |kw|
    ensures SkipWord(s, SkipSpace(s, a + |kw|)) > SkipSpace(s, a + |kw|)
  {
    var c :| a + |kw| < c < |s| && OccursAt(s, kw, a) && SpaceRun(s, a + |kw|, c) && IsWord(s[c]);
    KeywordNotSpace(s, a, kw);
    SkipSpaceIs(s, p, a);
    SkipSpaceIs(s, a + |kw|, c);
    assert SkipWord(s, c) == SkipWord(s, c + 1);
  }

  lemma KeywordNotSpace(s: string, a: nat, kw: string)
    requires kw == "query" || kw == "mutation"
    requires OccursAt(s, kw, a)
    ensures a < |s| && !IsSpace(s[a])
  {
    assert s[a] == s[a..a + |kw|][0] == kw[0];
  }

  /** `(?m)^\s*\{` matches at `p` exactly when `p` starts a line and a `{`
      follows after white space. */
  lemma AnonymousQueryIff(s: string, p: nat)
    requires p <= |s|
    ensures MatchAt(AnonymousQuery, s, p).Some? <==>
      AtLineStart(s, p) && exists a :: p <= a < |s| && SpaceRun(s, p, a) && s[a] == '{'
  {
    if MatchAt(AnonymousQuery, s, p).Some? {
      assert SpaceRun(s, p, SkipSpace(s, p));
    }
    if exists a :: p <= a < |s| && SpaceRun(s, p, a) && s[a] == '{' {
      var a :| p <= a < |s| && SpaceRun(s, p, a) && s[a] == '{';
      SkipSpaceIs(s, p, a);
    }
  }

  /** `mutation\s*\{` can follow at `a`. */
  predicate BraceAfterMutation(s: string, a: nat) {
    exists b :: a + 8 <= b < |s| && OccursAt(s, "mutation", a) && SpaceRun(s, a + 8, b) && s[b] == '{'
  }

  /** `(?m)^\s*mutation\s*\{` matches at `p` exactly when `p` starts a line
      and, after white space, `mutation` is followed by white space and a `{`. */
  lemma AnonymousMutationIff(s: string, p: nat)
    requires p <= |s|
    ensures MatchAt(AnonymousMutation, s, p).Some? <==>
      AtLineStart(s, p) && exists a :: p <= a <= |s| && SpaceRun(s, p, a) && BraceAfterMutation(s, a)
  {
    assert MatchAt(AnonymousMutation, s, p) == AnonymousMutationAt(s, p);
    if AnonymousMutationAt(s, p).Some? {
      AnonymousMutationOnlyIf(s, p);
    }
    if AtLineStart(s, p) && exists a :: p <= a <= |s| && SpaceRun(s, p, a) && BraceAfterMutation(s, a) {
      var a :| p <= a <= |s| && SpaceRun(s, p, a) && BraceAfterMutation(s, a);
      AnonymousMutationIf(s, p, a);
    }
  }

  lemma AnonymousMutationIf(s: string, p: nat, a: nat)
    requires AtLineStart(s, p) && p <= a <= |s| && SpaceRun(s, p, a) && BraceAfterMutation(s, a)
    ensures AnonymousMutationAt(s, p).Some?
  {
    BraceAfterMutationIs(s, p, a);
  }

  lemma AnonymousMutationOnlyIf(s: string, p: nat)
    requires p <= |s| && AnonymousMutationAt(s, p).Some?
    ensures SpaceRun(s, p, SkipSpace(s, p)) && BraceAfterMutation(s, SkipSpace(s, p))
  {
    var a := SkipSpace(s, p);
    assert SpaceRun(s, a + 8, SkipSpace(s, a + 8));
  }

  lemma BraceAfterMutationIs(s: string, p: nat, a: nat)
    requires p <= a <= |s| && SpaceRun(s, p, a) && BraceAfterMutation(s, a)
    ensures SkipSpace(s, p) == a && OccursAt(s, "mutation", a)
    ensures var b := SkipSpace(s, a + 8); b < |s| && s[b] == '{'
  {
    var b :| a + 8 <= b < |s| && OccursAt(s, "mutation", a) && SpaceRun(s, a + 8, b) && s[b] == '{';
    assert s[a] == s[a..a + 8][0] == 'm';
    SkipSpaceIs(s, p, a);
    SkipSpaceIs(s, a + 8, b);
  }

  /** `\{\s*(\w+)` matches at `p` exactly when `p` holds a `{` followed, after
      white space, by a word character. */
  lemma SelectionFieldIff(s: string, p: nat)
    requires p <= |s|
    ensures MatchAt(SelectionField, s, p).Some? <==>
      p < |s| && s[p] == '{' && exists a :: p < a < |s| && SpaceRun(s, p + 1, a) && IsWord(s[a])
  {
    if MatchAt(SelectionField, s, p).Some? {
      assert SpaceRun(s, p + 1, SkipSpace(s, p + 1));
    }
    if p < |s| && s[p] == '{' && exists a :: p < a < |s| && SpaceRun(s, p + 1, a) && IsWord(s[a]) {
      var a :| p < a < |s| && SpaceRun(s, p + 1, a) && IsWord(s[a]);
      SkipSpaceIs(s, p + 1, a);
    }
  }

  /** `^\s*(\w+)` without `(?m)` matches only at the start of the text, and
      there exactly when the leading white space is followed by a `\w`. */
  lemma LeadingFieldIff(s: string, p: nat)
    requires p <= |s|
    ensures MatchAt(LeadingField, s, p).Some? <==>
      p == 0 && exists a :: 0 <= a < |s| && SpaceRun(s, 0, a) && IsWord(s[a])
  {
    assert MatchAt(LeadingField, s, p) == LeadingFieldAt(s, p);
    if MatchAt(LeadingField, s, p).Some? {
      assert SpaceRun(s, 0, SkipSpace(s, 0));
    }
    if p == 0 && exists a :: 0 <= a < |s| && SpaceRun(s, 0, a) && IsWord(s[a]) {
      var a :| 0 <= a < |s| && SpaceRun(s, 0, a) && IsWord(s[a]);
      SkipSpaceIs(s, 0, a);
      assert SkipWord(s, a) == SkipWord(s, a + 1);
    }
  }
}
