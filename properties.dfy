/** What `extractOperations` promises, stated over the functions that specify
    it: which stage decides, how many names each stage can give, and what a
    reported name looks like. */
module Properties {
  import opened Strings
  import opened Regexp
  import opened Comments
  import opened Keywords
  import opened Extractor

  // ---------------------------------------------------------------------
  // Comments

  /** Comments never influence the result: stripping happens before any
      matching, and stripping twice is stripping once. */
  lemma ExtractIgnoresComments(s: string)
    ensures Extract(RemoveComments(s)) == Extract(s)
  {
    Idempotent(s);
  }

  // ---------------------------------------------------------------------
  // Named operations

  /** Every named-operation match starts a line and is made of white space,
      the keyword `query` or `mutation`, white space and the longest token
      after it, which is its name and occurs in the text; a `subscription`
      never matches. */
  lemma NamedMatches(t: string)
    ensures forall i :: 0 <= i < |FindAll(NamedOperation, t)| ==>
      var m := FindAll(NamedOperation, t)[i];
      NamedMatchShape(t, m) && Contains(t, m.groups[2])
  {
    var ms := FindAll(NamedOperation, t);
    FindAllSound(NamedOperation, t);
    forall i | 0 <= i < |ms|
      ensures NamedMatchShape(t, ms[i]) && Contains(t, ms[i].groups[2])
    {
      NamedOperationShape(t, ms[i].start);
    }
  }

  /** All matches whose keyword is `query` or `mutation`. */
  predicate AllNamed(ms: seq<Match>) {
    forall i :: 0 <= i < |ms| ==> |ms[i].groups| >= 3 && (ms[i].groups[1] == "query" || ms[i].groups[1] == "mutation")
  }

  /** Each such match gives exactly one name to exactly one of the two lists. */
  lemma {:induction false} NamesForCount(ms: seq<Match>)
    requires AllNamed(ms)
    ensures |NamesFor(ms, "query")| + |NamesFor(ms, "mutation")| == |ms|
    decreases |ms|
  {
    if ms != [] {
      var init := ms[..|ms| - 1];
      assert AllNamed(init) by {
        forall i | 0 <= i < |init| ensures init[i] == ms[i] { }
      }
      NamesForCount(init);
    }
  }

  /** A name is in the list for `opType` exactly when some match with that
      keyword captured it. */
  lemma {:induction false} NamesForMember(ms: seq<Match>, opType: string, w: string)
    ensures w in NamesFor(ms, opType) <==>
      exists i :: 0 <= i < |ms| && |ms[i].groups| >= 3 && ms[i].groups[1] == opType && ms[i].groups[2] == w
    decreases |ms|
  {
    if ms != [] {
      var init, last := ms[..|ms| - 1], ms[|ms| - 1];
      NamesForMember(init, opType, w);
      if exists i :: 0 <= i < |ms| && |ms[i].groups| >= 3 && ms[i].groups[1] == opType && ms[i].groups[2] == w {
        var i :| 0 <= i < |ms| && |ms[i].groups| >= 3 && ms[i].groups[1] == opType && ms[i].groups[2] == w;
        if i < |ms| - 1 {
          assert init[i] == ms[i];
        }
      }
      if exists i :: 0 <= i < |init| && |init[i].groups| >= 3 && init[i].groups[1] == opType && init[i].groups[2] == w {
        var i :| 0 <= i < |init| && |init[i].groups| >= 3 && init[i].groups[1] == opType && init[i].groups[2] == w;
        assert ms[i] == init[i];
      }
    }
  }

  /** Names are collected in match order: the names of an earlier run of
      matches come before those of a later one. */
  lemma {:induction false} NamesForAppend(ms: seq<Match>, ns: seq<Match>, opType: string)
    ensures NamesFor(ms + ns, opType) == NamesFor(ms, opType) + NamesFor(ns, opType)
    decreases |ns|
  {
    if ns == [] {
      assert ms + ns == ms;
    } else {
      var init := ns[..|ns| - 1];
      assert (ms + ns)[..|ms + ns| - 1] == ms + init;
      assert (ms + ns)[|ms + ns| - 1] == ns[|ns| - 1];
      NamesForAppend(ms, init, opType);
    }
  }

  /** The named stage reports one name per match, none of them dropped,
      deduplicated or filtered as a keyword. */
  lemma NamedStageCount(t: string)
    ensures |NamedStage(t).queries| + |NamedStage(t).mutations| == |FindAll(NamedOperation, t)|
  {
    NamedMatches(t);
    NamesForCount(FindAll(NamedOperation, t));
  }

  /** Every name the named stage reports is a token of the text. */
  lemma NamedStageTokens(t: string, w: string)
    requires w in NamedStage(t).queries || w in NamedStage(t).mutations
    ensures IsToken(w) && Contains(t, w)
  {
    var ms := FindAll(NamedOperation, t);
    NamedMatches(t);
    NamesForMember(ms, "query", w);
    NamesForMember(ms, "mutation", w);
  }

  /** If at least one named operation matched, the result is exactly the two
      named-operation lists and the later stages do not run. */
  lemma NamedWins(query: string)
    requires FindAll(NamedOperation, RemoveComments(query)) != []
    ensures Extract(query) == NamedStage(RemoveComments(query))
  {
    NamedStageCount(RemoveComments(query));
  }

  // ---------------------------------------------------------------------
  // Anonymous operations

  lemma {:induction false} FirstAcceptedShift(m: Match, rest: seq<Match>, i: nat)
    ensures FirstAccepted([m] + rest, i + 1) == FirstAccepted(rest, i)
    decreases |rest| - i
  {
    if i < |rest| {
      assert ([m] + rest)[i + 1] == rest[i];
      FirstAcceptedShift(m, rest, i + 1);
    }
  }

  /** Positions without a `{` cannot start a `\{\s*(\w+)` match. */
  lemma {:induction false} BraceNameSkip(t: string, p: nat, q: nat)
    requires p <= q <= |t|
    requires forall k :: p <= k < q ==> t[k] != '{'
    ensures FirstBraceName(t, p) == FirstBraceName(t, q)
    decreases q - p
  {
    if p < q {
      assert MatchAt(SelectionField, t, p).None?;
      BraceNameSkip(t, p + 1, q);
    }
  }

  /** Scanning the leftmost non-overlapping matches from `pos` finds the same
      first accepted name as trying every position from `pos`: a match never
      covers a `{` after its own, so nothing it swallows could have matched. */
  lemma {:induction false} ScanBraceName(t: string, pos: nat)
    ensures FirstAccepted(Scan(Attempts(SelectionField, t), pos), 0) == FirstBraceName(t, pos)
    decreases |t| + 1 - pos
  {
    var a := Attempts(SelectionField, t);
    if pos <= |t| {
      assert a[pos] == MatchAt(SelectionField, t, pos);
      match a[pos]
      case None =>
        ScanBraceName(t, pos + 1);
        assert Scan(a, pos) == Scan(a, pos + 1);
      case Some(m) =>
        var rest := Scan(a, m.end);
        assert Scan(a, pos) == [m] + rest;
        if Accepted(m) {
          assert FirstAccepted([m] + rest, 0) == [m.groups[1]];
        } else {
          assert FirstBraceName(t, pos) == FirstBraceName(t, pos + 1);
          assert ([m] + rest)[0] == m;
          assert FirstAccepted([m] + rest, 0) == FirstAccepted([m] + rest, 1);
          FirstAcceptedShift(m, rest, 0);
          ScanBraceName(t, m.end);
          assert pos < m.end <= |t| && forall k :: pos + 1 <= k < m.end ==> t[k] != '{' by {
            SelectionFieldShape(t, pos);
          }
          BraceNameSkip(t, pos + 1, m.end);
        }
    }
  }

  /** The anonymous name is the first non-keyword capture of `\{\s*(\w+)`
      over the whole text, as if the pattern were tried at every position. */
  lemma AnonymousFirstBrace(t: string)
    ensures FirstAccepted(FindAll(SelectionField, t), 0) == FirstBraceName(t, 0)
  {
    ScanBraceName(t, 0);
  }

  /** The brace name is at most one word: a token of the text that follows,
      after white space, a `{` at or after `p`, and is not a keyword. */
  lemma {:induction false} BraceNameShape(t: string, p: nat)
    ensures |FirstBraceName(t, p)| <= 1
    ensures forall w :: w in FirstBraceName(t, p) ==>
      '{' in t && IsToken(w) && Contains(t, w) && !IsGraphQLKeyword(w) &&
      exists b :: p <= b < |t| && TokenAfterBrace(t, b, w)
    decreases |t| + 1 - p
  {
    if p <= |t| {
      var r := MatchAt(SelectionField, t, p);
      if r.Some? && Accepted(r.value) {
        SelectionFieldShape(t, p);
        assert TokenAfterBrace(t, p, r.value.groups[1]);
      } else {
        BraceNameShape(t, p + 1);
      }
    }
  }

  /** The anonymous stage: a line-start `mutation {` wins over a line-start
      `{`, and what either reports is the first brace name of the text. */
  lemma AnonymousStageIs(t: string)
    ensures AnonymousStage(t) ==
      if MatchString(AnonymousMutation, t) then Operations([], FirstBraceName(t, 0))
      else if MatchString(AnonymousQuery, t) then Operations(FirstBraceName(t, 0), [])
      else NoOperations
  {
    AnonymousFirstBrace(t);
  }

  /** The anonymous stage yields at most one name in total, and only when the
      text has a `{`. */
  lemma AnonymousAtMostOne(t: string)
    ensures |AnonymousStage(t).queries| + |AnonymousStage(t).mutations| <= 1
    ensures AnonymousStage(t) != NoOperations ==> '{' in t
  {
    AnonymousStageIs(t);
    BraceNameShape(t, 0);
    if AnonymousStage(t) != NoOperations {
      var w := if AnonymousStage(t).queries != [] then AnonymousStage(t).queries[0] else AnonymousStage(t).mutations[0];
      assert w in FirstBraceName(t, 0);
    }
  }

  // ---------------------------------------------------------------------
  // Root fields

  /** An accepted line has, after its leading white space, a token that is
      not a keyword and that is taken as far as it goes. */
  lemma LeadingNameShape(line: string)
    requires LeadingName(line).Some?
    ensures var w := LeadingName(line).value;
      !IsGraphQLKeyword(w) && exists a: nat :: a + |w| <= |line| && LeadsWith(line, a, w)
  {
    var a := SkipSpace(line, 0);
    var d := SkipWord(line, a);
    var w := LeadingName(line).value;
    assert w == line[a..d];
    assert forall k :: 0 <= k < |w| ==> w[k] == line[a + k];
    assert LeadsWith(line, a, w);
  }

  /** Conversely, such a token is the line's name. */
  lemma LeadingNameOf(line: string, a: nat, w: string)
    requires a + |w| <= |line| && LeadsWith(line, a, w) && !IsGraphQLKeyword(w)
    ensures LeadingName(line) == Some(w)
  {
    assert forall k :: 0 <= k < |w| ==> line[a + k] == w[k];
    assert !IsSpace(line[a]);
    SkipSpaceIs(line, 0, a);
    SkipWordIs(line, a, a + |w|);
  }

  /** No accepted line from `i` on exactly when there is nothing to report. */
  lemma {:induction false} FirstLeadingNone(lines: seq<string>, i: nat)
    ensures FirstLeading(lines, i) == [] <==>
      forall k :: i <= k < |lines| ==> LeadingName(lines[k]).None?
    decreases |lines| - i
  {
    if i < |lines| {
      FirstLeadingNone(lines, i + 1);
    }
  }

  /** The first accepted line from `i` on gives the one reported name. */
  lemma {:induction false} FirstLeadingFirst(lines: seq<string>, i: nat, j: nat)
    requires i <= j < |lines| && LeadingName(lines[j]).Some?
    requires forall k :: i <= k < j ==> LeadingName(lines[k]).None?
    ensures FirstLeading(lines, i) == [LeadingName(lines[j]).value]
    decreases j - i
  {
    if i < j {
      FirstLeadingFirst(lines, i + 1, j);
    }
  }

  /** Conversely, whatever is reported comes from the first accepted line. */
  lemma {:induction false} FirstLeadingSome(lines: seq<string>, i: nat)
    requires FirstLeading(lines, i) != []
    ensures exists j :: (i <= j < |lines| && LeadingName(lines[j]).Some? &&
      (forall k :: i <= k < j ==> LeadingName(lines[k]).None?) &&
      FirstLeading(lines, i) == [LeadingName(lines[j]).value])
    decreases |lines| - i
  {
    if LeadingName(lines[i]).None? {
      FirstLeadingSome(lines, i + 1);
      var j :| i + 1 <= j < |lines| && LeadingName(lines[j]).Some? &&
        (forall k :: i + 1 <= k < j ==> LeadingName(lines[k]).None?) &&
        FirstLeading(lines, i + 1) == [LeadingName(lines[j]).value];
      assert forall k :: i <= k < j ==> LeadingName(lines[k]).None?;
    }
  }

  /** The search for `{` starts just after the first occurrence of the word. */
  lemma StartIndexFirst(t: string, opType: string, i: nat)
    requires OccursAt(t, StartWord(opType), i)
    requires forall j :: 0 <= j < i ==> !OccursAt(t, StartWord(opType), j)
    ensures StartIndex(t, opType) == i + |StartWord(opType)|
  {
    IndexIs(t, StartWord(opType), i);
  }

  /** It starts at 0 when the word does not occur. */
  lemma StartIndexAbsent(t: string, opType: string)
    requires forall j :: 0 <= j <= |t| ==> !OccursAt(t, StartWord(opType), j)
    ensures StartIndex(t, opType) == 0
  {
    ContainsIff(t, StartWord(opType));
  }

  /** `extractRootFields` returns nothing when no `{` follows the start. */
  lemma RootFieldsNoBrace(t: string, opType: string)
    requires '{' !in t[StartIndex(t, opType)..]
    ensures RootFields(t, opType) == []
  {
    var start := StartIndex(t, opType);
    ContainsChar(t[start..], '{');
    FieldsAfterNoBrace(t, start);
  }

  /** Otherwise it reads the lines after the first `{` at or after the start. */
  lemma FieldsAfterFirstBrace(t: string, start: nat, b: nat)
    requires start <= b < |t| && t[b] == '{'
    requires forall k :: start <= k < b ==> t[k] != '{'
    ensures FieldsAfter(t, start) == FieldsOf(t[b + 1..])
  {
    assert Index(t[start..], "{") == b - start by {
      FirstBraceAt(t, start, b);
    }
    FieldsAfterBrace(t, start, b - start, b + 1);
  }

  lemma FirstBraceAt(t: string, start: nat, b: nat)
    requires start <= b < |t| && t[b] == '{'
    requires forall k :: start <= k < b ==> t[k] != '{'
    ensures Index(t[start..], "{") == b - start
  {
    IndexOfChar(t[start..], '{', b - start);
  }

  lemma RootFieldsFirstBrace(t: string, opType: string, b: nat)
    requires StartIndex(t, opType) <= b < |t| && t[b] == '{'
    requires forall k :: StartIndex(t, opType) <= k < b ==> t[k] != '{'
    ensures RootFields(t, opType) == FieldsOf(t[b + 1..])
  {
    FieldsAfterFirstBrace(t, StartIndex(t, opType), b);
  }

  /** The lines after a brace give at most one token, never a keyword. */
  lemma FieldsOfShape(rest: string)
    ensures |FieldsOf(rest)| <= 1
    ensures forall w :: w in FieldsOf(rest) ==> IsToken(w) && !IsGraphQLKeyword(w)
  {
    var lines := SplitLines(rest);
    if FirstLeading(lines, 0) != [] {
      FirstLeadingSome(lines, 0);
      var j :| 0 <= j < |lines| && LeadingName(lines[j]).Some? &&
        FirstLeading(lines, 0) == [LeadingName(lines[j]).value];
      LeadingNameShape(lines[j]);
    }
  }

  /** The reported root fields are at most one token, never a keyword. */
  lemma RootFieldsShape(t: string, opType: string)
    ensures |RootFields(t, opType)| <= 1
    ensures forall w :: w in RootFields(t, opType) ==> IsToken(w) && !IsGraphQLKeyword(w)
  {
    var start := StartIndex(t, opType);
    var brace := Index(t[start..], "{");
    if brace >= 0 {
      FieldsAfterBrace(t, start, brace, start + brace + 1);
      FieldsOfShape(t[start + brace + 1..]);
    } else {
      FieldsAfterNoBrace(t, start);
    }
  }

  // ---------------------------------------------------------------------
  // The whole extractor

  /** Without a named operation the extractor reports at most one name, and
      that name is a token that is not a keyword. */
  lemma AtMostOneUnlessNamed(query: string)
    requires FindAll(NamedOperation, RemoveComments(query)) == []
    ensures |Extract(query).queries| + |Extract(query).mutations| <= 1
    ensures forall w :: w in Extract(query).queries + Extract(query).mutations ==>
      IsToken(w) && !IsGraphQLKeyword(w)
  {
    var t := RemoveComments(query);
    AnonymousAtMostOne(t);
    AnonymousStageIs(t);
    BraceNameShape(t, 0);
    RootFieldsShape(t, "mutation");
    RootFieldsShape(t, "query");
  }

  /** When neither named nor anonymous operations are found, the root fields
      fill the mutation list if the text mentions `mutation` anywhere (case
      sensitive) and the query list otherwise; the other list stays empty. */
  lemma FallbackChoice(query: string)
    requires FindAll(NamedOperation, RemoveComments(query)) == []
    requires AnonymousStage(RemoveComments(query)) == NoOperations
    ensures var t := RemoveComments(query);
      if Contains(t, "mutation") then Extract(query) == Operations([], RootFields(t, "mutation"))
      else Extract(query) == Operations(RootFields(t, "query"), [])
  {
  }

  /** A comment-stripped text with no `{` and no named operation gives two
      empty lists. */
  lemma NoBraceNoNamedEmpty(query: string)
    requires '{' !in RemoveComments(query)
    requires FindAll(NamedOperation, RemoveComments(query)) == []
    ensures Extract(query) == NoOperations
  {
    var t := RemoveComments(query);
    AnonymousAtMostOne(t);
    assert '{' !in t[StartIndex(t, "mutation")..];
    assert '{' !in t[StartIndex(t, "query")..];
    RootFieldsNoBrace(t, "mutation");
    RootFieldsNoBrace(t, "query");
  }

  // ---------------------------------------------------------------------
  // A single named operation

  /** `s` is `query` or `mutation`, white space, then a token, and nothing else. */
  predicate SingleNamed(kw: string, sep: string, w: string) {
    (kw == "query" || kw == "mutation") &&
    |sep| > 0 && SpaceRun(sep, 0, |sep|) &&
    IsToken(w)
  }

  /** The keyword alternative `(query|mutation)` picks `kw`, after no white space. */
  lemma SingleNamedKeyword(kw: string, sep: string, w: string)
    requires SingleNamed(kw, sep, w)
    ensures OperationKeyword(kw + sep + w, 0) == kw
    ensures SkipSpace(kw + sep + w, 0) == 0
  {
    var s := kw + sep + w;
    assert s[..|kw|] == kw;
    if kw == "mutation" {
      assert !OccursAt(s, "query", 0) by {
        assert s[0..5][0] == s[0] == 'm';
      }
    }
    assert s[0] == kw[0];
    SkipSpaceIs(s, 0, 0);
  }

  /** The whole text is the match, and the token its capture. */
  lemma SingleNamedSlices(kw: string, sep: string, w: string)
    ensures var s := kw + sep + w;
      s[0..|s|] == s && s[|kw| + |sep|..|s|] == w
  {
  }

  /** One successful attempt of the named-operation pattern, step by step. */
  lemma NamedOperationAtIs(s: string, a: nat, op: string, c: nat, d: nat)
    requires a <= |s| && SkipSpace(s, 0) == a
    requires op == OperationKeyword(s, a) && op != ""
    requires SkipSpace(s, a + |op|) == c && SkipWord(s, c) == d
    requires c != a + |op| && d != c
    ensures NamedOperationAt(s, 0) == Some(Match(0, d, [s[0..d], op, s[c..d]]))
  {
    assert AtLineStart(s, 0);
  }

  lemma SingleNamedAt(kw: string, sep: string, w: string)
    requires SingleNamed(kw, sep, w)
    ensures var s := kw + sep + w;
      NamedOperationAt(s, 0) == Some(Match(0, |s|, [s, kw, w]))
  {
    SingleNamedKeyword(kw, sep, w);
    SingleNamedRuns(kw, sep, w);
    SingleNamedSlices(kw, sep, w);
    NamedOperationAtIs(kw + sep + w, 0, kw, |kw| + |sep|, |kw + sep + w|);
  }

  /** The white space and the token of a single named operation are maximal runs. */
  lemma SingleNamedRuns(kw: string, sep: string, w: string)
    requires SingleNamed(kw, sep, w)
    ensures var s := kw + sep + w;
      SkipSpace(s, |kw|) == |kw| + |sep| && SkipWord(s, |kw| + |sep|) == |s|
  {
    var s := kw + sep + w;
    var b, c := |kw|, |kw| + |sep|;
    assert forall k :: b <= k < c ==> s[k] == sep[k - b];
    assert forall k :: c <= k < |s| ==> s[k] == w[k - c];
    assert !IsSpace(s[c]);
    SkipSpaceIs(s, b, c);
    SkipWordIs(s, c, |s|);
  }

  lemma SingleNamedFindAll(kw: string, sep: string, w: string)
    requires SingleNamed(kw, sep, w)
    ensures var s := kw + sep + w;
      FindAll(NamedOperation, s) == [Match(0, |s|, [s, kw, w])]
  {
    var s := kw + sep + w;
    var t := Attempts(NamedOperation, s);
    SingleNamedAt(kw, sep, w);
    assert t[0] == Some(Match(0, |s|, [s, kw, w]));
    assert s[|s| - 1] == w[|w| - 1];
    assert t[|s|] == None;
    assert Scan(t, |s|) == [];
  }

  /** A text holding only `query` or `mutation`, white space and a token
      reports that token for that keyword: the white space may be a newline,
      no `{` is needed, and the token may itself be a keyword. */
  lemma SingleNamedOperation(kw: string, sep: string, w: string)
    requires SingleNamed(kw, sep, w)
    ensures Extract(kw + sep + w) ==
      if kw == "query" then Operations([w], []) else Operations([], [w])
  {
    var s := kw + sep + w;
    SingleNamedHashFree(kw, sep, w);
    HashFreeUnchanged(s);
    SingleNamedStage(kw, sep, w);
  }

  lemma SingleNamedHashFree(kw: string, sep: string, w: string)
    requires SingleNamed(kw, sep, w)
    ensures '#' !in kw + sep + w
  {
    var s := kw + sep + w;
    assert forall k :: |kw| <= k < |kw| + |sep| ==> s[k] == sep[k - |kw|];
    assert forall k :: |kw| + |sep| <= k < |s| ==> s[k] == w[k - |kw| - |sep|];
    assert forall k :: 0 <= k < |s| ==> s[k] != '#';
  }

  lemma SingleNamedStage(kw: string, sep: string, w: string)
    requires SingleNamed(kw, sep, w)
    ensures NamedStage(kw + sep + w) ==
      if kw == "query" then Operations([w], []) else Operations([], [w])
  {
    var s := kw + sep + w;
    SingleNamedFindAll(kw, sep, w);
    var m := Match(0, |s|, [s, kw, w]);
    assert [m][..0] == [];
    assert NamesFor([m], "query") == NameFor(m, "query");
    assert NamesFor([m], "mutation") == NameFor(m, "mutation");
    assert NamedStage(s) == Operations(NameFor(m, "query"), NameFor(m, "mutation"));
  }

  /** `\s+` crosses a line break. */
  lemma NameOnNextLine()
    ensures Extract("query\nuser") == Operations(["user"], [])
  {
    assert "query\nuser" == "query" + "\n" + "user";
    SingleNamedOperation("query", "\n", "user");
  }

  /** A named operation needs no selection set. */
  lemma NoBraceNeeded()
    ensures Extract("mutation Foo") == Operations([], ["Foo"])
  {
    assert "mutation Foo" == "mutation" + " " + "Foo";
    SingleNamedOperation("mutation", " ", "Foo");
  }

  /** Named-operation names are not filtered as keywords. */
  lemma KeywordNameKept()
    ensures Extract("query query") == Operations(["query"], [])
  {
    assert "query query" == "query" + " " + "query";
    SingleNamedOperation("query", " ", "query");
  }

  // ---------------------------------------------------------------------
  // A subscription

  /** A pattern that matches nowhere finds nothing. */
  lemma NoMatchNoFind(pat: Pattern, t: string)
    requires forall p :: 0 <= p <= |t| ==> MatchAt(pat, t, p).None?
    ensures FindAll(pat, t) == []
  {
    ScanNone(Attempts(pat, t), 0);
  }

  lemma {:induction false} ScanNone(t: seq<Option<Match>>, pos: nat)
    requires IsAttemptTable(t)
    requires forall p :: pos <= p < |t| ==> t[p].None?
    ensures Scan(t, pos) == []
    decreases |t| - pos
  {
    if pos < |t| {
      ScanNone(t, pos + 1);
    }
  }

  /** On a single line, a line-anchored pattern can only match at 0. */
  lemma OneLineNoMatch(pat: Pattern, t: string)
    requires pat == NamedOperation || pat == AnonymousQuery || pat == AnonymousMutation
    requires '\n' !in t && MatchAt(pat, t, 0).None?
    ensures FindAll(pat, t) == []
  {
    forall p | 0 < p <= |t| ensures !AtLineStart(t, p) {
      assert t[p - 1] in t;
    }
    NoMatchNoFind(pat, t);
  }

  /** A word occurs only where its first letter does. */
  lemma FirstLetterIn(t: string, w: string)
    requires |w| > 0 && w[0] !in t
    ensures !Contains(t, w)
  {
    ContainsIff(t, w);
    forall i | 0 <= i <= |t| ensures !OccursAt(t, w, i) {
      if i + |w| <= |t| {
        assert t[i..i + |w|][0] == t[i];
      }
    }
  }

  const Subscription := "subscription S { f }"

  lemma SubscriptionNotNamed()
    ensures FindAll(NamedOperation, Subscription) == []
    ensures !MatchString(AnonymousMutation, Subscription)
    ensures !MatchString(AnonymousQuery, Subscription)
  {
    var t := Subscription;
    assert '\n' !in t;
    SkipSpaceIs(t, 0, 0);
    assert !OccursAt(t, "query", 0) && !OccursAt(t, "mutation", 0) by {
      assert t[0..5][0] == t[0..8][0] == 's';
    }
    OneLineNoMatch(NamedOperation, t);
    OneLineNoMatch(AnonymousMutation, t);
    OneLineNoMatch(AnonymousQuery, t);
  }

  /** Neither `mutation` nor `query` occurs, so the root fields are read
      after the first `{` of the text. */
  lemma SubscriptionRootFields()
    ensures !Contains(Subscription, "mutation")
    ensures RootFields(Subscription, "query") == FieldsOf(" f }")
  {
    SubscriptionStart();
    SubscriptionBrace();
    assert Subscription[16..] == " f }";
  }

  lemma SubscriptionStart()
    ensures !Contains(Subscription, "mutation")
    ensures StartIndex(Subscription, "query") == 0
  {
    var t := Subscription;
    assert 'm' !in t && 'q' !in t;
    FirstLetterIn(t, "mutation");
    FirstLetterIn(t, "query");
  }

  lemma SubscriptionBrace()
    requires StartIndex(Subscription, "query") == 0
    ensures RootFields(Subscription, "query") == FieldsOf(Subscription[16..])
  {
    var t := Subscription;
    assert t[15] == '{';
    assert forall k :: 0 <= k < 15 ==> t[k] != '{';
    RootFieldsFirstBrace(t, "query", 15);
  }

  lemma SubscriptionField()
    ensures FieldsOf(" f }") == ["f"]
  {
    var r := " f }";
    assert LineLength(r) == |r| by {
      assert '\n' !in r;
    }
    assert SplitLines(r) == [r];
    assert ToLower("f") == "f";
    LeadingNameOf(r, 1, "f");
    FirstLeadingFirst([r], 0, 0);
  }

  /** `subscription` is no named operation and `{` not at a line start is no
      anonymous one, so the fallback reports the first field as a query. */
  lemma SubscriptionFallsBack()
    ensures Extract(Subscription) == Operations(["f"], [])
  {
    assert '#' !in Subscription;
    HashFreeUnchanged(Subscription);
    SubscriptionNotNamed();
    SubscriptionRootFields();
    SubscriptionField();
  }
}
