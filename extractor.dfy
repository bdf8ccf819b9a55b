/** `extractOperations` and `extractRootFields`: the operation names of a
    GraphQL document, reported as a list of query names and a list of
    mutation names. The functions here specify each stage; the two methods
    follow the source's loops and are proved equal to them. */
module Extractor {
  import opened Strings
  import opened Regexp
  import opened Comments
  import opened Keywords

  /** The two lists `extractOperations` returns. */
  datatype Operations = Operations(queries: seq<string>, mutations: seq<string>)

  const NoOperations := Operations([], [])

  // ---------------------------------------------------------------------
  // Named operations: `(?m)^\s*(query|mutation)\s+(\w+)`

  /** The name a named-operation match adds to the list for `opType`. */
  function NameFor(m: Match, opType: string): seq<string> {
    if |m.groups| >= 3 && m.groups[1] == opType then [m.groups[2]] else []
  }

  /** The names of the matches whose keyword is `opType`, in match order. */
  function NamesFor(ms: seq<Match>, opType: string): seq<string>
    decreases |ms|
  {
    if ms == [] then [] else NamesFor(ms[..|ms| - 1], opType) + NameFor(ms[|ms| - 1], opType)
  }

  function NamedStage(text: string): Operations {
    var ms := FindAll(NamedOperation, text);
    Operations(NamesFor(ms, "query"), NamesFor(ms, "mutation"))
  }

  // ---------------------------------------------------------------------
  // Anonymous operations: `(?m)^\s*mutation\s*\{`, `(?m)^\s*\{`, `\{\s*(\w+)`

  /** A match whose first capture is not a keyword. */
  predicate Accepted(m: Match) {
    |m.groups| >= 2 && !IsGraphQLKeyword(m.groups[1])
  }

  /** The capture of the first accepted match from index `i` on, if any. */
  function FirstAccepted(ms: seq<Match>, i: nat): seq<string>
    decreases |ms| - i
  {
    if i >= |ms| then []
    else if Accepted(ms[i]) then [ms[i].groups[1]]
    else FirstAccepted(ms, i + 1)
  }

  function AnonymousStage(text: string): Operations {
    if MatchString(AnonymousMutation, text) then
      Operations([], FirstAccepted(FindAll(SelectionField, text), 0))
    else if MatchString(AnonymousQuery, text) then
      Operations(FirstAccepted(FindAll(SelectionField, text), 0), [])
    else NoOperations
  }

  /** Reference definition of the anonymous name: try `\{\s*(\w+)` at every
      position from `p` on and take the first non-keyword capture. */
  function FirstBraceName(text: string, p: nat): seq<string>
    decreases |text| + 1 - p
  {
    if p > |text| then []
    else
      var r := MatchAt(SelectionField, text, p);
      if r.Some? && Accepted(r.value) then [r.value.groups[1]]
      else FirstBraceName(text, p + 1)
  }

  // ---------------------------------------------------------------------
  // Root fields

  /** The word whose first occurrence the root-field search starts after. */
  function StartWord(opType: string): string {
    if opType == "mutation" then "mutation" else "query"
  }

  /** Where the search for `{` starts: just after the first `mutation` when
      `opType` is "mutation", otherwise just after the first `query`; the
      start of the text when that word does not occur. */
  function StartIndex(text: string, opType: string): (k: nat)
    ensures k <= |text|
  {
    var word := StartWord(opType);
    var idx := Index(text, word);
    if idx >= 0 then idx + |word| else 0
  }

  /** The `^\s*(\w+)` capture of a line when it is not a keyword. */
  function LeadingName(line: string): Option<string> {
    var m := LeadingFieldAt(line, 0);
    if m.Some? && !IsGraphQLKeyword(m.value.groups[1]) then Some(m.value.groups[1]) else None
  }

  /** The name of the first accepted line from index `i` on, if any. */
  function FirstLeading(lines: seq<string>, i: nat): seq<string>
    decreases |lines| - i
  {
    if i >= |lines| then []
    else match LeadingName(lines[i])
      case Some(w) => [w]
      case None => FirstLeading(lines, i + 1)
  }

  /** The root fields of the first selection set opened at or after `start`. */
  function FieldsAfter(text: string, start: nat): seq<string>
    requires start <= |text|
  {
    var brace := Index(text[start..], "{");
    if brace < 0 then [] else FieldsOf(text[start + brace + 1..])
  }

  /** The root field of the text after an opening brace. */
  function FieldsOf(rest: string): seq<string> {
    FirstLeading(SplitLines(rest), 0)
  }

  function RootFields(text: string, opType: string): seq<string> {
    FieldsAfter(text, StartIndex(text, opType))
  }

  // ---------------------------------------------------------------------
  // The whole extractor

  /** The named stage, and the anonymous stage when the named one finds nothing. */
  function FirstStages(text: string): Operations {
    var named := NamedStage(text);
    if named != NoOperations then named else AnonymousStage(text)
  }

  /** The last resort: the root fields of the first mutation if the text
      mentions one, otherwise of the first query. */
  function FallbackStage(text: string): Operations {
    if Contains(text, "mutation") then Operations([], RootFields(text, "mutation"))
    else Operations(RootFields(text, "query"), [])
  }

  /** `extractOperations`: comments are stripped, then the named stage, the
      anonymous stage and the root-field fallback are tried in turn. Only
      named operations can fill both lists. */
  function Extract(query: string): (r: Operations)
    ensures r.queries != [] && r.mutations != [] ==>
      FindAll(NamedOperation, RemoveComments(query)) != []
  {
    var text := RemoveComments(query);
    var found := FirstStages(text);
    if found != NoOperations then found else FallbackStage(text)
  }

  /** Where `extractRootFields` starts looking for the opening brace. */
  method FindStart(query: string, opType: string) returns (startIdx: nat)
    ensures startIdx == StartIndex(query, opType)
  {
    startIdx := 0;
    if opType == "mutation" {
      var idx := Index(query, "mutation");
      if idx >= 0 {
        startIdx := idx + |"mutation"|;
      }
    } else {
      var idx := Index(query, "query");
      if idx >= 0 {
        startIdx := idx + |"query"|;
      }
    }
  }

  /** The loop of `extractRootFields`: the first line whose leading word is
      not a keyword gives the one root field. */
  method FirstRootField(lines: seq<string>) returns (fields: seq<string>)
    ensures fields == FirstLeading(lines, 0)
  {
    fields := [];
    for i := 0 to |lines|
      invariant fields == []
      invariant FirstLeading(lines, i) == FirstLeading(lines, 0)
    {
      var matches := FindFirst(LeadingField, lines[i]);
      FirstLeadingStep(lines, i, matches);
      if matches.Some? && |matches.value.groups| >= 2 && !IsGraphQLKeyword(matches.value.groups[1]) {
        fields := fields + [matches.value.groups[1]];
        break;
      }
    }
  }

  /** `extractRootFields`. */
  method ExtractRootFields(query: string, opType: string) returns (fields: seq<string>)
    ensures fields == RootFields(query, opType)
  {
    var startIdx := FindStart(query, opType);
    ghost var start := startIdx;
    var braceIdx := Index(query[startIdx..], "{");
    if braceIdx < 0 {
      FieldsAfterNoBrace(query, start);
      return [];
    }
    startIdx := startIdx + braceIdx + 1;
    var remaining := query[startIdx..];
    FieldsAfterBrace(query, start, braceIdx, startIdx);
    var lines := SplitLines(remaining);
    fields := FirstRootField(lines);
  }

  lemma FieldsAfterNoBrace(query: string, start: nat)
    requires start <= |query| && Index(query[start..], "{") < 0
    ensures FieldsAfter(query, start) == []
  {
  }

  lemma FieldsAfterBrace(query: string, start: nat, brace: int, next: nat)
    requires start <= |query| && brace == Index(query[start..], "{") && brace >= 0
    requires next == start + brace + 1 && next <= |query|
    ensures FieldsAfter(query, start) == FieldsOf(query[next..])
  {
  }

  lemma FirstLeadingStep(lines: seq<string>, i: nat, m: Option<Match>)
    requires i < |lines| && m == FindFirst(LeadingField, lines[i])
    ensures FirstLeading(lines, i) ==
      if m.Some? && |m.value.groups| >= 2 && !IsGraphQLKeyword(m.value.groups[1])
      then [m.value.groups[1]] else FirstLeading(lines, i + 1)
  {
    LeadingFieldFirst(lines[i]);
  }

  /** The first stage of `extractOperations`: every named operation, by keyword. */
  method NamedOperations(text: string) returns (queries: seq<string>, mutations: seq<string>)
    ensures Operations(queries, mutations) == NamedStage(text)
  {
    queries, mutations := [], [];
    var matches := FindAll(NamedOperation, text);
    for i := 0 to |matches|
      invariant queries == NamesFor(matches[..i], "query")
      invariant mutations == NamesFor(matches[..i], "mutation")
    {
      NamesForStep(matches, i, "query");
      NamesForStep(matches, i, "mutation");
      var m := matches[i];
      if |m.groups| >= 3 {
        var opType, opName := m.groups[1], m.groups[2];
        if opType == "query" {
          queries := queries + [opName];
        } else if opType == "mutation" {
          mutations := mutations + [opName];
        }
      }
    }
    assert matches[..|matches|] == matches;
  }

  lemma NamesForStep(ms: seq<Match>, i: nat, opType: string)
    requires i < |ms|
    ensures NamesFor(ms[..i + 1], opType) == NamesFor(ms[..i], opType) + NameFor(ms[i], opType)
  {
    assert ms[..i + 1][..i] == ms[..i];
  }

  /** The second stage: the first non-keyword field after a `{` of an
      anonymous mutation, or else of an anonymous query. */
  method AnonymousOperation(text: string) returns (queries: seq<string>, mutations: seq<string>)
    ensures Operations(queries, mutations) == AnonymousStage(text)
  {
    queries, mutations := [], [];
    if MatchString(AnonymousMutation, text) {
      var fieldMatches := FindAll(SelectionField, text);
      for i := 0 to |fieldMatches|
        invariant mutations == []
        invariant FirstAccepted(fieldMatches, i) == FirstAccepted(fieldMatches, 0)
      {
        var m := fieldMatches[i];
        if |m.groups| >= 2 && !IsGraphQLKeyword(m.groups[1]) {
          mutations := mutations + [m.groups[1]];
          break;
        }
      }
    } else if MatchString(AnonymousQuery, text) {
      var fieldMatches := FindAll(SelectionField, text);
      for i := 0 to |fieldMatches|
        invariant queries == []
        invariant FirstAccepted(fieldMatches, i) == FirstAccepted(fieldMatches, 0)
      {
        var m := fieldMatches[i];
        if |m.groups| >= 2 && !IsGraphQLKeyword(m.groups[1]) {
          queries := queries + [m.groups[1]];
          break;
        }
      }
    }
  }

  /** `extractOperations`: comments are stripped, then the stages are tried in
      turn until one finds a name. */
  method ExtractOperations(query: string) returns (queries: seq<string>, mutations: seq<string>)
    ensures Operations(queries, mutations) == Extract(query)
  {
    var text := RemoveComments(query);
    queries, mutations := NamedOperations(text);
    if |queries| == 0 && |mutations| == 0 {
      queries, mutations := AnonymousOperation(text);
    }
    if |queries| == 0 && |mutations| == 0 {
      if Contains(text, "mutation") {
        mutations := ExtractRootFields(text, "mutation");
      } else {
        queries := ExtractRootFields(text, "query");
      }
    }
  }
}
