# GraphQL operation names of the trafico middleware

trafico is a Traefik middleware. For each GraphQL request it reads the query
text and finds the names of the operations it holds. It reports them as two
lists, query names and mutation names, so that later parts of the middleware
can tag the request.

This project models the part of `main.go` that finds those names. All of it
is string scanning driven by six small regular expressions: one for
comments and five for the extractor.

- `removeComments` deletes every `#` and the rest of its line. The newline
  itself is kept.
- `isGraphQLKeyword` lower-cases a word and looks it up in a table of eight
  reserved words.
- `extractOperations` strips comments and then runs up to three stages, each
  one only if the earlier stages found nothing:
  1. Every line-start `query NAME` or `mutation NAME` adds NAME to its list.
  2. For a line-start anonymous `mutation {` (or else a line-start `{`), the
     first non-keyword word after a `{` becomes the one name.
  3. The fallback calls `extractRootFields`: for `mutation` if the text
     mentions that word anywhere, for `query` otherwise.
- `extractRootFields` finds the first `{` after the first occurrence of the
  keyword (or after the start of the text if the keyword is absent). It
  splits the text after that brace at newlines, so the first piece is the
  rest of the brace's own line. It takes the leading word of the first piece
  whose leading word is not a keyword.

## How the model is organised

- `strings.dfy`, module `Strings`: the parts of Go's `strings` package the code
  uses, and the ASCII character classes `\s` and `\w` of Go's regular
  expressions. The Go functions are `Index`, `Contains`, `Split(s, "\n")` and
  `ToLower`. This file also proves that joining the pieces of a split gives
  back the text.
- `regexp.dfy`, module `Regexp`: each of the extractor's five patterns as an
  explicit scanner that tries one position, with Go's leftmost-first
  semantics. For each pattern, a lemma states exactly when it matches at a
  position, in terms of the characters of the text (`NamedOperationIff`,
  `AnonymousQueryIff`, `AnonymousMutationIff`, `SelectionFieldIff`,
  `LeadingFieldIff`).
  - `FindAll` is Go's search for all leftmost non-overlapping matches, built on
    a table of the attempts at every position.
  - It is proved sound: every reported match is a real match.
  - It is proved complete: every match position that no reported match
    swallows is reported.
- `comments.dfy`, module `Comments`: `removeComments` and its pattern
  `#[^\n]*`.
- `keywords.dfy`, module `Keywords`: `isGraphQLKeyword`.
- `extractor.dfy`, module `Extractor`:
  - one specification function per stage, and `Extract` for the whole pipeline;
  - the Go loops as methods, each proved equal to its specification function.
  - Each Go function is split into stage methods, which keeps every proof
    small: `extractOperations` becomes `NamedOperations`, `AnonymousOperation`
    and `ExtractOperations`; `extractRootFields` becomes `FindStart`,
    `FirstRootField` and `ExtractRootFields`. The statements and the order of
    evaluation are those of the source.
- `properties.dfy`, module `Properties`: what the extractor promises, proved
  over the specification functions. The proofs cover:
  - which stage decides;
  - how many names each stage can report;
  - the shape of a reported name;
  - that comments never matter;
  - concrete inputs that show the quirks of the code.

## Behaviour worth knowing

Each point is a fact about `main.go`, proved by the lemma named with it:

- Root-field extraction takes only the first accepted leading word of the
  text after the brace, split at newlines. It never balances braces and never
  reports more than one field (`Properties.RootFieldsShape`).
- The keyword table has eight entries, compared without regard to case
  (`Keywords.KeywordIffSpelled`).
- A named operation needs no `{`: `mutation Foo` reports the mutation `Foo`
  (`Properties.NoBraceNeeded`, `Properties.SingleNamedOperation`).
- For `query Name { field }` the operation name `Name` is reported, not the
  field, because the named stage decides whenever it matches
  (`Properties.NamedWins`).
- Named-operation names are not checked against the keyword table:
  `query query` reports the query `query` (`Properties.KeywordNameKept`).
- `\s+` crosses line breaks: `query\nuser` reports the query `user`
  (`Properties.NameOnNextLine`).
- `subscription` is matched by none of the patterns. `subscription S { f }`
  falls through to the fallback and reports `f` as a *query*
  (`Properties.SubscriptionFallsBack`).

## Model

| member | source | states |
|---|---|---|
| `Strings.ToLower` | main.go:238 | the lower-cased word has the same length and maps each ASCII capital to its small letter, leaving every other character alone |
| `Strings.IndexFrom` | main.go:182-195 | the search from a position finds an occurrence of the word at or after that position with none before it, or gives -1 exactly when there is none |
| `Strings.ContainsIff` | main.go:165 | `strings.Contains` holds exactly when the word occurs at some position of the text |
| `Strings.IndexIs` | main.go:182-190 | `strings.Index` is the first position where the word occurs |
| `Strings.IndexOfChar` | main.go:195 | the index of `"{"` is the position of the first `{` |
| `Strings.ContainsChar` | main.go:195-196 | a one-character string is contained exactly when that character is in the text |
| `Strings.SplitLines` | main.go:206 | splitting on `"\n"` always gives at least one piece |
| `Strings.SplitLinesNoNewline` | main.go:206 | no piece of the split contains a newline |
| `Strings.JoinSplitLines` | main.go:206 | joining the pieces with newlines gives back the text |
| `Strings.SplitJoinLines` | main.go:206 | splitting a join of newline-free pieces gives back the pieces |
| `Strings.LineLength` | main.go:222 | the length of the first line: no newline before it, and a newline or the end of the text at it |
| `Comments.RemoveComments` | main.go:220-224 | stripping comments never makes the text longer |
| `Comments.OnlyDeletes` | main.go:220-224 | stripping only deletes: every character of the result, counted with multiplicity, is one of the input's |
| `Comments.NoHashLeft` | main.go:220-224 | no `#` is left after stripping |
| `Comments.NewlinesKept` | main.go:220-224 | stripping keeps exactly as many newlines as the input has |
| `Comments.HashFreeUnchanged` | main.go:220-224 | a text without `#` comes back unchanged |
| `Comments.Idempotent` | main.go:220-224 | stripping twice is the same as stripping once |
| `Comments.LineByLine` | main.go:222-223 | a newline is never removed, and what happens on its two sides is independent |
| `Comments.SingleLine` | main.go:222-223 | on one line, exactly the text before the first `#` is kept |
| `Keywords.IsGraphQLKeyword` | main.go:227-239 | a keyword is between two characters (`on`) and twelve (`subscription`) long |
| `Keywords.KeywordIffSpelled` | main.go:227-239 | a word is a keyword exactly when it spells one of the eight table entries in any mix of upper and lower case |
| `Keywords.CaseInsensitive` | main.go:238 | two words with the same lower-case form are both keywords or both not |
| `Keywords.KeywordIsToken` | main.go:228-237 | every keyword is a run of `\w` characters |
| `Keywords.KeywordExamples` | main.go:228-238 | `Query`, `ON` and `nULL` are keywords |
| `Keywords.NonKeywordExamples` | main.go:228-238 | `type` and `subscriptions` are not keywords |
| `Regexp.SkipSpace` | main.go:115 | a greedy `\s*` run: all white space, and the character after it is not |
| `Regexp.SkipWord` | main.go:115 | a greedy `\w+` run: all word characters, and the character after it is not one |
| `Regexp.OperationKeyword` | main.go:115 | the keyword alternative of the named pattern yields `query` exactly when `query` occurs at the position, `mutation` exactly when `mutation` does, and nothing otherwise |
| `Regexp.KeywordsDiffer` | main.go:115 | `query` and `mutation` never both occur at one position, so the order of the alternatives does not matter |
| `Regexp.NamedOperationAt` | main.go:115 | a named-operation match starts only at a line start, has three groups with the whole match first, the keyword `query` or `mutation`, and a non-empty name that ends the match and is not followed by a word character |
| `Regexp.AnonymousQueryAt` | main.go:117 | a `(?m)^\s*\{` match starts at a line start and is white space closed by `{` |
| `Regexp.AnonymousMutationAt` | main.go:118 | a `(?m)^\s*mutation\s*\{` match starts at a line start, has the whole match as its only group, and ends with `{` |
| `Regexp.SelectionFieldAt` | main.go:120 | a `\{\s*(\w+)` match starts with `{` and ends with its non-empty capture, which is not followed by a word character |
| `Regexp.LeadingFieldAt` | main.go:202 | a `^\s*(\w+)` match starts only at position 0, and is white space then its non-empty capture, which is not followed by a word character |
| `Regexp.MatchAt` | main.go:115-120 | a match of any of the patterns starts where it was tried, is non-empty, and has the whole match and one string per group |
| `Regexp.NamedOperationIff` | main.go:115 | the named-operation pattern matches at a position exactly when it starts a line and, after white space, `query` or `mutation` is followed by at least one white-space character and a word character |
| `Regexp.AnonymousQueryIff` | main.go:117 | `(?m)^\s*\{` matches at a position exactly when it starts a line and white space then a `{` follow |
| `Regexp.AnonymousMutationIff` | main.go:118 | `(?m)^\s*mutation\s*\{` matches at a position exactly when it starts a line and, after white space, `mutation`, optional white space and a `{` follow |
| `Regexp.SelectionFieldIff` | main.go:120 | `\{\s*(\w+)` matches at a position exactly when it holds a `{` followed, after white space, by a word character |
| `Regexp.LeadingFieldIff` | main.go:202 | `^\s*(\w+)` matches at a position exactly when that position is 0 and the leading white space is followed by a word character |
| `Regexp.Attempts` | main.go:123 | the table holds the attempt of the pattern at every position |
| `Regexp.Scan` | main.go:123 | the matches lie after the start of the search, in document order, without overlapping |
| `Regexp.ScanSound` | main.go:123 | every match the search reports is the attempt at its own start |
| `Regexp.ScanComplete` | main.go:123 | every position where the pattern matches and that no reported match covers starts a reported match |
| `Regexp.FindAllSound` | main.go:123 | every match `FindAllStringSubmatch` reports is a real match at its start |
| `Regexp.FindAllComplete` | main.go:143 | every match position outside the reported matches starts one of them (leftmost non-overlapping) |
| `Regexp.MatchStringIff` | main.go:141-150 | `MatchString` holds exactly when the pattern matches at some position |
| `Regexp.LeadingFieldFirst` | main.go:202-208 | `^\s*(\w+)` without the multi-line flag can only match at the start of the line |
| `Regexp.LeadingFieldShape` | main.go:202-208 | the capture is the token after the leading white space, taken as far as it goes |
| `Regexp.NamedOperationShape` | main.go:115 | a named-operation match starts a line; its first capture is the case-sensitive `query` or `mutation` that occurs right after the leading white space; at least one white-space character follows it; the second capture is the token after that white space, taken as far as it goes and ending the match; and that token occurs in the text |
| `Regexp.SelectionFieldShape` | main.go:120 | a field match is a `{`, white space, then the captured token taken as far as it goes and ending the match; so it holds no further `{` |
| `Regexp.AnonymousNeedsBrace` | main.go:117-118 | the two anonymous-operation patterns can only match a text that has a `{` |
| `Extractor.StartIndex` | main.go:179-192 | the search for the brace starts inside the text |
| `Properties.StartIndexFirst` | main.go:181-191 | the search starts just after the first occurrence of `mutation` (for a mutation) or `query` (otherwise) |
| `Properties.StartIndexAbsent` | main.go:180-192 | it starts at 0 when that word does not occur |
| `Extractor.FindStart` | main.go:179-192 | the start index is just after the first `mutation` (or `query`), or 0 when the word is absent |
| `Extractor.FirstRootField` | main.go:205-214 | the loop returns the leading word of the first line whose leading word is not a keyword, or nothing |
| `Extractor.FirstLeadingStep` | main.go:208-213 | one iteration of that loop either stops with the leading word of the line or moves to the next line |
| `Extractor.ExtractRootFields` | main.go:176-217 | `extractRootFields` returns the root fields of its specification |
| `Extractor.NamedOperations` | main.go:122-136 | the named stage appends each match's name to the list of its keyword, in match order |
| `Extractor.NamesForStep` | main.go:124-135 | one iteration adds the name of the current match to the list of its keyword and nothing to the other |
| `Extractor.AnonymousOperation` | main.go:138-160 | the anonymous stage: an anonymous mutation is tried before an anonymous query, and the first non-keyword field match is kept |
| `Extractor.ExtractOperations` | main.go:106-173 | `extractOperations` returns exactly what the staged specification `Extract` gives |
| `Extractor.Extract` | main.go:106-173 | only the named stage can fill both lists: a result with a query and a mutation name has a named-operation match in the stripped text |
| `Properties.ExtractIgnoresComments` | main.go:110-111 | stripping comments first never changes the result |
| `Properties.NamedMatches` | main.go:115-127 | every match the named search reports has that shape: a line start, white space, the keyword `query` or `mutation` where it occurs, white space, then the name as the longest token there, ending the match and occurring in the text; so a `subscription` contributes nothing |
| `Properties.NamesForCount` | main.go:124-136 | each query or mutation match adds exactly one name to exactly one list |
| `Properties.NamesForMember` | main.go:124-136 | a name is in a list exactly when some match with that keyword captured it (no deduplication, no keyword filter) |
| `Properties.NamesForAppend` | main.go:124-136 | names of earlier matches come before names of later ones |
| `Properties.NamedStageCount` | main.go:123-136 | the named stage reports as many names as there are matches |
| `Properties.NamedStageTokens` | main.go:123-136 | every name the named stage reports is a token that occurs in the text |
| `Properties.NamedWins` | main.go:139-163 | if a named operation matched, the result is exactly the named lists and the later stages do not run |
| `Properties.ScanBraceName` | main.go:143-148 | running the leftmost non-overlapping search finds the same first accepted field as trying `\{\s*(\w+)` at every position |
| `Properties.AnonymousFirstBrace` | main.go:143-157 | the anonymous name is the first non-keyword capture after some `{` |
| `Properties.BraceNameShape` | main.go:145-147 | that name is at most one token; it follows some `{` after white space, is taken as far as it goes, and is not a keyword |
| `Properties.AnonymousStageIs` | main.go:141-159 | a line-start `mutation {` wins over a line-start `{`, and either reports the first brace name |
| `Properties.AnonymousAtMostOne` | main.go:139-160 | the anonymous stage reports at most one name, and only if the text has a `{` |
| `Properties.LeadingNameShape` | main.go:208-209 | an accepted line starts with white space and then a non-keyword token that is taken as far as it goes |
| `Properties.LeadingNameOf` | main.go:208-209 | conversely, such a token is what the line reports |
| `Properties.FirstLeadingNone` | main.go:207-214 | the loop reports nothing exactly when no line has an accepted leading word |
| `Properties.FirstLeadingFirst` | main.go:207-214 | the first accepted line gives the one reported field |
| `Properties.FirstLeadingSome` | main.go:207-214 | whatever the loop reports comes from the first accepted line |
| `Properties.RootFieldsNoBrace` | main.go:179-198 | root fields are empty when no `{` occurs at or after the start index |
| `Properties.FieldsAfterFirstBrace` | main.go:194-203 | the fields are read from the text after the first `{` at or after the start |
| `Properties.RootFieldsFirstBrace` | main.go:179-206 | the root fields are those of the lines after the first `{` past the keyword |
| `Properties.FieldsOfShape` | main.go:205-214 | the lines after a brace give at most one field: a token that is not a keyword |
| `Properties.RootFieldsShape` | main.go:176-217 | `extractRootFields` returns at most one field, a token that is not a keyword |
| `Properties.AtMostOneUnlessNamed` | main.go:138-170 | without a named operation at most one name is reported, a token that is not a keyword |
| `Properties.FallbackChoice` | main.go:162-170 | (unfolds the fallback stage) the fallback fills the mutation list if the text contains `mutation` (case-sensitive), the query list otherwise, and leaves the other list empty |
| `Properties.NoBraceNoNamedEmpty` | main.go:106-198 | a comment-stripped text without `{` and without a named operation gives two empty lists |
| `Properties.SingleNamedAt` | main.go:115 | `query` or `mutation`, white space and a token match the named pattern as a whole |
| `Properties.SingleNamedFindAll` | main.go:123 | such a text has exactly that one named match |
| `Properties.SingleNamedOperation` | main.go:106-136 | such a text reports the token, and only the token, in the list of its keyword |
| `Properties.NameOnNextLine` | main.go:115 | `\s+` crosses a line break: `query\nuser` reports the query `user` |
| `Properties.NoBraceNeeded` | main.go:115 | a named operation needs no `{`: `mutation Foo` reports the mutation `Foo` |
| `Properties.KeywordNameKept` | main.go:123-136 | named-operation names are not filtered: `query query` reports the query `query` |
| `Properties.NoMatchNoFind` | main.go:123 | a pattern that matches nowhere finds nothing |
| `Properties.OneLineNoMatch` | main.go:115-118 | on a text without newlines a line-anchored pattern can only match at the start |
| `Properties.FirstLetterIn` | main.go:165 | a word whose first letter is absent is not contained |
| `Properties.SubscriptionNotNamed` | main.go:115-118 | `subscription S { f }` has no named and no anonymous operation |
| `Properties.SubscriptionRootFields` | main.go:165-206 | its fallback reads root fields as a query, after its first `{` |
| `Properties.SubscriptionField` | main.go:206-213 | the text after that brace gives the one field `f` |
| `Properties.SubscriptionFallsBack` | main.go:106-214 | `subscription S { f }` reports `f` as a query |

## Left out

- `ServeHTTP` (main.go:60-103): checking the HTTP method and content type,
  reading and restoring the body, decoding the JSON envelope, setting headers.
  This is I/O around the extractor and is not modelled.
- `New`, `CreateConfig` and the `Config`, `GraphQLParser` and `GraphQLRequest`
  structs (main.go:13-57): configuration defaults and handler wiring only. The
  receiver `g` of the two extractor functions is unused, so the model's methods
  take none.
- Go's general regular-expression engine is not modelled. Each of the six
  patterns is written out by hand: the five of the extractor as scanners,
  and `#[^\n]*` as the recursion of `Comments.RemoveComments`.
  - In every pattern, a `\s*`/`\s+` is followed by something that cannot be
    white space, and each `\w+` ends the pattern. So the greedy run that a
    backtracking search tries first is the only one that can succeed.
  - Every match of the six patterns is non-empty. Go's rule for empty matches
    next to a previous match therefore never applies.
- Strings.ToLower: only ASCII upper-case letters are mapped; Go's Unicode case mapping is not modelled.
  Every word passed to `isGraphQLKeyword` is a `\w+` capture, and `\w` is
  ASCII-only, so the difference cannot be observed.
- Strings are sequences of characters, whereas Go indexes strings by byte.
  - Every index the code computes is the position of an ASCII character
    (`{`, `\n`, `query`, `mutation`). So slicing at it splits the text in the
    same place in both views.
  - Invalid UTF-8 is not modelled. Go's `[^\n]` would read each bad byte as
    U+FFFD.
- The regular expressions are compiled on every call in the source
  (`regexp.MustCompile`). This has no effect on the result and is not modelled.
