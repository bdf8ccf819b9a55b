/** `isGraphQLKeyword`: membership of the lower-cased word in a fixed table of
    eight reserved words. */
module Keywords {
  import opened Strings

  /** The keys of the table, all lower-case. */
  const KeywordTable: set<string> :=
    {"query", "mutation", "subscription", "fragment", "on", "true", "false", "null"}

  /** `isGraphQLKeyword`: the lower-cased word is in the table. No keyword
      is shorter than `on` or longer than `subscription`. */
  predicate IsGraphQLKeyword(word: string)
    ensures IsGraphQLKeyword(word) ==> 2 <= |word| <= 12
  {
    ToLower(word) in KeywordTable
  }

  /** ASCII upper-casing of a lower-case letter. */
  function UpperChar(c: char): (d: char)
    requires 'a' <= c <= 'z'
    ensures 'A' <= d <= 'Z' && LowerChar(d) == c
  {
    (c as int - 32) as char
  }

  /** `c` is `k` written in either case. */
  predicate SameLetterIgnoringCase(c: char, k: char) {
    c == k || ('a' <= k <= 'z' && c == UpperChar(k))
  }

  /** `w` spells `k` letter by letter, each letter in either case. */
  predicate SpellsIgnoringCase(w: string, k: string) {
    |w| == |k| && forall i :: 0 <= i < |w| ==> SameLetterIgnoringCase(w[i], k[i])
  }

  lemma LowerCharIsLetter(c: char, k: char)
    requires 'a' <= k <= 'z'
    ensures LowerChar(c) == k <==> SameLetterIgnoringCase(c, k)
  {
  }

  lemma TableIsLowerCase()
    ensures forall k :: k in KeywordTable ==> forall i :: 0 <= i < |k| ==> 'a' <= k[i] <= 'z'
  {
  }

  /** A word is a keyword exactly when it spells one of the eight table entries
      with any mix of upper- and lower-case letters. */
  lemma KeywordIffSpelled(w: string)
    ensures IsGraphQLKeyword(w) <==> exists k :: k in KeywordTable && SpellsIgnoringCase(w, k)
  {
    TableIsLowerCase();
    if IsGraphQLKeyword(w) {
      var k := ToLower(w);
      forall i | 0 <= i < |w| ensures SameLetterIgnoringCase(w[i], k[i]) {
        LowerCharIsLetter(w[i], k[i]);
      }
      assert SpellsIgnoringCase(w, k);
    }
    if exists k :: k in KeywordTable && SpellsIgnoringCase(w, k) {
      var k :| k in KeywordTable && SpellsIgnoringCase(w, k);
      forall i | 0 <= i < |w| ensures ToLower(w)[i] == k[i] {
        LowerCharIsLetter(w[i], k[i]);
      }
      assert ToLower(w) == k;
    }
  }

  /** Case does not matter: two words with the same lower-case form are both
      keywords or both not. */
  lemma CaseInsensitive(w: string, u: string)
    requires |w| == |u|
    requires forall i :: 0 <= i < |w| ==> LowerChar(w[i]) == LowerChar(u[i])
    ensures IsGraphQLKeyword(w) <==> IsGraphQLKeyword(u)
  {
    assert ToLower(w) == ToLower(u);
  }

  /** Every keyword is a token, so only a `\w+` capture can be one. */
  lemma KeywordIsToken(w: string)
    requires IsGraphQLKeyword(w)
    ensures IsToken(w)
  {
    var k := ToLower(w);
    assert k in KeywordTable;
    assert |k| > 0;
    forall i | 0 <= i < |w| ensures IsWord(w[i]) {
      assert IsWord(k[i]);
    }
  }

  /** Mixed-case spellings of table entries are keywords. */
  lemma KeywordExamples()
    ensures IsGraphQLKeyword("Query") && IsGraphQLKeyword("ON") && IsGraphQLKeyword("nULL")
  {
    assert ToLower("Query") == "query";
    assert ToLower("ON") == "on";
    assert ToLower("nULL") == "null";
  }

  /** Words outside the table, including a longer word that starts with one, are not. */
  lemma NonKeywordExamples()
    ensures !IsGraphQLKeyword("type") && !IsGraphQLKeyword("subscriptions")
  {
    var t := ToLower("type");
    assert t[1] == LowerChar('y') == 'y';
    assert |ToLower("subscriptions")| == 13;
  }
}
