/** `removeComments`: every match of `#[^\n]*` is replaced by the empty string.
    The pattern has no anchors, so it is scanned on suffixes: a match starts at
    a `#` and runs up to, but not including, the next newline. */
module Comments {
  import opened Strings

  /** Go's `ReplaceAllString(s, "")` for `#[^\n]*`: leftmost non-overlapping
      matches are dropped and everything between them is kept, so characters
      are only ever deleted. */
  function RemoveComments(s: string): (r: string)
    ensures |r| <= |s|
    decreases |s|
  {
    if s == [] then []
    else if s[0] == '#' then RemoveComments(s[LineLength(s)..])
    else [s[0]] + RemoveComments(s[1..])
  }

  /** Only deletions: every character of the result, counted with
      multiplicity, comes from the input. */
  lemma {:induction false} OnlyDeletes(s: string)
    ensures multiset(RemoveComments(s)) <= multiset(s)
    decreases |s|
  {
    if s == [] {
    } else if s[0] == '#' {
      OnlyDeletes(s[LineLength(s)..]);
      assert s == s[..LineLength(s)] + s[LineLength(s)..];
    } else {
      OnlyDeletes(s[1..]);
      assert s == [s[0]] + s[1..];
    }
  }

  /** No `#` survives. */
  lemma {:induction false} NoHashLeft(s: string)
    ensures '#' !in RemoveComments(s)
    decreases |s|
  {
    if s == [] {
    } else if s[0] == '#' {
      NoHashLeft(s[LineLength(s)..]);
    } else {
      NoHashLeft(s[1..]);
    }
  }

  /** Every newline is kept, so line structure is preserved. */
  lemma {:induction false} NewlinesKept(s: string)
    ensures multiset(RemoveComments(s))['\n'] == multiset(s)['\n']
    decreases |s|
  {
    if s == [] {
    } else if s[0] == '#' {
      var n := LineLength(s);
      NewlinesKept(s[n..]);
      assert s == s[..n] + s[n..];
      assert multiset(s[..n])['\n'] == 0 by {
        assert '\n' !in s[..n];
      }
    } else {
      NewlinesKept(s[1..]);
      assert s == [s[0]] + s[1..];
    }
  }

  /** A text without `#` is returned unchanged. */
  lemma {:induction false} HashFreeUnchanged(s: string)
    requires '#' !in s
    ensures RemoveComments(s) == s
    decreases |s|
  {
    if s != [] {
      assert '#' !in s[1..];
      HashFreeUnchanged(s[1..]);
    }
  }

  /** Stripping twice is stripping once. */
  lemma Idempotent(s: string)
    ensures RemoveComments(RemoveComments(s)) == RemoveComments(s)
  {
    NoHashLeft(s);
    HashFreeUnchanged(RemoveComments(s));
  }

  /** Stripping works line by line: a newline is never consumed and separates
      what happens on its two sides. */
  lemma {:induction false} LineByLine(a: string, b: string)
    ensures RemoveComments(a + "\n" + b) == RemoveComments(a) + "\n" + RemoveComments(b)
    decreases |a|
  {
    var s := a + "\n" + b;
    if a == [] {
      assert s == "\n" + b;
      assert s[1..] == b;
    } else if a[0] == '#' {
      var n := LineLength(a);
      assert LineLength(s) == n by {
        assert s == a + ("\n" + b);
        LineLengthExtends(a, "\n" + b);
      }
      assert s[n..] == a[n..] + "\n" + b;
      LineByLine(a[n..], b);
    } else {
      assert s[1..] == a[1..] + "\n" + b;
      LineByLine(a[1..], b);
    }
  }

  /** On one line, stripping keeps exactly the text before the first `#`. */
  lemma {:induction false} SingleLine(p: string, q: string)
    requires '\n' !in p + q
    requires '#' !in p
    requires q == [] || q[0] == '#'
    ensures RemoveComments(p + q) == p
    decreases |p|
  {
    var s := p + q;
    if p == [] {
      assert s == q;
      if q != [] {
        assert LineLength(q) == |q|;
        assert q[|q|..] == [];
      }
    } else {
      assert s[1..] == p[1..] + q;
      assert '#' !in p[1..] && '\n' !in p[1..] + q by {
        assert forall k :: 0 <= k < |p[1..] + q| ==> (p[1..] + q)[k] == s[k + 1];
      }
      SingleLine(p[1..], q);
    }
  }
}
