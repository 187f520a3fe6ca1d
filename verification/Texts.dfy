/** Searching text, as the standard string methods do. */
module Texts {
  import opened Options

  predicate StartsWith(s: string, p: string) {
    |p| <= |s| && s[..|p|] == p
  }

  /** Where `p` first occurs in `s`. */
  function Search(s: string, p: string): (found: Option<nat>)
    ensures found.Some? ==> found.value + |p| <= |s|
  {
    if StartsWith(s, p) then Some(0)
    else if s == "" then None
    else
      match Search(s[1..], p)
      case None => None
      case Some(i) => Some(i + 1)
  }

  predicate Free(s: string, p: string) {
    Search(s, p).None?
  }

  lemma Differs(s: string, p: string, i: nat)
    requires i < |s| && i < |p| && s[i] != p[i]
    ensures !StartsWith(s, p)
  {
    if |p| <= |s| {
      assert s[..|p|][i] == s[i];
    }
  }

  /** The last character of `p` stands nowhere else in it, so two occurrences
      of `p` never overlap. */
  predicate EndsOnce(p: string) {
    p != "" && forall i :: 0 <= i < |p| - 1 ==> p[i] != p[|p| - 1]
  }

  lemma NotHere(t: string, p: string, tail: string)
    requires EndsOnce(p) && t != "" && !StartsWith(t, p)
    ensures !StartsWith(t + p + tail, p)
  {
    var text := t + p + tail;
    if |t| < |p| {
      assert text[|p| - 1] == p[|p| - 1 - |t|];
      assert text[..|p|][|p| - 1] == text[|p| - 1];
    } else {
      assert text[..|p|] == t[..|p|];
    }
  }

  /** A delimiter that does not occur in `t` is found right behind it. */
  lemma {:induction false} SearchFindsEnd(t: string, p: string, tail: string)
    requires EndsOnce(p) && Free(t, p)
    ensures Search(t + p + tail, p) == Some(|t|)
    decreases |t|
  {
    var text := t + p + tail;
    if t == "" {
      assert text[..|p|] == p;
    } else {
      NotHere(t, p, tail);
      assert text[1..] == t[1..] + p + tail;
      SearchFindsEnd(t[1..], p, tail);
    }
  }

  lemma PrefixHasNone(s: string, p: string, n: nat)
    requires n <= |s| && !StartsWith(s, p)
    ensures !StartsWith(s[..n], p)
  {
    assert |p| <= n ==> s[..n][..|p|] == s[..|p|];
  }

  lemma {:induction false} SearchIsFirst(s: string, p: string)
    requires p != "" && Search(s, p).Some?
    ensures var i := Search(s, p).value; s[i..i + |p|] == p && Free(s[..i], p)
    decreases |s|
  {
    var i := Search(s, p).value;
    if i == 0 {
    } else {
      SearchIsFirst(s[1..], p);
      assert s[1..][..i - 1] == s[..i][1..];
      PrefixHasNone(s, p, i);
    }
  }

  /** Where a delimiter is found, the text splits around it. */
  lemma SearchSplits(s: string, p: string)
    requires p != "" && Search(s, p).Some?
    ensures var i := Search(s, p).value;
            s == s[..i] + p + s[i + |p|..] && Free(s[..i], p)
  {
    SearchIsFirst(s, p);
    var i := Search(s, p).value;
    assert s == s[..i] + s[i..i + |p|] + s[i + |p|..];
  }
}
