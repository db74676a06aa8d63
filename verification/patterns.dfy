/**
 * The fixed regular expressions of the scrapers, written as predicates
 * on strings: fixed-width patterns of literal characters and digits
 * (re.search of "/blog/\d{4}/" and the like), "<lead>[^c]+$" tails and
 * "<lead>[^/]+/[^/]+$" two-segment tails.
 */
module Patterns {
  import opened Text

  /** One position of a fixed-width pattern: a literal character or \d. */
  datatype Tok = Lit(c: char) | Digit

  function Lits(s: string): (p: seq<Tok>)
    ensures |p| == |s| && forall k | 0 <= k < |s| :: p[k] == Lit(s[k])
  {
    seq(|s|, k requires 0 <= k < |s| => Lit(s[k]))
  }

  function Digits(n: nat): (p: seq<Tok>)
    ensures |p| == n && forall k | 0 <= k < n :: p[k] == Digit
  {
    seq(n, k => Digit)
  }

  predicate TokMatches(t: Tok, c: char) {
    match t
    case Lit(x) => c == x
    case Digit => IsDigit(c)
  }

  /** The pattern matches the characters of s starting at index i. */
  predicate MatchesAt(s: string, i: int, p: seq<Tok>) {
    0 <= i && i + |p| <= |s| && forall k | 0 <= k < |p| :: TokMatches(p[k], s[i + k])
  }

  /** re.search with a fixed-width pattern. */
  predicate SearchFixed(s: string, p: seq<Tok>) {
    exists i | 0 <= i <= |s| - |p| :: MatchesAt(s, i, p)
  }

  /** A string that matches a pattern somewhere matches each prefix of it there. */
  lemma SearchPrefix(s: string, p: seq<Tok>, q: seq<Tok>)
    requires SearchFixed(s, p + q)
    ensures SearchFixed(s, p)
  {
    var i :| 0 <= i <= |s| - |p + q| && MatchesAt(s, i, p + q);
    forall k | 0 <= k < |p|
      ensures TokMatches(p[k], s[i + k])
    {
      assert (p + q)[k] == p[k];
    }
    assert MatchesAt(s, i, p);
  }

  /** No occurrence of c in t. */
  predicate Lacks(t: string, c: char) {
    forall k | 0 <= k < |t| :: t[k] != c
  }

  /** re.search(lead + "[^stop]+$", s): some occurrence of lead is followed by a non-empty rest without stop. */
  predicate TailAfter(s: string, lead: string, stop: char) {
    exists i | 0 <= i <= |s| - |lead| :: IsAt(s, lead, i) && i + |lead| < |s| && Lacks(s[i + |lead|..], stop)
  }

  /** t is "a/b" with a and b non-empty and without '/'. */
  predicate OneInnerSlash(t: string) {
    exists j | 0 < j < |t| - 1 :: t[j] == '/' && Lacks(t[..j], '/') && Lacks(t[j + 1..], '/')
  }

  /** re.search(lead + "[^/]+/[^/]+$", s). */
  predicate TwoSegmentsAfter(s: string, lead: string) {
    exists i | 0 <= i <= |s| - |lead| :: IsAt(s, lead, i) && OneInnerSlash(s[i + |lead|..])
  }

  // ---------------------------------------------------------------------
  // Lowercasing the subject keeps lowercase-only matches
  // ---------------------------------------------------------------------

  /** A string that lowercasing leaves as it is. */
  predicate LowerFixed(s: string) {
    forall k | 0 <= k < |s| :: LowerChar(s[k]) == s[k]
  }

  predicate TokLowerFixed(p: seq<Tok>) {
    forall k | 0 <= k < |p| :: p[k].Lit? ==> LowerChar(p[k].c) == p[k].c
  }

  lemma LowerKeepsAt(s: string, sub: string, i: int)
    requires IsAt(s, sub, i) && LowerFixed(sub)
    ensures IsAt(Lower(s), sub, i)
  {
    forall k | 0 <= k < |sub|
      ensures Lower(s)[i..i + |sub|][k] == sub[k]
    {
      assert s[i..i + |sub|][k] == s[i + k];
    }
  }

  lemma LowerKeepsMatch(s: string, p: seq<Tok>)
    requires SearchFixed(s, p) && TokLowerFixed(p)
    ensures SearchFixed(Lower(s), p)
  {
    var i :| 0 <= i <= |s| - |p| && MatchesAt(s, i, p);
    assert MatchesAt(Lower(s), i, p);
  }

  /** A character that is the lowercase of something only when it is that thing. */
  predicate NotALetter(c: char) {
    LowerChar(c) == c && !('a' <= c <= 'z')
  }

  lemma LowerKeepsLacks(t: string, c: char)
    requires Lacks(t, c) && NotALetter(c)
    ensures Lacks(Lower(t), c)
  {
  }

  lemma LowerKeepsTail(s: string, lead: string, stop: char)
    requires TailAfter(s, lead, stop) && LowerFixed(lead) && NotALetter(stop)
    ensures TailAfter(Lower(s), lead, stop)
  {
    var i :| 0 <= i <= |s| - |lead| && IsAt(s, lead, i) && i + |lead| < |s| && Lacks(s[i + |lead|..], stop);
    LowerKeepsAt(s, lead, i);
    assert Lower(s)[i + |lead|..] == Lower(s[i + |lead|..]);
    LowerKeepsLacks(s[i + |lead|..], stop);
  }
}
