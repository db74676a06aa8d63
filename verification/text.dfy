/**
 * String operations the scrapers rely on: Python's whitespace class and
 * strip, ASCII lowercasing, substring tests, str.split/str.join,
 * str.splitlines, run-collapsing substitutions (re.sub of a repeated
 * one-character class) and decimal rendering of integers.
 */
module Text {

  // ---------------------------------------------------------------------
  // Whitespace and strip
  // ---------------------------------------------------------------------

  /** Python's str.isspace, which is also what the regex class \s matches. */
  predicate IsSpace(c: char) {
    c == ' ' || ('\t' <= c <= '\r') || ('\U{1C}' <= c <= '\U{1F}')
    || c == '\U{85}' || c == '\U{A0}' || c == '\U{1680}' || ('\U{2000}' <= c <= '\U{200A}')
    || c == '\U{2028}' || c == '\U{2029}' || c == '\U{202F}' || c == '\U{205F}' || c == '\U{3000}'
  }

  predicate AllSpace(s: string) {
    forall i | 0 <= i < |s| :: IsSpace(s[i])
  }

  /** Empty, or neither the first nor the last character is whitespace. */
  predicate NoEdgeSpace(s: string) {
    s == [] || (!IsSpace(s[0]) && !IsSpace(s[|s| - 1]))
  }

  /** True when the string has no character other than whitespace (Python: not s.strip()). */
  predicate IsBlank(s: string) {
    AllSpace(s)
  }

  /** Number of whitespace characters at the start of s. */
  function LeadingSpace(s: string): (n: nat)
    ensures n <= |s| && AllSpace(s[..n])
    ensures n < |s| ==> !IsSpace(s[n])
  {
    if s == [] || !IsSpace(s[0]) then 0
    else
      var m := LeadingSpace(s[1..]);
      assert s[..1 + m] == [s[0]] + s[1..][..m];
      1 + m
  }

  /** Number of whitespace characters at the end of s. */
  function TrailingSpace(s: string): (n: nat)
    ensures n <= |s| && AllSpace(s[|s| - n..])
    ensures n < |s| ==> !IsSpace(s[|s| - n - 1])
  {
    if s == [] || !IsSpace(s[|s| - 1]) then 0
    else
      var m := TrailingSpace(s[..|s| - 1]);
      SuffixSnoc(s, m);
      AllSpaceSnoc(s[..|s| - 1][|s| - 1 - m..], s[|s| - 1]);
      1 + m
  }

  lemma SuffixSnoc(s: string, m: nat)
    requires m < |s|
    ensures s[|s| - (1 + m)..] == s[..|s| - 1][|s| - 1 - m..] + [s[|s| - 1]]
  {
  }

  lemma AllSpaceSnoc(t: string, c: char)
    requires AllSpace(t) && IsSpace(c)
    ensures AllSpace(t + [c])
  {
  }

  /**
   * Python's str.strip(): the input with its leading and trailing
   * whitespace removed. The result is the infix of s that starts after
   * the leading whitespace, and what follows it in s is whitespace.
   */
  function Strip(s: string): (r: string)
    ensures NoEdgeSpace(r)
    ensures LeadingSpace(s) + |r| <= |s|
    ensures r == s[LeadingSpace(s)..LeadingSpace(s) + |r|]
    ensures AllSpace(s[LeadingSpace(s) + |r|..])
  {
    var a := LeadingSpace(s);
    var t := s[a..];
    StripParts(s, a, t, TrailingSpace(t));
    t[..|t| - TrailingSpace(t)]
  }

  /** What is left between the leading and the trailing whitespace. */
  lemma StripParts(s: string, a: nat, t: string, b: nat)
    requires a == LeadingSpace(s) && t == s[a..] && b == TrailingSpace(t)
    ensures var r := t[..|t| - b];
      && NoEdgeSpace(r) && a + |r| <= |s|
      && r == s[a..a + |r|] && AllSpace(s[a + |r|..])
  {
    StripEdges(s, a, t, b);
    StripSlices(s, a, t, b);
  }

  lemma StripEdges(s: string, a: nat, t: string, b: nat)
    requires a <= |s| && (a < |s| ==> !IsSpace(s[a])) && t == s[a..]
    requires b <= |t| && (b < |t| ==> !IsSpace(t[|t| - b - 1]))
    ensures NoEdgeSpace(t[..|t| - b])
  {
    var r := t[..|t| - b];
    if r != [] {
      assert r[0] == s[a];
      assert r[|r| - 1] == t[|t| - b - 1];
    }
  }

  lemma StripSlices(s: string, a: nat, t: string, b: nat)
    requires a <= |s| && t == s[a..] && b <= |t| && AllSpace(t[|t| - b..])
    ensures var r := t[..|t| - b];
      a + |r| <= |s| && r == s[a..a + |r|] && AllSpace(s[a + |r|..])
  {
    var r := t[..|t| - b];
    assert r == s[a..a + |r|];
    assert s[a + |r|..] == t[|t| - b..];
  }

  /** A string without edge whitespace is its own strip. */
  lemma {:induction false} StripNoEdge(s: string)
    requires NoEdgeSpace(s)
    ensures Strip(s) == s
  {
    if s != [] {
      assert LeadingSpace(s) == 0;
      assert s[0..] == s;
      assert TrailingSpace(s) == 0;
    }
  }

  /** strip() is idempotent. */
  lemma StripIdempotent(s: string)
    ensures Strip(Strip(s)) == Strip(s)
  {
    StripNoEdge(Strip(s));
  }

  /** A string is blank exactly when its strip is empty. */
  lemma {:induction false} BlankIffStripEmpty(s: string)
    ensures IsBlank(s) <==> Strip(s) == []
  {
    if IsBlank(s) {
      assert LeadingSpace(s) == |s|;
    } else {
      var k :| 0 <= k < |s| && !IsSpace(s[k]);
      assert LeadingSpace(s) <= k;
    }
  }

  // ---------------------------------------------------------------------
  // Case and substrings
  // ---------------------------------------------------------------------

  /** ASCII lowercasing of one character (non-ASCII characters are kept). */
  function LowerChar(c: char): char {
    if 'A' <= c <= 'Z' then (c as int + 32) as char else c
  }

  /** str.lower() restricted to ASCII letters. */
  function Lower(s: string): (r: string)
    ensures |r| == |s|
    ensures forall i | 0 <= i < |s| :: r[i] == LowerChar(s[i])
  {
    seq(|s|, i requires 0 <= i < |s| => LowerChar(s[i]))
  }

  /** sub occurs in s at index i. */
  predicate IsAt(s: string, sub: string, i: int) {
    0 <= i && i + |sub| <= |s| && s[i..i + |sub|] == sub
  }

  /** Python's `sub in s`. */
  predicate Contains(s: string, sub: string) {
    exists i | 0 <= i <= |s| - |sub| :: IsAt(s, sub, i)
  }

  predicate StartsWith(s: string, prefix: string) {
    |prefix| <= |s| && s[..|prefix|] == prefix
  }

  predicate EndsWith(s: string, suffix: string) {
    |suffix| <= |s| && s[|s| - |suffix|..] == suffix
  }

  /** A string cannot contain a pattern whose first character it lacks. */
  lemma ContainsNeedsHead(s: string, sub: string)
    requires |sub| > 0 && sub[0] !in s
    ensures !Contains(s, sub)
  {
  }

  /** An occurrence inside a prefix or suffix is an occurrence in the whole. */
  lemma ContainsExtend(a: string, b: string, sub: string)
    requires Contains(a, sub) || Contains(b, sub)
    ensures Contains(a + b, sub)
  {
    if Contains(a, sub) {
      var i :| 0 <= i <= |a| - |sub| && IsAt(a, sub, i);
      assert (a + b)[i..i + |sub|] == a[i..i + |sub|];
      assert IsAt(a + b, sub, i);
    } else {
      var i :| 0 <= i <= |b| - |sub| && IsAt(b, sub, i);
      assert (a + b)[|a| + i..|a| + i + |sub|] == b[i..i + |sub|];
      assert IsAt(a + b, sub, |a| + i);
    }
  }

  /**
   * Python's str.replace(pat, rep): every leftmost non-overlapping
   * occurrence of pat is replaced by rep.
   */
  function Replace(s: string, pat: string, rep: string): (r: string)
    requires |pat| > 0
    decreases |s|
  {
    if |s| < |pat| then s
    else if s[..|pat|] == pat then rep + Replace(s[|pat|..], pat, rep)
    else [s[0]] + Replace(s[1..], pat, rep)
  }

  /** Replacing a pattern that does not occur changes nothing. */
  lemma {:induction false} ReplaceAbsent(s: string, pat: string, rep: string)
    requires |pat| > 0 && !Contains(s, pat)
    ensures Replace(s, pat, rep) == s
  {
    if |s| >= |pat| {
      assert !IsAt(s, pat, 0);
      if !Contains(s[1..], pat) {
        ReplaceAbsent(s[1..], pat, rep);
      } else {
        var i :| 0 <= i <= |s[1..]| - |pat| && IsAt(s[1..], pat, i);
        assert s[1..][i..i + |pat|] == s[i + 1..i + 1 + |pat|];
        assert IsAt(s, pat, i + 1);
      }
    }
  }

  /** Replacing a one-character pattern by text without it leaves no occurrence of that character. */
  lemma {:induction false} ReplaceCharRemoves(s: string, c: char, rep: string)
    requires c !in rep
    ensures c !in Replace(s, [c], rep)
    decreases |s|
  {
    if |s| >= 1 {
      if s[..1] == [c] {
        ReplaceCharRemoves(s[1..], c, rep);
      } else {
        ReplaceCharRemoves(s[1..], c, rep);
        assert s[0] != c;
      }
    }
  }

  /** A character absent from the input and the replacement stays absent. */
  lemma {:induction false} ReplaceCharKeepsAbsent(s: string, c: char, d: char, rep: string)
    requires d !in s && d !in rep
    ensures d !in Replace(s, [c], rep)
    decreases |s|
  {
    if |s| >= 1 {
      assert d !in s[1..];
      ReplaceCharKeepsAbsent(s[1..], c, d, rep);
    }
  }

  /** Lowercasing twice is lowercasing once. */
  lemma LowerIdempotent(s: string)
    ensures Lower(Lower(s)) == Lower(s)
  {
  }

  // ---------------------------------------------------------------------
  // Splitting and joining
  // ---------------------------------------------------------------------

  /** An occurrence at j >= 1 in s is an occurrence at j - 1 in s[1..]. */
  lemma IsAtShift(s: string, sub: string)
    requires s != []
    ensures forall j | 1 <= j <= |s| :: IsAt(s, sub, j) == IsAt(s[1..], sub, j - 1)
  {
    forall j | 1 <= j <= |s|
      ensures IsAt(s, sub, j) == IsAt(s[1..], sub, j - 1)
    {
      if j + |sub| <= |s| {
        assert s[1..][j - 1..j - 1 + |sub|] == s[j..j + |sub|];
      }
    }
  }

  /** Index of the first occurrence of sub in s, or |s| + 1 when there is none. */
  function Find(s: string, sub: string): (i: nat)
    ensures i <= |s| + 1
    ensures i <= |s| ==> IsAt(s, sub, i)
    ensures forall j | 0 <= j < i && j <= |s| :: !IsAt(s, sub, j)
    decreases |s|
  {
    if IsAt(s, sub, 0) then 0
    else if s == [] then 1
    else
      var k := Find(s[1..], sub);
      IsAtShift(s, sub);
      k + 1
  }

  /** Python's s.split(sep) for a non-empty separator. */
  function Split(s: string, sep: string): (parts: seq<string>)
    requires |sep| > 0
    ensures |parts| >= 1
    decreases |s|
  {
    var i := Find(s, sep);
    if i > |s| then [s] else [s[..i]] + Split(s[i + |sep|..], sep)
  }

  /** No part of a split contains the separator. */
  lemma {:induction false} SplitLacksSep(s: string, sep: string)
    requires |sep| > 0
    ensures forall k | 0 <= k < |Split(s, sep)| :: !Contains(Split(s, sep)[k], sep)
    decreases |s|
  {
    var i := Find(s, sep);
    if i > |s| {
      PrefixLacks(s, sep, |s|);
      assert s[..|s|] == s;
    } else {
      PrefixLacks(s, sep, i);
      var rest := s[i + |sep|..];
      SplitLacksSep(rest, sep);
      var parts := Split(s, sep);
      assert parts == [s[..i]] + Split(rest, sep);
      forall k | 0 <= k < |parts| ensures !Contains(parts[k], sep) {
        if k > 0 {
          assert parts[k] == Split(rest, sep)[k - 1];
        }
      }
    }
  }

  /** A prefix that ends before the first occurrence of sub does not contain sub. */
  lemma PrefixLacks(s: string, sub: string, i: nat)
    requires |sub| > 0 && i <= |s|
    requires forall j | 0 <= j < i :: !IsAt(s, sub, j)
    ensures !Contains(s[..i], sub)
  {
    forall j | 0 <= j <= i - |sub| ensures !IsAt(s[..i], sub, j) {
      assert !IsAt(s, sub, j);
      assert s[..i][j..j + |sub|] == s[j..j + |sub|];
    }
  }

  /** The middle and the end of a three-part concatenation. */
  lemma SplitAround(a: string, m: string, b: string)
    ensures (a + m + b)[|a|..|a| + |m|] == m && (a + m + b)[|a| + |m|..] == b
  {
  }

  /** A string without the one-character separator splits into itself alone. */
  lemma SplitWithoutSep(s: string, c: char)
    requires c !in s
    ensures Split(s, [c]) == [s]
  {
    forall j | 0 <= j <= |s| ensures !IsAt(s, [c], j) {
      if j + 1 <= |s| {
        assert s[j..j + 1] == [s[j]];
      }
    }
  }

  /** Python's sep.join(parts). */
  function JoinWith(parts: seq<string>, sep: string): string {
    if parts == [] then ""
    else if |parts| == 1 then parts[0]
    else parts[0] + sep + JoinWith(parts[1..], sep)
  }

  /** Joining one more piece adds the separator and the piece at the end. */
  lemma {:induction false} JoinWithSnoc(parts: seq<string>, x: string, sep: string)
    requires parts != []
    ensures JoinWith(parts + [x], sep) == JoinWith(parts, sep) + sep + x
    decreases |parts|
  {
    var q := parts + [x];
    assert q[1..] == parts[1..] + [x];
    if |parts| > 1 {
      JoinWithSnoc(parts[1..], x, sep);
      StringAssoc4(parts[0], sep, JoinWith(parts[1..], sep), sep, x);
    } else {
      assert q[1..] == [x];
    }
  }

  lemma StringAssoc4(a: string, b: string, c: string, d: string, e: string)
    ensures a + b + (c + d + e) == a + b + c + d + e
  {
  }

  /** A join whose first piece is not empty is not empty. */
  lemma JoinWithNonEmpty(parts: seq<string>, sep: string)
    requires parts != [] && parts[0] != ""
    ensures JoinWith(parts, sep) != ""
  {
    if |parts| > 1 {
      assert JoinWith(parts, sep)[0] == parts[0][0];
    }
  }

  /** Joining the pieces of a split with the same separator gives the input back. */
  lemma {:induction false} JoinSplit(s: string, sep: string)
    requires |sep| > 0
    ensures JoinWith(Split(s, sep), sep) == s
    decreases |s|
  {
    var i := Find(s, sep);
    if i <= |s| {
      var rest := s[i + |sep|..];
      var parts := Split(s, sep);
      assert parts == [s[..i]] + Split(rest, sep);
      assert parts[1..] == Split(rest, sep);
      assert JoinWith(parts, sep) == s[..i] + sep + JoinWith(Split(rest, sep), sep);
      JoinSplit(rest, sep);
      assert s[i..i + |sep|] == sep;
      assert s == s[..i] + s[i..i + |sep|] + rest;
    }
  }

  /** A character at which str.splitlines() breaks a line. */
  predicate IsLineBreak(c: char) {
    c == '\n' || c == '\r' || c == '\U{B}' || c == '\U{C}' || ('\U{1C}' <= c <= '\U{1E}')
    || c == '\U{85}' || c == '\U{2028}' || c == '\U{2029}'
  }

  /** Index of the first line break in s, or |s|. */
  function LineEnd(s: string): (i: nat)
    ensures i <= |s| && (i < |s| ==> IsLineBreak(s[i]))
    ensures forall j | 0 <= j < i :: !IsLineBreak(s[j])
  {
    if s == [] || IsLineBreak(s[0]) then 0 else 1 + LineEnd(s[1..])
  }

  /** A line holds no line break. */
  predicate BreakFree(line: string) {
    forall j | 0 <= j < |line| :: !IsLineBreak(line[j])
  }

  /**
   * Python's str.splitlines(): lines without their terminators; "\r\n"
   * is one terminator; a final terminator does not open an empty line.
   */
  function SplitLines(s: string): (lines: seq<string>)
    ensures forall k | 0 <= k < |lines| :: BreakFree(lines[k])
    ensures Flatten(lines) == Others(s, IsLineBreak)
    ensures lines == [] <==> s == []
    decreases |s|
  {
    if s == [] then []
    else
      var i := LineEnd(s);
      if i == |s| then
        OthersNone(s, IsLineBreak);
        FlattenCons(s, []);
        assert s + [] == s;
        [s]
      else
        var skip := if s[i] == '\r' && i + 1 < |s| && s[i + 1] == '\n' then 2 else 1;
        var rest := SplitLines(s[i + skip..]);
        LinesCons(s, i, skip, rest);
        [s[..i]] + rest
  }

  /** A break-free line, then its terminator, then the lines of the rest. */
  lemma LinesCons(s: string, i: nat, skip: nat, rest: seq<string>)
    requires i + skip <= |s|
    requires forall j | 0 <= j < i :: !IsLineBreak(s[j])
    requires AllOf(s[i..i + skip], IsLineBreak)
    requires forall k | 0 <= k < |rest| :: BreakFree(rest[k])
    requires Flatten(rest) == Others(s[i + skip..], IsLineBreak)
    ensures forall k | 0 <= k < |[s[..i]] + rest| :: BreakFree(([s[..i]] + rest)[k])
    ensures Flatten([s[..i]] + rest) == Others(s, IsLineBreak)
  {
    assert BreakFree(s[..i]);
    forall k | 0 <= k < |[s[..i]] + rest| ensures BreakFree(([s[..i]] + rest)[k]) {
      if k > 0 {
        assert ([s[..i]] + rest)[k] == rest[k - 1];
      }
    }
    assert s == s[..i] + s[i..i + skip] + s[i + skip..];
    OthersAcrossRun(s[..i], s[i..i + skip], s[i + skip..], IsLineBreak);
    FlattenCons(s[..i], rest);
  }

  /** Dropping a prefix outside the class p and a run of p keeps the rest's other characters. */
  lemma {:induction false} OthersAcrossRun(a: string, b: string, c: string, p: char -> bool)
    requires forall j | 0 <= j < |a| :: !p(a[j])
    requires AllOf(b, p)
    ensures Others(a + b + c, p) == a + Others(c, p)
  {
    OthersNone(a, p);
    OthersOfRun(b, p);
    assert a + b + c == a + (b + c);
    OthersAppend(a, b + c, p);
    OthersAppend(b, c, p);
  }

  /** All pieces, concatenated. */
  function Flatten(parts: seq<string>): string {
    if parts == [] then [] else parts[0] + Flatten(parts[1..])
  }

  lemma {:induction false} FlattenAppend(a: seq<string>, b: seq<string>)
    ensures Flatten(a + b) == Flatten(a) + Flatten(b)
  {
    if a == [] {
      assert a + b == b;
    } else {
      assert (a + b)[0] == a[0];
      assert (a + b)[1..] == a[1..] + b;
      FlattenAppend(a[1..], b);
    }
  }

  lemma FlattenCons(x: string, ps: seq<string>)
    ensures Flatten([x] + ps) == x + Flatten(ps)
  {
    assert ([x] + ps)[0] == x;
    assert ([x] + ps)[1..] == ps;
  }

  // ---------------------------------------------------------------------
  // Collapsing runs: re.sub(R{min,}, rep, s) for a one-character class R
  // ---------------------------------------------------------------------

  predicate AllOf(s: string, p: char -> bool) {
    forall i | 0 <= i < |s| :: p(s[i])
  }

  /** Length of the run of class characters at the start of s. */
  function RunLength(s: string, p: char -> bool): (n: nat)
    ensures n <= |s| && AllOf(s[..n], p)
    ensures n < |s| ==> !p(s[n])
  {
    if s == [] || !p(s[0]) then 0
    else
      var m := RunLength(s[1..], p);
      assert s[..1 + m] == [s[0]] + s[1..][..m];
      1 + m
  }

  /**
   * Every maximal run of at least min characters of the class p is
   * replaced by rep; shorter runs and all other characters are kept.
   */
  function CollapseRuns(s: string, p: char -> bool, min: nat, rep: string): string
    decreases |s|
  {
    if s == [] then []
    else if !p(s[0]) then [s[0]] + CollapseRuns(s[1..], p, min, rep)
    else
      var n := RunLength(s, p);
      (if n >= min then rep else s[..n]) + CollapseRuns(s[n..], p, min, rep)
  }

  /** A window of more than bound class characters starts at index i of s. */
  predicate LongRunAt(s: string, p: char -> bool, i: int, bound: nat) {
    0 <= i && i + bound + 1 <= |s| && AllOf(s[i..i + bound + 1], p)
  }

  /** No window of more than bound consecutive class characters. */
  predicate RunsAtMost(s: string, p: char -> bool, bound: nat) {
    forall i | 0 <= i <= |s| :: !LongRunAt(s, p, i, bound)
  }

  /** Collapsing a string that starts with a non-class character keeps that character first. */
  lemma CollapseHead(s: string, p: char -> bool, min: nat, rep: string)
    requires s != [] && !p(s[0])
    ensures CollapseRuns(s, p, min, rep) != [] && CollapseRuns(s, p, min, rep)[0] == s[0]
  {
  }

  /**
   * After collapsing, no run of class characters is longer than bound,
   * provided the replacement is a run of at most bound class characters
   * and runs kept as they are (shorter than min) are at most bound long.
   */
  lemma {:induction false} CollapseBoundsRuns(s: string, p: char -> bool, min: nat, rep: string, bound: nat)
    requires AllOf(rep, p) && |rep| <= bound && min <= bound + 1
    ensures RunsAtMost(CollapseRuns(s, p, min, rep), p, bound)
    decreases |s|
  {
    if s == [] {
    } else if !p(s[0]) {
      CollapseBoundsRuns(s[1..], p, min, rep, bound);
      RunsAfterOther(s[0], CollapseRuns(s[1..], p, min, rep), p, bound);
    } else {
      var n := RunLength(s, p);
      var rest := s[n..];
      CollapseBoundsRuns(rest, p, min, rep, bound);
      if rest != [] {
        CollapseHead(rest, p, min, rep);
      }
      RunsAfterPiece(if n >= min then rep else s[..n], CollapseRuns(rest, p, min, rep), p, bound);
    }
  }

  /** A character outside the class in front of a string creates no long run. */
  lemma RunsAfterOther(c: char, r: string, p: char -> bool, bound: nat)
    requires !p(c) && RunsAtMost(r, p, bound)
    ensures RunsAtMost([c] + r, p, bound)
  {
    var t := [c] + r;
    forall i | 0 <= i <= |t|
      ensures !LongRunAt(t, p, i, bound)
    {
      if i + bound + 1 <= |t| {
        if i == 0 {
          assert t[i..i + bound + 1][0] == c;
        } else {
          assert t[i..i + bound + 1] == r[i - 1..i - 1 + bound + 1];
          assert !LongRunAt(r, p, i - 1, bound);
        }
      }
    }
  }

  /**
   * At most bound class characters in front of a string that starts
   * outside the class (or is empty) create no long run.
   */
  lemma RunsAfterPiece(piece: string, r: string, p: char -> bool, bound: nat)
    requires |piece| <= bound && RunsAtMost(r, p, bound)
    requires r == [] || !p(r[0])
    ensures RunsAtMost(piece + r, p, bound)
  {
    var t := piece + r;
    forall i | 0 <= i <= |t|
      ensures !LongRunAt(t, p, i, bound)
    {
      if i + bound + 1 <= |t| {
        if i < |piece| {
          assert t[i..i + bound + 1][|piece| - i] == r[0];
        } else {
          assert t[i..i + bound + 1] == r[i - |piece|..i - |piece| + bound + 1];
          assert !LongRunAt(r, p, i - |piece|, bound);
        }
      }
    }
  }

  /** The characters of s outside the class p, in order. */
  function Others(s: string, p: char -> bool): string {
    if s == [] then [] else (if p(s[0]) then [] else [s[0]]) + Others(s[1..], p)
  }

  lemma {:induction false} OthersAppend(a: string, b: string, p: char -> bool)
    ensures Others(a + b, p) == Others(a, p) + Others(b, p)
  {
    if a == [] {
      assert a + b == b;
    } else {
      assert (a + b)[0] == a[0];
      assert (a + b)[1..] == a[1..] + b;
      OthersAppend(a[1..], b, p);
    }
  }

  /** Text without any character of the class is its own Others. */
  lemma {:induction false} OthersNone(s: string, p: char -> bool)
    requires forall j | 0 <= j < |s| :: !p(s[j])
    ensures Others(s, p) == s
  {
    if s != [] {
      OthersNone(s[1..], p);
      assert s == [s[0]] + s[1..];
    }
  }

  lemma {:induction false} OthersOfRun(s: string, p: char -> bool)
    requires AllOf(s, p)
    ensures Others(s, p) == []
  {
    if s != [] {
      OthersOfRun(s[1..], p);
    }
  }

  /**
   * Collapsing only rewrites class characters: every other character
   * survives, in order.
   */
  lemma {:induction false} CollapseKeepsOthers(s: string, p: char -> bool, min: nat, rep: string)
    requires AllOf(rep, p)
    ensures Others(CollapseRuns(s, p, min, rep), p) == Others(s, p)
    decreases |s|
  {
    if s == [] {
    } else if !p(s[0]) {
      CollapseKeepsOthers(s[1..], p, min, rep);
      OthersAppend([s[0]], CollapseRuns(s[1..], p, min, rep), p);
    } else {
      var n := RunLength(s, p);
      var piece := if n >= min then rep else s[..n];
      CollapseKeepsOthers(s[n..], p, min, rep);
      OthersAppend(piece, CollapseRuns(s[n..], p, min, rep), p);
      OthersOfRun(piece, p);
      assert s == s[..n] + s[n..];
      OthersAppend(s[..n], s[n..], p);
      OthersOfRun(s[..n], p);
    }
  }

  /** A suffix of a string has no longer runs than the string. */
  lemma RunsAtMostSuffix(s: string, p: char -> bool, bound: nat, k: nat)
    requires k <= |s| && RunsAtMost(s, p, bound)
    ensures RunsAtMost(s[k..], p, bound)
  {
    forall i | 0 <= i <= |s[k..]|
      ensures !LongRunAt(s[k..], p, i, bound)
    {
      if i + bound + 1 <= |s[k..]| {
        assert s[k..][i..i + bound + 1] == s[k + i..k + i + bound + 1];
        assert !LongRunAt(s, p, k + i, bound);
      }
    }
  }

  /** The leading run is no longer than the bound on all runs. */
  lemma RunLengthAtMost(s: string, p: char -> bool, bound: nat)
    requires RunsAtMost(s, p, bound)
    ensures RunLength(s, p) <= bound
  {
    var n := RunLength(s, p);
    forall k | 0 <= k < n
      ensures p(s[k])
    {
      assert s[..n][k] == s[k];
    }
    assert !LongRunAt(s, p, 0, bound);
  }

  /** A string without a run of min class characters is left as it is. */
  lemma {:induction false} CollapseIdle(s: string, p: char -> bool, min: nat, rep: string)
    requires 1 <= min && RunsAtMost(s, p, min - 1)
    ensures CollapseRuns(s, p, min, rep) == s
    decreases |s|
  {
    if s == [] {
    } else if !p(s[0]) {
      RunsAtMostSuffix(s, p, min - 1, 1);
      CollapseIdle(s[1..], p, min, rep);
    } else {
      var n := RunLength(s, p);
      RunLengthAtMost(s, p, min - 1);
      RunsAtMostSuffix(s, p, min - 1, n);
      CollapseIdle(s[n..], p, min, rep);
      assert s == s[..n] + s[n..];
    }
  }

  /** A string whose spaces stand alone is left as it is by the space collapse. */
  lemma {:induction false} CollapseSingleSpacesIdle(s: string)
    requires RunsAtMost(s, IsSpaceChar, 1)
    ensures CollapseRuns(s, IsSpaceChar, 1, " ") == s
    decreases |s|
  {
    if s == [] {
    } else if !IsSpaceChar(s[0]) {
      RunsAtMostSuffix(s, IsSpaceChar, 1, 1);
      CollapseSingleSpacesIdle(s[1..]);
    } else {
      var n := RunLength(s, IsSpaceChar);
      RunLengthAtMost(s, IsSpaceChar, 1);
      assert n == 1 && s[..1] == " ";
      RunsAtMostSuffix(s, IsSpaceChar, 1, 1);
      CollapseSingleSpacesIdle(s[1..]);
      assert s == s[..1] + s[1..];
    }
  }

  predicate IsNewline(c: char) { c == '\n' }
  predicate IsSpaceChar(c: char) { c == ' ' }

  /** re.sub(r'\n{3,}', '\n\n', s). */
  function CollapseNewlines(s: string): string {
    CollapseRuns(s, IsNewline, 3, "\n\n")
  }

  /** re.sub(r' +', ' ', s). */
  function CollapseSpaces(s: string): string {
    CollapseRuns(s, IsSpaceChar, 1, " ")
  }

  /** re.sub(r'\s+', ' ', s). */
  function CollapseWhitespace(s: string): string {
    CollapseRuns(s, IsSpace, 1, " ")
  }

  // ---------------------------------------------------------------------
  // Decimal rendering (Python's str(int))
  // ---------------------------------------------------------------------

  function DigitChar(d: nat): char
    requires d < 10
  {
    ('0' as int + d) as char
  }

  predicate IsDigit(c: char) {
    '0' <= c <= '9'
  }

  function NatToString(n: nat): (r: string)
    ensures |r| > 0 && forall i | 0 <= i < |r| :: IsDigit(r[i])
  {
    if n < 10 then [DigitChar(n)] else NatToString(n / 10) + [DigitChar(n % 10)]
  }

  function IntToString(i: int): string {
    if i < 0 then "-" + NatToString(-i) else NatToString(i)
  }

  /** The number a string of decimal digits denotes. */
  function DecimalValue(s: string): nat
    requires forall i | 0 <= i < |s| :: IsDigit(s[i])
  {
    if s == [] then 0
    else
      assert IsDigit(s[|s| - 1]);
      10 * DecimalValue(s[..|s| - 1]) + (s[|s| - 1] as int - '0' as int) as nat
  }

  /** Reading back a rendered number gives the number. */
  lemma {:induction false} NatToStringRoundTrip(n: nat)
    ensures DecimalValue(NatToString(n)) == n
  {
    if n >= 10 {
      NatToStringRoundTrip(n / 10);
      var r := NatToString(n);
      assert r[..|r| - 1] == NatToString(n / 10);
    }
  }

  // ---------------------------------------------------------------------
  // The two collapses are idempotent
  // ---------------------------------------------------------------------

  /** Collapsing newline runs twice is collapsing them once. */
  lemma CollapseNewlinesIdempotent(s: string)
    ensures CollapseNewlines(CollapseNewlines(s)) == CollapseNewlines(s)
  {
    CollapseBoundsRuns(s, IsNewline, 3, "\n\n", 2);
    CollapseIdle(CollapseNewlines(s), IsNewline, 3, "\n\n");
  }

  /** Collapsing space runs twice is collapsing them once. */
  lemma CollapseSpacesIdempotent(s: string)
    ensures CollapseSpaces(CollapseSpaces(s)) == CollapseSpaces(s)
  {
    CollapseBoundsRuns(s, IsSpaceChar, 1, " ", 1);
    CollapseSingleSpacesIdle(CollapseSpaces(s));
  }
}
