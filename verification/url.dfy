/**
 * The part of Python's urllib.parse the scrapers use, simplified:
 * urlsplit (scheme, netloc, path, query and fragment of a URL, with
 * netloc the authority of section 3.2 of RFC 3986), urlunsplit, and
 * urljoin, the reference resolution of section 5.2 of RFC 3986 in
 * Python's manner. urlsplit's clean-up of the input (leading control
 * characters and spaces, embedded tabs and line ends) and its check of
 * unbalanced brackets in the netloc are not part of it.
 */
module Url {
  import opened Text

  predicate IsAsciiLetter(c: char) {
    'a' <= c <= 'z' || 'A' <= c <= 'Z'
  }

  predicate IsSchemeChar(c: char) {
    IsAsciiLetter(c) || IsDigit(c) || c == '+' || c == '-' || c == '.'
  }

  /** A non-empty run of scheme characters starting with a letter. */
  predicate IsSchemeName(s: string) {
    |s| > 0 && IsAsciiLetter(s[0]) && forall i | 0 <= i < |s| :: IsSchemeChar(s[i])
  }

  /**
   * Length of the scheme url starts with, 0 when it has none: the text
   * before the first ':' is a scheme when it is a non-empty scheme name.
   */
  function SchemeLength(url: string): (n: nat)
    ensures n > 0 ==> n < |url| && url[n] == ':' && IsSchemeName(url[..n])
    ensures forall i | 0 < i < |url| && url[i] == ':' && IsSchemeName(url[..i]) :: n == i
  {
    var i := Find(url, ":");
    assert i < |url| ==> url[i] == ':' by {
      if i < |url| {
        assert url[i..i + 1] == ":";
      }
    }
    forall j | 0 < j < |url| && url[j] == ':' && IsSchemeName(url[..j])
      ensures i == j
    {
      assert url[j..j + 1] == ":";
      assert IsAt(url, ":", j);
    }
    if 0 < i < |url| && IsSchemeName(url[..i]) then i else 0
  }

  /** The characters that end a netloc. */
  predicate IsNetlocDelim(c: char) {
    c == '/' || c == '?' || c == '#'
  }

  predicate NoNetlocDelim(s: string) {
    forall j | 0 <= j < |s| :: !IsNetlocDelim(s[j])
  }

  /** Index of the first '/', '?' or '#' in s, or |s| when there is none. */
  function DelimIndex(s: string): (i: nat)
    ensures i <= |s| && (i < |s| ==> IsNetlocDelim(s[i]))
    ensures NoNetlocDelim(s[..i])
  {
    if s == [] || IsNetlocDelim(s[0]) then 0
    else
      var k := DelimIndex(s[1..]);
      assert s[..1 + k] == [s[0]] + s[1..][..k];
      1 + k
  }

  /** The components urlsplit returns. */
  datatype Parts = Parts(scheme: string, netloc: string, path: string, query: string, fragment: string)

  /** The scheme urlsplit reports: the URL's own, lowercased, or the default. */
  function SchemeOf(url: string, defaultScheme: string): string {
    var n := SchemeLength(url);
    if n > 0 then Lower(url[..n]) else defaultScheme
  }

  /** What follows the scheme and its ':' (the whole URL when it has no scheme). */
  function AfterScheme(url: string): string {
    var n := SchemeLength(url);
    if n > 0 then url[n + 1..] else url
  }

  /** Where the netloc of a scheme-less rest ends (0 when rest does not start with "//"). */
  function NetlocEnd(rest: string): (e: nat)
    ensures e <= |rest|
  {
    if StartsWith(rest, "//") then 2 + DelimIndex(rest[2..]) else 0
  }

  /** The netloc: after "//", up to the first '/', '?' or '#'. */
  function NetlocOf(rest: string): (n: string)
    ensures NoNetlocDelim(n)
  {
    if StartsWith(rest, "//") then
      assert rest[2..NetlocEnd(rest)] == rest[2..][..DelimIndex(rest[2..])];
      rest[2..NetlocEnd(rest)]
    else ""
  }

  /** Path, query and fragment: the fragment follows the first '#', the query the first '?' before it. */
  function SplitTail(tail: string): (string, string, string) {
    var h := Find(tail, "#");
    var beforeFragment := if h <= |tail| then tail[..h] else tail;
    var fragment := if h <= |tail| then tail[h + 1..] else "";
    var q := Find(beforeFragment, "?");
    var path := if q <= |beforeFragment| then beforeFragment[..q] else beforeFragment;
    var query := if q <= |beforeFragment| then beforeFragment[q + 1..] else "";
    (path, query, fragment)
  }

  /**
   * urlsplit(url, scheme=defaultScheme): a scheme (lowercased) up to the
   * first ':', then a netloc after "//" up to the first '/', '?' or '#',
   * then the fragment after the first '#' and the query after the first
   * '?' before it; what remains is the path.
   */
  function SplitUrl(url: string, defaultScheme: string): (p: Parts)
    ensures SchemeLength(url) > 0 ==> p.scheme == Lower(url[..SchemeLength(url)])
    ensures SchemeLength(url) == 0 ==> p.scheme == defaultScheme
    ensures p.netloc == NetlocOf(AfterScheme(url)) && NoNetlocDelim(p.netloc)
  {
    var rest := AfterScheme(url);
    var tail := SplitTail(rest[NetlocEnd(rest)..]);
    Parts(SchemeOf(url, defaultScheme), NetlocOf(rest), tail.0, tail.1, tail.2)
  }

  /** Schemes for which urljoin resolves relative references. */
  const UsesRelative: set<string> := {
    "", "ftp", "http", "gopher", "nntp", "imap", "wais", "file", "https", "shttp", "mms",
    "prospero", "rtsp", "rtsps", "rtspu", "sftp", "svn", "svn+ssh", "ws", "wss"
  }

  /** Schemes whose URLs carry a netloc. */
  const UsesNetloc: set<string> := {
    "", "ftp", "http", "gopher", "nntp", "telnet", "imap", "wais", "file", "mms", "https",
    "shttp", "snews", "prospero", "rtsp", "rtsps", "rtspu", "rsync", "svn", "svn+ssh", "sftp",
    "nfs", "git", "git+ssh", "ws", "wss", "itms-services"
  }

  /** The authority-and-path part urlunsplit writes after the scheme. */
  function HierPart(p: Parts): string {
    if p.netloc != "" || (p.scheme != "" && p.scheme in UsesNetloc && !StartsWith(p.path, "//")) then
      "//" + p.netloc + (if p.path != "" && p.path[0] != '/' then "/" + p.path else p.path)
    else p.path
  }

  /** urlunsplit: the components reassembled; empty query and fragment are dropped. */
  function Unsplit(p: Parts): string {
    var withScheme := WithScheme(p);
    var withQuery := if p.query != "" then withScheme + "?" + p.query else withScheme;
    if p.fragment != "" then withQuery + "#" + p.fragment else withQuery
  }

  /** The elements of segs other than the empty string, in order. */
  function NonEmpty(segs: seq<string>): (r: seq<string>)
    ensures forall k | 0 <= k < |r| :: r[k] != ""
  {
    if segs == [] then []
    else (if segs[0] == "" then [] else [segs[0]]) + NonEmpty(segs[1..])
  }

  /** The dot-segment pass of urljoin: ".." pops (when it can), "." is dropped. */
  function RemoveDots(segs: seq<string>, acc: seq<string>): seq<string> {
    if segs == [] then acc
    else if segs[0] == ".." then RemoveDots(segs[1..], if acc == [] then [] else acc[..|acc| - 1])
    else if segs[0] == "." then RemoveDots(segs[1..], acc)
    else RemoveDots(segs[1..], acc + [segs[0]])
  }

  /** The path urljoin builds from a base path and a non-empty reference path. */
  function ResolvePath(basePath: string, path: string): string
    requires path != ""
  {
    var segments :=
      if path[0] == '/' then Split(path, "/")
      else
        var baseParts := Split(basePath, "/");
        var dir := if baseParts[|baseParts| - 1] != "" then baseParts[..|baseParts| - 1] else baseParts;
        var all := dir + Split(path, "/");
        if |all| >= 2 then [all[0]] + NonEmpty(all[1..|all| - 1]) + [all[|all| - 1]] else all;
    var resolved := RemoveDots(segments, []);
    var last := segments[|segments| - 1];
    var joined := JoinWith(if last == "." || last == ".." then resolved + [""] else resolved, "/");
    if joined == "" then "/" else joined
  }

  /** urljoin(base, url). */
  function Join(base: string, url: string): string {
    if base == "" then url
    else if url == "" then base
    else
      var b := SplitUrl(base, "");
      var r := SplitUrl(url, b.scheme);
      if r.scheme != b.scheme || r.scheme !in UsesRelative then url
      else if r.scheme in UsesNetloc && r.netloc != "" then Unsplit(r)
      else
        var netloc := if r.scheme in UsesNetloc then b.netloc else r.netloc;
        if r.path == "" then
          Unsplit(Parts(r.scheme, netloc, b.path, if r.query != "" then r.query else b.query, r.fragment))
        else
          Unsplit(Parts(r.scheme, netloc, ResolvePath(b.path, r.path), r.query, r.fragment))
  }

  // ---------------------------------------------------------------------
  // Properties
  // ---------------------------------------------------------------------

  /** Lowercasing a scheme name gives a lowercase scheme name. */
  lemma LowerSchemeName(s: string)
    requires IsSchemeName(s)
    ensures IsSchemeName(Lower(s)) && Lower(Lower(s)) == Lower(s)
  {
  }

  /** The netloc urlsplit finds does not depend on the default scheme. */
  lemma NetlocIgnoresDefault(url: string, d1: string, d2: string)
    ensures SplitUrl(url, d1).netloc == SplitUrl(url, d2).netloc
  {
  }

  /** The delimiter search is not affected by text appended after a delimiter. */
  lemma {:induction false} DelimIndexAppend(s: string, t: string)
    requires DelimIndex(s) < |s|
    ensures DelimIndex(s + t) == DelimIndex(s)
  {
    if !IsNetlocDelim(s[0]) {
      assert (s + t)[1..] == s[1..] + t;
      DelimIndexAppend(s[1..], t);
    }
  }

  /** The first occurrence of a pattern is not affected by text appended after it. */
  lemma FindAppend(s: string, t: string, sub: string)
    requires Find(s, sub) <= |s|
    ensures Find(s + t, sub) == Find(s, sub)
  {
    var i := Find(s, sub);
    assert (s + t)[i..i + |sub|] == s[i..i + |sub|];
    assert IsAt(s + t, sub, i);
    forall j | 0 <= j < i
      ensures !IsAt(s + t, sub, j)
    {
      assert !IsAt(s, sub, j);
      assert j + |sub| <= |s|;
      assert (s + t)[j..j + |sub|] == s[j..j + |sub|];
    }
  }

  /** A URL made of a scheme name, ':' and a rest has that scheme and that rest. */
  lemma SchemePrefix(s: string, x: string)
    requires IsSchemeName(s)
    ensures SchemeLength(s + ":" + x) == |s| && AfterScheme(s + ":" + x) == x
    ensures SchemeOf(s + ":" + x, "") == Lower(s)
  {
    var url := s + ":" + x;
    assert url[..|s|] == s && url[|s|] == ':';
    assert url[|s| + 1..] == x;
  }

  /** A URL that starts with '/' has no scheme. */
  lemma NoSchemeAfterSlash(x: string)
    requires x != [] && x[0] == '/'
    ensures SchemeLength(x) == 0 && AfterScheme(x) == x
  {
  }

  /** The netloc of "//<n><rest>" is n when n has no delimiter and rest is empty or starts with one. */
  lemma NetlocOfAuthority(n: string, rest: string)
    requires NoNetlocDelim(n)
    requires rest == "" || IsNetlocDelim(rest[0])
    ensures NetlocOf("//" + n + rest) == n
  {
    var after := "//" + n + rest;
    assert after[2..] == n + rest;
    DelimIndexAfter(n, rest);
    assert after[2..2 + |n|] == n;
  }

  /** The first delimiter of n + rest is the one rest starts with, when n has none. */
  lemma {:induction false} DelimIndexAfter(n: string, rest: string)
    requires NoNetlocDelim(n)
    requires rest == "" || IsNetlocDelim(rest[0])
    ensures DelimIndex(n + rest) == |n|
  {
    if n != [] {
      assert (n + rest)[0] == n[0] && (n + rest)[1..] == n[1..] + rest;
      DelimIndexAfter(n[1..], rest);
    } else {
      assert n + rest == rest;
    }
  }

  /**
   * urlsplit of "<scheme>://<netloc><rest>" finds that scheme and netloc
   * when the netloc has no delimiter and rest is empty or starts with one;
   * without a scheme ("//<netloc><rest>") the default scheme is used.
   */
  lemma SplitAuthority(s: string, n: string, rest: string, d: string)
    requires s == "" || IsSchemeName(s)
    requires NoNetlocDelim(n)
    requires rest == "" || IsNetlocDelim(rest[0])
    ensures var p := SplitUrl((if s == "" then "" else s + ":") + "//" + n + rest, d);
      p.scheme == (if s == "" then d else Lower(s)) && p.netloc == n
  {
    var hier := "//" + n + rest;
    var url := (if s == "" then "" else s + ":") + "//" + n + rest;
    NetlocOfAuthority(n, rest);
    if s == "" {
      assert url == hier;
      NoSchemeAfterSlash(hier);
    } else {
      assert url == s + ":" + hier;
      SchemePrefix(s, hier);
    }
    assert AfterScheme(url) == hier;
    assert SplitUrl(url, d).netloc == NetlocOf(hier);
  }

  /** What urlunsplit writes after "<scheme>:" and the netloc, when there is a netloc. */
  function AfterNetloc(p: Parts): string {
    (if p.path != "" && p.path[0] != '/' then "/" + p.path else p.path)
    + (if p.query != "" then "?" + p.query else "")
    + (if p.fragment != "" then "#" + p.fragment else "")
  }

  lemma AfterNetlocStartsWithDelim(p: Parts)
    ensures AfterNetloc(p) == "" || IsNetlocDelim(AfterNetloc(p)[0])
  {
  }

  /** The concatenations in urlunsplit regrouped around the netloc. */
  lemma UnsplitRegroup(pre: string, n: string, path: string, q: string, f: string)
    ensures pre + ("//" + n + path) + q + f == pre + "//" + n + (path + q + f)
  {
  }

  lemma UnsplitShape(p: Parts)
    requires p.netloc != ""
    ensures Unsplit(p) == (if p.scheme == "" then "" else p.scheme + ":") + "//" + p.netloc + AfterNetloc(p)
  {
    var pre := if p.scheme == "" then "" else p.scheme + ":";
    var path := if p.path != "" && p.path[0] != '/' then "/" + p.path else p.path;
    var q := if p.query != "" then "?" + p.query else "";
    var f := if p.fragment != "" then "#" + p.fragment else "";
    var withQuery := if p.query != "" then WithScheme(p) + "?" + p.query else WithScheme(p);
    assert HierPart(p) == "//" + p.netloc + path;
    WithSchemeShape(p, pre, "//" + p.netloc + path);
    AppendOptional(WithScheme(p), "?", p.query);
    AppendOptional(withQuery, "#", p.fragment);
    UnsplitRegroup(pre, p.netloc, path, q, f);
  }

  /** Appending a separator and a component only when the component is not empty. */
  lemma AppendOptional(a: string, sep: string, x: string)
    ensures (if x != "" then a + sep + x else a) == a + (if x != "" then sep + x else "")
  {
    if x == "" {
      assert a + "" == a;
    }
  }

  /** The scheme and the hierarchical part, as urlunsplit first joins them. */
  function WithScheme(p: Parts): string {
    if p.scheme != "" then p.scheme + ":" + HierPart(p) else HierPart(p)
  }

  lemma WithSchemeShape(p: Parts, pre: string, hier: string)
    requires pre == (if p.scheme == "" then "" else p.scheme + ":") && hier == HierPart(p)
    ensures WithScheme(p) == pre + hier
  {
  }

  /**
   * Reassembling components that carry a netloc and splitting the result
   * again gives back the scheme and the netloc.
   */
  lemma UnsplitKeepsAuthority(p: Parts, d: string)
    requires p.scheme == "" || IsSchemeName(p.scheme)
    requires p.netloc != "" && NoNetlocDelim(p.netloc)
    ensures SplitUrl(Unsplit(p), d).netloc == p.netloc
    ensures SplitUrl(Unsplit(p), d).scheme == (if p.scheme == "" then d else Lower(p.scheme))
  {
    AfterNetlocStartsWithDelim(p);
    UnsplitShape(p);
    SplitAuthority(p.scheme, p.netloc, AfterNetloc(p), d);
  }

  /**
   * A reference without a scheme and without "//" resolved against a base
   * whose scheme carries a netloc keeps the base's netloc.
   */
  lemma JoinKeepsAuthority(base: string, ref: string)
    requires SplitUrl(base, "").scheme in UsesRelative * UsesNetloc
    requires SplitUrl(base, "").netloc != ""
    requires SchemeLength(ref) == 0 && !StartsWith(ref, "//")
    ensures SplitUrl(Join(base, ref), "").netloc == SplitUrl(base, "").netloc
  {
    var b := SplitUrl(base, "");
    if ref != "" {
      var r := SplitUrl(ref, b.scheme);
      assert r.netloc == "";
      if b.scheme != "" {
        LowerSchemeName(base[..SchemeLength(base)]);
      }
      if r.path == "" {
        UnsplitKeepsAuthority(Parts(r.scheme, b.netloc, b.path, if r.query != "" then r.query else b.query, r.fragment), "");
      } else {
        UnsplitKeepsAuthority(Parts(r.scheme, b.netloc, ResolvePath(b.path, r.path), r.query, r.fragment), "");
      }
    }
  }

  /** An absolute reference with its own netloc keeps that netloc, whatever the base. */
  lemma JoinAbsolute(base: string, ref: string)
    requires SchemeLength(ref) > 0 && SplitUrl(ref, "").scheme in UsesNetloc
    requires SplitUrl(ref, "").netloc != ""
    ensures SplitUrl(Join(base, ref), "").netloc == SplitUrl(ref, "").netloc
  {
    if base != "" {
      var b := SplitUrl(base, "");
      var r := SplitUrl(ref, b.scheme);
      NetlocIgnoresDefault(ref, b.scheme, "");
      if r.scheme == b.scheme && r.scheme in UsesRelative {
        LowerSchemeName(ref[..SchemeLength(ref)]);
        UnsplitKeepsAuthority(r, "");
      }
    }
  }

  /** Appending text to a URL with a scheme keeps the scheme and extends what follows it. */
  lemma SchemeAppend(url: string, suffix: string)
    requires SchemeLength(url) > 0
    ensures SchemeLength(url + suffix) == SchemeLength(url)
    ensures SchemeOf(url + suffix, "") == SchemeOf(url, "")
    ensures AfterScheme(url + suffix) == AfterScheme(url) + suffix
  {
    var n := SchemeLength(url);
    assert (url + suffix)[..n] == url[..n] && (url + suffix)[n] == ':';
    assert (url + suffix)[n + 1..] == url[n + 1..] + suffix;
  }

  /** Appending text after a delimited netloc keeps the netloc. */
  lemma NetlocAppend(rest: string, suffix: string)
    requires StartsWith(rest, "//") && DelimIndex(rest[2..]) < |rest[2..]|
    ensures NetlocOf(rest + suffix) == NetlocOf(rest)
  {
    assert (rest + suffix)[2..] == rest[2..] + suffix;
    DelimIndexAppend(rest[2..], suffix);
    assert (rest + suffix)[2..NetlocEnd(rest)] == rest[2..NetlocEnd(rest)];
  }

  /**
   * Appending text to a URL that has a scheme and a netloc and ends with
   * '/' changes neither its scheme nor its netloc.
   */
  lemma AppendKeepsAuthority(base: string, suffix: string)
    requires SplitUrl(base, "").scheme != "" && SplitUrl(base, "").netloc != ""
    requires EndsWith(base, "/")
    ensures SplitUrl(base + suffix, "").scheme == SplitUrl(base, "").scheme
    ensures SplitUrl(base + suffix, "").netloc == SplitUrl(base, "").netloc
  {
    SchemeAppend(base, suffix);
    var rest := AfterScheme(base);
    assert StartsWith(rest, "//");
    var tail := rest[2..];
    assert DelimIndex(tail) > 0;
    assert tail[|tail| - 1] == base[|base| - 1] == '/';
    DelimBeforeEnd(tail);
    NetlocAppend(rest, suffix);
  }

  /** A string whose last character is a netloc delimiter has a delimiter before its end. */
  lemma DelimBeforeEnd(s: string)
    requires |s| > 0 && IsNetlocDelim(s[|s| - 1])
    ensures DelimIndex(s) < |s|
  {
  }

  // ---------------------------------------------------------------------
  // Joining a bare host name against "https://"
  // ---------------------------------------------------------------------

  /** urlsplit("https://") has the scheme and nothing else. */
  lemma HttpsSplit()
    ensures SplitUrl("https://", "") == Parts("https", "", "", "", "")
  {
    assert IsSchemeName("https");
    assert "https" + ":" + "//" == "https://";
    SchemePrefix("https", "//");
    assert Lower("https") == "https";
    assert NetlocEnd("//") == 2;
    assert "//"[2..] == "";
    assert NetlocOf("//") == "";
    SplitTailEmpty();
  }

  lemma SplitTailEmpty()
    ensures SplitTail("") == ("", "", "")
  {
  }

  /** A reference without '/', ':', '?' and '#' is all path. */
  lemma HostOnlySplit(u: string)
    requires u != [] && u[0] != '/' && ':' !in u && '#' !in u && '?' !in u
    ensures SplitUrl(u, "https") == Parts("https", "", u, "", "")
  {
    assert AfterScheme(u) == u;
    assert NetlocEnd(u) == 0;
    assert u[0..] == u;
  }

  /** Against an empty base path, such a reference becomes "/" and itself. */
  lemma HostOnlyPath(u: string)
    requires u != [] && '/' !in u && u != "." && u != ".."
    ensures ResolvePath("", u) == "/" + u
  {
    assert Split("", "/") == [""];
    SplitWithoutSep(u, '/');
    var all := [""] + [u];
    assert all[1..|all| - 1] == [];
    assert all[0] == "" && all[1..] == [u];
    assert all[0] != ".." && all[0] != ".";
    assert RemoveDots(all, []) == RemoveDots(all[1..], [] + [all[0]]);
    assert [] + [all[0]] == [""];
    assert RemoveDots([u], [""]) == RemoveDots([], ["", u]);
    assert RemoveDots(all, []) == ["", u];
    assert JoinWith(["", u], "/") == "" + "/" + u;
  }

  /** urljoin("https://", host) puts the host into the path, not the netloc. */
  lemma JoinHostOnly(u: string)
    requires u != [] && u != "." && u != ".."
    requires '/' !in u && ':' !in u && '#' !in u && '?' !in u
    ensures Join("https://", u) == Unsplit(Parts("https", "", "/" + u, "", ""))
  {
    HttpsSplit();
    HostOnlySplit(u);
    HostOnlyPath(u);
  }

  /** urlunsplit writes "https:///" + path for an https URL with an empty netloc. */
  lemma UnsplitNoNetloc(u: string)
    requires u != [] && u[0] != '/'
    ensures Unsplit(Parts("https", "", "/" + u, "", "")) == "https:///" + u
  {
    var p := Parts("https", "", "/" + u, "", "");
    assert p.path[1] == u[0];
    assert !StartsWith(p.path, "//");
    assert HierPart(p) == "//" + "" + ("/" + u);
  }

  /** Splitting "https:///" + path finds no netloc. */
  lemma TripleSlashNoNetloc(u: string)
    ensures SplitUrl("https:///" + u, "").netloc == ""
  {
    HttpsPieces();
    SplitAuthority("https", "", "/" + u, "");
    AppendEmpty("https://");
    assert "https://" + "/" == "https:///";
    StringAssoc("https://", "/", u);
  }

  lemma StringAssoc(x: string, y: string, z: string)
    ensures x + (y + z) == x + y + z
  {
  }

  /** Prefixing "https://" to a name without delimiters makes that name the netloc. */
  lemma PrefixHttps(u: string)
    requires NoNetlocDelim(u)
    ensures SplitUrl("https://" + u, "").netloc == u
    ensures SplitUrl("https://" + u, "").scheme == "https"
  {
    HttpsPieces();
    SplitAuthority("https", u, "", "");
    AppendEmpty("https://" + u);
  }

  /** The pieces urlsplit and urlunsplit make of the literal "https://". */
  lemma HttpsPieces()
    ensures IsSchemeName("https") && Lower("https") == "https"
    ensures "https" + ":" + "//" == "https://"
  {
    assert IsSchemeName("https");
    assert Lower("https") == "https";
  }

  lemma AppendEmpty(a: string)
    ensures a + "" == a
  {
  }
}
