/**
 * BlogCrawler: a page loop over a blog's listing pages that collects
 * the links shaped like blog posts. Its state is the set of processed
 * pages and the set of post URLs found, both kept across crawls.
 */
module BlogCrawling {
  import opened Wrappers
  import opened Text
  import opened Url
  import opened Patterns

  // ---------------------------------------------------------------------
  // URL shapes
  // ---------------------------------------------------------------------

  /** "/blog/\d{4}/", "/blog/\d{4}/\d{2}/" and "/blog/\d{4}/\d{2}/\d{2}/". */
  const YearPattern: seq<Tok> := Lits("/blog/") + Digits(4) + Lits("/")
  const MonthPattern: seq<Tok> := YearPattern + Digits(2) + Lits("/")
  const DayPattern: seq<Tok> := MonthPattern + Digits(2) + Lits("/")

  /** _is_blog_post_url: one of the six patterns is found in the URL, case-sensitively. */
  predicate IsBlogPostUrl(url: string) {
    || SearchFixed(url, DayPattern)
    || SearchFixed(url, MonthPattern)
    || SearchFixed(url, YearPattern)
    || TailAfter(url, "/blog/", '/')
    || TailAfter(url, "/posts/", '/')
    || TailAfter(url, "/article/", '/')
  }

  /** The date patterns extend the year pattern, so only four tests decide. */
  lemma BlogPostUrlShapes(url: string)
    ensures IsBlogPostUrl(url) <==>
      SearchFixed(url, YearPattern) || TailAfter(url, "/blog/", '/')
      || TailAfter(url, "/posts/", '/') || TailAfter(url, "/article/", '/')
  {
    if SearchFixed(url, DayPattern) {
      assert DayPattern == MonthPattern + (Digits(2) + Lits("/"));
      SearchPrefix(url, MonthPattern, Digits(2) + Lits("/"));
    }
    if SearchFixed(url, MonthPattern) {
      assert MonthPattern == YearPattern + (Digits(2) + Lits("/"));
      SearchPrefix(url, YearPattern, Digits(2) + Lits("/"));
    }
  }

  /** The shapes are case-sensitive: an upper-case "/BLOG/" path is not a post, its lower-case form is. */
  lemma BlogPostUrlCaseSensitive()
    ensures !IsBlogPostUrl("https://x.net/BLOG/Entry")
    ensures IsBlogPostUrl("https://x.net/blog/entry")
  {
    var u := "https://x.net/BLOG/Entry";
    assert 'b' !in u && 'o' !in u && 'a' !in u;
    AbsentLitNoSearch(u, DayPattern, 1);
    AbsentLitNoSearch(u, MonthPattern, 1);
    AbsentLitNoSearch(u, YearPattern, 1);
    AbsentCharNoTail(u, "/blog/", '/', 1);
    AbsentCharNoTail(u, "/posts/", '/', 2);
    AbsentCharNoTail(u, "/article/", '/', 1);
    var l := "https://x.net/blog/entry";
    assert IsAt(l, "/blog/", 13) && Lacks(l[19..], '/');
  }

  /** A literal position whose character the string lacks rules the pattern out. */
  lemma AbsentLitNoSearch(s: string, p: seq<Tok>, k: int)
    requires 0 <= k < |p| && p[k].Lit? && p[k].c !in s
    ensures !SearchFixed(s, p)
  {
  }

  /** A lead with a character the string lacks is never found. */
  lemma AbsentCharNoTail(s: string, lead: string, stop: char, k: int)
    requires 0 <= k < |lead| && lead[k] !in s
    ensures !TailAfter(s, lead, stop)
  {
  }

  /** _is_valid_url: the URL has a non-empty scheme and netloc. */
  predicate IsValidUrl(url: string) {
    SplitUrl(url, "").scheme != "" && SplitUrl(url, "").netloc != ""
  }

  /** The three candidate next-page URLs, in the order they are tried. */
  function PageCandidates(base: string, n: int): seq<string> {
    var k := IntToString(n);
    [base + ("page/" + k + "/"), base + ("?page=" + k), base + ("p" + k + "/")]
  }

  /** The first valid URL of the candidates, "" when none is valid. */
  function FirstValid(cs: seq<string>): string {
    if |cs| == 0 then ""
    else if IsValidUrl(cs[0]) then cs[0]
    else FirstValid(cs[1..])
  }

  /** When some candidate is valid, FirstValid is the earliest valid one. */
  lemma {:induction false} FirstValidIsFirst(cs: seq<string>, j: nat)
    requires j < |cs| && IsValidUrl(cs[j])
    requires forall i | 0 <= i < j :: !IsValidUrl(cs[i])
    ensures FirstValid(cs) == cs[j]
  {
    if j > 0 {
      FirstValidSkip(cs);
      InvalidShift(cs, j);
      FirstValidIsFirst(cs[1..], j - 1);
    }
  }

  /** When no candidate is valid, FirstValid is "". */
  lemma {:induction false} FirstValidNone(cs: seq<string>)
    requires forall i | 0 <= i < |cs| :: !IsValidUrl(cs[i])
    ensures FirstValid(cs) == ""
  {
    if cs != [] {
      FirstValidSkip(cs);
      InvalidShift(cs, |cs|);
      FirstValidNone(cs[1..]);
    }
  }

  /** An invalid first candidate is passed over. */
  lemma FirstValidSkip(cs: seq<string>)
    requires cs != [] && !IsValidUrl(cs[0])
    ensures FirstValid(cs) == FirstValid(cs[1..])
  {
  }

  /** The invalid candidates before position j, seen from the second candidate on. */
  lemma InvalidShift(cs: seq<string>, j: nat)
    requires 0 < j <= |cs|
    requires forall i | 0 <= i < j :: !IsValidUrl(cs[i])
    ensures forall i | 0 <= i < j - 1 :: !IsValidUrl(cs[1..][i])
    ensures j < |cs| ==> cs[1..][j - 1] == cs[j]
  {
    forall i | 0 <= i < j - 1
      ensures cs[1..][i] == cs[i + 1]
    {
    }
  }

  /** _get_next_page_url: the first candidate for page n that is a valid URL, else "". */
  function NextPageUrl(base: string, n: int): string {
    FirstValid(PageCandidates(base, n))
  }

  /** For a valid base that ends with '/', the WordPress-style candidate always wins. */
  lemma NextPageIsWordPressStyle(base: string, n: int)
    requires IsValidUrl(base) && EndsWith(base, "/")
    ensures NextPageUrl(base, n) == base + ("page/" + IntToString(n) + "/")
  {
    var k := IntToString(n);
    AppendKeepsAuthority(base, "page/" + k + "/");
  }

  /** A seed without a ':' has no scheme, so it gets no next page: only the seed itself is processed. */
  lemma SchemelessSeedHasNoNextPage(base: string, n: int)
    requires ':' !in base
    ensures NextPageUrl(base, n) == ""
  {
    var k := IntToString(n);
    assert ':' !in k by {
      var digits := NatToString(if n < 0 then -n else n);
      assert forall i | 0 <= i < |digits| :: digits[i] != ':';
    }
    var cs := PageCandidates(base, n);
    forall i | 0 <= i < |cs| ensures !IsValidUrl(cs[i]) {
      assert ':' !in cs[i];
      NoColonNoScheme(cs[i]);
    }
    FirstValidNone(cs);
  }

  lemma NoColonNoScheme(url: string)
    requires ':' !in url
    ensures SplitUrl(url, "").scheme == ""
  {
    SchemeHasColon(url);
  }

  /** A scheme is always followed by a ':'. */
  lemma SchemeHasColon(url: string)
    ensures SchemeLength(url) > 0 ==> ':' in url
  {
    var n := SchemeLength(url);
    if n > 0 {
      assert url[n] == ':';
    }
  }

  // ---------------------------------------------------------------------
  // The page loop, as functions of the state
  // ---------------------------------------------------------------------

  datatype BlogState = BlogState(visited: set<string>, posts: set<string>)

  /** A listing page fetch: the status and the href of every anchor, in order. */
  type PageFetch = string -> Fetch<(int, seq<string>)>

  /** The links of a page at url, resolved against it, that are posts and not processed pages. */
  function PagePosts(v: set<string>, url: string, hrefs: seq<string>): (r: set<string>)
    ensures forall x | x in r :: x !in v && IsBlogPostUrl(x) && exists h | h in hrefs :: x == Join(url, h)
    ensures forall h | h in hrefs && Join(url, h) !in v && IsBlogPostUrl(Join(url, h)) :: Join(url, h) in r
  {
    if hrefs == [] then {}
    else
      var front := hrefs[..|hrefs| - 1];
      var h := hrefs[|hrefs| - 1];
      assert forall g | g in front :: g in hrefs;
      assert forall g | g in hrefs :: g in front || g == h by {
        assert hrefs == front + [h];
      }
      var full := Join(url, h);
      PagePosts(v, url, front) + (if full !in v && IsBlogPostUrl(full) then {full} else {})
  }

  /** Reading one more link adds it when it is a post not yet processed. */
  lemma PagePostsSnoc(v: set<string>, url: string, hrefs: seq<string>, i: nat)
    requires i < |hrefs|
    ensures PagePosts(v, url, hrefs[..i + 1]) == PagePosts(v, url, hrefs[..i])
      + (if Join(url, hrefs[i]) !in v && IsBlogPostUrl(Join(url, hrefs[i])) then {Join(url, hrefs[i])} else {})
  {
    assert hrefs[..i + 1][..i] == hrefs[..i];
  }

  /**
   * _process_page: false without fetching for a processed page; otherwise
   * the page is marked processed first, and a failed or non-200 fetch
   * answers false.
   */
  function Visit(st: BlogState, url: string, fetch: PageFetch): (bool, BlogState) {
    if url in st.visited then (false, st)
    else
      var v := st.visited + {url};
      match fetch(url)
      case Raised => (false, BlogState(v, st.posts))
      case Got((status, hrefs)) =>
        if status != 200 then (false, BlogState(v, st.posts))
        else (true, BlogState(v, st.posts + PagePosts(v, url, hrefs)))
  }

  /** The next listing page URL for a page number ("" when there is none). */
  type Pager = int -> string

  /** A page step: whether the page was processed, and the state after it. */
  type Visitor = (BlogState, string) -> (bool, BlogState)

  /** _process_page with the given fetcher, as a page step. */
  function VisitIn(fetch: PageFetch): Visitor {
    (st, url) => Visit(st, url, fetch)
  }

  /**
   * The page loop from page n: while n <= maxPages, stop at an empty next
   * page or at a page that answers false. Also gives the pages processed.
   */
  function FollowPages(st: BlogState, pager: Pager, n: int, maxPages: int, visit: Visitor): (BlogState, seq<string>)
    decreases maxPages - n + 1
  {
    if n > maxPages then (st, [])
    else
      var next := pager(n);
      if next == "" then (st, [])
      else
        var (ok, st1) := visit(st, next);
        if !ok then (st1, [next])
        else
          var (st2, rest) := FollowPages(st1, pager, n + 1, maxPages, visit);
          (st2, [next] + rest)
  }

  /** The seed with a '/' appended when it does not end with one. */
  function NormalizeSeed(start: string): (s: string)
    ensures EndsWith(s, "/")
    ensures s == start || s == start + "/"
  {
    if EndsWith(start, "/") then start else start + "/"
  }

  /** The next page URLs of a normalised seed. */
  function PagerOf(base: string): Pager {
    n => NextPageUrl(base, n)
  }

  /** crawl(start_url): the state after the crawl and the pages processed, seed first. */
  function CrawlBlog(st: BlogState, start: string, maxPages: int, fetch: PageFetch): (BlogState, seq<string>) {
    var base := NormalizeSeed(start);
    var st1 := Visit(st, base, fetch).1;
    var (st2, pages) := FollowPages(st1, PagerOf(base), 2, maxPages, VisitIn(fetch));
    (st2, [base] + pages)
  }

  /** Both sets only grow, and every post added is post-shaped. */
  predicate Extends(st: BlogState, st1: BlogState) {
    && st.visited <= st1.visited
    && st.posts <= st1.posts
    && forall u | u in st1.posts - st.posts :: IsBlogPostUrl(u)
  }

  /** Processing a page marks it processed and extends the state; it answers true only for a page not yet processed. */
  lemma VisitExtends(st: BlogState, url: string, fetch: PageFetch)
    ensures Extends(st, Visit(st, url, fetch).1)
    ensures url in Visit(st, url, fetch).1.visited
    ensures Visit(st, url, fetch).0 ==> url !in st.visited
    ensures !Visit(st, url, fetch).0 ==> Visit(st, url, fetch).1.posts == st.posts
  {
  }

  /**
   * The page loop processes page n, n + 1, ... in order, each the next
   * page URL of its number, and at most maxPages - n + 1 of them.
   */
  lemma {:induction false} FollowPagesShape(st: BlogState, pager: Pager, n: int, maxPages: int, visit: Visitor)
    ensures var pages := FollowPages(st, pager, n, maxPages, visit).1;
      && |pages| <= (if maxPages - n + 1 > 0 then maxPages - n + 1 else 0)
      && (forall k | 0 <= k < |pages| :: pages[k] == pager(n + k) && pages[k] != "")
    decreases maxPages - n + 1
  {
    if n <= maxPages {
      var next := pager(n);
      if next != "" {
        var v := visit(st, next);
        if v.0 {
          FollowPagesShape(v.1, pager, n + 1, maxPages, visit);
          var rest := FollowPages(v.1, pager, n + 1, maxPages, visit).1;
          assert FollowPages(st, pager, n, maxPages, visit).1 == [next] + rest;
          forall k | 1 <= k < |rest| + 1
            ensures ([next] + rest)[k] == pager(n + k)
          {
            assert ([next] + rest)[k] == rest[k - 1];
          }
        }
      }
    }
  }

  /** The page loop extends the state. */
  lemma {:induction false} FollowPagesExtends(st: BlogState, pager: Pager, n: int, maxPages: int, fetch: PageFetch)
    ensures Extends(st, FollowPages(st, pager, n, maxPages, VisitIn(fetch)).0)
    decreases maxPages - n + 1
  {
    if n <= maxPages {
      var next := pager(n);
      if next != "" {
        var v := VisitIn(fetch)(st, next);
        VisitExtends(st, next, fetch);
        if v.0 {
          FollowPagesExtends(v.1, pager, n + 1, maxPages, fetch);
          assert FollowPages(st, pager, n, maxPages, VisitIn(fetch)).0 == FollowPages(v.1, pager, n + 1, maxPages, VisitIn(fetch)).0;
        }
      }
    }
  }

  /** The seed followed by the pages from page 2 on: the k-th entry after the seed is page k + 1. */
  lemma ShiftedPages(base: string, rest: seq<string>, pager: Pager, maxPages: int)
    requires |rest| <= (if maxPages - 1 > 0 then maxPages - 1 else 0)
    requires forall k | 0 <= k < |rest| :: rest[k] == pager(2 + k)
    ensures var pages := [base] + rest;
      && |pages| >= 1 && pages[0] == base
      && |pages| <= (if maxPages > 1 then maxPages else 1)
      && (forall k | 1 <= k < |pages| :: pages[k] == pager(k + 1))
  {
    forall k | 1 <= k < |[base] + rest| ensures ([base] + rest)[k] == pager(k + 1) {
      assert ([base] + rest)[k] == rest[k - 1];
    }
  }

  /**
   * A crawl processes the normalised seed and then at most maxPages - 1
   * further pages, the next page URLs of 2, 3, ... in order.
   */
  lemma CrawlBlogShape(st: BlogState, start: string, maxPages: int, fetch: PageFetch)
    ensures var pages := CrawlBlog(st, start, maxPages, fetch).1;
      && |pages| >= 1 && pages[0] == NormalizeSeed(start)
      && |pages| <= (if maxPages > 1 then maxPages else 1)
      && (forall k | 1 <= k < |pages| :: pages[k] == PagerOf(NormalizeSeed(start))(k + 1))
  {
    var base := NormalizeSeed(start);
    CrawlBlogPages(st, start, maxPages, fetch);
    SeedThenPages(Visit(st, base, fetch).1, base, PagerOf(base), maxPages, VisitIn(fetch));
  }

  /** The seed, then the page loop from page 2 on. */
  lemma SeedThenPages(st1: BlogState, base: string, pager: Pager, maxPages: int, visit: Visitor)
    ensures var pages := [base] + FollowPages(st1, pager, 2, maxPages, visit).1;
      && |pages| >= 1 && pages[0] == base
      && |pages| <= (if maxPages > 1 then maxPages else 1)
      && (forall k | 1 <= k < |pages| :: pages[k] == pager(k + 1))
  {
    FollowPagesShape(st1, pager, 2, maxPages, visit);
    ShiftedPages(base, FollowPages(st1, pager, 2, maxPages, visit).1, pager, maxPages);
  }

  lemma CrawlBlogPages(st: BlogState, start: string, maxPages: int, fetch: PageFetch)
    ensures var base := NormalizeSeed(start);
      CrawlBlog(st, start, maxPages, fetch).1
      == [base] + FollowPages(Visit(st, base, fetch).1, PagerOf(base), 2, maxPages, VisitIn(fetch)).1
  {
  }

  /** A crawl only adds to both sets, and only post-shaped URLs to the posts. */
  lemma CrawlBlogExtends(st: BlogState, start: string, maxPages: int, fetch: PageFetch)
    ensures Extends(st, CrawlBlog(st, start, maxPages, fetch).0)
  {
    var base := NormalizeSeed(start);
    var st1 := Visit(st, base, fetch).1;
    VisitExtends(st, base, fetch);
    FollowPagesExtends(st1, PagerOf(base), 2, maxPages, fetch);
  }

  // ---------------------------------------------------------------------
  // The class
  // ---------------------------------------------------------------------

  class BlogCrawler {
    const maxPages: int
    var visited: set<string>
    var posts: set<string>

    constructor(maxPages: int)
      ensures this.maxPages == maxPages && visited == {} && posts == {}
    {
      this.maxPages := maxPages;
      visited := {};
      posts := {};
    }

    /** _process_page: marks the page processed, then adds the post-shaped links not yet processed. */
    method ProcessPage(url: string, fetch: PageFetch) returns (ok: bool)
      modifies this
      ensures (ok, BlogState(visited, posts)) == Visit(BlogState(old(visited), old(posts)), url, fetch)
    {
      if url in visited {
        return false;
      }
      visited := visited + {url};
      var fetched := fetch(url);
      if fetched.Raised? || fetched.value.0 != 200 {
        return false;
      }
      var found := NewPosts(url, fetched.value.1);
      posts := posts + found;
      return true;
    }

    /** The loop of _process_page over the page's links: the post-shaped ones not yet processed, resolved against the page. */
    method NewPosts(url: string, hrefs: seq<string>) returns (found: set<string>)
      ensures found == PagePosts(visited, url, hrefs)
    {
      found := {};
      var i := 0;
      while i < |hrefs|
        invariant 0 <= i <= |hrefs|
        invariant found == PagePosts(visited, url, hrefs[..i])
      {
        var full := Join(url, hrefs[i]);
        PagePostsSnoc(visited, url, hrefs, i);
        if full !in visited && IsBlogPostUrl(full) {
          found := found + {full};
        }
        i := i + 1;
      }
      assert hrefs[..i] == hrefs;
    }

    /** crawl(start_url): the seed, then pages 2 to maxPages until a page is missing or fails. */
    method Crawl(start: string, fetch: PageFetch) returns (result: set<string>)
      modifies this
      ensures BlogState(visited, posts) == CrawlBlog(BlogState(old(visited), old(posts)), start, maxPages, fetch).0
      ensures result == posts
    {
      ghost var st0 := BlogState(visited, posts);
      var base := if EndsWith(start, "/") then start else start + "/";
      var _ := ProcessPage(base, fetch);
      ghost var pager := PagerOf(base);
      ghost var visit := VisitIn(fetch);
      ghost var final := FollowPages(BlogState(visited, posts), pager, 2, maxPages, visit).0;
      assert CrawlBlog(st0, start, maxPages, fetch).0 == final by {
        assert NormalizeSeed(start) == base;
      }
      var n := 2;
      while n <= maxPages
        invariant FollowPages(BlogState(visited, posts), pager, n, maxPages, visit).0 == final
        decreases maxPages - n + 1
      {
        ghost var st := BlogState(visited, posts);
        var next := NextPageUrl(base, n);
        assert pager(n) == next;
        if next == "" {
          assert st == final;
          break;
        }
        var ok := ProcessPage(next, fetch);
        ghost var st' := BlogState(visited, posts);
        assert visit(st, next) == (ok, st');
        if !ok {
          assert st' == final;
          break;
        }
        assert FollowPages(st', pager, n + 1, maxPages, visit).0 == final;
        n := n + 1;
      }
      result := posts;
    }
  }
}
