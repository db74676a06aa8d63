/**
 * BlogScraper: which URLs it claims, how it makes a URL absolute, the
 * clean-up of extracted text, and the three-step fallback ladder that
 * turns one blog page into at most one content item.
 */
module BlogScraping {
  import opened Wrappers
  import opened Text
  import opened Url
  import opened Patterns
  import opened Base
  import opened BlogCrawling

  // ---------------------------------------------------------------------
  // can_handle
  // ---------------------------------------------------------------------

  /**
   * can_handle: the lowercased URL matches one of nine shapes: the six
   * blog-post shapes of the blog crawler, a Substack post
   * (".substack.com/p/"), a Medium post ("medium.com/@<a>/<b>" at the
   * end) or a dev.to post ("dev.to/<a>/<b>" at the end).
   */
  predicate CanHandle(url: string) {
    var l := Lower(url);
    || SearchFixed(l, DayPattern)
    || SearchFixed(l, MonthPattern)
    || SearchFixed(l, YearPattern)
    || TailAfter(l, "/blog/", '/')
    || TailAfter(l, "/posts/", '/')
    || TailAfter(l, "/article/", '/')
    || Contains(l, ".substack.com/p/")
    || TwoSegmentsAfter(l, "medium.com/@")
    || TwoSegmentsAfter(l, "dev.to/")
  }

  /** Every post the blog crawler collects is one the blog scraper claims. */
  lemma CrawledPostsAreClaimed(url: string)
    requires IsBlogPostUrl(url)
    ensures CanHandle(url)
  {
    assert NotALetter('/');
    if SearchFixed(url, DayPattern) {
      LowerKeepsMatch(url, DayPattern);
    } else if SearchFixed(url, MonthPattern) {
      LowerKeepsMatch(url, MonthPattern);
    } else if SearchFixed(url, YearPattern) {
      LowerKeepsMatch(url, YearPattern);
    } else if TailAfter(url, "/blog/", '/') {
      LowerKeepsTail(url, "/blog/", '/');
    } else if TailAfter(url, "/posts/", '/') {
      LowerKeepsTail(url, "/posts/", '/');
    } else {
      LowerKeepsTail(url, "/article/", '/');
    }
  }

  /** The converse fails: the scraper ignores case, the crawler does not. */
  lemma ClaimedNotCrawled()
    ensures CanHandle("https://x.net/BLOG/Entry")
    ensures !IsBlogPostUrl("https://x.net/BLOG/Entry")
  {
    BlogPostUrlCaseSensitive();
    LowerOfExample();
    BlogTailOfExample();
  }

  lemma LowerOfExample()
    ensures Lower("https://x.net/BLOG/Entry") == "https://x.net/blog/entry"
  {
  }

  lemma BlogTailOfExample()
    ensures TailAfter("https://x.net/blog/entry", "/blog/", '/')
  {
    var l := "https://x.net/blog/entry";
    assert IsAt(l, "/blog/", 13) && Lacks(l[19..], '/');
  }

  // ---------------------------------------------------------------------
  // URL normalisation
  // ---------------------------------------------------------------------

  /** The URL already names its scheme: it starts with "http://" or "https://", in any case. */
  predicate HasHttpScheme(url: string) {
    StartsWith(Lower(url), "http://") || StartsWith(Lower(url), "https://")
  }

  /**
   * The normalisation as written: joined against the base URL when one
   * is given (a non-empty string), else joined against "https://" when
   * the URL does not start with an HTTP scheme, else unchanged.
   */
  function NormalizeUrlAsWritten(url: string, baseUrl: Option<string>): string {
    if baseUrl.Some? && baseUrl.value != "" then Join(baseUrl.value, url)
    else if !HasHttpScheme(url) then Join("https://", url)
    else url
  }

  /** A URL without ':' does not start with an HTTP scheme. */
  lemma NoColonNoHttpScheme(url: string)
    requires ':' !in url
    ensures !HasHttpScheme(url)
  {
    var l := Lower(url);
    assert ':' !in l;
    if |l| >= 7 {
      assert l[..7][4] == l[4] != ':';
    }
    if |l| >= 8 {
      assert l[..8][5] == l[5] != ':';
    }
  }

  /**
   * A bare host name (say "example.com") without a base URL loses its
   * host: joining it against "https://" makes it the path of a URL with
   * no netloc.
   */
  lemma BareHostLosesNetloc(host: string)
    requires host != [] && host != "." && host != ".."
    requires '/' !in host && ':' !in host && '#' !in host && '?' !in host
    ensures NormalizeUrlAsWritten(host, None) == "https:///" + host
    ensures SplitUrl(NormalizeUrlAsWritten(host, None), "").netloc == ""
  {
    NoColonNoHttpScheme(host);
    JoinHostOnly(host);
    UnsplitNoNetloc(host);
    TripleSlashNoNetloc(host);
  }

  /** The normalisation: as written, except that an URL without an HTTP scheme gets "https://" in front. */
  function NormalizeUrl(url: string, baseUrl: Option<string>): string {
    if baseUrl.Some? && baseUrl.value != "" then Join(baseUrl.value, url)
    else if !HasHttpScheme(url) then "https://" + url
    else url
  }

  /** A bare host name becomes the netloc of an https URL. */
  lemma BareHostBecomesNetloc(host: string)
    requires host != [] && NoNetlocDelim(host) && ':' !in host
    ensures SplitUrl(NormalizeUrl(host, None), "").netloc == host
    ensures SplitUrl(NormalizeUrl(host, None), "").scheme == "https"
  {
    NoColonNoHttpScheme(host);
    PrefixHttps(host);
  }

  /**
   * With a base URL that has a netloc, a relative reference lands on the
   * base's host and an absolute one keeps its own.
   */
  lemma NormalizeUrlAgainstBase(url: string, base: string)
    requires SplitUrl(base, "").scheme in UsesRelative * UsesNetloc && SplitUrl(base, "").netloc != ""
    ensures SchemeLength(url) == 0 && !StartsWith(url, "//") ==>
      SplitUrl(NormalizeUrl(url, Some(base)), "").netloc == SplitUrl(base, "").netloc
    ensures SchemeLength(url) > 0 && SplitUrl(url, "").scheme in UsesNetloc && SplitUrl(url, "").netloc != "" ==>
      SplitUrl(NormalizeUrl(url, Some(base)), "").netloc == SplitUrl(url, "").netloc
  {
    if SchemeLength(url) == 0 && !StartsWith(url, "//") {
      JoinKeepsAuthority(base, url);
    }
    if SchemeLength(url) > 0 && SplitUrl(url, "").scheme in UsesNetloc && SplitUrl(url, "").netloc != "" {
      JoinAbsolute(base, url);
    }
  }

  // ---------------------------------------------------------------------
  // Text clean-up
  // ---------------------------------------------------------------------

  /**
   * The three rewrites of the markdown whose patterns use lazy
   * quantifiers: the list-item and header spacing fixes and the removal
   * of a leading byline ("By ...", "Published: ...").
   */
  datatype Rewrites = Rewrites(listFix: string -> string, headerFix: string -> string, dropByline: string -> string)

  /** re.sub('^Published: ?', '', s, flags=re.IGNORECASE), for ASCII case. */
  function DropPublished(s: string): (r: string)
    ensures |r| <= |s| && r == s[|s| - |r|..]
    ensures |s| < 10 || Lower(s[..10]) != "published:" ==> r == s
    ensures |s| >= 10 && Lower(s[..10]) == "published:" ==>
      |s| - |r| == (if |s| > 10 && s[10] == ' ' then 11 else 10)
  {
    if |s| >= 10 && Lower(s[..10]) == "published:" then
      if |s| > 10 && s[10] == ' ' then s[11..] else s[10..]
    else s
  }

  /**
   * _clean_content: newline runs of three or more become two, space runs
   * become one space, then the rewrites, then a leading "Published:" goes,
   * then the edges are stripped.
   */
  function CleanContent(s: string, rw: Rewrites): (r: string)
    ensures NoEdgeSpace(r)
  {
    var t := CollapseSpaces(CollapseNewlines(s));
    Strip(DropPublished(rw.dropByline(rw.headerFix(rw.listFix(t)))))
  }

  /**
   * The two collapsing steps: after the first no run of newlines is
   * longer than two, after the second no run of spaces is longer than
   * one; every other character survives in order, and repeating either
   * step changes nothing.
   */
  lemma CollapseSteps(s: string)
    ensures RunsAtMost(CollapseNewlines(s), IsNewline, 2)
    ensures Others(CollapseNewlines(s), IsNewline) == Others(s, IsNewline)
    ensures CollapseNewlines(CollapseNewlines(s)) == CollapseNewlines(s)
    ensures RunsAtMost(CollapseSpaces(s), IsSpaceChar, 1)
    ensures Others(CollapseSpaces(s), IsSpaceChar) == Others(s, IsSpaceChar)
    ensures CollapseSpaces(CollapseSpaces(s)) == CollapseSpaces(s)
  {
    CollapseBoundsRuns(s, IsNewline, 3, "\n\n", 2);
    CollapseKeepsOthers(s, IsNewline, 3, "\n\n");
    CollapseNewlinesIdempotent(s);
    CollapseBoundsRuns(s, IsSpaceChar, 1, " ", 1);
    CollapseKeepsOthers(s, IsSpaceChar, 1, " ");
    CollapseSpacesIdempotent(s);
  }

  /**
   * normalize_content: the base strip, the newline-run collapse, the
   * header and list fixes, and a final strip.
   */
  function NormalizeBlog(s: string, rw: Rewrites): (r: string)
    ensures NoEdgeSpace(r)
  {
    Strip(rw.listFix(rw.headerFix(CollapseNewlines(NormalizeContent(s)))))
  }

  /** What the rewrites of normalize_content receive: stripped text without newline runs over two. */
  lemma NormalizeBlogCollapse(s: string)
    ensures var t := CollapseNewlines(NormalizeContent(s));
      RunsAtMost(t, IsNewline, 2) && Others(t, IsNewline) == Others(Strip(s), IsNewline)
  {
    CollapseBoundsRuns(NormalizeContent(s), IsNewline, 3, "\n\n", 2);
    CollapseKeepsOthers(NormalizeContent(s), IsNewline, 3, "\n\n");
  }

  /**
   * re.sub('<[^>]+>', '', s): from left to right, a '<' followed by at
   * least one character other than '>' and then a '>' is removed together
   * with them.
   */
  function RemoveTags(s: string): (r: string)
    ensures |r| <= |s|
    decreases |s|
  {
    if s == [] then []
    else
      var k := Find(s[1..], ">");
      if s[0] == '<' && 1 <= k <= |s| - 1 then RemoveTags(s[k + 2..])
      else [s[0]] + RemoveTags(s[1..])
  }

  /** Text without '<' has no tag to remove. */
  lemma {:induction false} RemoveTagsIdle(s: string)
    requires '<' !in s
    ensures RemoveTags(s) == s
    decreases |s|
  {
    if s != [] {
      assert '<' !in s[1..];
      RemoveTagsIdle(s[1..]);
    }
  }

  // ---------------------------------------------------------------------
  // The fallback ladder
  // ---------------------------------------------------------------------

  /** What newspaper3k extracts: the text, the title and the authors. */
  datatype Article = Article(text: string, title: string, authors: seq<string>)

  /**
   * What the parsed page offers: the title lookup (it raises when the page
   * title has no string), the author lookup, the text of the first content
   * container or of the body, and the texts of the <p> elements left after
   * script, style, nav, footer and header elements are removed.
   */
  datatype Soup = Soup(title: Fetch<Option<string>>, author: Option<string>, manual: string, paragraphs: seq<string>)

  /**
   * The world one scrape sees: the HTTP response and newspaper3k's
   * article for a URL, html2text's conversion, the escape decoding and
   * HTML unescaping (which raises on a malformed escape), and the rewrites.
   */
  datatype BlogWorld = BlogWorld(
    response: string -> Fetch<(int, Soup)>,
    article: string -> Fetch<Article>,
    toMarkdown: string -> string,
    unescape: string -> Fetch<string>,
    rw: Rewrites)

  /** Python's `x or ""` on an optional string. */
  function OrEmpty(o: Option<string>): string {
    if o.Some? then o.value else ""
  }

  /** The item a successful rung returns, or Raised when unescaping raises. */
  function MakeItem(url: string, title: string, author: string, text: string, w: BlogWorld): Fetch<ContentItem> {
    var md := CleanContent(w.toMarkdown(text), w.rw);
    var md2 := RemoveTags(CollapseNewlines(Strip(md)));
    match w.unescape(md2)
    case Raised => Raised
    case Got(body) =>
      match w.unescape(title)
      case Raised => Raised
      case Got(t) =>
        Got(ContentItem(NormalizeBlog(t, w.rw), NormalizeBlog(body, w.rw), "blog", Some(url), Some(author), None, map[], ""))
  }

  /** A rung's outcome: Raised (caught, next rung), Got(None) (blank text, next rung) or the item. */
  type Rung = Fetch<Option<ContentItem>>

  function Lift(f: Fetch<ContentItem>): Rung {
    if f.Raised? then Raised else Got(Some(f.value))
  }

  /** Strategy 1: newspaper3k's text, with its title and authors preferred over the page's. */
  function NewspaperRung(url: string, soup: Soup, w: BlogWorld): Rung {
    match w.article(url)
    case Raised => Raised
    case Got(a) =>
      if IsBlank(a.text) then Got(None)
      else
        var author := if |a.authors| > 0 then JoinWith(a.authors, ", ") else OrEmpty(soup.author);
        if a.title != "" then Lift(MakeItem(url, a.title, author, a.text, w))
        else
          match soup.title
          case Raised => Raised
          case Got(t) => Lift(MakeItem(url, OrEmpty(t), author, a.text, w))
  }

  /** Strategies 2 and 3: the page's title and author with the given text. */
  function SoupRung(url: string, soup: Soup, text: string, w: BlogWorld): Rung {
    match soup.title
    case Raised => Raised
    case Got(t) =>
      if IsBlank(text) then Got(None)
      else Lift(MakeItem(url, OrEmpty(t), OrEmpty(soup.author), text, w))
  }

  /** The rungs in the order they are tried. */
  function Rungs(url: string, soup: Soup, w: BlogWorld): seq<Rung> {
    [NewspaperRung(url, soup, w), SoupRung(url, soup, soup.manual, w), SoupRung(url, soup, JoinWith(soup.paragraphs, "\n\n"), w)]
  }

  /** A rung that returns an item. */
  predicate Succeeds(r: Rung) {
    r.Got? && r.value.Some?
  }

  /** The item of the first rung that succeeds, or nothing. */
  function FirstItem(rungs: seq<Rung>): seq<ContentItem> {
    if rungs == [] then []
    else if Succeeds(rungs[0]) then [rungs[0].value.value]
    else FirstItem(rungs[1..])
  }

  /**
   * The ladder returns nothing exactly when no rung succeeds, and
   * otherwise exactly the item of the first rung that does.
   */
  lemma {:induction false} FirstItemIsFirstSuccess(rungs: seq<Rung>)
    ensures FirstItem(rungs) == [] <==> forall j | 0 <= j < |rungs| :: !Succeeds(rungs[j])
    ensures FirstItem(rungs) != [] ==> exists j | 0 <= j < |rungs| ::
      (Succeeds(rungs[j]) && FirstItem(rungs) == [rungs[j].value.value] && forall i | 0 <= i < j :: !Succeeds(rungs[i]))
  {
    if rungs != [] && !Succeeds(rungs[0]) {
      FirstItemIsFirstSuccess(rungs[1..]);
      if FirstItem(rungs) != [] {
        var j :| 0 <= j < |rungs[1..]| && Succeeds(rungs[1..][j]) && FirstItem(rungs[1..]) == [rungs[1..][j].value.value]
          && forall i | 0 <= i < j :: !Succeeds(rungs[1..][i]);
        assert Succeeds(rungs[j + 1]);
      }
      forall j | 0 <= j < |rungs| && FirstItem(rungs) == []
        ensures !Succeeds(rungs[j])
      {
        if j > 0 {
          assert rungs[j] == rungs[1..][j - 1];
        }
      }
    }
  }

  /** The fetch and the ladder on an already normalised URL: a failed or non-200 fetch gives nothing. */
  function ScrapeAt(u: string, w: BlogWorld): seq<ContentItem> {
    match w.response(u)
    case Raised => []
    case Got((status, soup)) =>
      if status != 200 then [] else FirstItem(Rungs(u, soup, w))
  }

  /** scrape(url, base_url), with the corrected normalisation. */
  function ScrapeBlog(url: string, baseUrl: Option<string>, w: BlogWorld): seq<ContentItem> {
    ScrapeAt(NormalizeUrl(url, baseUrl), w)
  }

  /** scrape(url, base_url) as written: a URL without a scheme and without a base is joined against "https://". */
  function ScrapeBlogAsWritten(url: string, baseUrl: Option<string>, w: BlogWorld): seq<ContentItem> {
    ScrapeAt(NormalizeUrlAsWritten(url, baseUrl), w)
  }

  /**
   * The two normalisations differ only for a URL without an HTTP scheme
   * and without a base: given a non-empty base, or a URL that names its
   * scheme, the scrape as written and the corrected one fetch the same
   * URL and give the same items.
   */
  lemma ScrapeBlogAsWrittenAgrees(url: string, baseUrl: Option<string>, w: BlogWorld)
    requires (baseUrl.Some? && baseUrl.value != "") || HasHttpScheme(url)
    ensures NormalizeUrlAsWritten(url, baseUrl) == NormalizeUrl(url, baseUrl)
    ensures ScrapeBlogAsWritten(url, baseUrl, w) == ScrapeBlog(url, baseUrl, w)
  {
  }

  /** The ladder yields at most one item, and only a rung's item. */
  lemma {:induction false} FirstItemOfRungs(rungs: seq<Rung>)
    ensures |FirstItem(rungs)| <= 1
    ensures forall it | it in FirstItem(rungs) :: exists j | 0 <= j < |rungs| :: rungs[j] == Got(Some(it))
  {
    FirstItemIsFirstSuccess(rungs);
  }

  /** Every item a rung makes is a blog item for the normalised URL, by the page's author, with stripped title and content. */
  lemma RungItemShape(url: string, soup: Soup, w: BlogWorld, j: int, it: ContentItem)
    requires 0 <= j < 3 && Rungs(url, soup, w)[j] == Got(Some(it))
    ensures it.contentType == "blog" && it.userId == "" && it.sourceUrl == Some(url)
    ensures it.author.Some? && it.publishedDate == None && it.metadata == map[]
    ensures NoEdgeSpace(it.title) && NoEdgeSpace(it.content)
  {
    if j == 0 {
      NewspaperItemShape(url, soup, w, it);
    } else {
      var text := if j == 1 then soup.manual else JoinWith(soup.paragraphs, "\n\n");
      SoupItemShape(url, soup, text, w, it);
    }
  }

  lemma NewspaperItemShape(url: string, soup: Soup, w: BlogWorld, it: ContentItem)
    requires NewspaperRung(url, soup, w) == Got(Some(it))
    ensures it.contentType == "blog" && it.userId == "" && it.sourceUrl == Some(url)
    ensures it.author.Some? && it.publishedDate == None && it.metadata == map[]
    ensures NoEdgeSpace(it.title) && NoEdgeSpace(it.content)
  {
    var a := w.article(url).value;
    var author := if |a.authors| > 0 then JoinWith(a.authors, ", ") else OrEmpty(soup.author);
    if a.title != "" {
      MakeItemShape(url, a.title, author, a.text, w);
    } else {
      MakeItemShape(url, OrEmpty(soup.title.value), author, a.text, w);
    }
  }

  lemma SoupItemShape(url: string, soup: Soup, text: string, w: BlogWorld, it: ContentItem)
    requires SoupRung(url, soup, text, w) == Got(Some(it))
    ensures it.contentType == "blog" && it.userId == "" && it.sourceUrl == Some(url)
    ensures it.author.Some? && it.publishedDate == None && it.metadata == map[]
    ensures NoEdgeSpace(it.title) && NoEdgeSpace(it.content)
  {
    MakeItemShape(url, OrEmpty(soup.title.value), OrEmpty(soup.author), text, w);
  }

  /** An item MakeItem makes is a blog item for the URL, with stripped title and content. */
  lemma MakeItemShape(url: string, title: string, author: string, text: string, w: BlogWorld)
    ensures var f := MakeItem(url, title, author, text, w);
      f.Got? ==>
        && f.value.contentType == "blog" && f.value.userId == "" && f.value.sourceUrl == Some(url)
        && f.value.author == Some(author) && f.value.publishedDate == None && f.value.metadata == map[]
        && NoEdgeSpace(f.value.title) && NoEdgeSpace(f.value.content)
  {
  }

  /**
   * scrape gives at most one item; it is a blog item whose source is the
   * normalised URL; a failed or non-200 fetch gives none.
   */
  lemma ScrapeBlogShape(url: string, baseUrl: Option<string>, w: BlogWorld)
    ensures var items := ScrapeBlog(url, baseUrl, w);
      && |items| <= 1
      && (forall it | it in items ::
            it.contentType == "blog" && it.userId == "" && it.sourceUrl == Some(NormalizeUrl(url, baseUrl))
            && NoEdgeSpace(it.title) && NoEdgeSpace(it.content))
    ensures var r := w.response(NormalizeUrl(url, baseUrl));
      r.Raised? || r.value.0 != 200 ==> ScrapeBlog(url, baseUrl, w) == []
  {
    var u := NormalizeUrl(url, baseUrl);
    match w.response(u)
    case Raised =>
    case Got((status, soup)) =>
      if status == 200 {
        var rungs := Rungs(u, soup, w);
        FirstItemOfRungs(rungs);
        forall it | it in FirstItem(rungs)
          ensures it.contentType == "blog" && it.userId == "" && it.sourceUrl == Some(u)
            && NoEdgeSpace(it.title) && NoEdgeSpace(it.content)
        {
          var j :| 0 <= j < |rungs| && rungs[j] == Got(Some(it));
          RungItemShape(u, soup, w, j, it);
        }
      }
  }

  /** When newspaper3k yields an item, the other strategies are not consulted. */
  lemma NewspaperWins(url: string, baseUrl: Option<string>, w: BlogWorld, soup: Soup, it: ContentItem)
    requires w.response(NormalizeUrl(url, baseUrl)) == Got((200, soup))
    requires NewspaperRung(NormalizeUrl(url, baseUrl), soup, w) == Got(Some(it))
    ensures ScrapeBlog(url, baseUrl, w) == [it]
  {
  }
}
