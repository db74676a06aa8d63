/**
 * The crawl engine's static knowledge: content types, per-site
 * configurations and their registry, the default configuration, the URL
 * classifier, templated next-page synthesis and the strategy order.
 */
module SiteRegistry {
  import opened Wrappers
  import opened Text
  import opened Url
  import opened Patterns

  /** The buckets crawl results are filed under. */
  datatype ContentType = Blog | Guide | Topic | Substack | Category | Unknown

  const AllContentTypes: set<ContentType> := {Blog, Guide, Topic, Substack, Category, Unknown}

  /**
   * A content pattern. Every pattern the crawler knows has the shape
   * "<lead>[^<stop>]+$" and is used with re.search.
   */
  datatype ContentPattern = TailPattern(lead: string, stop: char)

  predicate Matches(p: ContentPattern, url: string) {
    TailAfter(url, p.lead, p.stop)
  }

  predicate AnyMatch(patterns: seq<ContentPattern>, url: string) {
    exists k | 0 <= k < |patterns| :: Matches(patterns[k], url)
  }

  /**
   * The fields of a site configuration the crawl decisions read. An
   * absent endpoint or feed list is the empty sequence (both are only
   * checked for emptiness before use).
   */
  datatype SiteConfig = SiteConfig(
    domain: string,
    contentSelectors: seq<string>,
    paginationSelectors: seq<string>,
    contentPatterns: seq<ContentPattern>,
    requiresJs: bool,
    infiniteScroll: bool,
    apiEndpoints: seq<string>,
    usePlaywright: bool,
    useCloudscraper: bool,
    useUndetected: bool,
    maxScrollAttempts: int,
    feedUrls: seq<string>)

  const QuillFeeds: seq<string> := [
    "/feed", "/feed.xml", "/rss", "/rss.xml", "/atom.xml", "/feed/atom", "/feed/rss",
    "/blog/feed", "/blog/feed.xml", "/blog/rss", "/blog/rss.xml"]

  const SubstackFeeds: seq<string> := [
    "/feed", "/feed.xml", "/rss", "/rss.xml", "/atom.xml", "/feed/atom", "/feed/rss",
    "/archive/feed", "/archive/feed.xml", "/archive/rss", "/archive/rss.xml"]

  const QuillConfig: SiteConfig := SiteConfig(
    "quill.co",
    ["article a", ".blog-post a", ".post-title a", "a[href*=\"/blog/\"]", ".blog-list a",
     ".post-preview a", ".entry-title a", "[data-testid=\"blog-post-link\"]", ".blog-grid a", ".post-grid a"],
    [".pagination a", ".next-page", "a[rel=\"next\"]"],
    [TailPattern("/blog/", '/')],
    true, true, [], true, false, false, 15, QuillFeeds)

  const SubstackConfig: SiteConfig := SiteConfig(
    "substack.com",
    [".post-preview a", ".post-title a", "article a", ".entry-title a", ".post-list a",
     ".archive-item a", "a[href*=\"/p/\"]", ".post a", "[data-testid=\"post-link\"]", ".post-grid a"],
    [".pagination a", ".next-page"],
    [TailPattern("/p/", '/')],
    true, true, [], false, false, true, 20, SubstackFeeds)

  const InterviewingConfig: SiteConfig := SiteConfig(
    "interviewing.io",
    [".blog-list a", ".blog-entry a", ".post-list a", "article a", ".blog-item a", ".post-title a",
     "a[href*=\"/blog/\"]", ".entry-title a", "[data-testid=\"blog-link\"]", ".blog-grid a",
     "a[href^=\"/topics/\"]", "a[href^=\"/learn/\"]"],
    [".pagination a", ".next-page"],
    [TailPattern("/blog/", '/'), TailPattern("/learn/", '/'), TailPattern("/topics/", '#')],
    true, false, ["/api/blog/posts"], true, false, false, 10, QuillFeeds)

  /** The registry, keyed by domain, in its declaration order. */
  const Registry: seq<(string, SiteConfig)> := [
    ("quill.co", QuillConfig), ("substack.com", SubstackConfig), ("interviewing.io", InterviewingConfig)]

  /** The configuration built for a domain the registry does not know. */
  function DefaultConfig(domain: string): SiteConfig {
    SiteConfig(
      domain,
      ["article a", ".post a", ".blog-post a"],
      [".pagination a", ".next-page"],
      [TailPattern("/blog/", '/'), TailPattern("/post/", '/')],
      false, false, [], false, false, false, 10, [])
  }

  /** The first registry entry (from index k on) whose domain occurs in the given domain. */
  function FirstConfig(domain: string, k: nat): (r: Option<nat>)
    requires k <= |Registry|
    ensures r.Some? ==> k <= r.value < |Registry| && Contains(domain, Registry[r.value].1.domain)
    ensures r.Some? ==> forall j | k <= j < r.value :: !Contains(domain, Registry[j].1.domain)
    ensures r.None? ==> forall j | k <= j < |Registry| :: !Contains(domain, Registry[j].1.domain)
    decreases |Registry| - k
  {
    if k == |Registry| then None
    else if Contains(domain, Registry[k].1.domain) then Some(k)
    else FirstConfig(domain, k + 1)
  }

  /**
   * _get_site_config: the first registry configuration whose domain is a
   * substring of the given netloc, otherwise the default one built for it.
   */
  function GetSiteConfig(domain: string): (c: SiteConfig)
    ensures (exists k | 0 <= k < |Registry| :: Contains(domain, Registry[k].1.domain)) ==>
      exists k | 0 <= k < |Registry| :: c == Registry[k].1 && Contains(domain, Registry[k].1.domain)
        && forall j | 0 <= j < k :: !Contains(domain, Registry[j].1.domain)
    ensures (forall k | 0 <= k < |Registry| :: !Contains(domain, Registry[k].1.domain)) ==>
      c == DefaultConfig(domain)
  {
    match FirstConfig(domain, 0)
    case Some(k) => Registry[k].1
    case None => DefaultConfig(domain)
  }

  /** An unknown domain gets a default configuration that names it and needs no JavaScript. */
  lemma DefaultForUnknown(domain: string)
    requires !Contains(domain, "quill.co") && !Contains(domain, "substack.com") && !Contains(domain, "interviewing.io")
    ensures GetSiteConfig(domain).domain == domain && !GetSiteConfig(domain).requiresJs
    ensures GetSiteConfig(domain).contentPatterns == [TailPattern("/blog/", '/'), TailPattern("/post/", '/')]
  {
  }

  /** Table order decides: a netloc naming two registry domains gets the earlier one. */
  lemma RegistryOrderWins(domain: string, i: nat, j: nat)
    requires i < j < |Registry|
    requires Contains(domain, Registry[i].1.domain) && Contains(domain, Registry[j].1.domain)
    ensures exists k | 0 <= k <= i :: GetSiteConfig(domain) == Registry[k].1
    ensures GetSiteConfig(domain).domain != Registry[j].1.domain
  {
    var k :| 0 <= k < |Registry| && GetSiteConfig(domain) == Registry[k].1 && Contains(domain, Registry[k].1.domain)
      && forall m | 0 <= m < k :: !Contains(domain, Registry[m].1.domain);
    assert k <= i;
  }

  /** Every configuration the crawler uses: the registry's and the defaults. */
  predicate IsKnownConfig(c: SiteConfig) {
    (exists k | 0 <= k < |Registry| :: c == Registry[k].1) || c == DefaultConfig(c.domain)
  }

  lemma GetSiteConfigKnown(domain: string)
    ensures IsKnownConfig(GetSiteConfig(domain))
  {
  }

  // ---------------------------------------------------------------------
  // Classification
  // ---------------------------------------------------------------------

  /**
   * What the classifier returns: a content type, or, when a registry
   * pattern matched, that registry entry's key (a domain string).
   */
  datatype Classification = Known(t: ContentType) | RegistryKey(key: string)

  /** The first registry entry (from index k on) one of whose patterns matches. */
  function FirstPatternHit(url: string, k: nat): (r: Option<nat>)
    requires k <= |Registry|
    ensures r.Some? ==> k <= r.value < |Registry| && AnyMatch(Registry[r.value].1.contentPatterns, url)
    ensures r.Some? ==> forall j | k <= j < r.value :: !AnyMatch(Registry[j].1.contentPatterns, url)
    ensures r.None? ==> forall j | k <= j < |Registry| :: !AnyMatch(Registry[j].1.contentPatterns, url)
    decreases |Registry| - k
  {
    if k == |Registry| then None
    else if AnyMatch(Registry[k].1.contentPatterns, url) then Some(k)
    else FirstPatternHit(url, k + 1)
  }

  /**
   * _determine_content_type: on the lowercased URL, the key of the first
   * registry entry with a matching pattern; else Blog when "blog" or
   * "posts" occurs; else Unknown.
   */
  function DetermineContentType(url: string): Classification {
    var u := Lower(url);
    match FirstPatternHit(u, 0)
    case Some(k) => RegistryKey(Registry[k].0)
    case None => if Contains(u, "blog") || Contains(u, "posts") then Known(Blog) else Known(Unknown)
  }

  /**
   * A URL classifies as a registry key exactly when some registry entry's
   * pattern matches it lowercased, and the key is that entry's; as Blog
   * exactly when none does and "blog" or "posts" occurs; otherwise as
   * Unknown.
   */
  lemma DetermineContentTypeMeaning(url: string)
    ensures var r := DetermineContentType(url);
      && (r.RegistryKey? <==> exists k | 0 <= k < |Registry| :: AnyMatch(Registry[k].1.contentPatterns, Lower(url)))
      && (r.RegistryKey? ==> exists k | 0 <= k < |Registry| :: r.key == Registry[k].0)
      && (r == Known(Blog) <==>
            (forall k | 0 <= k < |Registry| :: !AnyMatch(Registry[k].1.contentPatterns, Lower(url)))
            && (Contains(Lower(url), "blog") || Contains(Lower(url), "posts")))
      && (r.Known? ==> r.t == Blog || r.t == Unknown)
  {
  }

  // ---------------------------------------------------------------------
  // Templated next page
  // ---------------------------------------------------------------------

  /** The first pagination template (from index k on) that contains "{page}". */
  function FirstTemplate(templates: seq<string>, k: nat): (r: Option<nat>)
    requires k <= |templates|
    ensures r.Some? ==> k <= r.value < |templates| && Contains(templates[r.value], "{page}")
    ensures r.Some? ==> forall j | k <= j < r.value :: !Contains(templates[j], "{page}")
    ensures r.None? ==> forall j | k <= j < |templates| :: !Contains(templates[j], "{page}")
    decreases |templates| - k
  {
    if k == |templates| then None
    else if Contains(templates[k], "{page}") then Some(k)
    else FirstTemplate(templates, k + 1)
  }

  /**
   * _get_next_page_url: the first pagination template containing
   * "{page}", with the page number written in, joined against the base
   * URL; None when no template has "{page}".
   */
  function NextPageUrl(baseUrl: string, page: int, c: SiteConfig): (r: Option<string>)
    ensures r.None? <==> forall j | 0 <= j < |c.paginationSelectors| :: !Contains(c.paginationSelectors[j], "{page}")
    ensures r.Some? ==> exists j | 0 <= j < |c.paginationSelectors| ::
      Contains(c.paginationSelectors[j], "{page}")
      && r.value == Join(baseUrl, Replace(c.paginationSelectors[j], "{page}", IntToString(page)))
  {
    match FirstTemplate(c.paginationSelectors, 0)
    case Some(j) => Some(Join(baseUrl, Replace(c.paginationSelectors[j], "{page}", IntToString(page))))
    case None => None
  }

  /** No template of any configuration the crawler uses contains "{page}". */
  lemma NoPageTemplates(c: SiteConfig)
    requires IsKnownConfig(c)
    ensures forall j | 0 <= j < |c.paginationSelectors| :: !Contains(c.paginationSelectors[j], "{page}")
  {
    forall j | 0 <= j < |c.paginationSelectors|
      ensures !Contains(c.paginationSelectors[j], "{page}")
    {
      ContainsNeedsHead(c.paginationSelectors[j], "{page}");
    }
  }

  /** So the templated next page never exists and every pagination loop stops after its first page. */
  lemma NextPageNeverExists(baseUrl: string, page: int, c: SiteConfig)
    requires IsKnownConfig(c)
    ensures NextPageUrl(baseUrl, page, c) == None
  {
    NoPageTemplates(c);
  }

  // ---------------------------------------------------------------------
  // Strategy order
  // ---------------------------------------------------------------------

  datatype Strategy =
    | QuillApi | QuillBs
    | Feed | Playwright | Undetected | Selenium | Cloudscraper | Api | Requests | Aggressive

  /** Position of a generic strategy in the full generic order. */
  function Rank(s: Strategy): nat {
    match s
    case Feed => 0
    case Playwright => 1
    case Undetected => 2
    case Selenium => 3
    case Cloudscraper => 4
    case Api => 5
    case Requests => 6
    case Aggressive => 7
    case QuillApi => 8
    case QuillBs => 9
  }

  /** Every generic strategy, in the order crawl tries them. */
  const GenericOrder: seq<Strategy> :=
    [Feed, Playwright, Undetected, Selenium, Cloudscraper, Api, Requests, Aggressive]

  /** Whether the generic list includes s: the three optional entries follow their flags. */
  predicate Enabled(c: SiteConfig, s: Strategy) {
    match s
    case Playwright => c.usePlaywright
    case Undetected => c.useUndetected
    case Cloudscraper => c.useCloudscraper
    case _ => true
  }

  /** The entries of xs the configuration enables, in their order in xs. */
  function Keep(c: SiteConfig, xs: seq<Strategy>): (r: seq<Strategy>)
    ensures |r| <= |xs|
  {
    if xs == [] then []
    else if Enabled(c, xs[0]) then [xs[0]] + Keep(c, xs[1..])
    else Keep(c, xs[1..])
  }

  /**
   * The strategies crawl tries, in order: Quill's three for a netloc
   * containing "quill.co"; otherwise the generic list with the optional
   * entries kept only when the configuration asks for them.
   */
  function StrategiesFor(domain: string, c: SiteConfig): seq<Strategy> {
    if Contains(domain, "quill.co") then [QuillApi, Playwright, QuillBs]
    else Keep(c, GenericOrder)
  }

  /** Strictly increasing rank: an order with entries left out but never swapped. */
  predicate InRankOrder(r: seq<Strategy>) {
    forall i, j | 0 <= i < j < |r| :: Rank(r[i]) < Rank(r[j])
  }

  /** Keep keeps exactly the enabled entries. */
  lemma {:induction false} KeepMembers(c: SiteConfig, xs: seq<Strategy>, s: Strategy)
    ensures s in Keep(c, xs) <==> s in xs && Enabled(c, s)
    decreases |xs|
  {
    if xs != [] {
      KeepMembers(c, xs[1..], s);
      assert xs == [xs[0]] + xs[1..];
    }
  }

  /** The generic order lists each strategy at the index of its rank. */
  lemma GenericRanks()
    ensures forall i | 0 <= i < |GenericOrder| :: Rank(GenericOrder[i]) == i
  {
  }

  /** Keeping entries of a list in rank order leaves it in rank order. */
  lemma {:induction false} KeepOrdered(c: SiteConfig, xs: seq<Strategy>)
    requires InRankOrder(xs)
    ensures InRankOrder(Keep(c, xs))
    decreases |xs|
  {
    if xs != [] {
      var rest := xs[1..];
      assert InRankOrder(rest) by {
        forall i, j | 0 <= i < j < |rest| ensures Rank(rest[i]) < Rank(rest[j]) {
          assert rest[i] == xs[i + 1] && rest[j] == xs[j + 1];
        }
      }
      KeepOrdered(c, rest);
      if Enabled(c, xs[0]) {
        var r := Keep(c, xs);
        forall i, j | 0 <= i < j < |r| ensures Rank(r[i]) < Rank(r[j]) {
          if i == 0 {
            KeepMembers(c, rest, r[j]);
            var m :| 0 <= m < |rest| && rest[m] == r[j];
            assert rest[m] == xs[m + 1];
          } else {
            assert r[i] == Keep(c, rest)[i - 1] && r[j] == Keep(c, rest)[j - 1];
          }
        }
      }
    }
  }

  /** A list ending in an enabled entry keeps that entry last. */
  lemma {:induction false} KeepLast(c: SiteConfig, xs: seq<Strategy>)
    requires xs != [] && Enabled(c, xs[|xs| - 1])
    ensures Keep(c, xs) != [] && Keep(c, xs)[|Keep(c, xs)| - 1] == xs[|xs| - 1]
    decreases |xs|
  {
    if |xs| > 1 {
      KeepLast(c, xs[1..]);
    }
  }

  /**
   * The Quill order for a Quill netloc; otherwise feed first, aggressive
   * Selenium last, every optional strategy present exactly when its flag
   * is set, the mandatory ones always present, and the generic order kept.
   */
  lemma StrategyOrder(domain: string, c: SiteConfig)
    ensures var r := StrategiesFor(domain, c);
      Contains(domain, "quill.co") ==> r == [QuillApi, Playwright, QuillBs]
    ensures var r := StrategiesFor(domain, c);
      !Contains(domain, "quill.co") ==>
        && r != [] && r[0] == Feed && r[|r| - 1] == Aggressive
        && (Playwright in r <==> c.usePlaywright)
        && (Undetected in r <==> c.useUndetected)
        && (Cloudscraper in r <==> c.useCloudscraper)
        && Selenium in r && Api in r && Requests in r
        && QuillApi !in r && QuillBs !in r
        && InRankOrder(r)
  {
    if !Contains(domain, "quill.co") {
      var g := GenericOrder;
      var r := Keep(c, g);
      assert r == StrategiesFor(domain, c);
      assert Playwright in r <==> c.usePlaywright by { KeepMembers(c, g, Playwright); }
      assert Undetected in r <==> c.useUndetected by { KeepMembers(c, g, Undetected); }
      assert Cloudscraper in r <==> c.useCloudscraper by { KeepMembers(c, g, Cloudscraper); }
      assert Selenium in r by { KeepMembers(c, g, Selenium); }
      assert Api in r by { KeepMembers(c, g, Api); }
      assert Requests in r by { KeepMembers(c, g, Requests); }
      assert QuillApi !in r by { KeepMembers(c, g, QuillApi); }
      assert QuillBs !in r by { KeepMembers(c, g, QuillBs); }
      assert InRankOrder(r) by {
        GenericRanks();
        KeepOrdered(c, g);
      }
      assert r != [] && r[|r| - 1] == Aggressive by { KeepLast(c, g); }
      assert r[0] == Feed;
    }
  }

  /** No configuration the crawler uses turns on the cloudscraper strategy. */
  lemma NoCloudscraper(domain: string)
    ensures Cloudscraper !in StrategiesFor(domain, GetSiteConfig(domain))
  {
    StrategyOrder(domain, GetSiteConfig(domain));
  }
}
