/**
 * The crawl engine as functions of its state (the visited URLs and the
 * per-type buckets) and of the world one crawl sees. The methods of
 * ContentCrawler are proved to compute exactly these.
 */
module CrawlSpec {
  import opened Wrappers
  import opened Text
  import opened Url
  import opened SiteRegistry
  import opened CrawlWorld

  /** URLs a strategy has found so far, and the visited set after them. */
  datatype Acc = Acc(urls: set<string>, visited: set<string>)

  /** What a strategy returns (or Raised, when it lets an exception out) and the visited set it leaves. */
  datatype Outcome = Outcome(result: Fetch<set<string>>, visited: set<string>)

  /** The crawler's state: visited URLs and the URLs filed under each content type. */
  datatype State = State(visited: set<string>, buckets: map<ContentType, set<string>>)

  // ---------------------------------------------------------------------
  // The validity check and harvesting with it
  // ---------------------------------------------------------------------

  /**
   * _is_valid_content_url on visited set v: the verdict and the new
   * visited set. A non-empty, unvisited URL is marked visited whether or
   * not a pattern then matches.
   */
  function CheckUrl(v: set<string>, c: SiteConfig, url: string): (bool, set<string>) {
    if url == "" || url in v then (false, v)
    else (AnyMatch(c.contentPatterns, url), v + {url})
  }

  /** The non-empty hrefs of a list (an empty href is a missing one). */
  function NonEmptyOf(hrefs: seq<string>): set<string> {
    set h | h in hrefs && h != ""
  }

  /** The hrefs a run of validity checks from visited set v accepts. */
  function Harvested(v: set<string>, c: SiteConfig, hrefs: seq<string>): set<string> {
    set h | h in hrefs && h != "" && h !in v && AnyMatch(c.contentPatterns, h)
  }

  /** A harvest step: the accepted hrefs are added and every non-empty href is marked visited. */
  function HarvestInto(acc: Acc, c: SiteConfig, hrefs: seq<string>): Acc {
    Acc(acc.urls + Harvested(acc.visited, c, hrefs), acc.visited + NonEmptyOf(hrefs))
  }

  /** A check of a URL already checked answers false, even when a pattern matches it. */
  lemma CheckTwiceFails(v: set<string>, c: SiteConfig, url: string)
    ensures !CheckUrl(CheckUrl(v, c, url).1, c, url).0
    ensures url != "" ==> url in CheckUrl(v, c, url).1
  {
  }

  /** Whatever a harvest accepts matches a pattern and was not visited before it. */
  lemma HarvestSound(v: set<string>, c: SiteConfig, hrefs: seq<string>, u: string)
    requires u in Harvested(v, c, hrefs)
    ensures u != "" && u !in v && AnyMatch(c.contentPatterns, u) && u in hrefs
  {
  }

  /** A URL visited earlier, by any strategy or any earlier seed, is never accepted again. */
  lemma VisitedNeverHarvested(v: set<string>, c: SiteConfig, hrefs: seq<string>, u: string)
    requires u in v
    ensures u !in Harvested(v, c, hrefs)
  {
  }

  // ---------------------------------------------------------------------
  // Pagination and the selector strategies
  // ---------------------------------------------------------------------

  /**
   * The pagination loop of a selector strategy from page number `page`:
   * while page < maxPages, stop when no next page exists or fetching it
   * raises; harvest it (the HTTP strategies skip a non-200 page).
   */
  function Paginate(s: Strategy, seed: string, c: SiteConfig, w: World, maxPages: int,
                    checkStatus: bool, page: int, acc: Acc): Acc
    decreases maxPages - page
  {
    if page >= maxPages then acc
    else match NextPageUrl(seed, page, c)
      case None => acc
      case Some(next) =>
        match w.page(s, next)
        case Raised => acc
        case Got(p) =>
          var acc' := if checkStatus && p.status != 200 then acc else HarvestInto(acc, c, p.hrefs);
          Paginate(s, seed, c, w, maxPages, checkStatus, page + 1, acc')
  }

  /**
   * A selector strategy (requests, cloudscraper, undetected Chrome, the
   * generic Playwright branch): load the seed, harvest its hrefs, then
   * paginate. A failed or (for HTTP) non-200 first load finds nothing.
   */
  function SelectorCrawl(s: Strategy, seed: string, c: SiteConfig, w: World, maxPages: int,
                         checkStatus: bool, v: set<string>): Acc
  {
    match w.page(s, seed)
    case Raised => Acc({}, v)
    case Got(p) =>
      if checkStatus && p.status != 200 then Acc({}, v)
      else Paginate(s, seed, c, w, maxPages, checkStatus, 1, HarvestInto(Acc({}, v), c, p.hrefs))
  }

  /** With no templated next page the pagination loop does nothing. */
  lemma PaginateStopsWithoutTemplate(s: Strategy, seed: string, c: SiteConfig, w: World, maxPages: int,
                                     checkStatus: bool, page: int, acc: Acc)
    requires IsKnownConfig(c)
    ensures Paginate(s, seed, c, w, maxPages, checkStatus, page, acc) == acc
  {
    NextPageNeverExists(seed, page, c);
  }

  /** So with any configuration the crawler uses, a selector strategy reads only the seed page. */
  lemma SelectorReadsSeedOnly(s: Strategy, seed: string, c: SiteConfig, w: World, maxPages: int,
                              checkStatus: bool, v: set<string>)
    requires IsKnownConfig(c) && w.page(s, seed).Got?
    requires !checkStatus || w.page(s, seed).value.status == 200
    ensures SelectorCrawl(s, seed, c, w, maxPages, checkStatus, v)
      == HarvestInto(Acc({}, v), c, w.page(s, seed).value.hrefs)
  {
    PaginateStopsWithoutTemplate(s, seed, c, w, maxPages, checkStatus, 1,
      HarvestInto(Acc({}, v), c, w.page(s, seed).value.hrefs));
  }

  /** Pagination only adds URLs and visited marks. */
  lemma {:induction false} PaginateGrows(s: Strategy, seed: string, c: SiteConfig, w: World, maxPages: int,
                                         checkStatus: bool, page: int, acc: Acc)
    ensures acc.urls <= Paginate(s, seed, c, w, maxPages, checkStatus, page, acc).urls
    ensures acc.visited <= Paginate(s, seed, c, w, maxPages, checkStatus, page, acc).visited
    decreases maxPages - page
  {
    if page < maxPages {
      match NextPageUrl(seed, page, c)
      case None =>
      case Some(next) =>
        match w.page(s, next)
        case Raised =>
        case Got(p) =>
          var acc' := if checkStatus && p.status != 200 then acc else HarvestInto(acc, c, p.hrefs);
          PaginateGrows(s, seed, c, w, maxPages, checkStatus, page + 1, acc');
    }
  }

  // ---------------------------------------------------------------------
  // Strategies that do not use the validity check
  // ---------------------------------------------------------------------

  /** The netloc crawl works with: urlparse(url).netloc. */
  function DomainOf(url: string): string {
    SplitUrl(url, "").netloc
  }

  /** The discovered feed hrefs, the empty ones dropped, joined against the seed. */
  function DiscoveredFeedUrls(seed: string, hrefs: seq<string>): seq<string> {
    if hrefs == [] then []
    else (if hrefs[0] == "" then [] else [Join(seed, hrefs[0])]) + DiscoveredFeedUrls(seed, hrefs[1..])
  }

  /** The configured feed paths joined against https://<domain>. */
  function ConfiguredFeedUrls(domain: string, paths: seq<string>): (r: seq<string>)
    ensures |r| == |paths|
  {
    seq(|paths|, k requires 0 <= k < |paths| => Join("https://" + domain, paths[k]))
  }

  /** The feed URLs tried in order: the discovered ones, then the configured ones. */
  function FeedUrls(seed: string, c: SiteConfig, w: World): seq<string> {
    DiscoveredFeedUrls(seed, w.discoveredFeeds) + ConfiguredFeedUrls(DomainOf(seed), c.feedUrls)
  }

  /** feedparser entries give their link, or their id when they have no link. */
  function EntryLinks(entries: seq<FeedEntry>): set<string> {
    (set e | e in entries && e.link.Some? :: e.link.value)
    + (set e | e in entries && e.link.None? && e.id.Some? :: e.id.value)
  }

  /** XML items give their link's text, or its href when the text is empty. */
  function XmlLinks(items: seq<Option<XmlLink>>): set<string> {
    (set l | l in items && l.Some? && l.value.text != "" :: l.value.text)
    + (set l | l in items && l.Some? && l.value.text == "" && l.value.href.Some? :: l.value.href.value)
  }

  /**
   * One feed of the feed loop: the found set after it, and whether the
   * loop stops there. A feed whose parsing or fetch raises, or whose XML
   * does not parse, is skipped without the stop test; otherwise the loop
   * stops once anything has been found.
   */
  function FeedStep(f: string, w: World, acc: set<string>): (r: (set<string>, bool))
    ensures acc <= r.0
    ensures w.feed(f).Got? ==> EntryLinks(w.feed(f).value) <= r.0
    ensures r.1 ==> r.0 != {}
  {
    match w.feed(f)
    case Raised => (acc, false)
    case Got(entries) =>
      var a1 := acc + EntryLinks(entries);
      match w.feedXml(f)
      case Raised => (a1, false)
      case Got(x) =>
        if x.status == 200 && x.items.None? then (a1, false)
        else
          var a2 := if x.status == 200 then a1 + XmlLinks(x.items.value) else a1;
          (a2, a2 != {})
  }

  /** The feed loop from feed URL k on. */
  function FeedLoop(urls: seq<string>, k: nat, w: World, acc: set<string>): set<string>
    requires k <= |urls|
    decreases |urls| - k
  {
    if k == |urls| then acc
    else
      var (a, stop) := FeedStep(urls[k], w, acc);
      if stop then a else FeedLoop(urls, k + 1, w, a)
  }

  function FeedCrawl(seed: string, c: SiteConfig, w: World): set<string> {
    FeedLoop(FeedUrls(seed, c, w), 0, w, {})
  }

  /** The strings of a JSON document that contain "/blog/". */
  function BlogStrings(j: Json): set<string> {
    set s | s in AllStrings(j) && Contains(s, "/blog/")
  }

  /** The five Quill API endpoints, in the order they are tried. */
  function QuillApiUrls(domain: string): seq<string> {
    ["https://" + domain + "/api/blog", "https://" + domain + "/api/posts",
     "https://" + domain + "/api/blog/posts", "https://" + domain + "/api/articles",
     "https://" + domain + "/api/blog-articles"]
  }

  /** The Quill API loop from candidate k on: each candidate's failure is caught on its own. */
  function QuillApiLoop(cands: seq<string>, k: nat, w: World, acc: set<string>): set<string>
    requires k <= |cands|
    decreases |cands| - k
  {
    if k == |cands| then acc
    else
      var acc' := match w.api(cands[k])
        case Got(JsonReply(200, Got(j))) => acc + BlogStrings(j)
        case _ => acc;
      QuillApiLoop(cands, k + 1, w, acc')
  }

  function QuillApiCrawl(seed: string, w: World): set<string> {
    QuillApiLoop(QuillApiUrls(DomainOf(seed)), 0, w, {})
  }

  /** The Quill slug of a title: lowercased, spaces to '-', then '?', '.', ',' and '\'' removed. */
  function Slug(title: string): string {
    Replace(Replace(Replace(Replace(Replace(Lower(title), " ", "-"), "?", ""), ".", ""), ",", ""), "'", "")
  }

  function SlugUrl(domain: string, title: string): string {
    "https://" + domain + "/blog/" + Slug(title)
  }

  /** The slug URLs of the non-empty titles. */
  function SlugUrls(domain: string, titles: seq<string>): set<string> {
    set t | t in titles && t != "" :: SlugUrl(domain, t)
  }

  /** The sitemap locations that contain "/blog/". */
  function BlogLocs(locs: seq<string>): set<string> {
    set l | l in locs && Contains(l, "/blog/")
  }

  /** The Quill static strategy: slugs from card and heading titles, then blog locations of the sitemap. */
  function QuillBsCrawl(seed: string, w: World): set<string> {
    var domain := DomainOf(seed);
    var fromPage := match w.quillHtml
      case Got((200, h)) => SlugUrls(domain, h.cardTitles) + SlugUrls(domain, h.headings)
      case _ => {};
    var fromSitemap := match w.sitemap
      case Got((200, locs)) => BlogLocs(locs)
      case _ => {};
    fromPage + fromSitemap
  }

  /** The captured Quill URLs that contain "/blog/" and are neither the seed nor the seed with '/'. */
  function QuillCaptured(seed: string, reqs: seq<string>): set<string> {
    set u | u in reqs && Contains(u, "/blog/") && u != seed && u != seed + "/"
  }

  // ---------------------------------------------------------------------
  // The API strategy
  // ---------------------------------------------------------------------

  /** The object-value strings a walk of j accepts from visited set v. */
  function WalkFound(v: set<string>, c: SiteConfig, j: Json): set<string> {
    set s | s in DictStrings(j) && s != "" && s !in v && AnyMatch(c.contentPatterns, s)
  }

  /** The visited set after a walk of j. */
  function WalkMarked(v: set<string>, j: Json): set<string> {
    v + set s | s in DictStrings(j) && s != ""
  }

  /**
   * The API loop from endpoint k on: a failed request or JSON decoding
   * ends the whole strategy; a non-200 answer is skipped.
   */
  function ApiLoop(domain: string, c: SiteConfig, w: World, k: nat, acc: Acc): Acc
    requires k <= |c.apiEndpoints|
    decreases |c.apiEndpoints| - k
  {
    if k == |c.apiEndpoints| then acc
    else match w.api("https://" + domain + c.apiEndpoints[k])
      case Raised => acc
      case Got(r) =>
        if r.status != 200 then ApiLoop(domain, c, w, k + 1, acc)
        else match r.body
          case Raised => acc
          case Got(j) =>
            ApiLoop(domain, c, w, k + 1, Acc(acc.urls + WalkFound(acc.visited, c, j), WalkMarked(acc.visited, j)))
  }

  // ---------------------------------------------------------------------
  // One strategy, the chain and the fallback
  // ---------------------------------------------------------------------

  function Done(a: Acc): Outcome {
    Outcome(Got(a.urls), a.visited)
  }

  /** What one strategy returns when crawl runs it on seed with visited set v. */
  function RunStrategy(s: Strategy, seed: string, c: SiteConfig, w: World, maxPages: int, v: set<string>): Outcome {
    match s
    case QuillApi => Outcome(Got(QuillApiCrawl(seed, w)), v)
    case QuillBs => Outcome(Got(QuillBsCrawl(seed, w)), v)
    case Feed => Outcome(Got(FeedCrawl(seed, c, w)), v)
    case Playwright =>
      if Contains(DomainOf(seed), "quill.co") then
        Outcome(Got(if w.quillRequests.Got? then QuillCaptured(seed, w.quillRequests.value) else {}), v)
      else Done(SelectorCrawl(Playwright, seed, c, w, maxPages, false, v))
    case Undetected => Done(SelectorCrawl(Undetected, seed, c, w, maxPages, false, v))
    case Selenium =>
      if !c.requiresJs then Outcome(Got({}), v)
      else if w.seleniumInitFails then Outcome(Raised, v)
      else if c.infiniteScroll then Outcome(Got({}), v)
      else Done(SelectorCrawl(Selenium, seed, c, w, maxPages, false, v))
    case Cloudscraper => Done(SelectorCrawl(Cloudscraper, seed, c, w, maxPages, true, v))
    case Api => Done(ApiLoop(DomainOf(seed), c, w, 0, Acc({}, v)))
    case Requests => Done(SelectorCrawl(Requests, seed, c, w, maxPages, true, v))
    case Aggressive =>
      if w.seleniumInitFails then Outcome(Got({}), v)
      else match w.page(Aggressive, seed)
        case Raised => Outcome(Got({}), v)
        case Got(p) => Done(HarvestInto(Acc({}, v), c, p.hrefs))
  }

  /** Add urls to the bucket of t. */
  function File(b: map<ContentType, set<string>>, t: ContentType, urls: set<string>): map<ContentType, set<string>> {
    b[t := (if t in b then b[t] else {}) + urls]
  }

  /**
   * The strategy loop from strategy k on, with the URLs found so far. A
   * raised exception or an empty result moves on. A non-empty result is
   * added to found; it is filed and ends the loop when the seed classifies
   * as a content type, while a registry key makes the filing raise
   * KeyError, which is caught, and the loop moves on.
   */
  function Chain(ss: seq<Strategy>, k: nat, seed: string, c: SiteConfig, w: World, maxPages: int,
                 st: State, found: set<string>): (State, set<string>)
    requires k <= |ss|
    decreases |ss| - k
  {
    if k == |ss| then (st, found)
    else
      var o := RunStrategy(ss[k], seed, c, w, maxPages, st.visited);
      var st1 := st.(visited := o.visited);
      if o.result.Raised? || o.result.value == {} then Chain(ss, k + 1, seed, c, w, maxPages, st1, found)
      else match DetermineContentType(seed)
        case Known(t) => (st1.(buckets := File(st1.buckets, t, o.result.value)), found + o.result.value)
        case RegistryKey(_) => Chain(ss, k + 1, seed, c, w, maxPages, st1, found + o.result.value)
  }

  /** _extract_all_links and the domain filter: joined hrefs that start with "http" and stay on the domain. */
  function FallbackLinks(seed: string, domain: string, hrefs: seq<string>): set<string> {
    set h | h in hrefs && StartsWith(Join(seed, h), "http") && DomainOf(Join(seed, h)) == domain :: Join(seed, h)
  }

  /** The all-links fallback, run only when nothing was found. */
  function Fallback(seed: string, w: World, b: map<ContentType, set<string>>): map<ContentType, set<string>> {
    if w.allLinks.Raised? || w.allLinks.value.0 != 200 then b
    else
      var links := FallbackLinks(seed, DomainOf(seed), w.allLinks.value.1);
      if links == {} then b
      else match DetermineContentType(seed)
        case Known(t) => File(b, t, links)
        case RegistryKey(_) => b
  }

  /** The state after crawl(seed). */
  function CrawlState(st: State, seed: string, w: World, maxPages: int): State {
    var domain := DomainOf(seed);
    var c := GetSiteConfig(domain);
    var (st1, found) := Chain(StrategiesFor(domain, c), 0, seed, c, w, maxPages, st, {});
    if found == {} then st1.(buckets := Fallback(seed, w, st1.buckets)) else st1
  }

  /** What crawl returns: the non-empty buckets. */
  function NonEmptyBuckets(b: map<ContentType, set<string>>): map<ContentType, set<string>> {
    map t | t in b && b[t] != {} :: b[t]
  }
}
