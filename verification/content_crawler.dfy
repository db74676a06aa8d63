/**
 * ContentCrawler: the crawl engine as a class whose state is the set of
 * visited URLs and the per-type buckets, both kept across crawls. Every
 * method is proved to compute what the functions of CrawlSpec describe.
 */
module Crawler {
  import opened Wrappers
  import opened Text
  import opened Url
  import opened SiteRegistry
  import opened CrawlWorld
  import opened CrawlSpec

  /** Every bucket empty, as the crawler starts. */
  function EmptyBuckets(): (b: map<ContentType, set<string>>)
    ensures b.Keys == AllContentTypes
    ensures forall t | t in b :: b[t] == {}
  {
    map t | t in AllContentTypes :: {}
  }

  class ContentCrawler {
    const maxPages: int
    var visited: set<string>
    var buckets: map<ContentType, set<string>>

    constructor(maxPages: int)
      ensures this.maxPages == maxPages
      ensures visited == {} && buckets == EmptyBuckets()
    {
      this.maxPages := maxPages;
      visited := {};
      buckets := EmptyBuckets();
    }

    /**
     * _is_valid_content_url: false for an empty or visited URL; otherwise
     * the URL is marked visited first and the answer is whether a content
     * pattern matches.
     */
    method IsValidContentUrl(url: string, c: SiteConfig) returns (ok: bool)
      modifies this
      ensures (ok, visited) == CheckUrl(old(visited), c, url)
      ensures buckets == old(buckets)
    {
      if url == "" || url in visited {
        return false;
      }
      visited := visited + {url};
      var k := 0;
      while k < |c.contentPatterns|
        invariant 0 <= k <= |c.contentPatterns|
        invariant forall j | 0 <= j < k :: !Matches(c.contentPatterns[j], url)
      {
        if Matches(c.contentPatterns[k], url) {
          return true;
        }
        k := k + 1;
      }
      return false;
    }

    /** Run the validity check on each href in turn, keeping the accepted ones. */
    method Harvest(hrefs: seq<string>, c: SiteConfig) returns (found: set<string>)
      modifies this
      ensures found == Harvested(old(visited), c, hrefs)
      ensures visited == old(visited) + NonEmptyOf(hrefs)
      ensures buckets == old(buckets)
    {
      found := {};
      var i := 0;
      while i < |hrefs|
        invariant 0 <= i <= |hrefs|
        invariant found == Harvested(old(visited), c, hrefs[..i])
        invariant visited == old(visited) + NonEmptyOf(hrefs[..i])
        invariant buckets == old(buckets)
      {
        var ok := IsValidContentUrl(hrefs[i], c);
        if ok {
          found := found + {hrefs[i]};
        }
        HarvestStep(old(visited), c, hrefs, i);
        i := i + 1;
      }
      assert hrefs[..i] == hrefs;
    }

    /**
     * The pagination loop of a selector strategy: pages 1, 2, ... below
     * maxPages while a templated next page exists and loading it does not
     * raise.
     */
    method FollowPages(s: Strategy, seed: string, c: SiteConfig, w: World, checkStatus: bool, urls0: set<string>)
      returns (urls: set<string>)
      modifies this
      ensures Acc(urls, visited) == Paginate(s, seed, c, w, maxPages, checkStatus, 1, Acc(urls0, old(visited)))
      ensures buckets == old(buckets)
    {
      urls := urls0;
      var page := 1;
      while page < maxPages
        invariant Paginate(s, seed, c, w, maxPages, checkStatus, page, Acc(urls, visited))
          == Paginate(s, seed, c, w, maxPages, checkStatus, 1, Acc(urls0, old(visited)))
        invariant buckets == old(buckets)
        decreases maxPages - page
      {
        var next := NextPageUrl(seed, page, c);
        if next.None? {
          break;
        }
        var loaded := w.page(s, next.value);
        if loaded.Raised? {
          break;
        }
        if !checkStatus || loaded.value.status == 200 {
          var found := Harvest(loaded.value.hrefs, c);
          urls := urls + found;
        }
        page := page + 1;
      }
    }

    /**
     * A selector strategy on the seed: load it (a load that raises, or a
     * non-200 answer for the HTTP strategies, finds nothing), harvest its
     * hrefs, then follow the pages.
     */
    method CrawlWithSelectors(s: Strategy, seed: string, c: SiteConfig, w: World, checkStatus: bool)
      returns (urls: set<string>)
      modifies this
      ensures Acc(urls, visited) == SelectorCrawl(s, seed, c, w, maxPages, checkStatus, old(visited))
      ensures buckets == old(buckets)
    {
      var loaded := w.page(s, seed);
      if loaded.Raised? || (checkStatus && loaded.value.status != 200) {
        return {};
      }
      if c.infiniteScroll && (s == Playwright || s == Undetected) {
        var _, _ := HandleInfiniteScroll(w.heights, c.maxScrollAttempts);
      }
      var found := Harvest(loaded.value.hrefs, c);
      assert HarvestInto(Acc({}, old(visited)), c, loaded.value.hrefs) == Acc(found, visited);
      urls := FollowPages(s, seed, c, w, checkStatus, found);
    }

    /**
     * The infinite-scroll loop: heights(0) is the height before the first
     * scroll and heights(n) the one measured after the n-th. It scrolls at
     * most maxAttempts times, stops at the first measurement equal to the
     * previous one, and counts an attempt only when the height changed.
     */
    method HandleInfiniteScroll(heights: nat -> int, maxAttempts: int) returns (scrolls: nat, attempts: nat)
      ensures scrolls <= (if maxAttempts > 0 then maxAttempts else 0)
      ensures forall k | 1 <= k < scrolls :: heights(k) != heights(k - 1)
      ensures attempts == scrolls ==>
        scrolls == (if maxAttempts > 0 then maxAttempts else 0) && (scrolls > 0 ==> heights(scrolls) != heights(scrolls - 1))
      ensures attempts != scrolls ==> attempts + 1 == scrolls && heights(scrolls) == heights(scrolls - 1)
    {
      var lastHeight := heights(0);
      attempts := 0;
      scrolls := 0;
      while attempts < maxAttempts
        invariant attempts == scrolls && lastHeight == heights(scrolls)
        invariant scrolls <= (if maxAttempts > 0 then maxAttempts else 0)
        invariant forall k | 1 <= k <= scrolls :: heights(k) != heights(k - 1)
        decreases maxAttempts - attempts
      {
        scrolls := scrolls + 1;
        var newHeight := heights(scrolls);
        if newHeight == lastHeight {
          return;
        }
        lastHeight := newHeight;
        attempts := attempts + 1;
      }
    }

    /**
     * _crawl_with_feed: the discovered and configured feed URLs in turn;
     * entries give their link or id, the XML fetch its item links. A feed
     * that raises or whose XML does not parse is skipped; the loop stops
     * once anything was found.
     */
    method CrawlWithFeed(seed: string, c: SiteConfig, w: World) returns (urls: set<string>)
      ensures urls == FeedCrawl(seed, c, w)
    {
      var feedUrls := FeedUrls(seed, c, w);
      urls := {};
      var i := 0;
      while i < |feedUrls|
        invariant 0 <= i <= |feedUrls|
        invariant FeedLoop(feedUrls, i, w, urls) == FeedLoop(feedUrls, 0, w, {})
      {
        var stop;
        urls, stop := ReadFeed(feedUrls[i], w, urls);
        if stop {
          return;
        }
        i := i + 1;
      }
    }

    /** One feed: its entries' links, then its XML item links; stop once anything was found. */
    method ReadFeed(f: string, w: World, acc: set<string>) returns (urls: set<string>, stop: bool)
      ensures (urls, stop) == FeedStep(f, w, acc)
    {
      urls, stop := acc, false;
      var parsed := w.feed(f);
      if parsed.Raised? {
        return;
      }
      var fromEntries := EntryLinksOf(parsed.value);
      urls := urls + fromEntries;
      var reply := w.feedXml(f);
      if reply.Raised? || (reply.value.status == 200 && reply.value.items.None?) {
        return;
      }
      if reply.value.status == 200 {
        var fromXml := XmlLinksOf(reply.value.items.value);
        urls := urls + fromXml;
      }
      stop := urls != {};
    }

    /** The link, or else the id, of each feed entry. */
    method EntryLinksOf(entries: seq<FeedEntry>) returns (links: set<string>)
      ensures links == EntryLinks(entries)
    {
      links := {};
      var i := 0;
      while i < |entries|
        invariant 0 <= i <= |entries|
        invariant links == EntryLinks(entries[..i])
      {
        var e := entries[i];
        if e.link.Some? {
          links := links + {e.link.value};
        } else if e.id.Some? {
          links := links + {e.id.value};
        }
        assert entries[..i + 1] == entries[..i] + [e];
        i := i + 1;
      }
      assert entries[..i] == entries;
    }

    /** The text, or else the href, of each XML item's link. */
    method XmlLinksOf(items: seq<Option<XmlLink>>) returns (links: set<string>)
      ensures links == XmlLinks(items)
    {
      links := {};
      var i := 0;
      while i < |items|
        invariant 0 <= i <= |items|
        invariant links == XmlLinks(items[..i])
      {
        var l := items[i];
        if l.Some? && l.value.text != "" {
          links := links + {l.value.text};
        } else if l.Some? && l.value.href.Some? {
          links := links + {l.value.href.value};
        }
        assert items[..i + 1] == items[..i] + [l];
        i := i + 1;
      }
      assert items[..i] == items;
    }

    /** The Quill walker: every string of the document that contains "/blog/". */
    method ExtractBlogUrls(j: Json) returns (urls: set<string>)
      ensures urls == BlogStrings(j)
      decreases j
    {
      match j {
        case JStr(s) =>
          urls := if Contains(s, "/blog/") then {s} else {};
        case JArr(items) =>
          urls := {};
          var i := 0;
          while i < |items|
            invariant 0 <= i <= |items|
            invariant urls == BlogStrings(JArr(items[..i]))
          {
            var more := ExtractBlogUrls(items[i]);
            urls := urls + more;
            AllStringsArrSnoc(items, i);
            i := i + 1;
          }
          assert items[..i] == items;
        case JObj(entries) =>
          urls := {};
          var i := 0;
          while i < |entries|
            invariant 0 <= i <= |entries|
            invariant urls == BlogStrings(JObj(entries[..i]))
          {
            var more := ExtractBlogUrls(entries[i].1);
            urls := urls + more;
            AllStringsObjSnoc(entries, i);
            i := i + 1;
          }
          assert entries[..i] == entries;
        case _ =>
          urls := {};
      }
    }

    /** _crawl_with_quill_api: each candidate endpoint in turn, a failing one skipped. */
    method CrawlWithQuillApi(seed: string, w: World) returns (urls: set<string>)
      ensures urls == QuillApiCrawl(seed, w)
    {
      var cands := QuillApiUrls(DomainOf(seed));
      urls := {};
      var i := 0;
      while i < |cands|
        invariant 0 <= i <= |cands|
        invariant QuillApiLoop(cands, i, w, urls) == QuillApiLoop(cands, 0, w, {})
      {
        var reply := w.api(cands[i]);
        if reply.Got? && reply.value.status == 200 && reply.value.body.Got? {
          var found := ExtractBlogUrls(reply.value.body.value);
          urls := urls + found;
        }
        i := i + 1;
      }
    }

    /** The slug URL of each non-empty title. */
    method SlugUrlsOf(domain: string, titles: seq<string>) returns (urls: set<string>)
      ensures urls == SlugUrls(domain, titles)
    {
      urls := {};
      var i := 0;
      while i < |titles|
        invariant 0 <= i <= |titles|
        invariant urls == SlugUrls(domain, titles[..i])
      {
        if titles[i] != "" {
          urls := urls + {SlugUrl(domain, titles[i])};
        }
        assert titles[..i + 1] == titles[..i] + [titles[i]];
        i := i + 1;
      }
      assert titles[..i] == titles;
    }

    /** _crawl_with_quill_bs: slugs of the card and heading titles, then the sitemap's blog locations. */
    method CrawlWithQuillBs(seed: string, w: World) returns (urls: set<string>)
      ensures urls == QuillBsCrawl(seed, w)
    {
      var domain := DomainOf(seed);
      urls := {};
      if w.quillHtml.Got? && w.quillHtml.value.0 == 200 {
        var fromCards := SlugUrlsOf(domain, w.quillHtml.value.1.cardTitles);
        var fromHeadings := SlugUrlsOf(domain, w.quillHtml.value.1.headings);
        urls := fromCards + fromHeadings;
      }
      if w.sitemap.Got? && w.sitemap.value.0 == 200 {
        var fromSitemap := BlogLocsOf(w.sitemap.value.1);
        urls := urls + fromSitemap;
      }
    }

    /** The sitemap locations that contain "/blog/". */
    method BlogLocsOf(locs: seq<string>) returns (urls: set<string>)
      ensures urls == BlogLocs(locs)
    {
      urls := {};
      var i := 0;
      while i < |locs|
        invariant 0 <= i <= |locs|
        invariant urls == BlogLocs(locs[..i])
      {
        if Contains(locs[i], "/blog/") {
          urls := urls + {locs[i]};
        }
        assert locs[..i + 1] == locs[..i] + [locs[i]];
        i := i + 1;
      }
      assert locs[..i] == locs;
    }

    /** The Quill branch of _crawl_with_playwright on the captured URLs. */
    method CrawlQuillPages(seed: string, w: World) returns (urls: set<string>)
      ensures urls == (if w.quillRequests.Got? then QuillCaptured(seed, w.quillRequests.value) else {})
    {
      urls := {};
      if w.quillRequests.Raised? {
        return;
      }
      var reqs := w.quillRequests.value;
      var i := 0;
      while i < |reqs|
        invariant 0 <= i <= |reqs|
        invariant urls == QuillCaptured(seed, reqs[..i])
      {
        var u := reqs[i];
        if Contains(u, "/blog/") && u != seed && u != seed + "/" {
          urls := urls + {u};
        }
        assert reqs[..i + 1] == reqs[..i] + [u];
        i := i + 1;
      }
      assert reqs[..i] == reqs;
    }

    /**
     * _extract_urls_from_api_response: object values that are strings go
     * through the validity check; nested objects and arrays are walked.
     */
    method ExtractUrlsFromApiResponse(j: Json, c: SiteConfig) returns (urls: set<string>)
      modifies this
      ensures urls == WalkFound(old(visited), c, j)
      ensures visited == WalkMarked(old(visited), j)
      ensures buckets == old(buckets)
      decreases j, 1
    {
      match j {
        case JArr(items) =>
          urls := ExtractFromItems(items, c);
        case JObj(entries) =>
          urls := ExtractFromEntries(entries, c);
        case _ =>
          urls := {};
      }
    }

    /** The walk over the items of an array, in order. */
    method ExtractFromItems(items: seq<Json>, c: SiteConfig) returns (urls: set<string>)
      modifies this
      ensures urls == WalkFound(old(visited), c, JArr(items))
      ensures visited == WalkMarked(old(visited), JArr(items))
      ensures buckets == old(buckets)
      decreases JArr(items), 0
    {
      urls := {};
      var i := 0;
      while i < |items|
        invariant 0 <= i <= |items|
        invariant urls == WalkFound(old(visited), c, JArr(items[..i]))
        invariant visited == WalkMarked(old(visited), JArr(items[..i]))
        invariant buckets == old(buckets)
      {
        ghost var v := visited;
        var more := ExtractUrlsFromApiResponse(items[i], c);
        urls := urls + more;
        WalkArrSnoc(old(visited), v, c, items, i);
        i := i + 1;
      }
      assert items[..i] == items;
    }

    /** The walk over the values of an object, in order: strings are checked, the rest walked. */
    method ExtractFromEntries(entries: seq<(string, Json)>, c: SiteConfig) returns (urls: set<string>)
      modifies this
      ensures urls == WalkFound(old(visited), c, JObj(entries))
      ensures visited == WalkMarked(old(visited), JObj(entries))
      ensures buckets == old(buckets)
      decreases JObj(entries), 0
    {
      urls := {};
      var i := 0;
      while i < |entries|
        invariant 0 <= i <= |entries|
        invariant urls == WalkFound(old(visited), c, JObj(entries[..i]))
        invariant visited == WalkMarked(old(visited), JObj(entries[..i]))
        invariant buckets == old(buckets)
      {
        ghost var v := visited;
        var value := entries[i].1;
        var more: set<string> := {};
        if value.JStr? {
          var ok := IsValidContentUrl(value.s, c);
          if ok {
            more := {value.s};
          }
          assert more == WalkFound(v, c, JObj([("", value)])) by {
            DictStringsOfOne(value);
          }
          assert visited == WalkMarked(v, JObj([("", value)])) by {
            DictStringsOfOne(value);
          }
        } else {
          more := ExtractUrlsFromApiResponse(value, c);
          DictStringsOfOne(value);
        }
        urls := urls + more;
        WalkObjSnoc(old(visited), v, c, entries, i);
        i := i + 1;
      }
      assert entries[..i] == entries;
    }

    /** _crawl_with_api: each endpoint in turn; a raise ends the strategy with what it has. */
    method CrawlWithApi(seed: string, c: SiteConfig, w: World) returns (urls: set<string>)
      modifies this
      ensures Acc(urls, visited) == ApiLoop(DomainOf(seed), c, w, 0, Acc({}, old(visited)))
      ensures buckets == old(buckets)
    {
      var domain := DomainOf(seed);
      urls := {};
      var i := 0;
      while i < |c.apiEndpoints|
        invariant 0 <= i <= |c.apiEndpoints|
        invariant ApiLoop(domain, c, w, i, Acc(urls, visited)) == ApiLoop(domain, c, w, 0, Acc({}, old(visited)))
        invariant buckets == old(buckets)
      {
        var reply := w.api("https://" + domain + c.apiEndpoints[i]);
        if reply.Raised? {
          return;
        }
        if reply.value.status == 200 {
          if reply.value.body.Raised? {
            return;
          }
          var found := ExtractUrlsFromApiResponse(reply.value.body.value, c);
          urls := urls + found;
        }
        i := i + 1;
      }
    }

    /** _crawl_with_selenium: nothing unless JavaScript is required; a driver that cannot start raises. */
    method CrawlWithSelenium(seed: string, c: SiteConfig, w: World) returns (r: Fetch<set<string>>)
      modifies this
      ensures Outcome(r, visited) == RunStrategy(Selenium, seed, c, w, maxPages, old(visited))
      ensures buckets == old(buckets)
    {
      if !c.requiresJs {
        return Got({});
      }
      if w.seleniumInitFails {
        return Raised;
      }
      if c.infiniteScroll {
        // _handle_infinite_scroll is called without its arguments: the
        // TypeError is caught by the strategy before any URL is taken.
        return Got({});
      }
      var urls := CrawlWithSelectors(Selenium, seed, c, w, false);
      return Got(urls);
    }

    /** _crawl_with_aggressive_selenium: every anchor of the rendered seed page through the validity check. */
    method CrawlAggressively(seed: string, c: SiteConfig, w: World) returns (urls: set<string>)
      modifies this
      ensures Outcome(Got(urls), visited) == RunStrategy(Aggressive, seed, c, w, maxPages, old(visited))
      ensures buckets == old(buckets)
    {
      if w.seleniumInitFails {
        return {};
      }
      var loaded := w.page(Aggressive, seed);
      if loaded.Raised? {
        return {};
      }
      urls := Harvest(loaded.value.hrefs, c);
      assert HarvestInto(Acc({}, old(visited)), c, loaded.value.hrefs) == Acc(urls, visited);
    }

    /** Run one strategy on the seed. */
    method Run(s: Strategy, seed: string, c: SiteConfig, w: World) returns (r: Fetch<set<string>>)
      modifies this
      ensures Outcome(r, visited) == RunStrategy(s, seed, c, w, maxPages, old(visited))
      ensures buckets == old(buckets)
    {
      var urls: set<string>;
      match s {
        case QuillApi => urls := CrawlWithQuillApi(seed, w);
        case QuillBs => urls := CrawlWithQuillBs(seed, w);
        case Feed => urls := CrawlWithFeed(seed, c, w);
        case Playwright =>
          if Contains(DomainOf(seed), "quill.co") {
            urls := CrawlQuillPages(seed, w);
          } else {
            urls := CrawlWithSelectors(Playwright, seed, c, w, false);
          }
        case Undetected => urls := CrawlWithSelectors(Undetected, seed, c, w, false);
        case Selenium =>
          r := CrawlWithSelenium(seed, c, w);
          return;
        case Cloudscraper => urls := CrawlWithSelectors(Cloudscraper, seed, c, w, true);
        case Api => urls := CrawlWithApi(seed, c, w);
        case Requests => urls := CrawlWithSelectors(Requests, seed, c, w, true);
        case Aggressive => urls := CrawlAggressively(seed, c, w);
      }
      r := Got(urls);
    }

    /**
     * The strategy loop of crawl: each strategy in turn; a raise or an
     * empty result moves on; a non-empty result joins found and, when the
     * seed classifies as a content type, is filed and ends the loop.
     */
    method RunChain(ss: seq<Strategy>, seed: string, c: SiteConfig, w: World) returns (found: set<string>)
      modifies this
      ensures (State(visited, buckets), found) == Chain(ss, 0, seed, c, w, maxPages, State(old(visited), old(buckets)), {})
    {
      found := {};
      var k := 0;
      ghost var final := Chain(ss, 0, seed, c, w, maxPages, State(visited, buckets), {});
      while k < |ss|
        invariant 0 <= k <= |ss|
        invariant Chain(ss, k, seed, c, w, maxPages, State(visited, buckets), found) == final
        decreases |ss| - k
      {
        var stop;
        found, stop := RunOne(ss, k, seed, c, w, found);
        if stop {
          return;
        }
        k := k + 1;
      }
    }

    /**
     * Strategy k of the strategy loop: its result joins found and, when the
     * seed classifies as a content type, is filed and stops the loop.
     */
    method RunOne(ss: seq<Strategy>, k: nat, seed: string, c: SiteConfig, w: World, found0: set<string>)
      returns (found: set<string>, stop: bool)
      requires k < |ss|
      modifies this
      ensures stop ==> Chain(ss, k, seed, c, w, maxPages, State(old(visited), old(buckets)), found0) == (State(visited, buckets), found)
      ensures !stop ==> Chain(ss, k, seed, c, w, maxPages, State(old(visited), old(buckets)), found0)
                        == Chain(ss, k + 1, seed, c, w, maxPages, State(visited, buckets), found)
    {
      found, stop := found0, false;
      var r := Run(ss[k], seed, c, w);
      if r.Got? && r.value != {} {
        found := found + r.value;
        match DetermineContentType(seed) {
          case Known(t) =>
            buckets := File(buckets, t, r.value);
            stop := true;
          case RegistryKey(_) =>
            // Filing under the key string raises KeyError, caught per strategy.
        }
      }
    }

    /** The all-links fallback: same-domain absolute links of the seed page, filed by the seed's type. */
    method RunFallback(seed: string, w: World)
      modifies this
      ensures buckets == Fallback(seed, w, old(buckets))
      ensures visited == old(visited)
    {
      if w.allLinks.Got? && w.allLinks.value.0 == 200 {
        var links := FallbackLinks(seed, DomainOf(seed), w.allLinks.value.1);
        if links != {} {
          match DetermineContentType(seed) {
            case Known(t) => buckets := File(buckets, t, links);
            case RegistryKey(_) =>
              // KeyError, caught by the fallback's own handler.
          }
        }
      }
    }

    /**
     * crawl(start_url): the strategies in order until one finds something
     * that can be filed, then the all-links fallback when nothing at all
     * was found; the answer is the non-empty buckets.
     */
    method Crawl(seed: string, w: World) returns (result: map<ContentType, set<string>>)
      modifies this
      ensures State(visited, buckets) == CrawlState(State(old(visited), old(buckets)), seed, w, maxPages)
      ensures result == NonEmptyBuckets(buckets)
    {
      var domain := DomainOf(seed);
      var c := GetSiteConfig(domain);
      var found := RunChain(StrategiesFor(domain, c), seed, c, w);
      if found == {} {
        RunFallback(seed, w);
      }
      result := NonEmptyBuckets(buckets);
    }
  }

  // ---------------------------------------------------------------------
  // Steps of the loops above
  // ---------------------------------------------------------------------

  lemma HarvestStep(v: set<string>, c: SiteConfig, hrefs: seq<string>, i: int)
    requires 0 <= i < |hrefs|
    ensures var h := hrefs[i]; var vi := v + NonEmptyOf(hrefs[..i]);
      && Harvested(v, c, hrefs[..i + 1]) == Harvested(v, c, hrefs[..i]) + (if CheckUrl(vi, c, h).0 then {h} else {})
      && v + NonEmptyOf(hrefs[..i + 1]) == CheckUrl(vi, c, h).1
  {
    assert hrefs[..i + 1] == hrefs[..i] + [hrefs[i]];
  }

  lemma AllStringsArrSnoc(items: seq<Json>, i: int)
    requires 0 <= i < |items|
    ensures BlogStrings(JArr(items[..i + 1])) == BlogStrings(JArr(items[..i])) + BlogStrings(items[i])
  {
    assert items[..i + 1] == items[..i] + [items[i]];
    assert AllStrings(JArr(items[..i + 1])) == AllStrings(JArr(items[..i])) + AllStrings(items[i]) by {
      var a := items[..i + 1];
      forall s | s in AllStrings(items[i]) ensures s in AllStrings(JArr(a)) {
        assert a[i] == items[i];
      }
      forall s | s in AllStrings(JArr(a)) ensures s in AllStrings(JArr(items[..i])) + AllStrings(items[i]) {
        var k :| 0 <= k < |a| && s in AllStrings(a[k]);
        if k < i {
          assert a[k] == items[..i][k];
        }
      }
      forall s | s in AllStrings(JArr(items[..i])) ensures s in AllStrings(JArr(a)) {
        var k :| 0 <= k < i && s in AllStrings(items[..i][k]);
        assert a[k] == items[..i][k];
      }
    }
  }

  lemma AllStringsObjSnoc(entries: seq<(string, Json)>, i: int)
    requires 0 <= i < |entries|
    ensures BlogStrings(JObj(entries[..i + 1])) == BlogStrings(JObj(entries[..i])) + BlogStrings(entries[i].1)
  {
    assert AllStrings(JObj(entries[..i + 1])) == AllStrings(JObj(entries[..i])) + AllStrings(entries[i].1) by {
      var a := entries[..i + 1];
      forall s | s in AllStrings(entries[i].1) ensures s in AllStrings(JObj(a)) {
        assert a[i] == entries[i];
      }
      forall s | s in AllStrings(JObj(a)) ensures s in AllStrings(JObj(entries[..i])) + AllStrings(entries[i].1) {
        var k :| 0 <= k < |a| && s in AllStrings(a[k].1);
        if k < i {
          assert a[k] == entries[..i][k];
        }
      }
      forall s | s in AllStrings(JObj(entries[..i])) ensures s in AllStrings(JObj(a)) {
        var k :| 0 <= k < i && s in AllStrings(entries[..i][k].1);
        assert a[k] == entries[..i][k];
      }
    }
  }

  /** The object {"": value} holds exactly what value contributes as an object value. */
  lemma DictStringsOfOne(value: Json)
    ensures DictStrings(JObj([("", value)])) == EntryStrings(value)
  {
    assert [("", value)][0].1 == value;
  }

  lemma DictStringsArrSnoc(items: seq<Json>, i: int)
    requires 0 <= i < |items|
    ensures DictStrings(JArr(items[..i + 1])) == DictStrings(JArr(items[..i])) + DictStrings(items[i])
  {
    var a := items[..i + 1];
    forall s | s in DictStrings(items[i]) ensures s in DictStrings(JArr(a)) {
      assert a[i] == items[i];
    }
    forall s | s in DictStrings(JArr(a)) ensures s in DictStrings(JArr(items[..i])) + DictStrings(items[i]) {
      var k :| 0 <= k < |a| && s in DictStrings(a[k]);
      if k < i {
        assert a[k] == items[..i][k];
      }
    }
    forall s | s in DictStrings(JArr(items[..i])) ensures s in DictStrings(JArr(a)) {
      var k :| 0 <= k < i && s in DictStrings(items[..i][k]);
      assert a[k] == items[..i][k];
    }
  }

  lemma DictStringsObjSnoc(entries: seq<(string, Json)>, i: int)
    requires 0 <= i < |entries|
    ensures DictStrings(JObj(entries[..i + 1])) == DictStrings(JObj(entries[..i])) + EntryStrings(entries[i].1)
  {
    var a := entries[..i + 1];
    forall s | s in EntryStrings(entries[i].1) ensures s in DictStrings(JObj(a)) {
      assert a[i] == entries[i];
    }
    forall s | s in DictStrings(JObj(a)) ensures s in DictStrings(JObj(entries[..i])) + EntryStrings(entries[i].1) {
      var k :| 0 <= k < |a| && s in EntryStrings(a[k].1);
      if k < i {
        assert a[k] == entries[..i][k];
      }
    }
    forall s | s in DictStrings(JObj(entries[..i])) ensures s in DictStrings(JObj(a)) {
      var k :| 0 <= k < i && s in EntryStrings(entries[..i][k].1);
      assert a[k] == entries[..i][k];
    }
  }

  /** Walking a union: what the first part accepts, then what the second accepts after the first's marks. */
  lemma WalkUnion(v0: set<string>, c: SiteConfig, a: set<string>, b: set<string>)
    ensures (set s | s in a + b && s != "" && s !in v0 && AnyMatch(c.contentPatterns, s))
      == (set s | s in a && s != "" && s !in v0 && AnyMatch(c.contentPatterns, s))
       + (set s | s in b && s != "" && s !in (v0 + set x | x in a && x != "") && AnyMatch(c.contentPatterns, s))
  {
  }

  lemma WalkArrSnoc(v0: set<string>, v: set<string>, c: SiteConfig, items: seq<Json>, i: int)
    requires 0 <= i < |items|
    requires v == WalkMarked(v0, JArr(items[..i]))
    ensures WalkFound(v0, c, JArr(items[..i + 1])) == WalkFound(v0, c, JArr(items[..i])) + WalkFound(v, c, items[i])
    ensures WalkMarked(v0, JArr(items[..i + 1])) == WalkMarked(v, items[i])
  {
    DictStringsArrSnoc(items, i);
    WalkUnion(v0, c, DictStrings(JArr(items[..i])), DictStrings(items[i]));
  }

  lemma WalkObjSnoc(v0: set<string>, v: set<string>, c: SiteConfig, entries: seq<(string, Json)>, i: int)
    requires 0 <= i < |entries|
    requires v == WalkMarked(v0, JObj(entries[..i]))
    ensures WalkFound(v0, c, JObj(entries[..i + 1]))
      == WalkFound(v0, c, JObj(entries[..i])) + WalkFound(v, c, JObj([("", entries[i].1)]))
    ensures WalkMarked(v0, JObj(entries[..i + 1])) == WalkMarked(v, JObj([("", entries[i].1)]))
  {
    DictStringsObjSnoc(entries, i);
    DictStringsOfOne(entries[i].1);
    WalkUnion(v0, c, DictStrings(JObj(entries[..i])), EntryStrings(entries[i].1));
  }
}
