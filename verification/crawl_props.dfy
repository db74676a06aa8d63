/**
 * What the crawl engine guarantees, and where it surprises: URLs visited
 * once are never harvested again, a seed that matches a registry pattern
 * files nothing, a seed with a content type files one strategy's URLs or
 * the fallback's, buckets only grow, and the feed and fallback paths skip
 * the validity check.
 */
module CrawlProps {
  import opened Wrappers
  import opened Text
  import opened Url
  import opened Patterns
  import opened SiteRegistry
  import opened CrawlWorld
  import opened CrawlSpec

  // ---------------------------------------------------------------------
  // Visited URLs stay out of validity-checked results
  // ---------------------------------------------------------------------

  lemma {:induction false} PaginateAvoidsVisited(s: Strategy, seed: string, c: SiteConfig, w: World, maxPages: int,
                                                 checkStatus: bool, page: int, acc: Acc, v0: set<string>)
    requires v0 <= acc.visited && acc.urls !! v0
    ensures var r := Paginate(s, seed, c, w, maxPages, checkStatus, page, acc);
      v0 <= r.visited && r.urls !! v0
    decreases maxPages - page
  {
    if page < maxPages {
      match NextPageUrl(seed, page, c)
      case None =>
      case Some(next) =>
        match w.page(s, next)
        case Raised =>
        case Got(p) =>
          var acc' := if checkStatus && p.status != 200 then acc else HarvestInto(acc, c, p.hrefs);
          PaginateAvoidsVisited(s, seed, c, w, maxPages, checkStatus, page + 1, acc', v0);
    }
  }

  /** A selector strategy never returns a URL visited before it ran, by any strategy or any earlier seed. */
  lemma SelectorAvoidsVisited(s: Strategy, seed: string, c: SiteConfig, w: World, maxPages: int,
                              checkStatus: bool, v: set<string>)
    ensures var r := SelectorCrawl(s, seed, c, w, maxPages, checkStatus, v);
      r.urls !! v && v <= r.visited
  {
    match w.page(s, seed)
    case Raised =>
    case Got(p) =>
      if !(checkStatus && p.status != 200) {
        PaginateAvoidsVisited(s, seed, c, w, maxPages, checkStatus, 1, HarvestInto(Acc({}, v), c, p.hrefs), v);
      }
  }

  // ---------------------------------------------------------------------
  // What the strategy loop files
  // ---------------------------------------------------------------------

  /**
   * When the seed classifies as a registry key, every filing raises
   * KeyError: the loop runs every strategy and files nothing.
   */
  lemma {:induction false} RegistryKeyChainFilesNothing(ss: seq<Strategy>, k: nat, seed: string, c: SiteConfig, w: World,
                                                        maxPages: int, st: State, found: set<string>)
    requires k <= |ss| && DetermineContentType(seed).RegistryKey?
    ensures Chain(ss, k, seed, c, w, maxPages, st, found).0.buckets == st.buckets
    ensures found <= Chain(ss, k, seed, c, w, maxPages, st, found).1
    decreases |ss| - k
  {
    if k < |ss| {
      var st1, found1 := RegistryKeyStep(ss, k, seed, c, w, maxPages, st, found);
      RegistryKeyChainFilesNothing(ss, k + 1, seed, c, w, maxPages, st1, found1);
    }
  }

  /** One strategy of the loop for a registry-key seed: the buckets stay, the found set grows. */
  lemma RegistryKeyStep(ss: seq<Strategy>, k: nat, seed: string, c: SiteConfig, w: World,
                        maxPages: int, st: State, found: set<string>) returns (st1: State, found1: set<string>)
    requires k < |ss| && DetermineContentType(seed).RegistryKey?
    ensures st1.buckets == st.buckets && found <= found1
    ensures Chain(ss, k, seed, c, w, maxPages, st, found) == Chain(ss, k + 1, seed, c, w, maxPages, st1, found1)
  {
    var o := RunStrategy(ss[k], seed, c, w, maxPages, st.visited);
    st1 := st.(visited := o.visited);
    found1 := if o.result.Raised? || o.result.value == {} then found else found + o.result.value;
  }

  /** So crawl files nothing at all for such a seed: the fallback's filing raises too. */
  lemma RegistryKeyCrawlFilesNothing(st: State, seed: string, w: World, maxPages: int)
    requires DetermineContentType(seed).RegistryKey?
    ensures CrawlState(st, seed, w, maxPages).buckets == st.buckets
  {
    var domain := DomainOf(seed);
    var c := GetSiteConfig(domain);
    RegistryKeyChainFilesNothing(StrategiesFor(domain, c), 0, seed, c, w, maxPages, st, {});
  }

  /** The first non-empty strategy result (from k on), or {} when every strategy raises or finds nothing. */
  function FirstFound(ss: seq<Strategy>, k: nat, seed: string, c: SiteConfig, w: World, maxPages: int,
                      v: set<string>): set<string>
    requires k <= |ss|
    decreases |ss| - k
  {
    if k == |ss| then {}
    else
      var o := RunStrategy(ss[k], seed, c, w, maxPages, v);
      if o.result.Got? && o.result.value != {} then o.result.value
      else FirstFound(ss, k + 1, seed, c, w, maxPages, o.visited)
  }

  /**
   * When the seed classifies as a content type, the loop stops at the
   * first strategy with a non-empty result and files exactly its URLs
   * under that type; nothing else changes in the buckets.
   */
  lemma {:induction false} KnownChainFilesFirst(ss: seq<Strategy>, k: nat, seed: string, c: SiteConfig, w: World,
                                                maxPages: int, st: State, t: ContentType)
    requires k <= |ss| && DetermineContentType(seed) == Known(t)
    ensures var (st', found) := Chain(ss, k, seed, c, w, maxPages, st, {});
      && found == FirstFound(ss, k, seed, c, w, maxPages, st.visited)
      && st'.buckets == (if found == {} then st.buckets else File(st.buckets, t, found))
    decreases |ss| - k
  {
    if k < |ss| {
      var o := RunStrategy(ss[k], seed, c, w, maxPages, st.visited);
      var st1 := st.(visited := o.visited);
      if o.result.Raised? || o.result.value == {} {
        assert Chain(ss, k, seed, c, w, maxPages, st, {}) == Chain(ss, k + 1, seed, c, w, maxPages, st1, {});
        assert FirstFound(ss, k, seed, c, w, maxPages, st.visited) == FirstFound(ss, k + 1, seed, c, w, maxPages, o.visited);
        KnownChainFilesFirst(ss, k + 1, seed, c, w, maxPages, st1, t);
      } else {
        assert Chain(ss, k, seed, c, w, maxPages, st, {}) == (st1.(buckets := File(st1.buckets, t, o.result.value)), {} + o.result.value);
        assert FirstFound(ss, k, seed, c, w, maxPages, st.visited) == o.result.value;
      }
    }
  }

  /** Filing only adds. */
  lemma FileGrows(b: map<ContentType, set<string>>, t: ContentType, urls: set<string>)
    ensures forall x | x in b :: x in File(b, t, urls) && b[x] <= File(b, t, urls)[x]
    ensures t in File(b, t, urls) && urls <= File(b, t, urls)[t]
  {
  }

  /** A crawl never removes a URL from a bucket. */
  lemma CrawlBucketsGrow(st: State, seed: string, w: World, maxPages: int)
    ensures var b := CrawlState(st, seed, w, maxPages).buckets;
      forall x | x in st.buckets :: x in b && st.buckets[x] <= b[x]
  {
    var domain := DomainOf(seed);
    var c := GetSiteConfig(domain);
    var ss := StrategiesFor(domain, c);
    match DetermineContentType(seed)
    case RegistryKey(_) =>
      RegistryKeyCrawlFilesNothing(st, seed, w, maxPages);
    case Known(t) =>
      KnownChainFilesFirst(ss, 0, seed, c, w, maxPages, st, t);
      var (st1, found) := Chain(ss, 0, seed, c, w, maxPages, st, {});
      if found != {} {
        FileGrows(st.buckets, t, found);
      } else {
        var links := if w.allLinks.Got? then FallbackLinks(seed, domain, w.allLinks.value.1) else {};
        FileGrows(st.buckets, t, links);
      }
  }

  // ---------------------------------------------------------------------
  // The fallback
  // ---------------------------------------------------------------------

  /** Every URL the fallback files is an absolute http(s) URL on the seed's own netloc. */
  lemma FallbackSameDomain(seed: string, w: World, b: map<ContentType, set<string>>, t: ContentType, u: string)
    requires t in Fallback(seed, w, b) && u in Fallback(seed, w, b)[t]
    requires t !in b || u !in b[t]
    ensures StartsWith(u, "http") && DomainOf(u) == DomainOf(seed)
    ensures w.allLinks.Got? && w.allLinks.value.0 == 200
    ensures exists h | h in w.allLinks.value.1 :: u == Join(seed, h)
  {
  }

  /** The fallback files a same-domain link even when it was visited and matches no content pattern. */
  lemma FallbackBypassesCheck(seed: string, w: World, b: map<ContentType, set<string>>, h: string, t: ContentType)
    requires w.allLinks == Got((200, [h]))
    requires StartsWith(Join(seed, h), "http") && DomainOf(Join(seed, h)) == DomainOf(seed)
    requires DetermineContentType(seed) == Known(t)
    ensures t in Fallback(seed, w, b) && Join(seed, h) in Fallback(seed, w, b)[t]
  {
    assert Join(seed, h) in FallbackLinks(seed, DomainOf(seed), [h]);
  }

  // ---------------------------------------------------------------------
  // Feeds
  // ---------------------------------------------------------------------

  lemma {:induction false} FeedLoopGrows(urls: seq<string>, k: nat, w: World, acc: set<string>)
    requires k <= |urls|
    ensures acc <= FeedLoop(urls, k, w, acc)
    decreases |urls| - k
  {
    if k < |urls| {
      var (a, stop) := FeedStep(urls[k], w, acc);
      if !stop {
        FeedLoopGrows(urls, k + 1, w, a);
      }
    }
  }

  /**
   * A feed entry's link is returned as it is: the feed path never asks
   * the validity check, so neither the patterns nor the visited set
   * matter.
   */
  lemma FeedBypassesCheck(urls: seq<string>, w: World, entries: seq<FeedEntry>, e: FeedEntry)
    requires |urls| > 0 && w.feed(urls[0]) == Got(entries)
    requires e in entries && e.link.Some?
    ensures e.link.value in FeedLoop(urls, 0, w, {})
  {
    var (a, stop) := FeedStep(urls[0], w, {});
    assert e.link.value in EntryLinks(entries);
    if !stop {
      FeedLoopGrows(urls, 1, w, a);
    }
  }

  // ---------------------------------------------------------------------
  // Selenium and infinite scroll
  // ---------------------------------------------------------------------

  /** With infinite scroll set, the Selenium strategy finds nothing (or raises when its driver cannot start). */
  lemma SeleniumInfiniteScrollEmpty(seed: string, c: SiteConfig, w: World, maxPages: int, v: set<string>)
    requires c.infiniteScroll
    ensures var o := RunStrategy(Selenium, seed, c, w, maxPages, v);
      o.visited == v && (o.result.Raised? || o.result.value == {})
  {
  }

  // ---------------------------------------------------------------------
  // A seed that is itself a blog post
  // ---------------------------------------------------------------------

  /**
   * A seed "<prefix>/blog/<slug>", whatever the prefix, matches Quill's
   * "/blog/[^/]+$" pattern and classifies as the key "quill.co".
   */
  lemma BlogPostSeedClassifiesAsKey(prefix: string, slug: string)
    requires slug != [] && '/' !in slug
    ensures DetermineContentType(prefix + "/blog/" + slug) == RegistryKey("quill.co")
  {
    var u := prefix + "/blog/" + slug;
    SplitAround(prefix, "/blog/", slug);
    assert IsAt(u, "/blog/", |prefix|);
    assert Lacks(u[|prefix| + |"/blog/"|..], '/');
    assert TailAfter(u, "/blog/", '/');
    assert LowerFixed("/blog/");
    LowerKeepsTail(u, "/blog/", '/');
    assert Matches(QuillConfig.contentPatterns[0], Lower(u));
    assert AnyMatch(Registry[0].1.contentPatterns, Lower(u));
    assert FirstPatternHit(Lower(u), 0) == Some(0);
  }

  /** So crawling it files nothing, whatever the strategies find. */
  lemma BlogPostSeedFilesNothing(st: State, prefix: string, slug: string, w: World, maxPages: int)
    requires slug != [] && '/' !in slug
    ensures CrawlState(st, prefix + "/blog/" + slug, w, maxPages).buckets == st.buckets
  {
    BlogPostSeedClassifiesAsKey(prefix, slug);
    RegistryKeyCrawlFilesNothing(st, prefix + "/blog/" + slug, w, maxPages);
  }

  // ---------------------------------------------------------------------
  // Quill slugs
  // ---------------------------------------------------------------------

  /**
   * A slug holds no space, '?', '.', ',' or '\'' (spaces became '-'),
   * and the title's letter case does not matter.
   */
  lemma SlugShape(title: string)
    ensures var s := Slug(title);
      ' ' !in s && '?' !in s && '.' !in s && ',' !in s && '\'' !in s
    ensures Slug(Lower(title)) == Slug(title)
  {
    var s0 := Lower(title);
    var s1 := Replace(s0, " ", "-");
    var s2 := Replace(s1, "?", "");
    var s3 := Replace(s2, ".", "");
    var s4 := Replace(s3, ",", "");
    var s5 := Replace(s4, "'", "");
    ReplaceCharRemoves(s0, ' ', "-");
    ReplaceCharKeepsAbsent(s1, '?', ' ', "");
    ReplaceCharKeepsAbsent(s2, '.', ' ', "");
    ReplaceCharKeepsAbsent(s3, ',', ' ', "");
    ReplaceCharKeepsAbsent(s4, '\'', ' ', "");
    ReplaceCharRemoves(s1, '?', "");
    ReplaceCharKeepsAbsent(s2, '.', '?', "");
    ReplaceCharKeepsAbsent(s3, ',', '?', "");
    ReplaceCharKeepsAbsent(s4, '\'', '?', "");
    ReplaceCharRemoves(s2, '.', "");
    ReplaceCharKeepsAbsent(s3, ',', '.', "");
    ReplaceCharKeepsAbsent(s4, '\'', '.', "");
    ReplaceCharRemoves(s3, ',', "");
    ReplaceCharKeepsAbsent(s4, '\'', ',', "");
    ReplaceCharRemoves(s4, '\'', "");
    LowerIdempotent(title);
  }
}
