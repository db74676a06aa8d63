/**
 * ScraperOrchestrator: queues each seed URL together with what the
 * content crawler has filed after crawling it, drops repeated URLs
 * keeping the first, and hands each URL to the first scraper that claims
 * it; the items of all scrapes make up one result for the team.
 */
module Orchestration {
  import opened Wrappers
  import opened Base
  import opened SiteRegistry
  import opened CrawlWorld
  import opened CrawlSpec
  import opened Crawler
  import BlogScraping
  import PdfText
  import PdfScraping
  import Patterns
  import Text

  /** The page limit of the crawler the orchestrator builds (ContentCrawler's default). */
  const DefaultMaxPages := 10

  /** The order the types of a crawl result come in: the order ContentType declares them. */
  const TypeOrder: seq<ContentType> := [Blog, Guide, Topic, Substack, Category, Unknown]

  lemma TypeOrderComplete(t: ContentType)
    ensures t in TypeOrder
  {
  }

  // ---------------------------------------------------------------------
  // Choosing a scraper
  // ---------------------------------------------------------------------

  datatype ScraperKind = BlogScraperKind | PdfScraperKind

  /** The scrapers in the order they are asked. */
  const Scrapers: seq<ScraperKind> := [BlogScraperKind, PdfScraperKind]

  predicate Handles(k: ScraperKind, url: string) {
    match k
    case BlogScraperKind => BlogScraping.CanHandle(url)
    case PdfScraperKind => PdfText.CanHandle(url)
  }

  /** The first scraper of ks that claims the URL: none claims it before, and none at all when the answer is None. */
  function FirstHandler(ks: seq<ScraperKind>, url: string): (r: Option<nat>)
    ensures r.Some? ==> r.value < |ks| && Handles(ks[r.value], url)
    ensures forall i | 0 <= i < (if r.Some? then r.value else |ks|) :: !Handles(ks[i], url)
  {
    if ks == [] then None
    else if Handles(ks[0], url) then Some(0)
    else
      match FirstHandler(ks[1..], url)
      case None => None
      case Some(i) => Some(i + 1)
  }

  /** _get_scraper_for_url. */
  function ScraperFor(url: string): Option<ScraperKind> {
    match FirstHandler(Scrapers, url)
    case None => None
    case Some(i) => Some(Scrapers[i])
  }

  /** The blog scraper wins whenever it claims a URL; the PDF scraper gets the rest of the ".pdf" URLs; nothing else is scraped. */
  lemma ScraperForCases(url: string)
    ensures ScraperFor(url) == Some(BlogScraperKind) <==> BlogScraping.CanHandle(url)
    ensures ScraperFor(url) == Some(PdfScraperKind) <==> !BlogScraping.CanHandle(url) && PdfText.CanHandle(url)
    ensures ScraperFor(url) == None <==> !BlogScraping.CanHandle(url) && !PdfText.CanHandle(url)
  {
    var r := FirstHandler(Scrapers, url);
    if r.None? {
      assert !Handles(Scrapers[0], url) && !Handles(Scrapers[1], url);
    } else if r.value == 1 {
      assert !Handles(Scrapers[0], url);
    }
  }

  lemma LowerAppend(a: string, b: string)
    ensures Text.Lower(a + b) == Text.Lower(a) + Text.Lower(b)
  {
  }

  lemma EndsWithAppend(a: string, b: string, suffix: string)
    requires Text.EndsWith(b, suffix)
    ensures Text.EndsWith(a + b, suffix)
  {
    assert (a + b)[|a + b| - |suffix|..] == b[|b| - |suffix|..];
  }

  /** A PDF published under a "/blog/" folder, in any letter case, is read as a blog post, not as a PDF. */
  lemma PdfInBlogFolderGoesToBlogScraper(folder: string, name: string)
    requires name != [] && '/' !in name && Text.EndsWith(Text.Lower(name), ".pdf")
    ensures PdfText.CanHandle(folder + "/blog/" + name)
    ensures ScraperFor(folder + "/blog/" + name) == Some(BlogScraperKind)
  {
    var u := folder + "/blog/" + name;
    var f := Text.Lower(folder);
    var n := Text.Lower(name);
    assert Text.Lower("/blog/") == "/blog/";
    LowerAppend(folder, "/blog/");
    LowerAppend(folder + "/blog/", name);
    var l := Text.Lower(u);
    assert l == f + "/blog/" + n;
    Text.SplitAround(f, "/blog/", n);
    assert Patterns.Lacks(n, '/') by {
      forall k | 0 <= k < |n| ensures n[k] != '/' {
        assert name[k] != '/';
      }
    }
    assert Text.IsAt(l, "/blog/", |f|);
    assert Patterns.TailAfter(l, "/blog/", '/');
    EndsWithAppend(f + "/blog/", n, ".pdf");
    assert BlogScraping.CanHandle(u);
    ScraperForCases(u);
  }

  // ---------------------------------------------------------------------
  // The world one run sees
  // ---------------------------------------------------------------------

  /**
   * os.path.isfile, the web each seed is crawled in, the order in which
   * Python lists a set of URLs, and the worlds the two scrapers see.
   */
  datatype Env = Env(
    isFile: string -> bool,
    web: string -> World,
    listing: set<string> -> seq<string>,
    blog: BlogScraping.BlogWorld,
    pdf: PdfScraping.PdfWorld)

  /** A URL to scrape and the base URL it is resolved against. */
  type Job = (string, string)

  /** A seed that names a local PDF file is handed to the scrapers as it is, without a crawl. */
  predicate IsLocalPdf(url: string, e: Env) {
    e.isFile(url) && PdfText.CanHandle(url)
  }

  function UrlsOf(jobs: seq<Job>): set<string> {
    set k | 0 <= k < |jobs| :: jobs[k].0
  }

  /** Each URL of the list paired with the base. */
  function Pairs(urls: seq<string>, base: string): seq<Job> {
    seq(|urls|, k requires 0 <= k < |urls| => (urls[k], base))
  }

  /** The jobs of one type of a crawl result: each of its URLs, in listing order, with the seed as base. */
  function TypeJobs(crawled: map<ContentType, set<string>>, t: ContentType, base: string, listing: set<string> -> seq<string>): seq<Job> {
    if t in crawled then Pairs(listing(crawled[t]), base) else []
  }

  /** The jobs of the first n types of TypeOrder. */
  function TypesPrefix(crawled: map<ContentType, set<string>>, n: nat, base: string, listing: set<string> -> seq<string>): seq<Job>
    requires n <= |TypeOrder|
  {
    if n == 0 then [] else TypesPrefix(crawled, n - 1, base, listing) + TypeJobs(crawled, TypeOrder[n - 1], base, listing)
  }

  /** The jobs of a crawl result, type by type in TypeOrder. */
  function CrawledJobs(crawled: map<ContentType, set<string>>, base: string, listing: set<string> -> seq<string>): seq<Job> {
    TypesPrefix(crawled, |TypeOrder|, base, listing)
  }

  /** A crawl as a change of the crawler's state: the state after crawling a seed. */
  type Crawl = (State, string) -> State

  /** The content crawler's crawl with a page limit, each seed in its own web. */
  function CrawlIn(e: Env, maxPages: int): Crawl {
    (st: State, u: string) => CrawlState(st, u, e.web(u), maxPages)
  }

  /** The crawler's state after a seed: unchanged for a local PDF, else after crawling it. */
  function AfterSeed(u: string, st: State, e: Env, crawl: Crawl): State {
    if IsLocalPdf(u, e) then st else crawl(st, u)
  }

  /**
   * The jobs a seed adds: a local PDF alone; any other seed, crawled
   * first, followed by every URL the crawler then holds in a non-empty
   * bucket, with the seed as base.
   */
  function SeedJobs(u: string, st: State, e: Env, crawl: Crawl): seq<Job> {
    if IsLocalPdf(u, e) then [(u, u)]
    else [(u, u)] + CrawledJobs(NonEmptyBuckets(crawl(st, u).buckets), u, e.listing)
  }

  /** The jobs of the seeds from seed i on, and the crawler's state after them. */
  function QueueFrom(seeds: seq<string>, i: nat, st: State, e: Env, crawl: Crawl): (seq<Job>, State)
    requires i <= |seeds|
    decreases |seeds| - i
  {
    if i == |seeds| then ([], st)
    else
      var rest := QueueFrom(seeds, i + 1, AfterSeed(seeds[i], st, e, crawl), e, crawl);
      (SeedJobs(seeds[i], st, e, crawl) + rest.0, rest.1)
  }

  /** The jobs whose URL did not come earlier, in order. */
  function Unique(jobs: seq<Job>): seq<Job> {
    if jobs == [] then []
    else
      var front := jobs[..|jobs| - 1];
      var j := jobs[|jobs| - 1];
      if j.0 in UrlsOf(front) then Unique(front) else Unique(front) + [j]
  }

  /** What one job yields: the claiming scraper's items, none when no scraper claims the URL or the scrape raises. */
  function ScrapeJob(job: Job, e: Env): seq<ContentItem> {
    match ScraperFor(job.0)
    case None => []
    case Some(BlogScraperKind) => BlogScraping.ScrapeBlog(job.0, Some(job.1), e.blog)
    case Some(PdfScraperKind) => PdfScraping.ScrapePdf(job.0, e.pdf)
  }

  function ScrapeAll(jobs: seq<Job>, e: Env): seq<ContentItem> {
    if jobs == [] then [] else ScrapeAll(jobs[..|jobs| - 1], e) + ScrapeJob(jobs[|jobs| - 1], e)
  }

  /**
   * A blog job as written: the orchestrator passes the seed URL as the
   * base, so a job with a non-empty seed fetches what the corrected blog
   * scraper fetches.
   */
  lemma BlogJobAsWritten(job: Job, e: Env)
    requires ScraperFor(job.0) == Some(BlogScraperKind) && job.1 != ""
    ensures ScrapeJob(job, e) == BlogScraping.ScrapeBlogAsWritten(job.0, Some(job.1), e.blog)
  {
    BlogScraping.ScrapeBlogAsWrittenAgrees(job.0, Some(job.1), e.blog);
  }

  /** One job with the PDF scraper as written, whose raise the orchestrator catches and skips. */
  function ScrapeJobAsWritten(job: Job, e: Env): seq<ContentItem> {
    match ScraperFor(job.0)
    case None => []
    case Some(BlogScraperKind) => BlogScraping.ScrapeBlog(job.0, Some(job.1), e.blog)
    case Some(PdfScraperKind) =>
      match PdfScraping.ScrapePdfAsWritten(job.0, e.pdf)
      case Raised => []
      case Got(items) => items
  }

  function ScrapeAllAsWritten(jobs: seq<Job>, e: Env): seq<ContentItem> {
    if jobs == [] then [] else ScrapeAllAsWritten(jobs[..|jobs| - 1], e) + ScrapeJobAsWritten(jobs[|jobs| - 1], e)
  }

  /** One job: the PDF scraper's raise is caught and yields nothing, which is what the corrected scraper returns. */
  lemma JobRaiseMasked(job: Job, e: Env)
    ensures ScrapeJobAsWritten(job, e) == ScrapeJob(job, e)
  {
    if ScraperFor(job.0) == Some(PdfScraperKind) {
      PdfScraping.ScrapePdfAgrees(job.0, e.pdf);
    }
  }

  /** Behind the orchestrator's except clause the PDF scraper's failing handler makes no difference. */
  lemma {:induction false} PdfRaiseMasked(jobs: seq<Job>, e: Env)
    ensures ScrapeAllAsWritten(jobs, e) == ScrapeAll(jobs, e)
  {
    if jobs != [] {
      var front := jobs[..|jobs| - 1];
      var job := jobs[|jobs| - 1];
      PdfRaiseMasked(front, e);
      JobRaiseMasked(job, e);
      assert ScrapeAllAsWritten(jobs, e) == ScrapeAllAsWritten(front, e) + ScrapeJobAsWritten(job, e);
      assert ScrapeAll(jobs, e) == ScrapeAll(front, e) + ScrapeJob(job, e);
    }
  }

  lemma Associative(a: seq<Job>, b: seq<Job>, c: seq<Job>)
    ensures a + b + c == a + (b + c)
  {
  }

  lemma EmptyLeft(a: seq<Job>)
    ensures [] + a == a
  {
  }

  // ---------------------------------------------------------------------
  // The orchestrator
  // ---------------------------------------------------------------------

  class ScraperOrchestrator {
    const teamId: string
    const crawler: ContentCrawler

    constructor(teamId: string)
      ensures this.teamId == teamId && fresh(crawler)
      ensures crawler.maxPages == DefaultMaxPages && crawler.visited == {} && crawler.buckets == EmptyBuckets()
    {
      this.teamId := teamId;
      crawler := new ContentCrawler(DefaultMaxPages);
    }

    /** _get_scraper_for_url: ask each scraper in turn. */
    method GetScraperFor(url: string) returns (r: Option<ScraperKind>)
      ensures r == ScraperFor(url)
    {
      var i := 0;
      while i < |Scrapers|
        invariant 0 <= i <= |Scrapers|
        invariant forall j | 0 <= j < i :: !Handles(Scrapers[j], url)
      {
        if Handles(Scrapers[i], url) {
          ScraperForCases(url);
          return Some(Scrapers[i]);
        }
        i := i + 1;
      }
      ScraperForCases(url);
      r := None;
    }

    /** The innermost loop: each URL of one type with the seed as base. */
    method AppendPairs(jobs0: seq<Job>, urls: seq<string>, base: string) returns (jobs: seq<Job>)
      ensures jobs == jobs0 + Pairs(urls, base)
    {
      jobs := jobs0;
      var k := 0;
      while k < |urls|
        invariant 0 <= k <= |urls|
        invariant jobs == jobs0 + Pairs(urls[..k], base)
      {
        assert Pairs(urls[..k + 1], base) == Pairs(urls[..k], base) + [(urls[k], base)];
        jobs := jobs + [(urls[k], base)];
        k := k + 1;
      }
      assert urls[..k] == urls;
    }

    /** The loops over the crawl result: type by type, URL by URL. */
    method AppendCrawled(jobs0: seq<Job>, crawled: map<ContentType, set<string>>, base: string, listing: set<string> -> seq<string>)
      returns (jobs: seq<Job>)
      ensures jobs == jobs0 + CrawledJobs(crawled, base, listing)
    {
      jobs := jobs0;
      var i := 0;
      while i < |TypeOrder|
        invariant 0 <= i <= |TypeOrder|
        invariant jobs == jobs0 + TypesPrefix(crawled, i, base, listing)
      {
        var t := TypeOrder[i];
        ghost var before := TypesPrefix(crawled, i, base, listing);
        if t in crawled {
          jobs := AppendPairs(jobs, listing(crawled[t]), base);
        }
        Associative(jobs0, before, TypeJobs(crawled, t, base, listing));
        i := i + 1;
      }
    }

    /** One seed of the first loop of scrape_urls. */
    method QueueSeed(jobs0: seq<Job>, u: string, e: Env) returns (jobs: seq<Job>)
      modifies crawler
      ensures var st0 := State(old(crawler.visited), old(crawler.buckets));
        && State(crawler.visited, crawler.buckets) == AfterSeed(u, st0, e, CrawlIn(e, crawler.maxPages))
        && jobs == jobs0 + SeedJobs(u, st0, e, CrawlIn(e, crawler.maxPages))
    {
      if e.isFile(u) && PdfText.CanHandle(u) {
        jobs := jobs0 + [(u, u)];
      } else {
        var crawled := crawler.Crawl(u, e.web(u));
        jobs := AppendCrawled(jobs0 + [(u, u)], crawled, u, e.listing);
        Associative(jobs0, [(u, u)], CrawledJobs(crawled, u, e.listing));
      }
    }

    /** The first loop of scrape_urls: the jobs of every seed, crawling those that are not local PDFs. */
    method QueueSeeds(seeds: seq<string>, e: Env) returns (jobs: seq<Job>)
      modifies crawler
      ensures var q := QueueFrom(seeds, 0, State(old(crawler.visited), old(crawler.buckets)), e, CrawlIn(e, crawler.maxPages));
        jobs == q.0 && State(crawler.visited, crawler.buckets) == q.1
    {
      ghost var q0 := QueueFrom(seeds, 0, State(crawler.visited, crawler.buckets), e, CrawlIn(e, crawler.maxPages));
      jobs := [];
      var i := 0;
      EmptyLeft(q0.0);
      while i < |seeds|
        invariant 0 <= i <= |seeds|
        invariant jobs + QueueFrom(seeds, i, State(crawler.visited, crawler.buckets), e, CrawlIn(e, crawler.maxPages)).0 == q0.0
        invariant QueueFrom(seeds, i, State(crawler.visited, crawler.buckets), e, CrawlIn(e, crawler.maxPages)).1 == q0.1
      {
        ghost var st := State(crawler.visited, crawler.buckets);
        ghost var before := jobs;
        jobs := QueueSeed(jobs, seeds[i], e);
        ghost var rest := QueueFrom(seeds, i + 1, State(crawler.visited, crawler.buckets), e, CrawlIn(e, crawler.maxPages));
        ghost var added := SeedJobs(seeds[i], st, e, CrawlIn(e, crawler.maxPages));
        assert QueueFrom(seeds, i, st, e, CrawlIn(e, crawler.maxPages)) == (added + rest.0, rest.1);
        Associative(before, added, rest.0);
        i := i + 1;
      }
      assert jobs + [] == jobs;
    }

    /** Remove duplicates: a job is kept when its URL has not been seen. */
    method RemoveDuplicates(jobs: seq<Job>) returns (unique: seq<Job>)
      ensures unique == Unique(jobs)
    {
      var seen: set<string> := {};
      unique := [];
      var i := 0;
      while i < |jobs|
        invariant 0 <= i <= |jobs|
        invariant unique == Unique(jobs[..i]) && seen == UrlsOf(jobs[..i])
      {
        var front := jobs[..i + 1];
        assert front[..i] == jobs[..i];
        if jobs[i].0 !in seen {
          unique := unique + [jobs[i]];
          seen := seen + {jobs[i].0};
        }
        assert UrlsOf(front) == UrlsOf(jobs[..i]) + {jobs[i].0} by {
          assert forall k | 0 <= k < i :: front[k] == jobs[..i][k];
        }
        i := i + 1;
      }
      assert jobs[..i] == jobs;
    }

    /** The last loop of scrape_urls: each job through its scraper, a raise skipping the job. */
    method ScrapeJobs(jobs: seq<Job>, e: Env) returns (items: seq<ContentItem>)
      ensures items == ScrapeAll(jobs, e)
    {
      items := [];
      var i := 0;
      while i < |jobs|
        invariant 0 <= i <= |jobs|
        invariant items == ScrapeAll(jobs[..i], e)
      {
        var job := jobs[i];
        assert jobs[..i + 1][..i] == jobs[..i];
        var scraper := GetScraperFor(job.0);
        match scraper {
          case None =>
          case Some(BlogScraperKind) =>
            items := items + BlogScraping.ScrapeBlog(job.0, Some(job.1), e.blog);
          case Some(PdfScraperKind) =>
            var found := PdfScraping.Scrape(job.0, e.pdf);
            items := items + found;
        }
        i := i + 1;
      }
      assert jobs[..i] == jobs;
    }

    /** scrape_urls: queue, remove repeated URLs, scrape, and wrap the items for the team. */
    method ScrapeUrls(seeds: seq<string>, e: Env) returns (result: ScraperResult)
      modifies crawler
      ensures var q := QueueFrom(seeds, 0, State(old(crawler.visited), old(crawler.buckets)), e, CrawlIn(e, crawler.maxPages));
        State(crawler.visited, crawler.buckets) == q.1 && result == ScraperResult(teamId, ScrapeAll(Unique(q.0), e))
    {
      var jobs := QueueSeeds(seeds, e);
      var unique := RemoveDuplicates(jobs);
      var items := ScrapeJobs(unique, e);
      result := CreateResult(teamId, items);
    }
  }
}
