/**
 * What scrape_urls guarantees about the URLs it scrapes: each URL once,
 * with the base of its first job; every seed; every URL the crawler holds
 * at the end when at least one seed was crawled; and no crawl at all when
 * every seed is a local PDF.
 */
module OrchestrationProps {
  import opened SiteRegistry
  import opened CrawlSpec
  import opened Orchestration

  // ---------------------------------------------------------------------
  // Removing duplicates
  // ---------------------------------------------------------------------

  lemma UrlsAppend(a: seq<Job>, b: seq<Job>)
    ensures UrlsOf(a + b) == UrlsOf(a) + UrlsOf(b)
  {
    var ab := a + b;
    forall u | u in UrlsOf(ab) ensures u in UrlsOf(a) + UrlsOf(b) {
      var k :| 0 <= k < |ab| && ab[k].0 == u;
      if k >= |a| {
        assert b[k - |a|].0 == u;
      }
    }
    forall u | u in UrlsOf(a) + UrlsOf(b) ensures u in UrlsOf(ab) {
      if u in UrlsOf(a) {
        var k :| 0 <= k < |a| && a[k].0 == u;
        assert ab[k].0 == u;
      } else {
        var k :| 0 <= k < |b| && b[k].0 == u;
        assert ab[|a| + k].0 == u;
      }
    }
  }

  lemma UrlsSnoc(a: seq<Job>, j: Job)
    ensures UrlsOf(a + [j]) == UrlsOf(a) + {j.0}
  {
    UrlsAppend(a, [j]);
    assert UrlsOf([j]) == {j.0} by {
      assert [j][0].0 == j.0;
    }
  }

  /** Removing duplicates loses no URL. */
  lemma {:induction false} UniqueUrls(jobs: seq<Job>)
    ensures UrlsOf(Unique(jobs)) == UrlsOf(jobs)
  {
    if jobs != [] {
      var front := jobs[..|jobs| - 1];
      var j := jobs[|jobs| - 1];
      assert jobs == front + [j];
      UniqueUrls(front);
      UrlsSnoc(front, j);
      if j.0 !in UrlsOf(front) {
        UrlsSnoc(Unique(front), j);
      }
    }
  }

  /** After removing duplicates no URL comes twice. */
  lemma {:induction false} UniqueDistinct(jobs: seq<Job>)
    ensures forall a, b | 0 <= a < b < |Unique(jobs)| :: Unique(jobs)[a].0 != Unique(jobs)[b].0
  {
    if jobs != [] {
      var front := jobs[..|jobs| - 1];
      var j := jobs[|jobs| - 1];
      UniqueDistinct(front);
      if j.0 !in UrlsOf(front) {
        UniqueUrls(front);
        var p := Unique(front);
        var r := p + [j];
        forall a, b | 0 <= a < b < |r| ensures r[a].0 != r[b].0 {
          assert r[a] == p[a];
          if b == |p| {
            assert p[a].0 in UrlsOf(p);
          } else {
            assert r[b] == p[b];
          }
        }
      }
    }
  }

  /** Job i is the first with its URL. */
  predicate FirstOccurrence(jobs: seq<Job>, i: int) {
    0 <= i < |jobs| && forall j | 0 <= j < i :: jobs[j].0 != jobs[i].0
  }

  /** The jobs kept are exactly the first job of each URL. */
  lemma {:induction false} UniqueKeepsFirsts(jobs: seq<Job>)
    ensures forall x | x in Unique(jobs) :: exists i | FirstOccurrence(jobs, i) :: jobs[i] == x
    ensures forall i | FirstOccurrence(jobs, i) :: jobs[i] in Unique(jobs)
  {
    if jobs != [] {
      var front := jobs[..|jobs| - 1];
      var p := Unique(front);
      UniqueKeepsFirsts(front);
      if jobs[|jobs| - 1].0 in UrlsOf(front) {
        SkipKeepsFirsts(jobs, p);
        assert Unique(jobs) == p;
      } else {
        KeepKeepsFirsts(jobs, p);
        assert Unique(jobs) == p + [jobs[|jobs| - 1]];
      }
    } else {
      assert Unique(jobs) == [];
    }
  }

  /** A last job whose URL came before is no first occurrence: the kept jobs p of the front stay right. */
  lemma SkipKeepsFirsts(jobs: seq<Job>, p: seq<Job>)
    requires jobs != [] && jobs[|jobs| - 1].0 in UrlsOf(jobs[..|jobs| - 1])
    requires var front := jobs[..|jobs| - 1];
      && (forall x | x in p :: exists i | FirstOccurrence(front, i) :: front[i] == x)
      && (forall i | FirstOccurrence(front, i) :: front[i] in p)
    ensures forall x | x in p :: exists i | FirstOccurrence(jobs, i) :: jobs[i] == x
    ensures forall i | FirstOccurrence(jobs, i) :: jobs[i] in p
  {
    var n := |jobs| - 1;
    var front := jobs[..n];
    FrontOccurrences(jobs);
    var m := UrlIndex(front, jobs[n].0);
    assert !FirstOccurrence(jobs, n) by {
      assert jobs[m].0 == jobs[n].0;
    }
    forall x | x in p ensures exists i | FirstOccurrence(jobs, i) :: jobs[i] == x {
      var i :| FirstOccurrence(front, i) && front[i] == x;
      assert FirstOccurrence(jobs, i) && jobs[i] == x;
    }
    forall i | FirstOccurrence(jobs, i) ensures jobs[i] in p {
      assert i != n;
      assert FirstOccurrence(front, i) && front[i] == jobs[i];
    }
  }

  /** A last job with a new URL is a first occurrence: it joins the kept jobs p of the front. */
  lemma KeepKeepsFirsts(jobs: seq<Job>, p: seq<Job>)
    requires jobs != [] && jobs[|jobs| - 1].0 !in UrlsOf(jobs[..|jobs| - 1])
    requires var front := jobs[..|jobs| - 1];
      && (forall x | x in p :: exists i | FirstOccurrence(front, i) :: front[i] == x)
      && (forall i | FirstOccurrence(front, i) :: front[i] in p)
    ensures var r := p + [jobs[|jobs| - 1]];
      && (forall x | x in r :: exists i | FirstOccurrence(jobs, i) :: jobs[i] == x)
      && (forall i | FirstOccurrence(jobs, i) :: jobs[i] in r)
  {
    var n := |jobs| - 1;
    var front := jobs[..n];
    var r := p + [jobs[n]];
    FrontOccurrences(jobs);
    forall m | 0 <= m < n ensures jobs[m].0 != jobs[n].0 {
      assert front[m] == jobs[m];
      assert front[m].0 in UrlsOf(front);
    }
    assert FirstOccurrence(jobs, n);
    forall x | x in r ensures exists i | FirstOccurrence(jobs, i) :: jobs[i] == x {
      if x in p {
        var i :| FirstOccurrence(front, i) && front[i] == x;
        assert FirstOccurrence(jobs, i) && jobs[i] == x;
      } else {
        assert jobs[n] == x;
      }
    }
    forall i | FirstOccurrence(jobs, i) ensures jobs[i] in r {
      if i < n {
        assert FirstOccurrence(front, i) && front[i] == jobs[i];
        assert front[i] in p;
      }
    }
  }

  /** The positions of the first occurrences, in increasing order. */
  function FirstIndices(jobs: seq<Job>): (idx: seq<nat>)
    ensures forall a | 0 <= a < |idx| :: FirstOccurrence(jobs, idx[a])
    ensures forall a, b | 0 <= a < b < |idx| :: idx[a] < idx[b]
  {
    if jobs == [] then []
    else
      var n := |jobs| - 1;
      FrontOccurrences(jobs);
      FirstIndices(jobs[..n]) + (if FirstOccurrence(jobs, n) then [n] else [])
  }

  /** Every first occurrence is listed. */
  lemma {:induction false} FirstIndicesComplete(jobs: seq<Job>)
    ensures forall i | FirstOccurrence(jobs, i) :: i in FirstIndices(jobs)
  {
    if jobs != [] {
      var n := |jobs| - 1;
      FirstIndicesComplete(jobs[..n]);
      FrontOccurrences(jobs);
    }
  }

  /** The last job is a first occurrence exactly when its URL is new. */
  lemma LastIsFirst(jobs: seq<Job>)
    requires jobs != []
    ensures var n := |jobs| - 1; FirstOccurrence(jobs, n) <==> jobs[n].0 !in UrlsOf(jobs[..n])
  {
    var n := |jobs| - 1;
    if jobs[n].0 in UrlsOf(jobs[..n]) {
      var m := UrlIndex(jobs[..n], jobs[n].0);
      assert jobs[m].0 == jobs[n].0;
    } else {
      forall m | 0 <= m < n ensures jobs[m].0 != jobs[n].0 {
        assert jobs[..n][m].0 in UrlsOf(jobs[..n]);
      }
    }
  }

  /**
   * The jobs kept are the first occurrences in their original order: the
   * a-th job kept is the job at the a-th first-occurrence position, and
   * those positions increase.
   */
  lemma {:induction false} UniqueInOrder(jobs: seq<Job>)
    ensures |Unique(jobs)| == |FirstIndices(jobs)|
    ensures forall a | 0 <= a < |Unique(jobs)| :: Unique(jobs)[a] == jobs[FirstIndices(jobs)[a]]
  {
    if jobs != [] {
      var n := |jobs| - 1;
      var front := jobs[..n];
      UniqueInOrder(front);
      LastIsFirst(jobs);
      var p, idx := Unique(front), FirstIndices(front);
      var tail := if FirstOccurrence(jobs, n) then [jobs[n]] else [];
      var tailIdx := if FirstOccurrence(jobs, n) then [n] else [];
      assert Unique(jobs) == p + tail;
      assert FirstIndices(jobs) == idx + tailIdx;
      InOrderSnoc(jobs, p, idx, tail, tailIdx);
    }
  }

  /** Kept jobs and positions of the front, each extended by the last job and its position or by nothing. */
  lemma InOrderSnoc(jobs: seq<Job>, p: seq<Job>, idx: seq<nat>, tail: seq<Job>, tailIdx: seq<nat>)
    requires jobs != [] && |p| == |idx|
    requires forall a | 0 <= a < |idx| :: FirstOccurrence(jobs[..|jobs| - 1], idx[a]) && p[a] == jobs[..|jobs| - 1][idx[a]]
    requires (tail == [] && tailIdx == []) || (tail == [jobs[|jobs| - 1]] && tailIdx == [|jobs| - 1])
    ensures |p + tail| == |idx + tailIdx|
    ensures forall a | 0 <= a < |p + tail| :: (idx + tailIdx)[a] < |jobs| && (p + tail)[a] == jobs[(idx + tailIdx)[a]]
  {
    forall a | 0 <= a < |p + tail|
      ensures (idx + tailIdx)[a] < |jobs| && (p + tail)[a] == jobs[(idx + tailIdx)[a]]
    {
      if a < |p| {
        assert (p + tail)[a] == p[a] && (idx + tailIdx)[a] == idx[a];
      }
    }
  }

  /** A URL of some job is the URL of the job at a position. */
  lemma UrlIndex(jobs: seq<Job>, u: string) returns (m: nat)
    requires u in UrlsOf(jobs)
    ensures m < |jobs| && jobs[m].0 == u
  {
    m :| 0 <= m < |jobs| && jobs[m].0 == u;
  }

  /** The first occurrences among all jobs but the last are those of the front. */
  lemma FrontOccurrences(jobs: seq<Job>)
    requires jobs != []
    ensures var front := jobs[..|jobs| - 1];
      && (forall i | FirstOccurrence(front, i) :: FirstOccurrence(jobs, i) && jobs[i] == front[i])
      && (forall i | FirstOccurrence(jobs, i) && i < |jobs| - 1 :: FirstOccurrence(front, i))
  {
  }

  // ---------------------------------------------------------------------
  // The seeds
  // ---------------------------------------------------------------------

  lemma SeedJobsStart(u: string, st: State, e: Env, crawl: Crawl)
    ensures |SeedJobs(u, st, e, crawl)| >= 1 && SeedJobs(u, st, e, crawl)[0] == (u, u)
  {
  }

  /** Each seed from seed i on is the URL of some job. */
  lemma {:induction false} SeedsQueued(seeds: seq<string>, i: nat, st: State, e: Env, crawl: Crawl)
    requires i <= |seeds|
    ensures forall k | i <= k < |seeds| :: seeds[k] in UrlsOf(QueueFrom(seeds, i, st, e, crawl).0)
    decreases |seeds| - i
  {
    if i < |seeds| {
      var added := SeedJobs(seeds[i], st, e, crawl);
      var rest := QueueFrom(seeds, i + 1, AfterSeed(seeds[i], st, e, crawl), e, crawl);
      assert QueueFrom(seeds, i, st, e, crawl) == (added + rest.0, rest.1);
      SeedsQueued(seeds, i + 1, AfterSeed(seeds[i], st, e, crawl), e, crawl);
      UrlsAppend(added, rest.0);
      SeedJobsStart(seeds[i], st, e, crawl);
      assert added[0].0 == seeds[i];
    }
  }

  /** When every seed is a local PDF the crawler is never run, and each seed is its own job with itself as base. */
  lemma {:induction false} LocalPdfsNotCrawled(seeds: seq<string>, i: nat, st: State, e: Env, crawl: Crawl)
    requires i <= |seeds|
    requires forall k | i <= k < |seeds| :: IsLocalPdf(seeds[k], e)
    ensures QueueFrom(seeds, i, st, e, crawl).1 == st
    ensures |QueueFrom(seeds, i, st, e, crawl).0| == |seeds| - i
    ensures forall k | 0 <= k < |seeds| - i :: QueueFrom(seeds, i, st, e, crawl).0[k] == (seeds[i + k], seeds[i + k])
    decreases |seeds| - i
  {
    if i < |seeds| {
      LocalPdfsNotCrawled(seeds, i + 1, st, e, crawl);
      var rest := QueueFrom(seeds, i + 1, st, e, crawl);
      var q := QueueFrom(seeds, i, st, e, crawl);
      assert q.0 == [(seeds[i], seeds[i])] + rest.0;
      forall k | 0 < k < |seeds| - i ensures q.0[k] == (seeds[i + k], seeds[i + k]) {
        assert q.0[k] == rest.0[k - 1];
      }
    }
  }

  // ---------------------------------------------------------------------
  // The crawled URLs
  // ---------------------------------------------------------------------

  /** Listing a set yields each of its members. */
  ghost predicate ListsEvery(listing: set<string> -> seq<string>) {
    forall s: set<string>, u | u in s :: u in listing(s)
  }

  lemma PairsUrls(urls: seq<string>, base: string)
    ensures forall u | u in urls :: u in UrlsOf(Pairs(urls, base))
  {
    forall u | u in urls ensures u in UrlsOf(Pairs(urls, base)) {
      var k :| 0 <= k < |urls| && urls[k] == u;
      assert Pairs(urls, base)[k].0 == u;
    }
  }

  /** Every URL of a crawl result, of one of the first n types of TypeOrder, is the URL of a job. */
  lemma {:induction false} TypesPrefixCover(crawled: map<ContentType, set<string>>, n: nat, base: string, listing: set<string> -> seq<string>)
    requires n <= |TypeOrder| && ListsEvery(listing)
    ensures forall k, u | 0 <= k < n && TypeOrder[k] in crawled && u in crawled[TypeOrder[k]] ::
      u in UrlsOf(TypesPrefix(crawled, n, base, listing))
  {
    if n > 0 {
      var t := TypeOrder[n - 1];
      var these := TypeJobs(crawled, t, base, listing);
      var front := TypesPrefix(crawled, n - 1, base, listing);
      TypesPrefixCover(crawled, n - 1, base, listing);
      UrlsAppend(front, these);
      if t in crawled {
        PairsUrls(listing(crawled[t]), base);
      }
    }
  }

  /** A seed that is crawled is followed by every URL the crawler then holds. */
  lemma CrawledSeedQueuesBuckets(u: string, st: State, e: Env, crawl: Crawl)
    requires !IsLocalPdf(u, e) && ListsEvery(e.listing)
    ensures var b := AfterSeed(u, st, e, crawl).buckets;
      forall t, x | t in b && x in b[t] :: x in UrlsOf(SeedJobs(u, st, e, crawl))
  {
    var b := AfterSeed(u, st, e, crawl).buckets;
    var crawled := NonEmptyBuckets(b);
    var cj := CrawledJobs(crawled, u, e.listing);
    TypesPrefixCover(crawled, |TypeOrder|, u, e.listing);
    UrlsAppend([(u, u)], cj);
    forall t, x | t in b && x in b[t] ensures x in UrlsOf(SeedJobs(u, st, e, crawl)) {
      TypeOrderComplete(t);
      var k :| 0 <= k < |TypeOrder| && TypeOrder[k] == t;
      assert t in crawled && crawled[t] == b[t];
    }
  }

  /** Every URL in the final buckets is the URL of one of the jobs. */
  predicate HoldsAllFiled(q: (seq<Job>, State)) {
    forall t, x | t in q.1.buckets && x in q.1.buckets[t] :: x in UrlsOf(q.0)
  }

  /**
   * When some seed from seed i on is crawled, every URL the crawler
   * holds at the end is the URL of a job: the last crawl lists all the
   * buckets, and local PDFs after it leave them alone.
   */
  lemma {:induction false} FiledUrlsQueued(seeds: seq<string>, i: nat, st: State, e: Env, crawl: Crawl)
    requires i <= |seeds| && ListsEvery(e.listing)
    requires exists k | i <= k < |seeds| :: !IsLocalPdf(seeds[k], e)
    ensures HoldsAllFiled(QueueFrom(seeds, i, st, e, crawl))
    decreases |seeds| - i
  {
    if exists k | i + 1 <= k < |seeds| :: !IsLocalPdf(seeds[k], e) {
      var st1 := AfterSeed(seeds[i], st, e, crawl);
      var added := SeedJobs(seeds[i], st, e, crawl);
      var rest := QueueFrom(seeds, i + 1, st1, e, crawl);
      assert QueueFrom(seeds, i, st, e, crawl) == (added + rest.0, rest.1);
      UrlsAppend(added, rest.0);
      FiledUrlsQueued(seeds, i + 1, st1, e, crawl);
      assert HoldsAllFiled(rest);
    } else {
      var k :| i <= k < |seeds| && !IsLocalPdf(seeds[k], e);
      assert k == i;
      LastCrawlQueuesBuckets(seeds, i, st, e, crawl);
    }
  }

  /** The last crawled seed is followed by every URL the crawler holds at the end. */
  lemma LastCrawlQueuesBuckets(seeds: seq<string>, i: nat, st: State, e: Env, crawl: Crawl)
    requires i < |seeds| && ListsEvery(e.listing) && !IsLocalPdf(seeds[i], e)
    requires forall k | i + 1 <= k < |seeds| :: IsLocalPdf(seeds[k], e)
    ensures HoldsAllFiled(QueueFrom(seeds, i, st, e, crawl))
  {
    var st1 := AfterSeed(seeds[i], st, e, crawl);
    var added := SeedJobs(seeds[i], st, e, crawl);
    var rest := QueueFrom(seeds, i + 1, st1, e, crawl);
    assert QueueFrom(seeds, i, st, e, crawl) == (added + rest.0, rest.1);
    UrlsAppend(added, rest.0);
    LocalPdfsNotCrawled(seeds, i + 1, st1, e, crawl);
    CrawledSeedQueuesBuckets(seeds[i], st, e, crawl);
  }

  // ---------------------------------------------------------------------
  // scrape_urls as a whole
  // ---------------------------------------------------------------------

  /**
   * The jobs scrape_urls runs: every seed's URL and, when a seed was
   * crawled, every URL the crawler holds at the end, each exactly once,
   * and each with the base URL of its first job.
   */
  lemma ScrapedOnce(seeds: seq<string>, st: State, e: Env, crawl: Crawl)
    requires ListsEvery(e.listing)
    ensures var q := QueueFrom(seeds, 0, st, e, crawl);
      var jobs := Unique(q.0);
      && (forall k | 0 <= k < |seeds| :: seeds[k] in UrlsOf(jobs))
      && ((exists k | 0 <= k < |seeds| :: !IsLocalPdf(seeds[k], e)) ==>
            forall t, x | t in q.1.buckets && x in q.1.buckets[t] :: x in UrlsOf(jobs))
      && (forall a, b | 0 <= a < b < |jobs| :: jobs[a].0 != jobs[b].0)
      && (forall k | 0 <= k < |jobs| :: exists i | FirstOccurrence(q.0, i) :: q.0[i] == jobs[k])
  {
    var q := QueueFrom(seeds, 0, st, e, crawl);
    SeedsQueued(seeds, 0, st, e, crawl);
    if exists k | 0 <= k < |seeds| :: !IsLocalPdf(seeds[k], e) {
      FiledUrlsQueued(seeds, 0, st, e, crawl);
    }
    UniqueUrls(q.0);
    UniqueDistinct(q.0);
    UniqueKeepsFirsts(q.0);
    forall k | 0 <= k < |Unique(q.0)| ensures exists i | FirstOccurrence(q.0, i) :: q.0[i] == Unique(q.0)[k] {
      assert Unique(q.0)[k] in Unique(q.0);
    }
  }
}
