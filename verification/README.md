# ogscaper content scraper — a Dafny model

ogscaper collects written content (blog posts, articles, guides, book
chapters) for a team's knowledge base. Its scraping engine has these parts:

- **The orchestrator** (`ScraperOrchestrator`) takes a list of seed URLs.
- **The content crawler** (`ContentCrawler`) crawls each seed for content
  links. It tries an ordered chain of strategies: RSS and XML feeds,
  Playwright, undetected Chrome, Selenium, cloudscraper, JSON APIs, plain
  requests and an aggressive Selenium pass, plus three Quill-specific ones.
  The first strategy that finds anything wins. If none does, a fallback
  takes every same-domain link of the page.
- **The blog crawler** (`BlogCrawler`) follows WordPress-style pagination.
- **The scrapers.** The orchestrator removes duplicate URLs and hands each
  remaining one to the first scraper that claims it:
  - the blog scraper (`BlogScraper`) tries newspaper3k, then manual
    extraction, then all `<p>` tags;
  - the PDF scraper (`PDFScraper`) extracts the text with pdfplumber, drops
    filler lines, splits it into sentences and packs them into chunks of at
    most 6000 characters.
- **`_process_pdf`**, the paragraph/chapter chunker of the PDF scraper, is
  modelled as well.
- **The base records** `ContentItem` and `ScraperResult`.

The model is organised as follows:

- `wrappers`, `text`, `url` and `patterns` give the Python library
  behaviour the scrapers rely on:
  - `str.strip`, `lower`, `split` and `splitlines`;
  - the regular-expression run collapses;
  - `urlparse` and `urljoin`;
  - the fixed-shape URL patterns.
- `base` gives `ContentItem`, `ScraperResult` and the base normaliser.
- `site_registry` gives the three site configurations, their lookup, the
  content-type classifier, pagination templates and the order of the
  strategies.
- `crawl_world` describes what the network, browsers and parsers answer (the
  `World`).
- `crawl_spec` specifies each strategy, the strategy chain and the fallback
  as functions of the crawler's state.
- `content_crawler` is the `ContentCrawler` class. Its methods update
  `visited` and `buckets` (the source's `visited_urls` and `content_urls`)
  and are proved against `crawl_spec`. `crawl_props` proves what a crawl
  does to those sets.
- `blog_crawler` is the `BlogCrawler` class with its specification.
- `blog_scraper` gives the URL normalisation, the content cleaning and the
  three-rung fallback ladder.
- `pdf_text`, `pdf_scraper`, `pdf_book` and `pdf_book_props` cover the PDF
  scraper:
  - the filler filter, the sentence split and the normaliser;
  - the sentence packing with its bound and its text preservation;
  - `_process_pdf` as a page loop proved against a paragraph-chunking
    specification.
- `orchestrator` and `orchestrator_props` cover the orchestrator:
  - how the job queue is built;
  - the duplicate removal, which keeps the first occurrence;
  - the dispatch to the scrapers;
  - the result.

Several behaviours of the code as written are stated as lemmas:

- A seed URL of the shape `…/blog/<slug>` is classified by
  `_determine_content_type` as the registry key `"quill.co"`, not as a
  `ContentType`. Filing the found URLs then raises `KeyError`. The chain
  goes on, and the seed files nothing (`CrawlProps.BlogPostSeedFilesNothing`).
- `_crawl_with_selenium` calls `_handle_infinite_scroll()` without its
  arguments, so a site with infinite scroll yields nothing from Selenium
  (`CrawlProps.SeleniumInfiniteScrollEmpty`).
- The blog scraper claims every URL the blog crawler reports. The converse
  fails, because only the scraper lower-cases the URL
  (`BlogScraping.CrawledPostsAreClaimed`, `BlogScraping.ClaimedNotCrawled`).
- When the first non-blank sentence is longer than the chunk limit, the PDF
  scraper's first chunk is the empty string
  (`PdfScraping.PackOversizedFirst`, `PdfScraping.PackEmptyChunks`).
- Feed URLs are added without the content-pattern check, and so are the
  fallback links (`CrawlProps.FeedBypassesCheck`,
  `CrawlProps.FallbackBypassesCheck`).

## Model

| member | source | states |
|---|---|---|
| Base.NewItem | scraper/base.py:6-14 | a new item carries the given title, content and type; source URL, author and date are absent, metadata is empty and the user id is "" |
| Base.NormalizeContent | scraper/base.py:29-33 | the result has no leading or trailing whitespace, and is the input with only whitespace cut from both ends |
| Base.NormalizeIdempotent | scraper/base.py:29-33 | normalising twice gives the same text as normalising once |
| Base.NormalizeFixesTrimmed | scraper/base.py:29-33 | text without edge whitespace is left unchanged |
| Base.CreateResult | scraper/base.py:35-40 | the result carries the scraper's team id and exactly the given items |
| Text.Strip | scraper/base.py:32 | str.strip: no edge whitespace remains, the result is a contiguous slice of the input, and everything cut off is whitespace |
| Text.StripNoEdge | scraper/base.py:32 | stripping text that has no edge whitespace changes nothing |
| Text.StripIdempotent | scraper/base.py:32 | stripping is idempotent |
| Text.BlankIffStripEmpty | scraper/pdf_scraper.py:64 | a string is all whitespace exactly when stripping it leaves "" |
| Text.Lower | scraper/blog_scraper.py:36 | lower-casing keeps the length and maps every character by the ASCII lower-case map |
| Text.LowerIdempotent | scraper/content_crawler.py:733 | lower-casing twice equals lower-casing once |
| Text.Split | scraper/pdf_scraper.py:131 | str.split by a non-empty separator always gives at least one part |
| Text.SplitLacksSep | scraper/pdf_scraper.py:131 | no part of the split contains the separator |
| Text.JoinSplit | scraper/pdf_scraper.py:131 | joining the parts of a split with the separator gives back the original string |
| Text.SplitWithoutSep | scraper/pdf_scraper.py:172 | splitting a string that lacks the separator gives the string alone |
| Text.SplitLines | scraper/pdf_scraper.py:47 | no line produced by splitlines contains a line break; the lines together hold exactly the characters of the text that are not line breaks, in order; there are no lines only for the empty text |
| Text.CollapseBoundsRuns | scraper/blog_scraper.py:224-226 | after a run collapse no run of the collapsed characters is longer than the bound |
| Text.CollapseKeepsOthers | scraper/blog_scraper.py:224-226 | a run collapse keeps every other character, in order |
| Text.CollapseIdle | scraper/blog_scraper.py:224 | text with no run reaching the minimum is left unchanged by the collapse |
| Text.CollapseSingleSpacesIdle | scraper/blog_scraper.py:226 | text without two spaces in a row is unchanged by the space collapse |
| Text.CollapseNewlinesIdempotent | scraper/blog_scraper.py:224 | the newline-run collapse is idempotent |
| Text.CollapseSpacesIdempotent | scraper/blog_scraper.py:226 | the space-run collapse is idempotent |
| Text.ReplaceAbsent | scraper/content_crawler.py:799 | replacing a pattern that does not occur changes nothing |
| Text.ReplaceCharRemoves | scraper/content_crawler.py:799 | after replacing a character by text without it, the character no longer occurs |
| Text.NatToString | scraper/pdf_scraper.py:190 | the decimal rendering of a number is a non-empty string of digits |
| Text.NatToStringRoundTrip | scraper/pdf_scraper.py:78 | reading back the decimal rendering of n gives n |
| Url.SplitUrl | scraper/blog_crawler.py:110-111 | urlparse: the scheme is the lower-cased scheme prefix when there is one, else the default; the netloc is the authority and contains no delimiter |
| Url.JoinKeepsAuthority | scraper/blog_crawler.py:62 | urljoin of a base with netloc and a relative reference keeps the base's netloc |
| Url.JoinAbsolute | scraper/blog_crawler.py:62 | urljoin with an absolute reference takes the reference's netloc |
| Url.AppendKeepsAuthority | scraper/blog_crawler.py:96-98 | appending to a base that has scheme and netloc and ends with '/' keeps both |
| Url.JoinHostOnly | scraper/blog_scraper.py:45 | urljoin('https://', host) puts the host in the path, not the netloc |
| Url.TripleSlashNoNetloc | scraper/blog_scraper.py:45 | a URL beginning "https:///" has an empty netloc |
| Url.PrefixHttps | scraper/blog_scraper.py:45 | prefixing "https://" to a host makes it the netloc, with scheme https |
| Patterns.SearchPrefix | scraper/blog_crawler.py:81-83 | a match of a fixed pattern is also a match of each of its prefixes, so the day and month patterns imply the year pattern |
| Patterns.LowerKeepsMatch | scraper/blog_scraper.py:36 | a pattern without upper-case letters still matches after the URL is lower-cased |
| Patterns.LowerKeepsTail | scraper/blog_scraper.py:36 | a `lead[^stop]+$` match with lower-case lead and non-letter stop survives lower-casing |
| SiteRegistry.FirstConfig | scraper/content_crawler.py:686-688 | the index found is the first registry entry whose domain occurs in the host; None means no entry matches |
| SiteRegistry.GetSiteConfig | scraper/content_crawler.py:684-694 | the configuration is the first registry entry whose domain occurs in the host, or the default for that host when none does |
| SiteRegistry.DefaultForUnknown | scraper/content_crawler.py:689-694 | an unknown host gets a default with its own domain, no JavaScript and the /blog/ and /post/ patterns |
| SiteRegistry.RegistryOrderWins | scraper/content_crawler.py:686-688 | for any netloc containing the domains of registry entries i < j, the configuration is an entry at or before i, and never entry j's |
| SiteRegistry.GetSiteConfigKnown | scraper/content_crawler.py:684-694 | the lookup returns a registry configuration or a default one |
| SiteRegistry.FirstPatternHit | scraper/content_crawler.py:735-737 | the index found is the first registry entry with a matching content pattern; None means no entry matches |
| SiteRegistry.DetermineContentTypeMeaning | scraper/content_crawler.py:731-743 | the result is a registry key exactly when a registry pattern matches the lower-cased URL; it is BLOG exactly when none matches and "blog" or "posts" occurs; otherwise UNKNOWN |
| SiteRegistry.FirstTemplate | scraper/content_crawler.py:712-714 | the index found is the first template containing "{page}"; None means none does |
| SiteRegistry.NextPageUrl | scraper/content_crawler.py:710-715 | there is no next page exactly when no template contains "{page}"; otherwise the URL is the base joined with such a template formatted with the page number |
| SiteRegistry.NoPageTemplates | scraper/content_crawler.py:69-179 | no pagination selector of a registry or default configuration contains "{page}" |
| SiteRegistry.NextPageNeverExists | scraper/content_crawler.py:710-715 | for every configuration the crawler uses there is never a next page |
| SiteRegistry.KeepMembers | scraper/content_crawler.py:208 | a strategy survives the None filter exactly when it was listed and its flag enables it |
| SiteRegistry.KeepOrdered | scraper/content_crawler.py:208 | the filter keeps the listed order |
| SiteRegistry.KeepLast | scraper/content_crawler.py:206-208 | an enabled last strategy stays last |
| SiteRegistry.StrategyOrder | scraper/content_crawler.py:194-208 | Quill hosts get quill-api, Playwright, quill-bs. Other hosts start with the feed and end with aggressive Selenium; Playwright, undetected and cloudscraper appear exactly when their flags are set; Selenium, API and requests always appear; the order is kept |
| SiteRegistry.NoCloudscraper | scraper/content_crawler.py:203 | no configuration the crawler uses enables cloudscraper |
| CrawlWorld.ListStringsSkipped | scraper/content_crawler.py:717-729 | the API walk skips a string inside a list but collects it as a dictionary value; the Quill walk collects both |
| CrawlWorld.DictStringsAreStrings | scraper/content_crawler.py:717-729 | the strings the API walk can reach are among all the strings of the JSON |
| CrawlSpec.CheckTwiceFails | scraper/content_crawler.py:696-708 | a URL checked once is marked visited, so a second check of it fails |
| CrawlSpec.HarvestSound | scraper/content_crawler.py:655-660 | every harvested URL is a non-empty, previously unvisited href that matches a content pattern |
| CrawlSpec.VisitedNeverHarvested | scraper/content_crawler.py:698-699 | a URL already visited is never harvested |
| CrawlSpec.PaginateStopsWithoutTemplate | scraper/content_crawler.py:663-677 | with any configuration the crawler uses, the pagination loop adds nothing |
| CrawlSpec.SelectorReadsSeedOnly | scraper/content_crawler.py:646-682 | a selector strategy under such a configuration reads only the seed page's hrefs |
| CrawlSpec.PaginateGrows | scraper/content_crawler.py:663-677 | pagination only adds URLs and visited marks |
| CrawlSpec.ConfiguredFeedUrls | scraper/content_crawler.py:252-254 | one feed URL per configured feed path |
| CrawlSpec.FeedStep | scraper/content_crawler.py:262-287 | one feed keeps what was found, adds every entry link of a parsed feed, and stops only once something has been found |
| CrawlProps.PaginateAvoidsVisited | scraper/content_crawler.py:663-677 | URLs visited before pagination stay visited and are never returned |
| CrawlProps.SelectorAvoidsVisited | scraper/content_crawler.py:646-682 | a selector strategy returns no URL visited before it and forgets no visit |
| CrawlProps.RegistryKeyChainFilesNothing | scraper/content_crawler.py:209-220 | when the seed classifies as a registry key the chain files nothing (the KeyError is caught) and keeps what it found |
| CrawlProps.RegistryKeyCrawlFilesNothing | scraper/content_crawler.py:209-235 | such a seed leaves the buckets as they were, fallback included |
| CrawlProps.KnownChainFilesFirst | scraper/content_crawler.py:209-220 | with a known type the chain returns the first non-empty strategy result and files exactly that under the type |
| CrawlProps.FileGrows | scraper/content_crawler.py:216 | filing URLs under a type keeps every bucket's contents and adds them to the type's |
| CrawlProps.CrawlBucketsGrow | scraper/content_crawler.py:187-238 | a crawl never removes a URL from a bucket |
| CrawlProps.FallbackSameDomain | scraper/content_crawler.py:222-232 | each URL the fallback files is an http URL on the seed's host, joined from a link of a 200 response |
| CrawlProps.FallbackBypassesCheck | scraper/content_crawler.py:222-232 | a same-host link of the fallback page is filed without the content-pattern check |
| CrawlProps.FeedLoopGrows | scraper/content_crawler.py:257-291 | the feed loop only adds URLs |
| CrawlProps.FeedBypassesCheck | scraper/content_crawler.py:262-268 | every link of the first feed's entries is returned, whatever the content patterns say |
| CrawlProps.SeleniumInfiniteScrollEmpty | scraper/content_crawler.py:578-624 | with infinite scroll set, Selenium raises or finds nothing, and marks nothing visited |
| CrawlProps.BlogPostSeedClassifiesAsKey | scraper/content_crawler.py:731-737 | a seed ending in /blog/&lt;slug&gt; classifies as the registry key "quill.co" |
| CrawlProps.BlogPostSeedFilesNothing | scraper/content_crawler.py:209-238 | crawling such a seed files nothing |
| CrawlProps.SlugShape | scraper/content_crawler.py:799 | a slug has no space, '?', '.', ',' or quote, and does not depend on the title's case |
| Crawler.EmptyBuckets | scraper/content_crawler.py:66 | one empty bucket per content type |
| Crawler.ContentCrawler.constructor | scraper/content_crawler.py:62-66 | the page limit is set, nothing is visited and every bucket is empty |
| Crawler.ContentCrawler.IsValidContentUrl | scraper/content_crawler.py:696-708 | the verdict and the new visited set are those of the URL check; the buckets are unchanged |
| Crawler.ContentCrawler.Harvest | scraper/content_crawler.py:655-660 | returns the harvested hrefs and marks every non-empty href visited |
| Crawler.ContentCrawler.FollowPages | scraper/content_crawler.py:663-677 | the URLs and visited set after the pagination loop are those of its specification |
| Crawler.ContentCrawler.CrawlWithSelectors | scraper/content_crawler.py:646-682 | a selector strategy's result and visits are those of its specification |
| Crawler.ContentCrawler.HandleInfiniteScroll | scraper/content_crawler.py:533-547 | at most max_scroll_attempts scrolls. Each counted scroll changed the height; the loop stops early exactly when the height stays the same |
| Crawler.ContentCrawler.CrawlWithFeed | scraper/content_crawler.py:242-296 | the feed strategy returns the feed specification's URLs |
| Crawler.ContentCrawler.ReadFeed | scraper/content_crawler.py:258-291 | one feed's URLs and stop flag are those of the feed step |
| Crawler.ContentCrawler.EntryLinksOf | scraper/content_crawler.py:263-268 | collects the link, or else the id, of every feed entry |
| Crawler.ContentCrawler.XmlLinksOf | scraper/content_crawler.py:276-281 | collects the text, or else the href, of every XML item link |
| Crawler.ContentCrawler.ExtractBlogUrls | scraper/content_crawler.py:764-774 | collects every string of the JSON containing "/blog/" |
| Crawler.ContentCrawler.CrawlWithQuillApi | scraper/content_crawler.py:745-777 | the Quill API strategy's result is that of its specification over the five endpoints |
| Crawler.ContentCrawler.SlugUrlsOf | scraper/content_crawler.py:798-809 | one /blog/&lt;slug&gt; URL per non-empty heading title |
| Crawler.ContentCrawler.CrawlWithQuillBs | scraper/content_crawler.py:779-824 | the Quill static strategy returns the slug URLs and the sitemap's blog locations |
| Crawler.ContentCrawler.BlogLocsOf | scraper/content_crawler.py:818-821 | keeps the sitemap locations containing "/blog/" |
| Crawler.ContentCrawler.CrawlQuillPages | scraper/content_crawler.py:343-372 | the Quill Playwright branch returns the captured /blog/ URLs other than the seed |
| Crawler.ContentCrawler.ExtractUrlsFromApiResponse | scraper/content_crawler.py:717-729 | the URLs found and the visits made by the recursive API walk are those of its specification |
| Crawler.ContentCrawler.ExtractFromItems | scraper/content_crawler.py:726-728 | the list case of the walk agrees with its specification |
| Crawler.ContentCrawler.ExtractFromEntries | scraper/content_crawler.py:720-725 | the dictionary case of the walk agrees with its specification |
| Crawler.ContentCrawler.CrawlWithApi | scraper/content_crawler.py:626-644 | the API strategy's result and visits are those of the endpoint loop's specification |
| Crawler.ContentCrawler.CrawlWithSelenium | scraper/content_crawler.py:578-624 | Selenium's outcome, including the raise of browser start-up, is that of its specification |
| Crawler.ContentCrawler.CrawlAggressively | scraper/content_crawler.py:826-843 | the aggressive pass returns the checked anchors as specified |
| Crawler.ContentCrawler.Run | scraper/content_crawler.py:210-212 | running one strategy gives its specified outcome and visits and leaves the buckets alone |
| Crawler.ContentCrawler.RunChain | scraper/content_crawler.py:209-220 | the chain's found URLs, visits and buckets are those of the chain specification |
| Crawler.ContentCrawler.RunOne | scraper/content_crawler.py:211-220 | one turn of the chain: it stops with the chain's final state, or leaves the rest of the chain to do |
| Crawler.ContentCrawler.RunFallback | scraper/content_crawler.py:222-234 | the fallback changes only the buckets, as specified |
| Crawler.ContentCrawler.Crawl | scraper/content_crawler.py:187-240 | the crawler's new state is the crawl specification's; the result lists exactly the non-empty buckets |
| BlogCrawling.BlogPostUrlShapes | scraper/blog_crawler.py:77-90 | a URL is a blog post exactly when it has /blog/ followed by four digits and '/', or ends in /blog/, /posts/ or /article/ followed by a slash-free name |
| BlogCrawling.BlogPostUrlCaseSensitive | scraper/blog_crawler.py:90 | the crawler's check is case-sensitive: /BLOG/Entry is not a post, /blog/entry is |
| BlogCrawling.FirstValidIsFirst | scraper/blog_crawler.py:101-105 | the first candidate with scheme and netloc is returned |
| BlogCrawling.FirstValidNone | scraper/blog_crawler.py:105 | with no valid candidate the result is "" |
| BlogCrawling.NextPageIsWordPressStyle | scraper/blog_crawler.py:92-105 | for a valid base ending in '/' the next page is base + "page/n/" |
| BlogCrawling.SchemelessSeedHasNoNextPage | scraper/blog_crawler.py:92-113 | a base without ':' has no next page |
| BlogCrawling.PagePosts | scraper/blog_crawler.py:60-70 | the posts of a page are exactly its joined links that are unvisited blog-post URLs |
| BlogCrawling.NormalizeSeed | scraper/blog_crawler.py:20-21 | the seed ends with '/' and gained at most that slash |
| BlogCrawling.VisitExtends | scraper/blog_crawler.py:43-75 | processing a page marks it visited and keeps earlier state; it succeeds only for a new URL; a failure adds no post; new posts are blog-post URLs |
| BlogCrawling.FollowPagesShape | scraper/blog_crawler.py:27-36 | the pages followed are consecutive non-empty next-page URLs, at most one per remaining page number |
| BlogCrawling.FollowPagesExtends | scraper/blog_crawler.py:27-36 | following pages only adds visits and blog-post URLs |
| BlogCrawling.CrawlBlogShape | scraper/blog_crawler.py:16-38 | the first page processed is the normalised seed, then pages 2, 3, … up to max_pages |
| BlogCrawling.CrawlBlogExtends | scraper/blog_crawler.py:16-41 | a crawl only adds visits and blog-post URLs |
| BlogCrawling.BlogCrawler.constructor | scraper/blog_crawler.py:10-14 | the page limit is set and both sets are empty |
| BlogCrawling.BlogCrawler.ProcessPage | scraper/blog_crawler.py:43-75 | the verdict and new state are those of the page-visit specification |
| BlogCrawling.BlogCrawler.NewPosts | scraper/blog_crawler.py:60-70 | the link loop collects the page's posts |
| BlogCrawling.BlogCrawler.Crawl | scraper/blog_crawler.py:16-41 | the crawler's state is the crawl specification's and the result is all posts found |
| BlogScraping.CrawledPostsAreClaimed | scraper/blog_scraper.py:23-36 | every URL the blog crawler reports as a post is claimed by the blog scraper |
| BlogScraping.ClaimedNotCrawled | scraper/blog_scraper.py:36 | the converse fails: an upper-case /BLOG/ URL is claimed but not crawled |
| BlogScraping.BareHostLosesNetloc | scraper/blog_scraper.py:44-45 | as written, a bare host becomes "https:///host", with an empty netloc |
| BlogScraping.BareHostBecomesNetloc | scraper/blog_scraper.py:44-45 | the corrected normalisation makes a bare host the https netloc |
| BlogScraping.NormalizeUrlAgainstBase | scraper/blog_scraper.py:42-43 | against a base, a relative URL takes the base's host and an absolute one keeps its own |
| BlogScraping.DropPublished | scraper/blog_scraper.py:234 | the result is a suffix of the input; text not starting with "published:" (in any case) is unchanged; otherwise those ten characters go, and one space after them if there is one |
| BlogScraping.CleanContent | scraper/blog_scraper.py:221-235 | the cleaned content has no edge whitespace |
| BlogScraping.CollapseSteps | scraper/blog_scraper.py:224-226 | after the two collapses no newline run exceeds two and no space run exceeds one; all other characters survive in order; both steps are idempotent |
| BlogScraping.NormalizeBlog | scraper/blog_scraper.py:237-250 | the normalised content has no edge whitespace |
| BlogScraping.NormalizeBlogCollapse | scraper/blog_scraper.py:239-242 | what the rewrites receive is the stripped text with newline runs capped at two and nothing else lost |
| BlogScraping.RemoveTags | scraper/blog_scraper.py:67 | removing tags never lengthens the text |
| BlogScraping.RemoveTagsIdle | scraper/blog_scraper.py:67 | text without '<' is unchanged |
| BlogScraping.FirstItemIsFirstSuccess | scraper/blog_scraper.py:54-131 | the scrape returns nothing exactly when every rung fails; otherwise it returns the item of the first rung that succeeds |
| BlogScraping.FirstItemOfRungs | scraper/blog_scraper.py:54-131 | at most one item, and it comes from some rung |
| BlogScraping.RungItemShape | scraper/blog_scraper.py:70-77 | any rung's item is a "blog" item with the URL, an author, no date, no metadata, an empty user id, and title and content without edge whitespace |
| BlogScraping.MakeItemShape | scraper/blog_scraper.py:63-77 | a built item has type blog, the URL, the given author, no date or metadata, and stripped title and content |
| BlogScraping.ScrapeBlogShape | scraper/blog_scraper.py:38-134 | at most one item, of type blog with the corrected normalised URL; a failed or non-200 response yields nothing |
| BlogScraping.ScrapeBlogAsWrittenAgrees | scraper/blog_scraper.py:42-45 | with a non-empty base, or a URL that starts with http:// or https://, the normalisation as written and the corrected one give the same URL, so the scrape as written and the corrected one give the same items |
| BlogScraping.NewspaperWins | scraper/blog_scraper.py:54-77 | when newspaper3k yields an item, that item is the whole result |
| PdfText.KeepContentLines | scraper/pdf_scraper.py:46-49 | the kept lines are exactly the input's non-filler lines |
| PdfText.KeepContentLinesAppend | scraper/pdf_scraper.py:46-49 | the filter works line by line: filtering a concatenation is concatenating the filtered parts |
| PdfText.FillerExamples | scraper/pdf_scraper.py:48 | five dots are filler; four dots, or dots after a letter, are not |
| PdfText.FirstBreakFrom | scraper/pdf_scraper.py:60 | the position found is the first sentence break from k, or the end |
| PdfText.SplitSentences | scraper/pdf_scraper.py:60 | the sentence split gives at least one part |
| PdfText.SplitSentencesNoBreak | scraper/pdf_scraper.py:60 | no part contains a sentence break |
| PdfText.SplitSentencesKeepsText | scraper/pdf_scraper.py:60 | the parts together hold every non-whitespace character of the text, in order |
| PdfText.SplitSentencesRoundTrip | scraper/pdf_scraper.py:60 | the parts with the dropped runs put back between them give the text again; every dropped run is non-empty whitespace, every part but the last ends in '.', '!' or '?', and no later part starts with whitespace, so each run is dropped whole |
| PdfText.BreaksKeepsText | scraper/pdf_scraper.py:208-209 | inserting paragraph breaks keeps every non-whitespace character, in order |
| PdfText.StripKeepsText | scraper/pdf_scraper.py:204 | stripping keeps every non-whitespace character |
| PdfText.NormalizePdf | scraper/pdf_scraper.py:202-211 | the normalised PDF text has no edge whitespace |
| PdfText.NormalizePdfKeepsText | scraper/pdf_scraper.py:202-211 | normalising keeps every non-whitespace character, in order |
| PdfText.Basename | scraper/pdf_scraper.py:78 | the basename is the slash-free tail after the last '/' |
| PdfText.NumberedTitle | scraper/pdf_scraper.py:168-169 | a numbered title, when found, is non-empty and stripped |
| PdfText.ChapterTitleOf | scraper/pdf_scraper.py:166-176 | a detected title, from a stripped line, is non-empty and stripped |
| PdfText.DetectChapterTitle | scraper/pdf_scraper.py:163-177 | a detected chapter title is non-empty and stripped |
| PdfText.FirstLineOnly | scraper/pdf_scraper.py:172 | only the first line decides the title |
| PdfText.NumberedTitleOf | scraper/pdf_scraper.py:168-169 | "12. Title" and "IV: Title" give Title |
| PdfText.ChapterPrefix | scraper/pdf_scraper.py:167 | "Chapter" (any case), whitespace and a numbered title give that title |
| PdfText.ChapterLineTitle | scraper/pdf_scraper.py:167 | "Chapter 3: Title" gives Title |
| PdfScraping.PdfPath | scraper/pdf_scraper.py:31-37 | a URL starting with "http" (any case) reads the temporary download; anything else is read as a local path |
| PdfScraping.JoinPages | scraper/pdf_scraper.py:38-42 | the page loop yields each page's text (or "") followed by a newline |
| PdfScraping.PackSentences | scraper/pdf_scraper.py:61-75 | the packing loop yields the chunks of its specification |
| PdfScraping.PackKeepsClosed | scraper/pdf_scraper.py:61-75 | chunks already closed are never changed |
| PdfScraping.StepKeepsText | scraper/pdf_scraper.py:63-73 | one packing step loses no non-whitespace character |
| PdfScraping.PackFromKeepsText | scraper/pdf_scraper.py:61-75 | packing from any point loses no non-whitespace character |
| PdfScraping.PackKeepsText | scraper/pdf_scraper.py:61-75 | the chunks hold all non-whitespace characters of the sentences, in order |
| PdfScraping.PackGroups | scraper/pdf_scraper.py:61-75 | the non-blank sentences fall, in order, into consecutive groups, one per chunk; each chunk is its group joined by single spaces and stripped; only the first group may be empty |
| PdfScraping.CloseFits | scraper/pdf_scraper.py:72 | closing a chunk that fits keeps every chunk within bounds |
| PdfScraping.PackFromBounded | scraper/pdf_scraper.py:61-75 | the bound is kept from any point of the loop |
| PdfScraping.PackBounded | scraper/pdf_scraper.py:58-75 | every chunk is at most 6000 characters or a single stripped sentence |
| PdfScraping.StepEmptyChunk | scraper/pdf_scraper.py:63-73 | a step closes an empty chunk only at the very start, before an oversized sentence |
| PdfScraping.PackFromEmptyChunks | scraper/pdf_scraper.py:61-75 | an empty chunk can only be the first, caused by an oversized sentence |
| PdfScraping.PackEmptyChunks | scraper/pdf_scraper.py:61-75 | the only possible empty chunk is the first, and only when some sentence exceeds the limit |
| PdfScraping.PackSkipsBlanks | scraper/pdf_scraper.py:63-65 | blank sentences at the start are skipped |
| PdfScraping.PackOversizedFirst | scraper/pdf_scraper.py:71-73 | an oversized first non-blank sentence makes the first chunk "" |
| PdfScraping.ChunkItem | scraper/pdf_scraper.py:77-84 | a chunk's item has the chunk as content, type "blog", the URL as source, author "" and user id "" |
| PdfScraping.ChunkItems | scraper/pdf_scraper.py:76-84 | one item per chunk |
| PdfScraping.MakeItems | scraper/pdf_scraper.py:76-84 | the item loop yields the chunk items |
| PdfScraping.PartTitleNumber | scraper/pdf_scraper.py:78 | with several chunks, chunk k's title ends "(part k+1)" |
| PdfScraping.PartTitlesDistinct | scraper/pdf_scraper.py:78 | with several chunks, no two titles are equal |
| PdfScraping.UnreadableDocumentRaises | scraper/pdf_scraper.py:89-90 | as written, an unreadable document makes the handler raise; the corrected scraper returns [] |
| PdfScraping.ScrapePdfAgrees | scraper/pdf_scraper.py:89-91 | the corrected scraper returns what the code returns, and [] where the code raises |
| PdfScraping.ChunkItemsShape | scraper/pdf_scraper.py:76-84 | item k has chunk k's content, the part title, type blog and the URL |
| PdfScraping.ScrapePdfShape | scraper/pdf_scraper.py:22-91 | every item has type blog, the URL, author "" and the part title of the path's basename; an unreadable document yields [] |
| PdfScraping.Scrape | scraper/pdf_scraper.py:22-91 | the scrape method returns the scrape specification's items |
| PdfBook.ChunkItem | scraper/pdf_scraper.py:179-200 | the item is a "book" item with the document's URL, author and date text, and metadata holding exactly chunk_size and the paragraph count |
| PdfBook.JoinLength | scraper/pdf_scraper.py:188 | joining with "\n\n" adds two characters per gap |
| PdfBook.ChunkItemMeaning | scraper/pdf_scraper.py:179-200 | chunk_size is the joined length; the title is "title - Part n" with n the paragraph count; the content keeps the joined text's characters and is stripped |
| PdfBook.GroupItems | scraper/pdf_scraper.py:137-159 | one item per closed chunk |
| PdfBook.AppendItem | scraper/pdf_scraper.py:138-144 | appending the current chunk's item, under the chapter or document title, closes that chunk |
| PdfBook.AddParagraph | scraper/pdf_scraper.py:132-149 | one paragraph updates the items and current chunk as the paragraph step specifies |
| PdfBook.AddParagraphs | scraper/pdf_scraper.py:131-149 | the paragraph loop agrees with its specification |
| PdfBook.AddPage | scraper/pdf_scraper.py:109-149 | one page (blank skip, chapter switch, paragraphs) agrees with the page step |
| PdfBook.ProcessPdf | scraper/pdf_scraper.py:93-161 | without metadata it raises; with at least one chunk and a date the item model rejects it raises; otherwise the items are those of the chunking specification |
| PdfBookProps.NonEmptyStripped | scraper/pdf_scraper.py:132-135 | every kept paragraph is non-empty and stripped |
| PdfBookProps.CloseKeepsContents | scraper/pdf_scraper.py:137-146 | closing a chunk keeps the paragraph sequence |
| PdfBookProps.ParaStepContents | scraper/pdf_scraper.py:132-149 | one paragraph step appends the stripped non-empty paragraph |
| PdfBookProps.ParasFromContents | scraper/pdf_scraper.py:131-149 | the paragraph loop appends exactly the page's non-empty stripped paragraphs |
| PdfBookProps.PageStepContents | scraper/pdf_scraper.py:110-149 | a page appends its paragraphs, including after a chapter switch |
| PdfBookProps.PagesFromContents | scraper/pdf_scraper.py:109-149 | the page loop appends all pages' paragraphs in order |
| PdfBookProps.FinishKeepsContents | scraper/pdf_scraper.py:151-159 | closing the last chunk leaves every paragraph in some chunk |
| PdfBookProps.ChunksKeepParagraphs | scraper/pdf_scraper.py:93-161 | the chunks, flattened, are exactly the document's paragraphs in order |
| PdfBookProps.CloseSized | scraper/pdf_scraper.py:137-146 | closing a well-sized chunk keeps all chunks well-sized |
| PdfBookProps.ParaStepSized | scraper/pdf_scraper.py:137-149 | a paragraph step keeps chunks within chunk_size unless single |
| PdfBookProps.ParasFromSized | scraper/pdf_scraper.py:131-149 | the paragraph loop keeps the size invariant |
| PdfBookProps.PagesFromSized | scraper/pdf_scraper.py:109-149 | the page loop keeps the size invariant |
| PdfBookProps.ChunksSized | scraper/pdf_scraper.py:93-161 | every chunk is non-empty and within chunk_size, unless it is a single paragraph |
| PdfBookProps.CloseTitled | scraper/pdf_scraper.py:137-146 | closing a chunk titles it with the document title or a detected chapter |
| PdfBookProps.ParasFromTitled | scraper/pdf_scraper.py:131-149 | the paragraph loop keeps titles known |
| PdfBookProps.PagesFromTitled | scraper/pdf_scraper.py:109-149 | the page loop keeps titles known |
| PdfBookProps.ChunksTitled | scraper/pdf_scraper.py:93-161 | every chunk's title is the document title or a chapter title detected on some page |
| PdfBookProps.ChunksFollowSections | scraper/pdf_scraper.py:107-158 | the chunks fall into one run per chapter section, in order; each run holds exactly its section's paragraphs and is titled with the section's heading (the document title before the first heading page), so no chunk spans a page that opens with a heading |
| PdfBookProps.ProcessPdfDateOutcome | scraper/pdf_scraper.py:93-161 | with the metadata read, the document raises exactly when its pages hold a paragraph and its date is rejected; a document without paragraphs never has its date checked |
| Orchestration.TypeOrderComplete | scraper/orchestrator.py:37 | the listing order of crawl results covers every content type |
| Orchestration.FirstHandler | scraper/orchestrator.py:62-67 | the scraper chosen is the first that claims the URL; none before it does |
| Orchestration.ScraperForCases | scraper/orchestrator.py:62-67 | the blog scraper exactly when it claims the URL; the PDF scraper exactly when only it does; none otherwise |
| Orchestration.PdfInBlogFolderGoesToBlogScraper | scraper/orchestrator.py:17-20 | a .pdf under a /blog/ folder goes to the blog scraper, because it is listed first |
| Orchestration.JobRaiseMasked | scraper/orchestrator.py:51-56 | the orchestrator's catch turns the PDF scraper's raise into no items, which is the corrected scraper's result |
| Orchestration.PdfRaiseMasked | scraper/orchestrator.py:48-56 | over all jobs, the PDF scraper as written and the corrected one give the same items |
| Orchestration.BlogJobAsWritten | scraper/orchestrator.py:48-53 | a blog job with a non-empty seed URL as its base gives the items of the blog scraper as written |
| Orchestration.ScraperOrchestrator.constructor | scraper/orchestrator.py:15-22 | the team id is set and a fresh crawler has the default page limit and empty state |
| Orchestration.ScraperOrchestrator.GetScraperFor | scraper/orchestrator.py:62-67 | the scraper returned is the dispatch specification's |
| Orchestration.ScraperOrchestrator.AppendPairs | scraper/orchestrator.py:38-39 | every URL is appended paired with the seed |
| Orchestration.ScraperOrchestrator.AppendCrawled | scraper/orchestrator.py:37-39 | the crawl result's URLs are appended type by type |
| Orchestration.ScraperOrchestrator.QueueSeed | scraper/orchestrator.py:28-39 | one seed appends its jobs and updates the crawler as specified |
| Orchestration.ScraperOrchestrator.QueueSeeds | scraper/orchestrator.py:28-39 | the seed loop builds the specified queue and crawler state |
| Orchestration.ScraperOrchestrator.RemoveDuplicates | scraper/orchestrator.py:41-46 | the loop keeps each URL's first job |
| Orchestration.ScraperOrchestrator.ScrapeJobs | scraper/orchestrator.py:48-56 | the scrape loop collects each job's items in order |
| Orchestration.ScraperOrchestrator.ScrapeUrls | scraper/orchestrator.py:24-60 | the result carries the team id and the items of the de-duplicated queue |
| OrchestrationProps.UniqueUrls | scraper/orchestrator.py:41-46 | de-duplication keeps the set of URLs |
| OrchestrationProps.UniqueDistinct | scraper/orchestrator.py:41-46 | no URL occurs twice after de-duplication |
| OrchestrationProps.UniqueKeepsFirsts | scraper/orchestrator.py:41-46 | exactly the first occurrences survive |
| OrchestrationProps.FirstIndices | scraper/orchestrator.py:41-46 | every listed position holds the first job with its URL, and the positions increase |
| OrchestrationProps.FirstIndicesComplete | scraper/orchestrator.py:41-46 | every first occurrence's position is listed |
| OrchestrationProps.UniqueInOrder | scraper/orchestrator.py:41-46 | the a-th kept job is the job at the a-th first-occurrence position, so the kept jobs keep their original order |
| OrchestrationProps.SeedJobsStart | scraper/orchestrator.py:36 | a seed's jobs start with the seed paired with itself |
| OrchestrationProps.SeedsQueued | scraper/orchestrator.py:28-39 | every seed is queued |
| OrchestrationProps.LocalPdfsNotCrawled | scraper/orchestrator.py:30-32 | local PDF seeds are queued alone and leave the crawler untouched |
| OrchestrationProps.PairsUrls | scraper/orchestrator.py:38-39 | every paired URL is queued |
| OrchestrationProps.TypesPrefixCover | scraper/orchestrator.py:37-39 | every URL of the listed types is queued |
| OrchestrationProps.CrawledSeedQueuesBuckets | scraper/orchestrator.py:34-39 | after crawling a seed, every URL the crawler holds is queued |
| OrchestrationProps.FiledUrlsQueued | scraper/orchestrator.py:28-39 | when some seed is crawled, every URL the crawler ends with is queued |
| OrchestrationProps.LastCrawlQueuesBuckets | scraper/orchestrator.py:28-39 | the last crawled seed queues all buckets, and later local PDFs keep them |
| OrchestrationProps.ScrapedOnce | scraper/orchestrator.py:24-60 | every seed and every filed URL is scraped, each URL once, by its first job |

## Left out

- Network, browsers and parsers are out of scope. Their answers come from a `World` (or `BlogWorld`, `PdfWorld`, `Env`) given as a parameter. This covers aiohttp, requests, cloudscraper, Playwright, Selenium, undetected Chrome, feedparser, ElementTree, BeautifulSoup queries, newspaper3k, html2text, pdfplumber and PyPDF2. Each seed is crawled in its own `web` world.
- Timing, user agents and logging are not modelled: asyncio, sleeps, tqdm, UserAgent and the logger.
- Browser set-up and clean-up are not modelled: `_cleanup` and the driver's start-up details. Only whether `_init_browser` raises is kept.
- `_discover_feed_urls` is not modelled as a parse of the page. Its soup queries become the world's list of discovered feeds.
- The order in which Python iterates a set is not modelled. It is the `listing` parameter. Crawl results are sets.
- The three rewrites of `_clean_content` and `normalize_content` use lazy regular expressions. They are modelled as given functions (`Rewrites`), and so are the unicode_escape and html.unescape decoding.
- Character case is ASCII only, and so are digits: Python's `\d` also matches the decimal digits of other scripts (blog_crawler.py:80-82, pdf_scraper.py:167-168), while `Patterns` and `PdfText` accept only '0'-'9'. Published dates are not parsed. Which /CreationDate texts the item model's datetime field accepts is the `accepts` parameter of `PdfBook.ProcessPdf`; an accepted date is kept as its text, not converted. The blog scraper and the PDF scraper's `scrape` never store a date.
- The temporary PDF file is never actually written or removed. The model only records which path is read.
- `save_results`, `scrape_and_save`, `main.py` and the FastAPI server are not modelled. They are I/O around `scrape_urls`.
- The header dictionaries shared between strategies (`custom_headers or {}`, then mutated) are not modelled, because they change only what is sent.
- `_process_pdf` is never called by `scrape`, and the constructor's `chunk_size` is unused there (6000 is fixed). Both are modelled as in the code.
- CrawlSpec.ConfiguredFeedUrls: the contract states only one URL per configured path. The URLs themselves are `urljoin` results, which the model computes but does not restate.
- BlogScraping.CleanContent: the contract states only that the edges are stripped. The collapse steps are stated by BlogScraping.CollapseSteps, and the rewrites are given functions.
- BlogScraping.NormalizeBlog: the contract states only that the edges are stripped. What its rewrites receive is stated by BlogScraping.NormalizeBlogCollapse.
- BlogScraping.RemoveTags: the contract states only that the text does not grow, together with BlogScraping.RemoveTagsIdle.
- PdfText.NormalizePdf: the contract states only that the edges are stripped. Text preservation is PdfText.NormalizePdfKeepsText.
- Url.SplitUrl: urlsplit first strips leading C0 control characters and spaces and removes every tab, CR and LF. It also raises ValueError when the netloc holds only one of '[' and ']'. None of this is modelled. For a seed such as "http://[::1/blog" the crawl raises at content_crawler.py:190 and returns the buckets already filled without trying a strategy (236-238). The model runs the strategy chain. urljoin raises the same ValueError for an href with an unbalanced '[' or ']' at blog_crawler.py:62: `_process_page` then returns False (73-75) after keeping the posts of the earlier links, and `crawl` stops paging (32-33). BlogCrawling.Visit resolves every href.
- PdfText.SplitSentences: its own contract states only that there is at least one part. Where the text is cut is stated by PdfText.SplitSentencesRoundTrip and PdfText.SplitSentencesNoBreak.
- PdfScraping.PackKeepsText: states only that no character other than whitespace is lost or reordered. That each chunk is whole sentences joined by one space is PdfScraping.PackGroups.
- PdfBookProps.ChunksTitled: states only that each title is a known one. Which title each chunk gets, and that chunks do not span a heading page, is PdfBookProps.ChunksFollowSections.
- OrchestrationProps.UniqueKeepsFirsts: states which jobs are kept, not their order. The order is OrchestrationProps.UniqueInOrder.
- BlogScraping.ScrapeBlog: the model uses the corrected normalisation. It differs from the code only for a URL without an HTTP scheme and without a base. There the code fetches "https:///" followed by the URL, which has no host (BlogScraping.BareHostLosesNetloc, BlogScraping.ScrapeBlogAsWritten). BlogScraping.ScrapeBlogShape states its URL for the corrected version.
- Orchestration.ScrapeJob: blog jobs use the corrected blog scraper. They agree with the code whenever the seed URL, passed as the base, is non-empty (Orchestration.BlogJobAsWritten).
- BlogScraping.Rungs: `_extract_content_manually` removes script, style, nav, footer and header elements from the parsed page in place (blog_scraper.py:204-205). The third rung then reads the title and author again from that pruned page (107-108). The model reads both from the page as fetched and does not track the removal.

## Findings

| source | as written | input that shows it | evidently intended | confidence | as-written member | corrected member |
|---|---|---|---|---|---|---|
| scraper/blog_scraper.py:44-45 | a URL without http(s) is joined onto 'https://' | "example.com" becomes "https:///example.com", whose netloc is empty | the bare host becomes the netloc: "https://example.com" | not executed | BlogScraping.BareHostLosesNetloc | BlogScraping.BareHostBecomesNetloc |
| scraper/pdf_scraper.py:89-90 | the except handler logs through self.logger, which PDFScraper never sets (its __init__ at 14-16 and BaseScraper's set none) | any document pdfplumber cannot open: the handler raises AttributeError instead of returning [] | log and return [] | not executed | PdfScraping.UnreadableDocumentRaises | PdfScraping.ScrapePdfShape |
