/**
 * What the crawl engine learns from the outside world for one seed: the
 * answers of the HTTP clients, browsers and foreign parsers, given as
 * values. Fetch.Raised stands for an exception raised by the call.
 */
module CrawlWorld {
  import opened Wrappers
  import opened Text
  import opened SiteRegistry

  /** A decoded JSON document. An object is its entries in document order. */
  datatype Json =
    | JNull
    | JBool(b: bool)
    | JNum(n: int)
    | JStr(s: string)
    | JArr(items: seq<Json>)
    | JObj(entries: seq<(string, Json)>)

  /**
   * The strings a JSON document holds as object values, at any depth
   * reached through objects and arrays. A string that sits directly in an
   * array, or is the whole document, is not one of them.
   */
  function DictStrings(j: Json): set<string>
    decreases j, 0
  {
    match j
    case JArr(items) => set i, s | 0 <= i < |items| && s in DictStrings(items[i]) :: s
    case JObj(entries) => set i, s | 0 <= i < |entries| && s in EntryStrings(entries[i].1) :: s
    case _ => {}
  }

  /** What an object value contributes: itself when a string, its own object values otherwise. */
  function EntryStrings(v: Json): set<string>
    decreases v, 1
  {
    if v.JStr? then {v.s} else DictStrings(v)
  }

  /** Every string in a JSON document: the document itself, array items and object values, at any depth. */
  function AllStrings(j: Json): set<string>
    decreases j
  {
    match j
    case JStr(s) => {s}
    case JArr(items) => set i, s | 0 <= i < |items| && s in AllStrings(items[i]) :: s
    case JObj(entries) => set i, s | 0 <= i < |entries| && s in AllStrings(entries[i].1) :: s
    case _ => {}
  }

  /** An HTTP response or a rendered page: its status and the hrefs the content selectors pick, in order; "" is a missing href. */
  datatype Page = Page(status: int, hrefs: seq<string>)

  /** An HTTP response whose body is decoded as JSON; decoding may raise. */
  datatype JsonReply = JsonReply(status: int, body: Fetch<Json>)

  /** A feedparser entry: its link and id attributes, when present. */
  datatype FeedEntry = FeedEntry(link: Option<string>, id: Option<string>)

  /** The first link element under an XML item or entry: its text ("" when none) and its href attribute. */
  datatype XmlLink = XmlLink(text: string, href: Option<string>)

  /** A feed URL fetched as XML: the status and, when the body parses, the link of each item and entry. */
  datatype XmlReply = XmlReply(status: int, items: Option<seq<Option<XmlLink>>>)

  /** Quill's static blog page: the stripped heading text of each card ("" without one) and of each heading of the main area. */
  datatype QuillHtml = QuillHtml(cardTitles: seq<string>, headings: seq<string>)

  /**
   * The world one crawl of one seed sees.
   *   discoveredFeeds: the non-joined hrefs of the feed links found on the seed page.
   *   feed, feedXml: feedparser's entries and the XML fetch for a feed URL.
   *   page: what a strategy's browser or HTTP client yields for a URL.
   *   heights: the successive scroll heights a page reports.
   *   seleniumInitFails: whether starting the shared Selenium driver raises.
   *   api: the JSON endpoints.
   *   quillRequests: the URLs the Quill Playwright run captures, clicked and intercepted.
   *   quillHtml, sitemap: the Quill static page and sitemap locations.
   *   allLinks: the hrefs of every anchor of the seed page for the fallback.
   */
  datatype World = World(
    discoveredFeeds: seq<string>,
    feed: string -> Fetch<seq<FeedEntry>>,
    feedXml: string -> Fetch<XmlReply>,
    page: (Strategy, string) -> Fetch<Page>,
    heights: nat -> int,
    seleniumInitFails: bool,
    api: string -> Fetch<JsonReply>,
    quillRequests: Fetch<seq<string>>,
    quillHtml: Fetch<(int, QuillHtml)>,
    sitemap: Fetch<(int, seq<string>)>,
    allLinks: Fetch<(int, seq<string>)>)

  /** Strings directly in an array are never object values; inside an object they are. */
  lemma ListStringsSkipped(u: string)
    ensures DictStrings(JArr([JStr(u)])) == {}
    ensures u in AllStrings(JArr([JStr(u)]))
    ensures u in DictStrings(JObj([("url", JStr(u))]))
  {
    assert EntryStrings(JObj([("url", JStr(u))]).entries[0].1) == {u};
    assert AllStrings(JArr([JStr(u)]).items[0]) == {u};
  }

  /** Every object value string is one of the document's strings. */
  lemma {:induction false} DictStringsAreStrings(j: Json)
    ensures DictStrings(j) <= AllStrings(j)
    decreases j
  {
    match j
    case JArr(items) =>
      forall s | s in DictStrings(j) ensures s in AllStrings(j) {
        var i :| 0 <= i < |items| && s in DictStrings(items[i]);
        DictStringsAreStrings(items[i]);
      }
    case JObj(entries) =>
      forall s | s in DictStrings(j) ensures s in AllStrings(j) {
        var i :| 0 <= i < |entries| && s in EntryStrings(entries[i].1);
        var v := entries[i].1;
        if !v.JStr? {
          DictStringsAreStrings(v);
        }
        assert s in AllStrings(entries[i].1);
      }
    case _ =>
  }
}
