/**
 * The records every scraper produces (a content item and the result that
 * tags a list of them with a team id) and the two helpers every scraper
 * inherits: the base content normalisation and result assembly.
 */
module Base {
  import opened Wrappers
  import opened Text

  /**
   * One scraped piece of content. The publication date is kept as the
   * text it was read from; metadata holds the integer counters the PDF
   * scraper records.
   */
  datatype ContentItem = ContentItem(
    title: string,
    content: string,
    contentType: string,
    sourceUrl: Option<string>,
    author: Option<string>,
    publishedDate: Option<string>,
    metadata: map<string, int>,
    userId: string)

  datatype ScraperResult = ScraperResult(teamId: string, items: seq<ContentItem>)

  /** An item given only its required fields: every optional field takes its default. */
  function NewItem(title: string, content: string, contentType: string): (item: ContentItem)
    ensures item.title == title && item.content == content && item.contentType == contentType
    ensures item.sourceUrl == None && item.author == None && item.publishedDate == None
    ensures item.metadata == map[] && item.userId == ""
  {
    ContentItem(title, content, contentType, None, None, None, map[], "")
  }

  /**
   * The base normalisation: the content without leading and trailing
   * whitespace. The result is the part of the input that follows its
   * leading whitespace, and only whitespace follows it.
   */
  function NormalizeContent(content: string): (r: string)
    ensures NoEdgeSpace(r)
    ensures LeadingSpace(content) + |r| <= |content|
    ensures r == content[LeadingSpace(content)..LeadingSpace(content) + |r|]
    ensures AllSpace(content[LeadingSpace(content) + |r|..])
  {
    Strip(content)
  }

  /** Normalising normalised content changes nothing. */
  lemma NormalizeIdempotent(content: string)
    ensures NormalizeContent(NormalizeContent(content)) == NormalizeContent(content)
  {
    StripIdempotent(content);
  }

  /** Content with no edge whitespace is already normalised. */
  lemma NormalizeFixesTrimmed(content: string)
    requires NoEdgeSpace(content)
    ensures NormalizeContent(content) == content
  {
    StripNoEdge(content);
  }

  /** The result of a scraper: the items unchanged, tagged with the scraper's team id. */
  function CreateResult(teamId: string, items: seq<ContentItem>): (r: ScraperResult)
    ensures r.teamId == teamId && r.items == items
  {
    ScraperResult(teamId, items)
  }
}
