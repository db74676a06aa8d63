/**
 * PDFScraper._process_pdf and _create_chunk_item: the pages of a document
 * read as a book. Paragraphs are gathered into chunks of bounded length;
 * a page that opens with a chapter heading closes the chunk and names
 * the ones that follow; every chunk becomes a "book" item.
 */
module PdfBook {
  import opened Wrappers
  import opened Text
  import opened Base
  import opened PdfText

  /** The title used when the document information has no /Title. */
  const DefaultTitle := "Untitled Document"

  /** The constructor's default chunk_size. */
  const DefaultChunkSize := 1000

  /** The entries read from the document information dictionary: /Title, /Author and /CreationDate. */
  datatype DocInfo = DocInfo(title: Option<string>, author: Option<string>, creationDate: Option<string>)

  /** What every chunk of one document shares: the document title, the source URL, author, date and the chunk size. */
  datatype Doc = Doc(title: string, url: string, author: Option<string>, date: Option<string>, chunkSize: int)

  /** A closed chunk: its paragraphs and the title it was closed under. */
  datatype Group = Group(paras: seq<string>, title: string)

  /**
   * The state of the page loop: the chunks closed so far, the paragraphs
   * of the current chunk, their total length and the last chapter title.
   */
  datatype Book = Book(groups: seq<Group>, chunk: seq<string>, length: int, chapter: Option<string>)

  const Start := Book([], [], 0, None)

  // ---------------------------------------------------------------------
  // _create_chunk_item
  // ---------------------------------------------------------------------

  /** Sum of the lengths of the paragraphs. */
  function TotalLength(paras: seq<string>): nat {
    if paras == [] then 0 else |paras[0]| + TotalLength(paras[1..])
  }

  /** The heading of a chunk's item: the title, " - Part " and the number of paragraphs in the chunk. */
  function PartTitle(title: string, count: nat): string {
    title + " - Part " + IntToString(count)
  }

  /**
   * The item of a chunk: its paragraphs joined by blank lines, normalised,
   * as a "book" item; the metadata records the length of the joined text
   * before normalisation and the number of paragraphs.
   */
  function ChunkItem(paras: seq<string>, title: string, d: Doc): (item: ContentItem)
    ensures item.contentType == "book" && item.sourceUrl == Some(d.url)
    ensures item.author == d.author && item.publishedDate == d.date && item.userId == ""
    ensures item.metadata.Keys == {"chunk_size", "paragraph_count"}
    ensures item.metadata["paragraph_count"] == |paras|
  {
    var content := JoinWith(paras, "\n\n");
    ContentItem(PartTitle(title, |paras|), NormalizePdf(content), "book", Some(d.url), d.author, d.date,
      map["chunk_size" := |content|, "paragraph_count" := |paras|], "")
  }

  /** Joining n paragraphs adds two characters per separator. */
  lemma {:induction false} JoinLength(paras: seq<string>)
    requires paras != []
    ensures |JoinWith(paras, "\n\n")| == TotalLength(paras) + 2 * (|paras| - 1)
  {
    if |paras| > 1 {
      JoinLength(paras[1..]);
    }
  }

  /**
   * The recorded chunk_size is the paragraphs' length plus the blank lines
   * between them, the part number reads back as the paragraph count, and
   * the content keeps every character of the paragraphs other than
   * whitespace, in order.
   */
  lemma ChunkItemMeaning(paras: seq<string>, title: string, d: Doc)
    requires paras != []
    ensures var item := ChunkItem(paras, title, d);
      item.metadata["chunk_size"] == TotalLength(paras) + 2 * (|paras| - 1)
      && item.title[..|title| + 8] == title + " - Part "
      && DecimalValue(item.title[|title| + 8..]) == |paras|
      && Others(item.content, IsSpace) == Others(JoinWith(paras, "\n\n"), IsSpace)
      && NoEdgeSpace(item.content)
  {
    JoinLength(paras);
    var t := ChunkItem(paras, title, d).title;
    assert t == (title + " - Part ") + NatToString(|paras|);
    assert t[|title| + 8..] == NatToString(|paras|);
    NatToStringRoundTrip(|paras|);
    NormalizePdfKeepsText(JoinWith(paras, "\n\n"));
  }

  // ---------------------------------------------------------------------
  // The page loop, as functions of its state
  // ---------------------------------------------------------------------

  /** `chapter_title or title`: the heading the current chunk is closed under. */
  function CurrentTitle(b: Book, d: Doc): string {
    if b.chapter.Some? then b.chapter.value else d.title
  }

  /** Closing the current chunk: it joins the closed ones and a new one starts empty. */
  function Close(b: Book, d: Doc): Book {
    Book(b.groups + [Group(b.chunk, CurrentTitle(b, d))], [], 0, b.chapter)
  }

  /**
   * One paragraph: stripped, skipped when empty; when it would take the
   * current, non-empty chunk past the chunk size, that chunk is closed
   * first; then the paragraph joins the current chunk.
   */
  function ParaStep(b: Book, para: string, d: Doc): Book {
    var p := Strip(para);
    if p == [] then b
    else
      var b1 := MakeRoom(b, |p|, d);
      b1.(chunk := b1.chunk + [p], length := b1.length + |p|)
  }

  /** A paragraph that is not blank after stripping joins the chunk that MakeRoom leaves. */
  lemma ParaStepAdds(b: Book, para: string, d: Doc)
    requires Strip(para) != []
    ensures var p := Strip(para); var b1 := MakeRoom(b, |p|, d);
      ParaStep(b, para, d) == b1.(chunk := b1.chunk + [p], length := b1.length + |p|)
  {
  }

  /** Before a paragraph of length n joins: the current chunk is closed when it is not empty and n would take it past the chunk size. */
  function MakeRoom(b: Book, n: int, d: Doc): Book {
    if b.length + n > d.chunkSize && b.chunk != [] then Close(b, d) else b
  }

  /** The paragraph loop from paragraph j on. */
  function ParasFrom(b: Book, paras: seq<string>, j: nat, d: Doc): Book
    requires j <= |paras|
    decreases |paras| - j
  {
    if j == |paras| then b else ParasFrom(ParaStep(b, paras[j], d), paras, j + 1, d)
  }

  /**
   * A page whose first line is a chapter heading closes the current chunk
   * (when it has paragraphs), starts an empty one and makes the heading
   * the chapter title.
   */
  function ChapterStep(b: Book, text: string, d: Doc): Book {
    var heading := DetectChapterTitle(text);
    if heading.None? then b
    else
      var b1 := if b.chunk != [] then Close(b, d) else b;
      b1.(chunk := [], length := 0, chapter := heading)
  }

  /** One page: skipped when blank; otherwise the chapter check, then its paragraphs (split at blank lines). */
  function PageStep(b: Book, text: string, d: Doc): Book {
    if IsBlank(text) then b else ParasFrom(ChapterStep(b, text, d), Split(text, "\n\n"), 0, d)
  }

  /** The page loop from page k on. */
  function PagesFrom(b: Book, pages: seq<string>, k: nat, d: Doc): Book
    requires k <= |pages|
    decreases |pages| - k
  {
    if k == |pages| then b else PagesFrom(PageStep(b, pages[k], d), pages, k + 1, d)
  }

  /** The chunks after the loop: the last one is closed when it has paragraphs. */
  function Chunks(pages: seq<string>, d: Doc): seq<Group> {
    var b := PagesFrom(Start, pages, 0, d);
    if b.chunk != [] then Close(b, d).groups else b.groups
  }

  /** One item per chunk, in order. */
  function GroupItems(groups: seq<Group>, d: Doc): (items: seq<ContentItem>)
    ensures |items| == |groups|
  {
    if groups == [] then []
    else
      var g := groups[|groups| - 1];
      GroupItems(groups[..|groups| - 1], d) + [ChunkItem(g.paras, g.title, d)]
  }

  lemma GroupItemsSnoc(groups: seq<Group>, g: Group, d: Doc)
    ensures GroupItems(groups + [g], d) == GroupItems(groups, d) + [ChunkItem(g.paras, g.title, d)]
  {
    assert (groups + [g])[..|groups|] == groups;
  }

  /** The document fields of a document whose information dictionary was read. */
  function DocOf(info: DocInfo, url: string, chunkSize: int): Doc {
    Doc(if info.title.Some? then info.title.value else DefaultTitle, url, info.author, info.creationDate, chunkSize)
  }

  /**
   * The /CreationDate text is rejected: ContentItem declares its
   * published_date a datetime, and the validation raises for a text it
   * cannot read as one (a PDF date such as "D:20240101000000Z", say).
   * Which texts it accepts is the parameter accepts.
   */
  predicate DateRejected(d: Doc, accepts: string -> bool) {
    d.date.Some? && !accepts(d.date.value)
  }

  /**
   * _process_pdf: the items of the chunks of the pages. A document without
   * an information dictionary makes the metadata lookup raise, and a
   * rejected date makes the first item's construction raise.
   */
  function ProcessPdfSpec(info: Option<DocInfo>, pages: seq<string>, url: string, chunkSize: int,
                          accepts: string -> bool): Fetch<seq<ContentItem>> {
    if info.None? then Raised
    else
      var d := DocOf(info.value, url, chunkSize);
      var groups := Chunks(pages, d);
      if groups != [] && DateRejected(d, accepts) then Raised else Got(GroupItems(groups, d))
  }

  // ---------------------------------------------------------------------
  // The page loop, step by step
  // ---------------------------------------------------------------------

  /**
   * items.append(self._create_chunk_item(current_chunk, chapter_title or
   * title, ...)): the item of the current chunk is appended.
   */
  method AppendItem(items0: seq<ContentItem>, chunk: seq<string>, chapter: Option<string>, d: Doc, ghost groups0: seq<Group>)
    returns (items: seq<ContentItem>, ghost groups: seq<Group>)
    requires items0 == GroupItems(groups0, d)
    ensures groups == groups0 + [Group(chunk, if chapter.Some? then chapter.value else d.title)]
    ensures items == GroupItems(groups, d)
  {
    var title := if chapter.Some? then chapter.value else d.title;
    GroupItemsSnoc(groups0, Group(chunk, title), d);
    items := items0 + [ChunkItem(chunk, title, d)];
    groups := groups0 + [Group(chunk, title)];
  }

  /**
   * The body of the paragraph loop, on the loop variables of _process_pdf
   * (the ghost groups are the chunks the items were made from).
   */
  method AddParagraph(para: string, d: Doc, items0: seq<ContentItem>, chunk0: seq<string>, length0: int,
                      chapter: Option<string>, ghost groups0: seq<Group>)
    returns (items: seq<ContentItem>, chunk: seq<string>, length: int, ghost groups: seq<Group>)
    requires items0 == GroupItems(groups0, d)
    ensures items == GroupItems(groups, d)
    ensures Book(groups, chunk, length, chapter) == ParaStep(Book(groups0, chunk0, length0, chapter), para, d)
  {
    items, chunk, length, groups := items0, chunk0, length0, groups0;
    ghost var b0 := Book(groups0, chunk0, length0, chapter);
    var p := Strip(para);
    if p == [] {
      return;
    }
    if length + |p| > d.chunkSize && chunk != [] {
      items, groups := AppendItem(items, chunk, chapter, d, groups);
      chunk := [];
      length := 0;
    }
    assert Book(groups, chunk, length, chapter) == MakeRoom(b0, |p|, d);
    ParaStepAdds(b0, para, d);
    chunk := chunk + [p];
    length := length + |p|;
  }

  /** The paragraph loop of one page. */
  method AddParagraphs(paras: seq<string>, d: Doc, items0: seq<ContentItem>, chunk0: seq<string>, length0: int,
                       chapter: Option<string>, ghost groups0: seq<Group>)
    returns (items: seq<ContentItem>, chunk: seq<string>, length: int, ghost groups: seq<Group>)
    requires items0 == GroupItems(groups0, d)
    ensures items == GroupItems(groups, d)
    ensures Book(groups, chunk, length, chapter) == ParasFrom(Book(groups0, chunk0, length0, chapter), paras, 0, d)
  {
    items, chunk, length, groups := items0, chunk0, length0, groups0;
    var j := 0;
    while j < |paras|
      invariant 0 <= j <= |paras|
      invariant items == GroupItems(groups, d)
      invariant ParasFrom(Book(groups, chunk, length, chapter), paras, j, d)
             == ParasFrom(Book(groups0, chunk0, length0, chapter), paras, 0, d)
    {
      items, chunk, length, groups := AddParagraph(paras[j], d, items, chunk, length, chapter, groups);
      j := j + 1;
    }
  }

  /** The body of the page loop: the chapter check, then the paragraph loop, on a page that is not blank. */
  method AddPage(text: string, d: Doc, items0: seq<ContentItem>, chunk0: seq<string>, length0: int,
                 chapter0: Option<string>, ghost groups0: seq<Group>)
    returns (items: seq<ContentItem>, chunk: seq<string>, length: int, chapter: Option<string>, ghost groups: seq<Group>)
    requires items0 == GroupItems(groups0, d)
    ensures items == GroupItems(groups, d)
    ensures Book(groups, chunk, length, chapter) == PageStep(Book(groups0, chunk0, length0, chapter0), text, d)
  {
    items, chunk, length, chapter, groups := items0, chunk0, length0, chapter0, groups0;
    if IsBlank(text) {
      return;
    }
    ghost var b0 := Book(groups0, chunk0, length0, chapter0);
    var heading := DetectChapterTitle(text);
    if heading.Some? {
      if chunk != [] {
        items, groups := AppendItem(items, chunk, chapter, d, groups);
      }
      chunk := [];
      length := 0;
      chapter := heading;
    }
    assert Book(groups, chunk, length, chapter) == ChapterStep(b0, text, d);
    items, chunk, length, groups := AddParagraphs(Split(text, "\n\n"), d, items, chunk, length, chapter, groups);
  }

  /** _process_pdf on the document information and the page texts. */
  method ProcessPdf(info: Option<DocInfo>, pages: seq<string>, url: string, chunkSize: int, accepts: string -> bool)
    returns (r: Fetch<seq<ContentItem>>)
    ensures r == ProcessPdfSpec(info, pages, url, chunkSize, accepts)
  {
    if info.None? {
      return Raised;
    }
    var d := DocOf(info.value, url, chunkSize);
    var items: seq<ContentItem> := [];
    var chunk: seq<string> := [];
    var length := 0;
    var chapter: Option<string> := None;
    ghost var groups: seq<Group> := [];
    var k := 0;
    while k < |pages|
      invariant 0 <= k <= |pages|
      invariant items == GroupItems(groups, d)
      invariant PagesFrom(Book(groups, chunk, length, chapter), pages, k, d) == PagesFrom(Start, pages, 0, d)
    {
      items, chunk, length, chapter, groups := AddPage(pages[k], d, items, chunk, length, chapter, groups);
      k := k + 1;
    }
    ghost var last := Book(groups, chunk, length, chapter);
    assert last == PagesFrom(Start, pages, 0, d);
    if chunk != [] {
      items, groups := AppendItem(items, chunk, chapter, d, groups);
      assert groups == Close(last, d).groups;
    }
    // The first item built with a rejected date raises; building items has
    // no other effect, so the outcome is the same when decided here.
    if items != [] && DateRejected(d, accepts) {
      return Raised;
    }
    return Got(items);
  }
}
