/**
 * What _process_pdf guarantees about its chunks: they hold exactly the
 * non-empty paragraphs of the pages, stripped and in order; none is empty;
 * a chunk longer than the chunk size holds a single paragraph; and every
 * chunk is titled with the document title or a detected chapter heading.
 */
module PdfBookProps {
  import opened Wrappers
  import opened Text
  import opened PdfText
  import opened PdfBook

  // ---------------------------------------------------------------------
  // The paragraphs of the pages
  // ---------------------------------------------------------------------

  /** The stripped pieces that are not empty, in order. */
  function NonEmptyStripped(ps: seq<string>): (r: seq<string>)
    ensures forall k | 0 <= k < |r| :: r[k] != [] && NoEdgeSpace(r[k])
  {
    if ps == [] then []
    else (if Strip(ps[0]) == [] then [] else [Strip(ps[0])]) + NonEmptyStripped(ps[1..])
  }

  /** The paragraphs a page contributes: none for a blank page, else its non-empty pieces between blank lines. */
  function Paragraphs(text: string): seq<string> {
    if IsBlank(text) then [] else NonEmptyStripped(Split(text, "\n\n"))
  }

  /** The paragraphs of the pages from page k on. */
  function AllParagraphs(pages: seq<string>, k: nat): seq<string>
    requires k <= |pages|
    decreases |pages| - k
  {
    if k == |pages| then [] else Paragraphs(pages[k]) + AllParagraphs(pages, k + 1)
  }

  /** The paragraphs of the chunks, in order. */
  function Flat(groups: seq<Group>): seq<string> {
    if groups == [] then [] else Flat(groups[..|groups| - 1]) + groups[|groups| - 1].paras
  }

  /** The paragraphs the loop state holds: those of the closed chunks, then those of the current one. */
  function Contents(b: Book): seq<string> {
    Flat(b.groups) + b.chunk
  }

  lemma CloseKeepsContents(b: Book, d: Doc)
    ensures Contents(Close(b, d)) == Contents(b)
  {
    var gs := b.groups + [Group(b.chunk, CurrentTitle(b, d))];
    assert gs[..|gs| - 1] == b.groups;
  }

  lemma ParaStepContents(b: Book, para: string, d: Doc)
    ensures Contents(ParaStep(b, para, d)) == Contents(b) + NonEmptyStripped([para])
  {
    assert [para][1..] == [];
    if Strip(para) != [] {
      CloseKeepsContents(b, d);
      var b1 := MakeRoom(b, |Strip(para)|, d);
      assert Contents(b1) == Contents(b);
    }
  }

  lemma NonEmptyStrippedCons(ps: seq<string>, j: nat)
    requires j < |ps|
    ensures NonEmptyStripped(ps[j..]) == NonEmptyStripped([ps[j]]) + NonEmptyStripped(ps[j + 1..])
  {
    assert ps[j..][1..] == ps[j + 1..];
    assert [ps[j]][1..] == [];
  }

  /** One step of a loop that appends x to what it has collected. */
  lemma AppendStep(before: seq<string>, after: seq<string>, x: seq<string>, rest: seq<string>, total: seq<string>)
    requires after == before + x && total == after + rest
    ensures total == before + (x + rest)
  {
  }

  lemma {:induction false} ParasFromContents(b: Book, paras: seq<string>, j: nat, d: Doc)
    requires j <= |paras|
    ensures Contents(ParasFrom(b, paras, j, d)) == Contents(b) + NonEmptyStripped(paras[j..])
    decreases |paras| - j
  {
    if j == |paras| {
      assert paras[j..] == [];
    } else {
      var b1 := ParaStep(b, paras[j], d);
      assert ParasFrom(b, paras, j, d) == ParasFrom(b1, paras, j + 1, d);
      ParasFromContents(b1, paras, j + 1, d);
      ParaStepContents(b, paras[j], d);
      NonEmptyStrippedCons(paras, j);
      AppendStep(Contents(b), Contents(b1), NonEmptyStripped([paras[j]]),
        NonEmptyStripped(paras[j + 1..]), Contents(ParasFrom(b, paras, j, d)));
    }
  }

  lemma PageStepContents(b: Book, text: string, d: Doc)
    ensures Contents(PageStep(b, text, d)) == Contents(b) + Paragraphs(text)
  {
    if !IsBlank(text) {
      var paras := Split(text, "\n\n");
      CloseKeepsContents(b, d);
      assert Contents(ChapterStep(b, text, d)) == Contents(b);
      ParasFromContents(ChapterStep(b, text, d), paras, 0, d);
      assert paras[0..] == paras;
    }
  }

  lemma {:induction false} PagesFromContents(b: Book, pages: seq<string>, k: nat, d: Doc)
    requires k <= |pages|
    ensures Contents(PagesFrom(b, pages, k, d)) == Contents(b) + AllParagraphs(pages, k)
    decreases |pages| - k
  {
    if k < |pages| {
      var b1 := PageStep(b, pages[k], d);
      assert PagesFrom(b, pages, k, d) == PagesFrom(b1, pages, k + 1, d);
      PagesFromContents(b1, pages, k + 1, d);
      PageStepContents(b, pages[k], d);
    }
  }

  /** Closing the last chunk, if any, keeps the paragraphs the loop holds. */
  lemma FinishKeepsContents(b: Book, d: Doc, chunks: seq<Group>, paras: seq<string>)
    requires chunks == (if b.chunk != [] then Close(b, d).groups else b.groups)
    requires Contents(b) == Contents(Start) + paras
    ensures Flat(chunks) == paras
  {
    assert Contents(Start) == [];
    assert Contents(b) == paras;
    if b.chunk != [] {
      CloseKeepsContents(b, d);
    }
  }

  /** The chunks hold exactly the paragraphs of the pages, stripped, without the empty ones, in order. */
  lemma ChunksKeepParagraphs(pages: seq<string>, d: Doc)
    ensures Flat(Chunks(pages, d)) == AllParagraphs(pages, 0)
  {
    PagesFromContents(Start, pages, 0, d);
    FinishKeepsContents(PagesFrom(Start, pages, 0, d), d, Chunks(pages, d), AllParagraphs(pages, 0));
  }

  // ---------------------------------------------------------------------
  // Chunk sizes
  // ---------------------------------------------------------------------

  lemma {:induction false} TotalLengthSnoc(ps: seq<string>, p: string)
    ensures TotalLength(ps + [p]) == TotalLength(ps) + |p|
  {
    if ps != [] {
      assert (ps + [p])[1..] == ps[1..] + [p];
      TotalLengthSnoc(ps[1..], p);
    } else {
      assert [p][1..] == [];
    }
  }

  /** A closed chunk is not empty, and it is within the chunk size unless it is a single paragraph. */
  predicate GoodGroup(g: Group, d: Doc) {
    g.paras != [] && (|g.paras| == 1 || TotalLength(g.paras) <= d.chunkSize)
  }

  /** The state of the loop: closed chunks are good; the current one's length is recorded and within bounds. */
  predicate Sized(b: Book, d: Doc) {
    (forall k | 0 <= k < |b.groups| :: GoodGroup(b.groups[k], d))
    && b.length == TotalLength(b.chunk)
    && (|b.chunk| <= 1 || b.length <= d.chunkSize)
  }

  lemma CloseSized(b: Book, d: Doc)
    requires Sized(b, d) && b.chunk != []
    ensures Sized(Close(b, d), d)
  {
  }

  lemma ParaStepSized(b: Book, para: string, d: Doc)
    requires Sized(b, d)
    ensures Sized(ParaStep(b, para, d), d)
  {
    var p := Strip(para);
    if p != [] {
      var b1 := MakeRoom(b, |p|, d);
      if b.length + |p| > d.chunkSize && b.chunk != [] {
        CloseSized(b, d);
      }
      TotalLengthSnoc(b1.chunk, p);
    }
  }

  lemma {:induction false} ParasFromSized(b: Book, paras: seq<string>, j: nat, d: Doc)
    requires j <= |paras| && Sized(b, d)
    ensures Sized(ParasFrom(b, paras, j, d), d)
    decreases |paras| - j
  {
    if j < |paras| {
      ParaStepSized(b, paras[j], d);
      ParasFromSized(ParaStep(b, paras[j], d), paras, j + 1, d);
    }
  }

  lemma {:induction false} PagesFromSized(b: Book, pages: seq<string>, k: nat, d: Doc)
    requires k <= |pages| && Sized(b, d)
    ensures Sized(PagesFrom(b, pages, k, d), d)
    decreases |pages| - k
  {
    if k < |pages| {
      var text := pages[k];
      if !IsBlank(text) {
        if DetectChapterTitle(text).Some? && b.chunk != [] {
          CloseSized(b, d);
        }
        assert Sized(ChapterStep(b, text, d), d);
        ParasFromSized(ChapterStep(b, text, d), Split(text, "\n\n"), 0, d);
      }
      PagesFromSized(PageStep(b, text, d), pages, k + 1, d);
    }
  }

  /** No chunk is empty, and a chunk whose paragraphs exceed the chunk size holds only one paragraph. */
  lemma ChunksSized(pages: seq<string>, d: Doc)
    ensures forall k | 0 <= k < |Chunks(pages, d)| ::
      Chunks(pages, d)[k].paras != []
      && (|Chunks(pages, d)[k].paras| == 1 || TotalLength(Chunks(pages, d)[k].paras) <= d.chunkSize)
  {
    var b := PagesFrom(Start, pages, 0, d);
    PagesFromSized(Start, pages, 0, d);
    if b.chunk != [] {
      CloseSized(b, d);
    }
  }

  // ---------------------------------------------------------------------
  // Chunk titles
  // ---------------------------------------------------------------------

  /** The document title, or the chapter heading some page opens with. */
  predicate KnownTitle(t: string, pages: seq<string>, d: Doc) {
    t == d.title || exists k | 0 <= k < |pages| :: DetectChapterTitle(pages[k]) == Some(t)
  }

  predicate Titled(b: Book, pages: seq<string>, d: Doc) {
    (forall k | 0 <= k < |b.groups| :: KnownTitle(b.groups[k].title, pages, d))
    && (b.chapter.Some? ==> exists k | 0 <= k < |pages| :: DetectChapterTitle(pages[k]) == b.chapter)
  }

  lemma CloseTitled(b: Book, pages: seq<string>, d: Doc)
    requires Titled(b, pages, d)
    ensures Titled(Close(b, d), pages, d)
  {
    var t := CurrentTitle(b, d);
    assert KnownTitle(t, pages, d) by {
      if b.chapter.Some? {
        var k :| 0 <= k < |pages| && DetectChapterTitle(pages[k]) == b.chapter;
        assert DetectChapterTitle(pages[k]) == Some(t);
      }
    }
    var gs := Close(b, d).groups;
    assert gs == b.groups + [Group(b.chunk, t)];
    forall k | 0 <= k < |gs|
      ensures KnownTitle(gs[k].title, pages, d)
    {
      if k < |b.groups| {
        assert gs[k] == b.groups[k];
      }
    }
  }

  lemma {:induction false} ParasFromTitled(b: Book, paras: seq<string>, j: nat, pages: seq<string>, d: Doc)
    requires j <= |paras| && Titled(b, pages, d)
    ensures Titled(ParasFrom(b, paras, j, d), pages, d)
    decreases |paras| - j
  {
    if j < |paras| {
      if Strip(paras[j]) != [] {
        CloseTitled(b, pages, d);
      }
      ParasFromTitled(ParaStep(b, paras[j], d), paras, j + 1, pages, d);
    }
  }

  lemma {:induction false} PagesFromTitled(b: Book, pages: seq<string>, k: nat, d: Doc)
    requires k <= |pages| && Titled(b, pages, d)
    ensures Titled(PagesFrom(b, pages, k, d), pages, d)
    decreases |pages| - k
  {
    if k < |pages| {
      PageStepTitled(b, pages, k, d);
      PagesFromTitled(PageStep(b, pages[k], d), pages, k + 1, d);
    }
  }

  lemma PageStepTitled(b: Book, pages: seq<string>, k: nat, d: Doc)
    requires k < |pages| && Titled(b, pages, d)
    ensures Titled(PageStep(b, pages[k], d), pages, d)
  {
    var text := pages[k];
    if !IsBlank(text) {
      ChapterStepTitled(b, pages, k, d);
      ParasFromTitled(ChapterStep(b, text, d), Split(text, "\n\n"), 0, pages, d);
    }
  }

  lemma ChapterStepTitled(b: Book, pages: seq<string>, k: nat, d: Doc)
    requires k < |pages| && Titled(b, pages, d)
    ensures Titled(ChapterStep(b, pages[k], d), pages, d)
  {
    if DetectChapterTitle(pages[k]).Some? && b.chunk != [] {
      CloseTitled(b, pages, d);
    }
  }

  /** Every chunk is titled with the document title or with a chapter heading one of the pages opens with. */
  lemma ChunksTitled(pages: seq<string>, d: Doc)
    ensures forall k | 0 <= k < |Chunks(pages, d)| :: KnownTitle(Chunks(pages, d)[k].title, pages, d)
  {
    var b := PagesFrom(Start, pages, 0, d);
    PagesFromTitled(Start, pages, 0, d);
    CloseTitled(b, pages, d);
  }

  // ---------------------------------------------------------------------
  // Chapter sections
  // ---------------------------------------------------------------------

  /** A stretch of the document under one heading, with its paragraphs. */
  datatype Section = Section(title: string, paras: seq<string>)

  /** The heading a page opens with; a blank page has none (the loop skips it). */
  function PageHeading(text: string): Option<string> {
    if IsBlank(text) then None else DetectChapterTitle(text)
  }

  /** The last section with more paragraphs. */
  function AddToLast(secs: seq<Section>, ps: seq<string>): (r: seq<Section>)
    requires secs != []
    ensures |r| == |secs| && r[..|r| - 1] == secs[..|secs| - 1]
    ensures r[|r| - 1] == Section(secs[|secs| - 1].title, secs[|secs| - 1].paras + ps)
  {
    secs[..|secs| - 1] + [Section(secs[|secs| - 1].title, secs[|secs| - 1].paras + ps)]
  }

  /** One more page: a page with a heading starts a section of its own, any other page adds to the last one. */
  function SectionStep(secs: seq<Section>, text: string): seq<Section>
    requires secs != []
  {
    match PageHeading(text)
    case Some(h) => secs + [Section(h, Paragraphs(text))]
    case None => AddToLast(secs, Paragraphs(text))
  }

  /**
   * The sections of the pages: the paragraphs before the first page that
   * opens with a chapter heading go under the document title, and each
   * such page starts a section under its heading that runs up to the next.
   */
  function Sections(pages: seq<string>, d: Doc): (secs: seq<Section>)
    ensures secs != []
  {
    if pages == [] then [Section(d.title, [])]
    else SectionStep(Sections(pages[..|pages| - 1], d), pages[|pages| - 1])
  }

  /** The chunks of the sections, one after the other. */
  function Joined(parts: seq<seq<Group>>): seq<Group> {
    if parts == [] then [] else Joined(parts[..|parts| - 1]) + parts[|parts| - 1]
  }

  /**
   * The loop state against the sections read so far: part i holds the
   * closed chunks of section i, all titled with its title; the closed
   * chunks of the last section and then the current chunk hold its
   * paragraphs, and the current chunk will be closed under its title.
   */
  predicate Follows(b: Book, secs: seq<Section>, parts: seq<seq<Group>>, d: Doc) {
    && secs != [] && |parts| == |secs|
    && b.groups == Joined(parts)
    && (forall i | 0 <= i < |secs| - 1 :: Flat(parts[i]) == secs[i].paras)
    && Flat(parts[|secs| - 1]) + b.chunk == secs[|secs| - 1].paras
    && (forall i, j | 0 <= i < |secs| && 0 <= j < |parts[i]| :: parts[i][j].title == secs[i].title)
    && CurrentTitle(b, d) == secs[|secs| - 1].title
  }

  lemma FlatSnoc(gs: seq<Group>, g: Group)
    ensures Flat(gs + [g]) == Flat(gs) + g.paras
  {
    assert (gs + [g])[..|gs|] == gs;
  }

  lemma JoinedSnoc(parts: seq<seq<Group>>, last: seq<Group>)
    ensures Joined(parts + [last]) == Joined(parts) + last
  {
    assert (parts + [last])[..|parts|] == parts;
  }

  /** A chunk closed into the last part. */
  lemma JoinedGrowLast(parts: seq<seq<Group>>, g: Group)
    requires parts != []
    ensures var n := |parts|; Joined(parts[..n - 1] + [parts[n - 1] + [g]]) == Joined(parts) + [g]
  {
    var n := |parts|;
    JoinedSnoc(parts[..n - 1], parts[n - 1] + [g]);
    GroupsAssoc(Joined(parts[..n - 1]), parts[n - 1], [g]);
  }

  lemma GroupsAssoc(a: seq<Group>, b: seq<Group>, c: seq<Group>)
    ensures a + (b + c) == a + b + c
  {
  }

  lemma CloseFollows(b: Book, secs: seq<Section>, parts: seq<seq<Group>>, d: Doc)
    returns (parts': seq<seq<Group>>)
    requires Follows(b, secs, parts, d)
    ensures Follows(Close(b, d), secs, parts', d)
  {
    var n := |parts|;
    var g := Group(b.chunk, CurrentTitle(b, d));
    parts' := parts[..n - 1] + [parts[n - 1] + [g]];
    JoinedGrowLast(parts, g);
    FlatSnoc(parts[n - 1], g);
    assert parts'[n - 1] == parts[n - 1] + [g];
    forall i | 0 <= i < n - 1
      ensures parts'[i] == parts[i]
    {
    }
  }

  /** Paragraphs added to the current chunk are added to the last section. */
  lemma AddFollows(b: Book, ps: seq<string>, len: int, secs: seq<Section>, parts: seq<seq<Group>>, d: Doc)
    requires Follows(b, secs, parts, d)
    ensures Follows(b.(chunk := b.chunk + ps, length := len), AddToLast(secs, ps), parts, d)
  {
    var n := |secs|;
    var secs' := AddToLast(secs, ps);
    assert Flat(parts[n - 1]) + (b.chunk + ps) == secs[n - 1].paras + ps;
    forall i | 0 <= i < n - 1
      ensures secs'[i] == secs[i]
    {
      assert secs'[i] == secs'[..n - 1][i];
    }
  }

  lemma AddNothing(secs: seq<Section>)
    requires secs != []
    ensures AddToLast(secs, []) == secs
  {
    var r := AddToLast(secs, []);
    assert secs[|secs| - 1].paras + [] == secs[|secs| - 1].paras;
    assert r == r[..|r| - 1] + [r[|r| - 1]];
  }

  lemma AddTwice(secs: seq<Section>, x: seq<string>, y: seq<string>)
    requires secs != []
    ensures AddToLast(AddToLast(secs, x), y) == AddToLast(secs, x + y)
  {
    var last := secs[|secs| - 1].paras;
    assert last + x + y == last + (x + y);
  }

  lemma ParaStepFollows(b: Book, para: string, secs: seq<Section>, parts: seq<seq<Group>>, d: Doc)
    returns (parts': seq<seq<Group>>)
    requires Follows(b, secs, parts, d)
    ensures Follows(ParaStep(b, para, d), AddToLast(secs, NonEmptyStripped([para])), parts', d)
  {
    OneStripped(para);
    var p := Strip(para);
    if p == [] {
      AddNothing(secs);
      parts' := parts;
    } else {
      var b1 := MakeRoom(b, |p|, d);
      parts' := MakeRoomFollows(b, |p|, secs, parts, d);
      ParaStepAdds(b, para, d);
      AddFollows(b1, [p], b1.length + |p|, secs, parts', d);
    }
  }

  lemma OneStripped(para: string)
    ensures NonEmptyStripped([para]) == if Strip(para) == [] then [] else [Strip(para)]
  {
    assert [para][1..] == [];
  }

  lemma MakeRoomFollows(b: Book, n: int, secs: seq<Section>, parts: seq<seq<Group>>, d: Doc)
    returns (parts': seq<seq<Group>>)
    requires Follows(b, secs, parts, d)
    ensures Follows(MakeRoom(b, n, d), secs, parts', d)
  {
    parts' := parts;
    if MakeRoom(b, n, d) != b {
      parts' := CloseFollows(b, secs, parts, d);
    }
  }

  lemma {:induction false} ParasFromFollows(b: Book, paras: seq<string>, j: nat, secs: seq<Section>,
                                            parts: seq<seq<Group>>, d: Doc)
    returns (parts': seq<seq<Group>>)
    requires j <= |paras| && Follows(b, secs, parts, d)
    ensures Follows(ParasFrom(b, paras, j, d), AddToLast(secs, NonEmptyStripped(paras[j..])), parts', d)
    decreases |paras| - j
  {
    if j == |paras| {
      assert paras[j..] == [];
      AddNothing(secs);
      parts' := parts;
    } else {
      var mid := ParaStep(b, paras[j], d);
      var parts1 := ParaStepFollows(b, paras[j], secs, parts, d);
      var secs1 := AddToLast(secs, NonEmptyStripped([paras[j]]));
      parts' := ParasFromFollows(mid, paras, j + 1, secs1, parts1, d);
      AddTwice(secs, NonEmptyStripped([paras[j]]), NonEmptyStripped(paras[j + 1..]));
      NonEmptyStrippedCons(paras, j);
    }
  }

  /** A page with a heading closes the current chunk, if any, and starts an empty section. */
  lemma ChapterStepFollows(b: Book, text: string, h: string, secs: seq<Section>, parts: seq<seq<Group>>, d: Doc)
    returns (parts': seq<seq<Group>>)
    requires Follows(b, secs, parts, d) && DetectChapterTitle(text) == Some(h)
    ensures Follows(ChapterStep(b, text, d), secs + [Section(h, [])], parts', d)
  {
    var parts1 := parts;
    var b1 := b;
    if b.chunk != [] {
      b1 := Close(b, d);
      parts1 := CloseFollows(b, secs, parts, d);
    }
    assert ChapterStep(b, text, d) == b1.(chunk := [], length := 0, chapter := Some(h));
    NewSectionFollows(b1, h, secs, parts1, d);
    parts' := parts1 + [[]];
  }

  /** With no current chunk, a heading starts an empty section and an empty part. */
  lemma NewSectionFollows(b: Book, h: string, secs: seq<Section>, parts: seq<seq<Group>>, d: Doc)
    requires Follows(b, secs, parts, d) && b.chunk == []
    ensures Follows(b.(chunk := [], length := 0, chapter := Some(h)), secs + [Section(h, [])], parts + [[]], d)
  {
    assert Flat(parts[|secs| - 1]) == secs[|secs| - 1].paras;
    JoinedSnoc(parts, []);
    assert Joined(parts) + [] == Joined(parts);
    var secs', parts' := secs + [Section(h, [])], parts + [[]];
    forall i | 0 <= i < |secs|
      ensures parts'[i] == parts[i] && secs'[i] == secs[i]
    {
    }
  }

  lemma PageStepFollows(b: Book, text: string, secs: seq<Section>, parts: seq<seq<Group>>, d: Doc)
    returns (parts': seq<seq<Group>>)
    requires Follows(b, secs, parts, d)
    ensures Follows(PageStep(b, text, d), SectionStep(secs, text), parts', d)
  {
    if IsBlank(text) {
      AddNothing(secs);
      parts' := parts;
    } else {
      var paras := Split(text, "\n\n");
      assert paras[0..] == paras;
      var heading := DetectChapterTitle(text);
      if heading.Some? {
        var h := heading.value;
        var parts1 := ChapterStepFollows(b, text, h, secs, parts, d);
        parts' := ParasFromFollows(ChapterStep(b, text, d), paras, 0, secs + [Section(h, [])], parts1, d);
        assert [] + Paragraphs(text) == Paragraphs(text);
        assert AddToLast(secs + [Section(h, [])], Paragraphs(text)) == secs + [Section(h, Paragraphs(text))];
      } else {
        parts' := ParasFromFollows(b, paras, 0, secs, parts, d);
      }
    }
  }

  lemma {:induction false} PagesFromFollows(b: Book, pages: seq<string>, k: nat, parts: seq<seq<Group>>, d: Doc)
    returns (parts': seq<seq<Group>>)
    requires k <= |pages| && Follows(b, Sections(pages[..k], d), parts, d)
    ensures Follows(PagesFrom(b, pages, k, d), Sections(pages, d), parts', d)
    decreases |pages| - k
  {
    if k == |pages| {
      assert pages[..k] == pages;
      parts' := parts;
    } else {
      assert pages[..k + 1][..k] == pages[..k];
      var parts1 := PageStepFollows(b, pages[k], Sections(pages[..k], d), parts, d);
      parts' := PagesFromFollows(PageStep(b, pages[k], d), pages, k + 1, parts1, d);
    }
  }

  /**
   * The chunks respect the chapter sections: they fall into consecutive
   * runs, one per section, whose paragraphs are exactly the section's and
   * whose chunks are all titled with the section's title. So no chunk
   * holds paragraphs from both sides of a page that opens with a heading,
   * and a chunk's title is the heading of the last such page at or before
   * its first paragraph, or the document title when there is none.
   */
  lemma ChunksFollowSections(pages: seq<string>, d: Doc)
    ensures exists parts: seq<seq<Group>> ::
      && |parts| == |Sections(pages, d)|
      && Chunks(pages, d) == Joined(parts)
      && (forall i | 0 <= i < |parts| :: Flat(parts[i]) == Sections(pages, d)[i].paras)
      && (forall i, j | 0 <= i < |parts| && 0 <= j < |parts[i]| :: parts[i][j].title == Sections(pages, d)[i].title)
  {
    assert pages[..0] == [];
    assert Follows(Start, [Section(d.title, [])], [[]], d);
    var parts := PagesFromFollows(Start, pages, 0, [[]], d);
    parts := FinishFollows(PagesFrom(Start, pages, 0, d), Sections(pages, d), parts, d);
    assert Chunks(pages, d) == Joined(parts);
  }

  /** After the loop: the last chunk, if any, is closed and every section is complete. */
  lemma FinishFollows(b: Book, secs: seq<Section>, parts: seq<seq<Group>>, d: Doc)
    returns (parts': seq<seq<Group>>)
    requires Follows(b, secs, parts, d)
    ensures |parts'| == |secs|
    ensures (if b.chunk != [] then Close(b, d).groups else b.groups) == Joined(parts')
    ensures forall i | 0 <= i < |parts'| :: Flat(parts'[i]) == secs[i].paras
    ensures forall i, j | 0 <= i < |parts'| && 0 <= j < |parts'[i]| :: parts'[i][j].title == secs[i].title
  {
    parts' := parts;
    if b.chunk != [] {
      parts' := CloseFollows(b, secs, parts, d);
    }
    assert Flat(parts'[|parts'| - 1]) + [] == Flat(parts'[|parts'| - 1]);
  }

  // ---------------------------------------------------------------------
  // The published date
  // ---------------------------------------------------------------------

  /**
   * With the document information read, _process_pdf raises exactly when
   * the pages hold a paragraph and the date is rejected: a document
   * without paragraphs builds no item, so its date is never validated.
   */
  lemma ProcessPdfDateOutcome(info: DocInfo, pages: seq<string>, url: string, chunkSize: int, accepts: string -> bool)
    ensures ProcessPdfSpec(Some(info), pages, url, chunkSize, accepts).Raised?
        <==> AllParagraphs(pages, 0) != [] && DateRejected(DocOf(info, url, chunkSize), accepts)
  {
    var d := DocOf(info, url, chunkSize);
    var groups := Chunks(pages, d);
    ChunksKeepParagraphs(pages, d);
    ChunksSized(pages, d);
    if groups != [] {
      assert groups[|groups| - 1].paras != [];
    }
  }
}
