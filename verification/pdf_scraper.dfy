/**
 * PDFScraper.scrape: the page texts of the document, cleaned, converted to
 * markdown, split into sentences and packed into chunks of at most 6000
 * characters, one content item per chunk.
 */
module PdfScraping {
  import opened Wrappers
  import opened Text
  import opened Base
  import opened PdfText

  /** The chunk size the packing loop uses (the constructor's chunk_size is not read by scrape). */
  const ChunkLimit := 6000

  /** Where a document fetched over HTTP is written before it is opened. */
  const TempPdf := "temp_downloaded.pdf"

  /**
   * What scrape sees of the outside world.
   *   document: the page texts of the PDF at a URL (None for a page without
   *     text), after downloading it when the URL is an HTTP one; Raised
   *     when the download, the file write or opening the PDF fails.
   *   toMarkdown: html2text's handle with the scraper's settings.
   *   removeFails: whether deleting the downloaded file raises.
   */
  datatype PdfWorld = PdfWorld(
    document: string -> Fetch<seq<Option<string>>>,
    toMarkdown: string -> string,
    removeFails: bool)

  /** A URL is downloaded when its lowercased form starts with "http". */
  predicate IsRemote(url: string) {
    StartsWith(Lower(url), "http")
  }

  /** The file opened: the temporary file for a remote URL, else the URL itself. */
  function PdfPath(url: string): (p: string)
    ensures IsRemote(url) ==> p == TempPdf
    ensures !IsRemote(url) ==> p == url
  {
    if IsRemote(url) then TempPdf else url
  }

  // ---------------------------------------------------------------------
  // The text of the document
  // ---------------------------------------------------------------------

  /** The text of one page, "" when the page has none. */
  function PageText(page: Option<string>): string {
    if page.Some? then page.value else ""
  }

  /** The page texts, each followed by "\n". */
  function PagesText(pages: seq<Option<string>>): string {
    if pages == [] then "" else PagesText(pages[..|pages| - 1]) + PageText(pages[|pages| - 1]) + "\n"
  }

  /** The page loop: the text grows by each page's text and a newline. */
  method JoinPages(pages: seq<Option<string>>) returns (text: string)
    ensures text == PagesText(pages)
  {
    text := "";
    var i := 0;
    while i < |pages|
      invariant 0 <= i <= |pages|
      invariant text == PagesText(pages[..i])
    {
      assert pages[..i + 1][..i] == pages[..i];
      text := text + PageText(pages[i]) + "\n";
      i := i + 1;
    }
    assert pages[..|pages|] == pages;
  }

  /** One cleaning pass: strip, runs of three or more newlines to a blank line, filler lines dropped. */
  function CleanText(s: string): string {
    DropFiller(CollapseNewlines(Strip(s)))
  }

  /** The sentences of the cleaned markdown of the document. */
  function Sentences(pages: seq<Option<string>>, w: PdfWorld): seq<string> {
    SplitSentences(CleanText(w.toMarkdown(CleanText(PagesText(pages)))))
  }

  // ---------------------------------------------------------------------
  // Packing sentences into chunks
  // ---------------------------------------------------------------------

  /**
   * One turn of the packing loop: a blank sentence is skipped; a sentence
   * joins the current chunk (after a space) while the length plus one
   * stays within the limit; otherwise the current chunk is closed,
   * stripped, and the sentence starts the next one.
   */
  function Step(cur: string, chunks: seq<string>, s: string): (string, seq<string>) {
    if IsBlank(s) then (cur, chunks)
    else if |cur| + |s| + 1 <= ChunkLimit then (if cur != "" then cur + " " + s else s, chunks)
    else (s, chunks + [Strip(cur)])
  }

  /** After the loop: the last chunk is closed when non-empty. */
  function Close(cur: string, chunks: seq<string>): seq<string> {
    if cur != "" then chunks + [Strip(cur)] else chunks
  }

  /** The packing loop from sentence i on, given the chunk being built and the chunks so far. */
  function PackFrom(ss: seq<string>, i: nat, cur: string, chunks: seq<string>): seq<string>
    requires i <= |ss|
    decreases |ss| - i
  {
    if i == |ss| then Close(cur, chunks)
    else
      var (cur', chunks') := Step(cur, chunks, ss[i]);
      PackFrom(ss, i + 1, cur', chunks')
  }

  /** The chunks of a sentence list. */
  function Pack(ss: seq<string>): seq<string> {
    PackFrom(ss, 0, "", [])
  }

  /** The packing loop of scrape. */
  method PackSentences(ss: seq<string>) returns (chunks: seq<string>)
    ensures chunks == Pack(ss)
  {
    chunks := [];
    var cur := "";
    var i := 0;
    while i < |ss|
      invariant 0 <= i <= |ss|
      invariant PackFrom(ss, i, cur, chunks) == Pack(ss)
    {
      var sentence := ss[i];
      if !IsBlank(sentence) {
        if |cur| + |sentence| + 1 <= ChunkLimit {
          if cur != "" {
            cur := cur + " " + sentence;
          } else {
            cur := sentence;
          }
        } else {
          chunks := chunks + [Strip(cur)];
          cur := sentence;
        }
      }
      i := i + 1;
    }
    if cur != "" {
      chunks := chunks + [Strip(cur)];
    }
  }

  /** Closed chunks are never reopened. */
  lemma {:induction false} PackKeepsClosed(ss: seq<string>, i: nat, cur: string, chunks: seq<string>)
    requires i <= |ss|
    ensures |chunks| <= |PackFrom(ss, i, cur, chunks)|
    ensures PackFrom(ss, i, cur, chunks)[..|chunks|] == chunks
    decreases |ss| - i
  {
    if i < |ss| {
      var (cur', chunks') := Step(cur, chunks, ss[i]);
      PackKeepsClosed(ss, i + 1, cur', chunks');
      assert chunks'[..|chunks|] == chunks;
    } else {
      assert Close(cur, chunks)[..|chunks|] == chunks;
    }
  }

  /** A chunk adds its characters to the flattened chunks. */
  lemma OthersFlattenSnoc(chunks: seq<string>, c: string)
    ensures Others(Flatten(chunks + [c]), IsSpace) == Others(Flatten(chunks), IsSpace) + Others(c, IsSpace)
  {
    FlattenAppend(chunks, [c]);
    FlattenCons(c, []);
    assert c + [] == c;
    OthersAppend(Flatten(chunks), c, IsSpace);
  }

  lemma OthersBlank(s: string)
    requires IsBlank(s)
    ensures Others(s, IsSpace) == []
  {
    assert AllOf(s, IsSpace);
    OthersOfRun(s, IsSpace);
  }

  /** One turn keeps every character other than whitespace of the chunks, the current chunk and the sentence. */
  lemma StepKeepsText(cur: string, chunks: seq<string>, s: string)
    ensures var (cur', chunks') := Step(cur, chunks, s);
      Others(Flatten(chunks'), IsSpace) + Others(cur', IsSpace)
        == Others(Flatten(chunks), IsSpace) + Others(cur, IsSpace) + Others(s, IsSpace)
  {
    if IsBlank(s) {
      OthersBlank(s);
    } else if |cur| + |s| + 1 <= ChunkLimit {
      if cur != "" {
        assert AllOf(" ", IsSpace);
        OthersAroundRun(cur, " ", s);
      }
    } else {
      OthersFlattenSnoc(chunks, Strip(cur));
      StripKeepsText(cur);
    }
  }

  lemma OthersOfSuffix(ss: seq<string>, i: nat)
    requires i < |ss|
    ensures Others(Flatten(ss[i..]), IsSpace) == Others(ss[i], IsSpace) + Others(Flatten(ss[i + 1..]), IsSpace)
  {
    assert ss[i..] == [ss[i]] + ss[i + 1..];
    FlattenCons(ss[i], ss[i + 1..]);
    OthersAppend(ss[i], Flatten(ss[i + 1..]), IsSpace);
  }

  /** The loop from sentence i on keeps every character other than whitespace, in order. */
  lemma {:induction false} PackFromKeepsText(ss: seq<string>, i: nat, cur: string, chunks: seq<string>)
    requires i <= |ss|
    ensures Others(Flatten(PackFrom(ss, i, cur, chunks)), IsSpace)
         == Others(Flatten(chunks), IsSpace) + Others(cur, IsSpace) + Others(Flatten(ss[i..]), IsSpace)
    decreases |ss| - i
  {
    if i == |ss| {
      assert ss[i..] == [];
      if cur != "" {
        OthersFlattenSnoc(chunks, Strip(cur));
        StripKeepsText(cur);
      }
    } else {
      var next := Step(cur, chunks, ss[i]);
      assert PackFrom(ss, i, cur, chunks) == PackFrom(ss, i + 1, next.0, next.1);
      PackFromKeepsText(ss, i + 1, next.0, next.1);
      StepKeepsText(cur, chunks, ss[i]);
      OthersOfSuffix(ss, i);
      RegroupStep(Others(Flatten(PackFrom(ss, i, cur, chunks)), IsSpace),
        Others(Flatten(next.1), IsSpace), Others(next.0, IsSpace),
        Others(Flatten(chunks), IsSpace), Others(cur, IsSpace), Others(ss[i], IsSpace),
        Others(Flatten(ss[i + 1..]), IsSpace), Others(Flatten(ss[i..]), IsSpace));
    }
  }

  /** One packing step in the text count: what the step moved is regrouped with the sentences after it. */
  lemma RegroupStep(total: string, e: string, f: string, a: string, b: string, c: string, d: string, cd: string)
    requires total == e + f + d && e + f == a + b + c && cd == c + d
    ensures total == a + b + cd
  {
  }

  /** Packing only moves whitespace: the chunks hold every other character of the sentences, in order. */
  lemma PackKeepsText(ss: seq<string>)
    ensures Others(Flatten(Pack(ss)), IsSpace) == Others(Flatten(ss), IsSpace)
  {
    PackFromKeepsText(ss, 0, "", []);
    assert ss[0..] == ss;
    assert Flatten([]) == [];
  }

  /** The sentences that are not blank, in order. */
  function NonBlank(ss: seq<string>): seq<string> {
    if ss == [] then []
    else NonBlank(ss[..|ss| - 1]) + (if IsBlank(ss[|ss| - 1]) then [] else [ss[|ss| - 1]])
  }

  /** The groups one after the other. */
  function Concat(groups: seq<seq<string>>): seq<string> {
    if groups == [] then [] else Concat(groups[..|groups| - 1]) + groups[|groups| - 1]
  }

  /** One chunk per group: its sentences joined by single spaces, stripped. */
  function JoinGroups(groups: seq<seq<string>>): seq<string> {
    if groups == [] then []
    else JoinGroups(groups[..|groups| - 1]) + [Strip(JoinWith(groups[|groups| - 1], " "))]
  }

  /** The packing loop's state as groups: closed groups, and the group being built. */
  predicate GroupState(ss: seq<string>, i: nat, cur: string, chunks: seq<string>,
                       open: seq<string>, groups: seq<seq<string>>)
    requires i <= |ss|
  {
    && chunks == JoinGroups(groups)
    && cur == JoinWith(open, " ")
    && Concat(groups) + open == NonBlank(ss[..i])
    && (forall k | 0 <= k < |open| :: open[k] != "")
    && (forall k | 1 <= k < |groups| :: groups[k] != [])
    && (open == [] ==> groups == [])
  }

  lemma NonBlankSnoc(ss: seq<string>, i: nat)
    requires i < |ss|
    ensures NonBlank(ss[..i + 1]) == NonBlank(ss[..i]) + (if IsBlank(ss[i]) then [] else [ss[i]])
  {
    assert ss[..i + 1][..i] == ss[..i];
  }

  lemma SnocGroup(groups: seq<seq<string>>, g: seq<string>)
    ensures Concat(groups + [g]) == Concat(groups) + g
    ensures JoinGroups(groups + [g]) == JoinGroups(groups) + [Strip(JoinWith(g, " "))]
  {
    assert (groups + [g])[..|groups|] == groups;
  }

  lemma OpenJoin(open: seq<string>, s: string)
    requires forall k | 0 <= k < |open| :: open[k] != ""
    requires s != ""
    ensures JoinWith(open, " ") == "" <==> open == []
    ensures JoinWith(open + [s], " ") == if open != [] then JoinWith(open, " ") + " " + s else s
  {
    if open != [] {
      JoinWithNonEmpty(open, " ");
      JoinWithSnoc(open, s, " ");
    } else {
      assert [] + [s] == [s];
    }
  }

  /** One turn of the loop keeps the group picture. */
  lemma StepGroups(ss: seq<string>, i: nat, cur: string, chunks: seq<string>,
                   open: seq<string>, groups: seq<seq<string>>)
    returns (open': seq<string>, groups': seq<seq<string>>)
    requires i < |ss| && GroupState(ss, i, cur, chunks, open, groups)
    ensures GroupState(ss, i + 1, Step(cur, chunks, ss[i]).0, Step(cur, chunks, ss[i]).1, open', groups')
  {
    var s := ss[i];
    NonBlankSnoc(ss, i);
    if IsBlank(s) {
      open', groups' := open, groups;
    } else if |cur| + |s| + 1 <= ChunkLimit {
      open', groups' := JoinStepGroups(ss, i, cur, chunks, open, groups);
    } else {
      open', groups' := CloseStepGroups(ss, i, cur, chunks, open, groups);
    }
  }

  /** A sentence that fits joins the group being built. */
  lemma JoinStepGroups(ss: seq<string>, i: nat, cur: string, chunks: seq<string>,
                       open: seq<string>, groups: seq<seq<string>>)
    returns (open': seq<string>, groups': seq<seq<string>>)
    requires i < |ss| && GroupState(ss, i, cur, chunks, open, groups)
    requires !IsBlank(ss[i]) && |cur| + |ss[i]| + 1 <= ChunkLimit
    requires NonBlank(ss[..i + 1]) == NonBlank(ss[..i]) + [ss[i]]
    ensures GroupState(ss, i + 1, if cur != "" then cur + " " + ss[i] else ss[i], chunks, open', groups')
  {
    var s := ss[i];
    assert s != "";
    OpenJoin(open, s);
    open', groups' := open + [s], groups;
    assert Concat(groups) + (open + [s]) == Concat(groups) + open + [s];
  }

  /** A sentence that does not fit closes the group being built and starts the next. */
  lemma CloseStepGroups(ss: seq<string>, i: nat, cur: string, chunks: seq<string>,
                        open: seq<string>, groups: seq<seq<string>>)
    returns (open': seq<string>, groups': seq<seq<string>>)
    requires i < |ss| && GroupState(ss, i, cur, chunks, open, groups)
    requires !IsBlank(ss[i])
    requires NonBlank(ss[..i + 1]) == NonBlank(ss[..i]) + [ss[i]]
    ensures GroupState(ss, i + 1, ss[i], chunks + [Strip(cur)], open', groups')
  {
    var s := ss[i];
    open', groups' := [s], groups + [open];
    SnocGroup(groups, open);
    NonEmptyGroupsSnoc(groups, open);
    SingleGroup(s);
    GroupStateIntro(ss, i + 1, s, chunks + [Strip(cur)], [s], groups + [open]);
  }

  lemma SingleGroup(s: string)
    requires !IsBlank(s)
    ensures JoinWith([s], " ") == s && forall k | 0 <= k < |[s]| :: [s][k] != ""
  {
  }

  lemma GroupStateIntro(ss: seq<string>, i: nat, cur: string, chunks: seq<string>,
                        open: seq<string>, groups: seq<seq<string>>)
    requires i <= |ss|
    requires chunks == JoinGroups(groups)
    requires cur == JoinWith(open, " ")
    requires Concat(groups) + open == NonBlank(ss[..i])
    requires forall k | 0 <= k < |open| :: open[k] != ""
    requires forall k | 1 <= k < |groups| :: groups[k] != []
    requires open == [] ==> groups == []
    ensures GroupState(ss, i, cur, chunks, open, groups)
  {
  }

  lemma NonEmptyGroupsSnoc(groups: seq<seq<string>>, open: seq<string>)
    requires forall k | 1 <= k < |groups| :: groups[k] != []
    requires open == [] ==> groups == []
    ensures forall k | 1 <= k < |groups + [open]| :: (groups + [open])[k] != []
  {
  }

  lemma {:induction false} PackFromGroups(ss: seq<string>, i: nat, cur: string, chunks: seq<string>,
                                          open: seq<string>, groups: seq<seq<string>>)
    returns (all: seq<seq<string>>)
    requires i <= |ss| && GroupState(ss, i, cur, chunks, open, groups)
    ensures Concat(all) == NonBlank(ss) && PackFrom(ss, i, cur, chunks) == JoinGroups(all)
    ensures forall k | 1 <= k < |all| :: all[k] != []
    decreases |ss| - i
  {
    if i == |ss| {
      assert ss[..i] == ss;
      if open != [] {
        JoinWithNonEmpty(open, " ");
        all := groups + [open];
        SnocGroup(groups, open);
      } else {
        all := groups;
        assert Concat(groups) + [] == Concat(groups);
      }
    } else {
      var next := Step(cur, chunks, ss[i]);
      var open', groups' := StepGroups(ss, i, cur, chunks, open, groups);
      all := PackFromGroups(ss, i + 1, next.0, next.1, open', groups');
    }
  }

  /**
   * Each chunk is a run of consecutive sentences that are not blank,
   * joined by single spaces and stripped; the runs together are exactly
   * the sentences that are not blank, in order. Only the first run may be
   * empty (see PackEmptyChunks).
   */
  lemma PackGroups(ss: seq<string>)
    ensures exists groups ::
      && Concat(groups) == NonBlank(ss)
      && Pack(ss) == JoinGroups(groups)
      && (forall k | 1 <= k < |groups| :: groups[k] != [])
  {
    assert ss[..0] == [];
    var all := PackFromGroups(ss, 0, "", [], [], []);
  }

  /** A chunk within the limit, or a single sentence (stripped) that alone exceeds it. */
  predicate FitsOrSingle(ss: seq<string>, c: string) {
    |c| <= ChunkLimit || exists j | 0 <= j < |ss| :: c == Strip(ss[j])
  }

  /** Every chunk so far fits or is a single sentence. */
  predicate AllFit(ss: seq<string>, chunks: seq<string>) {
    forall k | 0 <= k < |chunks| :: FitsOrSingle(ss, chunks[k])
  }

  /** The chunk being built is within the limit or is one of the sentences. */
  predicate CurFits(ss: seq<string>, cur: string) {
    |cur| <= ChunkLimit || exists j | 0 <= j < |ss| :: cur == ss[j]
  }

  /** Closing a chunk being built that fits adds a chunk that fits. */
  lemma CloseFits(ss: seq<string>, cur: string, chunks: seq<string>)
    requires CurFits(ss, cur) && AllFit(ss, chunks)
    ensures AllFit(ss, chunks + [Strip(cur)])
  {
    if |cur| > ChunkLimit {
      var j :| 0 <= j < |ss| && cur == ss[j];
      assert Strip(cur) == Strip(ss[j]);
    }
    assert FitsOrSingle(ss, Strip(cur));
    var r := chunks + [Strip(cur)];
    forall k | 0 <= k < |r| ensures FitsOrSingle(ss, r[k]) {
      if k < |chunks| {
        assert r[k] == chunks[k];
      }
    }
  }

  lemma {:induction false} PackFromBounded(ss: seq<string>, i: nat, cur: string, chunks: seq<string>)
    requires i <= |ss|
    requires CurFits(ss, cur) && AllFit(ss, chunks)
    ensures AllFit(ss, PackFrom(ss, i, cur, chunks))
    decreases |ss| - i
  {
    if i == |ss| {
      if cur != "" {
        CloseFits(ss, cur, chunks);
      }
    } else {
      var next := Step(cur, chunks, ss[i]);
      assert PackFrom(ss, i, cur, chunks) == PackFrom(ss, i + 1, next.0, next.1);
      if next.1 != chunks {
        CloseFits(ss, cur, chunks);
      }
      assert |next.0| <= ChunkLimit || next.0 == ss[i] || next.0 == cur;
      PackFromBounded(ss, i + 1, next.0, next.1);
    }
  }

  /** No chunk is longer than the limit, unless it is one sentence that alone is too long. */
  lemma PackBounded(ss: seq<string>)
    ensures forall k | 0 <= k < |Pack(ss)| :: |Pack(ss)[k]| <= ChunkLimit || exists j | 0 <= j < |ss| :: Pack(ss)[k] == Strip(ss[j])
  {
    PackFromBounded(ss, 0, "", []);
  }

  /** A string with a character other than whitespace keeps one after anything is appended. */
  lemma NotBlankAppend(a: string, b: string)
    requires !IsBlank(a)
    ensures !IsBlank(a + b)
  {
    var k :| 0 <= k < |a| && !IsSpace(a[k]);
    assert (a + b)[k] == a[k];
  }

  /** One packing step keeps the current chunk empty or not blank; a chunk it closes is empty only in the first-chunk case. */
  lemma StepEmptyChunk(cur: string, chunks: seq<string>, s: string)
    requires cur == "" || !IsBlank(cur)
    requires chunks != [] ==> cur != ""
    ensures var (cur', chunks') := Step(cur, chunks, s);
      && (cur' == "" || !IsBlank(cur'))
      && (chunks' != [] ==> cur' != "")
      && (chunks' == chunks || chunks' == chunks + [Strip(cur)])
      && (chunks' != chunks && Strip(cur) == "" ==>
            chunks == [] && cur == "" && !IsBlank(s) && |s| + 1 > ChunkLimit)
  {
    if cur != "" {
      BlankIffStripEmpty(cur);
    }
    if cur != "" && !IsBlank(s) && |cur| + |s| + 1 <= ChunkLimit {
      NotBlankAppend(cur, " " + s);
      assert cur + " " + s == cur + (" " + s);
    }
  }

  lemma {:induction false} PackFromEmptyChunks(ss: seq<string>, i: nat, cur: string, chunks: seq<string>)
    requires i <= |ss|
    requires cur == "" || !IsBlank(cur)
    requires chunks != [] ==> cur != ""
    ensures forall k | |chunks| <= k < |PackFrom(ss, i, cur, chunks)| :: PackFrom(ss, i, cur, chunks)[k] == "" ==>
      k == 0 && cur == "" && exists j | i <= j < |ss| :: !IsBlank(ss[j]) && |ss[j]| + 1 > ChunkLimit
    decreases |ss| - i
  {
    if i == |ss| {
      if cur != "" {
        BlankIffStripEmpty(cur);
      }
    } else {
      var next := Step(cur, chunks, ss[i]);
      StepEmptyChunk(cur, chunks, ss[i]);
      PackFromEmptyChunks(ss, i + 1, next.0, next.1);
      PackKeepsClosed(ss, i + 1, next.0, next.1);
      var r := PackFrom(ss, i, cur, chunks);
      assert r == PackFrom(ss, i + 1, next.0, next.1);
      forall k | |chunks| <= k < |r| && r[k] == ""
        ensures k == 0 && cur == "" && exists j | i <= j < |ss| :: !IsBlank(ss[j]) && |ss[j]| + 1 > ChunkLimit
      {
        if k < |next.1| {
          assert r[k] == next.1[k];
          assert next.1 == chunks + [Strip(cur)];
          assert !IsBlank(ss[i]) && |ss[i]| + 1 > ChunkLimit;
        }
      }
    }
  }

  /**
   * Only the first chunk can be empty, and only when the first sentence
   * that is not blank is too long to fit on its own: the loop then closes
   * the still empty current chunk.
   */
  lemma PackEmptyChunks(ss: seq<string>)
    ensures forall k | 0 <= k < |Pack(ss)| :: Pack(ss)[k] == "" ==>
      k == 0 && exists j | 0 <= j < |ss| :: !IsBlank(ss[j]) && |ss[j]| + 1 > ChunkLimit
  {
    PackFromEmptyChunks(ss, 0, "", []);
  }

  lemma {:induction false} PackSkipsBlanks(ss: seq<string>, i: nat, j: nat, cur: string, chunks: seq<string>)
    requires i <= j <= |ss|
    requires forall k | i <= k < j :: IsBlank(ss[k])
    ensures PackFrom(ss, i, cur, chunks) == PackFrom(ss, j, cur, chunks)
    decreases j - i
  {
    if i < j {
      PackSkipsBlanks(ss, i, j - 1, cur, chunks);
      BlankStep(ss, j - 1, cur, chunks);
    }
  }

  /** A blank sentence changes nothing. */
  lemma BlankStep(ss: seq<string>, i: nat, cur: string, chunks: seq<string>)
    requires i < |ss| && IsBlank(ss[i])
    ensures PackFrom(ss, i, cur, chunks) == PackFrom(ss, i + 1, cur, chunks)
  {
    assert Step(cur, chunks, ss[i]) == (cur, chunks);
  }

  /** When the first sentence that is not blank is too long, the first chunk is empty. */
  lemma PackOversizedFirst(ss: seq<string>, j: nat)
    requires j < |ss| && forall k | 0 <= k < j :: IsBlank(ss[k])
    requires !IsBlank(ss[j]) && |ss[j]| + 1 > ChunkLimit
    ensures Pack(ss) != [] && Pack(ss)[0] == ""
  {
    PackSkipsBlanks(ss, 0, j, "", []);
    OverflowStep(ss, j, "", []);
    BlankIffStripEmpty("");
    EmptyFirstChunk(Strip(""));
    PackKeepsClosed(ss, j + 1, ss[j], [""]);
    FirstOfClosed(PackFrom(ss, j + 1, ss[j], [""]));
  }

  /** A sentence that does not fit closes the current chunk and starts the next. */
  lemma OverflowStep(ss: seq<string>, j: nat, cur: string, chunks: seq<string>)
    requires j < |ss| && !IsBlank(ss[j]) && |cur| + |ss[j]| + 1 > ChunkLimit
    ensures PackFrom(ss, j, cur, chunks) == PackFrom(ss, j + 1, ss[j], chunks + [Strip(cur)])
  {
  }

  lemma EmptyFirstChunk(e: string)
    requires e == ""
    ensures [] + [e] == [""]
  {
  }

  lemma FirstOfClosed(r: seq<string>)
    requires 1 <= |r| && r[..1] == [""]
    ensures r != [] && r[0] == ""
  {
    assert r[0] == r[..1][0];
  }

  // ---------------------------------------------------------------------
  // Items
  // ---------------------------------------------------------------------

  /** The title of chunk k of n: the file name, with " (part k+1)" when there are several chunks. */
  function ChunkTitle(name: string, k: nat, n: nat): string {
    if n > 1 then name + " (part " + IntToString(k + 1) + ")" else name
  }

  /** The item of chunk k of n. */
  function ChunkItem(url: string, name: string, chunks: seq<string>, k: nat): (item: ContentItem)
    requires k < |chunks|
    ensures item.content == chunks[k] && item.contentType == "blog"
    ensures item.sourceUrl == Some(url) && item.author == Some("") && item.userId == ""
  {
    ContentItem(ChunkTitle(name, k, |chunks|), chunks[k], "blog", Some(url), Some(""), None, map[], "")
  }

  /** One item per chunk, in order. */
  function ChunkItems(url: string, name: string, chunks: seq<string>): (items: seq<ContentItem>)
    ensures |items| == |chunks|
  {
    seq(|chunks|, k requires 0 <= k < |chunks| => ChunkItem(url, name, chunks, k))
  }

  /** The item loop of scrape. */
  method MakeItems(url: string, name: string, chunks: seq<string>) returns (items: seq<ContentItem>)
    ensures items == ChunkItems(url, name, chunks)
  {
    items := [];
    var k := 0;
    while k < |chunks|
      invariant 0 <= k <= |chunks|
      invariant items == ChunkItems(url, name, chunks)[..k]
    {
      items := items + [ChunkItem(url, name, chunks, k)];
      k := k + 1;
    }
  }

  /** The part number can be read back from a part title. */
  lemma PartTitleNumber(name: string, k: nat, n: nat)
    requires n > 1
    ensures var t := ChunkTitle(name, k, n);
      |name| + 7 < |t| && t[|name| + 7..|t| - 1] == NatToString(k + 1)
  {
    var t := ChunkTitle(name, k, n);
    assert t == name + " (part " + NatToString(k + 1) + ")";
  }

  /** Several chunks get pairwise distinct titles. */
  lemma PartTitlesDistinct(name: string, k1: nat, k2: nat, n: nat)
    requires n > 1 && k1 != k2
    ensures ChunkTitle(name, k1, n) != ChunkTitle(name, k2, n)
  {
    PartTitleNumber(name, k1, n);
    PartTitleNumber(name, k2, n);
    NatToStringRoundTrip(k1 + 1);
    NatToStringRoundTrip(k2 + 1);
    assert NatToString(k1 + 1) != NatToString(k2 + 1);
  }

  // ---------------------------------------------------------------------
  // scrape
  // ---------------------------------------------------------------------

  /** The chunk items of a document whose pages were read. */
  function DocumentItems(url: string, pages: seq<Option<string>>, w: PdfWorld): seq<ContentItem> {
    ChunkItems(url, Basename(PdfPath(url)), Pack(Sentences(pages, w)))
  }

  /**
   * scrape as written: a failure inside the try block reaches the handler,
   * which calls self.logger; PDFScraper and BaseScraper define no logger,
   * so the handler itself raises.
   */
  function ScrapePdfAsWritten(url: string, w: PdfWorld): Fetch<seq<ContentItem>> {
    var doc := w.document(url);
    if doc.Raised? || (IsRemote(url) && w.removeFails) then Raised
    else Got(DocumentItems(url, doc.value, w))
  }

  /** scrape as evidently intended: the handler logs and returns no items. */
  function ScrapePdf(url: string, w: PdfWorld): seq<ContentItem> {
    var doc := w.document(url);
    if doc.Raised? || (IsRemote(url) && w.removeFails) then []
    else DocumentItems(url, doc.value, w)
  }

  /** A document that cannot be read makes scrape raise instead of returning no items. */
  lemma UnreadableDocumentRaises(url: string, w: PdfWorld)
    requires w.document(url).Raised?
    ensures ScrapePdfAsWritten(url, w).Raised?
    ensures ScrapePdf(url, w) == []
  {
  }

  /** The two versions differ only where the written one raises, and then the intended one has no items. */
  lemma ScrapePdfAgrees(url: string, w: PdfWorld)
    ensures ScrapePdfAsWritten(url, w).Got? ==> ScrapePdfAsWritten(url, w).value == ScrapePdf(url, w)
    ensures ScrapePdfAsWritten(url, w).Raised? ==> ScrapePdf(url, w) == []
  {
  }

  /** The items of a chunk list: "blog" items sourced at the URL, titled by the file name and the part number. */
  lemma ChunkItemsShape(url: string, name: string, chunks: seq<string>)
    ensures var items := ChunkItems(url, name, chunks);
      forall k | 0 <= k < |items| ::
        items[k].contentType == "blog" && items[k].sourceUrl == Some(url) && items[k].author == Some("")
        && items[k].content == chunks[k] && items[k].title == ChunkTitle(name, k, |chunks|)
  {
  }

  /**
   * What scrape returns: one "blog" item per chunk, sourced at the URL,
   * with an empty author, titled by the file name (numbered from 1 when
   * there are several chunks); no item at all when reading fails.
   */
  lemma ScrapePdfShape(url: string, w: PdfWorld)
    ensures var items := ScrapePdf(url, w);
      forall k | 0 <= k < |items| ::
        items[k].contentType == "blog" && items[k].sourceUrl == Some(url) && items[k].author == Some("")
        && items[k].title == ChunkTitle(Basename(PdfPath(url)), k, |items|)
    ensures w.document(url).Raised? ==> ScrapePdf(url, w) == []
  {
    var doc := w.document(url);
    if !(doc.Raised? || (IsRemote(url) && w.removeFails)) {
      var chunks := Pack(Sentences(doc.value, w));
      ChunkItemsShape(url, Basename(PdfPath(url)), chunks);
      assert ScrapePdf(url, w) == ChunkItems(url, Basename(PdfPath(url)), chunks);
    }
  }

  /** scrape, step by step (the evidently intended version). */
  method Scrape(url: string, w: PdfWorld) returns (items: seq<ContentItem>)
    ensures items == ScrapePdf(url, w)
  {
    var doc := w.document(url);
    if doc.Raised? || (IsRemote(url) && w.removeFails) {
      return [];
    }
    var path := PdfPath(url);
    var full := JoinPages(doc.value);
    var markdown := CleanText(w.toMarkdown(CleanText(full)));
    var chunks := PackSentences(SplitSentences(markdown));
    items := MakeItems(url, Basename(path), chunks);
  }
}
