/**
 * The text rules of the PDF scraper: which URLs it claims, the filler
 * line filter, the sentence split, the content normalisation, file base
 * names and chapter title detection.
 */
module PdfText {
  import opened Wrappers
  import opened Text

  /** can_handle: the lowercased URL ends with ".pdf". */
  predicate CanHandle(url: string) {
    EndsWith(Lower(url), ".pdf")
  }

  // ---------------------------------------------------------------------
  // Filler lines
  // ---------------------------------------------------------------------

  /** The class [.\s·•\-]. */
  predicate IsFillerChar(c: char) {
    c == '.' || IsSpace(c) || c == '·' || c == '•' || c == '-'
  }

  /** re.fullmatch(r'[.\s·•\-]{5,}', line.strip()): at least five characters, all of the filler class. */
  predicate IsFiller(line: string) {
    var t := Strip(line);
    |t| >= 5 && forall i | 0 <= i < |t| :: IsFillerChar(t[i])
  }

  /** The lines that are not filler, in order. */
  function KeepContentLines(lines: seq<string>): (r: seq<string>)
    ensures |r| <= |lines|
    ensures forall l | l in r :: l in lines && !IsFiller(l)
    ensures forall l | l in lines && !IsFiller(l) :: l in r
  {
    if lines == [] then []
    else (if IsFiller(lines[0]) then [] else [lines[0]]) + KeepContentLines(lines[1..])
  }

  /** The filter works line by line: filtering a concatenation filters each part, so the order is kept. */
  lemma {:induction false} KeepContentLinesAppend(a: seq<string>, b: seq<string>)
    ensures KeepContentLines(a + b) == KeepContentLines(a) + KeepContentLines(b)
  {
    if a == [] {
      assert a + b == b;
    } else {
      var f := if IsFiller(a[0]) then [] else [a[0]];
      SeqUncons(a, b);
      KeepContentLinesCons(a[0], a[1..] + b);
      KeepContentLinesCons(a[0], a[1..]);
      KeepContentLinesAppend(a[1..], b);
      SeqAssoc(f, KeepContentLines(a[1..]), KeepContentLines(b));
    }
  }

  lemma SeqUncons(a: seq<string>, b: seq<string>)
    requires a != []
    ensures a == [a[0]] + a[1..] && a + b == [a[0]] + (a[1..] + b)
  {
    assert a == [a[0]] + a[1..];
  }

  lemma SeqAssoc(x: seq<string>, y: seq<string>, z: seq<string>)
    ensures x + (y + z) == x + y + z
  {
  }

  lemma KeepContentLinesCons(l: string, ls: seq<string>)
    ensures KeepContentLines([l] + ls) == (if IsFiller(l) then [] else [l]) + KeepContentLines(ls)
  {
    assert ([l] + ls)[1..] == ls;
  }

  /** The filler filter of the scraper: the lines of the text without the filler lines, joined with "\n". */
  function DropFiller(text: string): string {
    JoinWith(KeepContentLines(SplitLines(text)), "\n")
  }

  /** A dotted leader is filler; four dots or a line with a word are not. */
  lemma FillerExamples()
    ensures IsFiller(".....")
    ensures !IsFiller("....")
    ensures !IsFiller("a.....")
  {
    StripNoEdge(".....");
    StripNoEdge("a.....");
  }

  // ---------------------------------------------------------------------
  // Sentences
  // ---------------------------------------------------------------------

  predicate IsSentenceEnd(c: char) {
    c == '.' || c == '!' || c == '?'
  }

  /** re.split(r'(?<=[.!?])\s+', s) splits at i: whitespace that follows a sentence end. */
  predicate BreakAt(s: string, i: int) {
    1 <= i < |s| && IsSentenceEnd(s[i - 1]) && IsSpace(s[i])
  }

  /** The first split point at or after k (k >= 1), or |s| when there is none. */
  function FirstBreakFrom(s: string, k: nat): (i: nat)
    requires 1 <= k
    ensures k <= i || i == |s|
    ensures i <= |s| && (i < |s| ==> BreakAt(s, i))
    ensures forall j | k <= j < i :: !BreakAt(s, j)
    decreases |s| - k
  {
    if k >= |s| then |s|
    else if BreakAt(s, k) then k
    else FirstBreakFrom(s, k + 1)
  }

  /**
   * re.split(r'(?<=[.!?])\s+', s): the pieces between the whitespace runs
   * that follow a sentence end (a run is only ever entered at its start,
   * since inside it the previous character is whitespace).
   */
  function SplitSentences(s: string): (parts: seq<string>)
    ensures |parts| >= 1
    decreases |s|
  {
    var i := FirstBreakFrom(s, 1);
    if i == |s| then [s]
    else [s[..i]] + SplitSentences(s[i + RunLength(s[i..], IsSpace)..])
  }

  /** A piece with no split point in it. */
  predicate NoBreak(p: string) {
    forall j | 0 <= j <= |p| :: !BreakAt(p, j)
  }

  /** No piece of the split holds a split point of its own. */
  lemma {:induction false} SplitSentencesNoBreak(s: string)
    ensures forall k | 0 <= k < |SplitSentences(s)| :: NoBreak(SplitSentences(s)[k])
    decreases |s|
  {
    PrefixNoBreak(s, FirstBreakFrom(s, 1));
    if FirstBreakFrom(s, 1) < |s| {
      var i, n := SplitSentencesStep(s);
      var rest := s[i + n..];
      SplitSentencesNoBreak(rest);
      NoBreakCons(s[..i], SplitSentences(rest));
    } else {
      assert s[..|s|] == s;
      assert SplitSentences(s) == [s];
    }
  }

  /** The text before the first split point has none of its own. */
  lemma PrefixNoBreak(s: string, i: nat)
    requires i <= |s| && forall j | 1 <= j < i :: !BreakAt(s, j)
    ensures NoBreak(s[..i])
  {
    forall j | 0 <= j <= i
      ensures !BreakAt(s[..i], j)
    {
      if 1 <= j < i {
        assert !BreakAt(s, j);
      }
    }
  }

  lemma NoBreakCons(x: string, ps: seq<string>)
    requires NoBreak(x)
    requires forall k | 0 <= k < |ps| :: NoBreak(ps[k])
    ensures forall k | 0 <= k < |[x] + ps| :: NoBreak(([x] + ps)[k])
  {
    forall k | 0 <= k < |[x] + ps| ensures NoBreak(([x] + ps)[k]) {
      if k > 0 {
        assert ([x] + ps)[k] == ps[k - 1];
      }
    }
  }

  /** The split only removes whitespace: the other characters of the pieces are those of the text, in order. */
  lemma {:induction false} SplitSentencesKeepsText(s: string)
    ensures Others(Flatten(SplitSentences(s)), IsSpace) == Others(s, IsSpace)
    decreases |s|
  {
    var i := FirstBreakFrom(s, 1);
    if i == |s| {
      assert SplitSentences(s) == [s];
      FlattenCons(s, []);
      assert s + [] == s;
    } else {
      var n := RunLength(s[i..], IsSpace);
      var head, rest := s[..i], s[i + n..];
      var pieces := SplitSentences(rest);
      assert SplitSentences(s) == [head] + pieces;
      FlattenCons(head, pieces);
      SplitSentencesKeepsText(rest);
      OthersAppend(head, Flatten(pieces), IsSpace);
      OthersSkipRun(s, i, n);
    }
  }

  /** The whitespace runs the split drops, one between each two neighbouring pieces. */
  function SentenceGaps(s: string): (gaps: seq<string>)
    ensures |gaps| == |SplitSentences(s)| - 1
    decreases |s|
  {
    var i := FirstBreakFrom(s, 1);
    if i == |s| then []
    else
      var n := RunLength(s[i..], IsSpace);
      [s[i..i + n]] + SentenceGaps(s[i + n..])
  }

  /** parts[0] + gaps[0] + parts[1] + ... + parts[|gaps|]. */
  function Interleave(parts: seq<string>, gaps: seq<string>): string
    requires |parts| == |gaps| + 1
    decreases |gaps|
  {
    if gaps == [] then parts[0]
    else parts[0] + gaps[0] + Interleave(parts[1..], gaps[1..])
  }

  predicate EndsSentence(p: string) {
    p != [] && IsSentenceEnd(p[|p| - 1])
  }

  predicate StartsWithSpace(p: string) {
    p != [] && IsSpace(p[0])
  }

  /** One cut of the split: the piece before the first split point, the run there, and the rest. */
  lemma SplitSentencesStep(s: string) returns (i: nat, n: nat)
    requires FirstBreakFrom(s, 1) < |s|
    ensures i == FirstBreakFrom(s, 1)
    ensures 1 <= i && i + n <= |s| && 1 <= n
    ensures SplitSentences(s) == [s[..i]] + SplitSentences(s[i + n..])
    ensures SentenceGaps(s) == [s[i..i + n]] + SentenceGaps(s[i + n..])
    ensures EndsSentence(s[..i]) && AllSpace(s[i..i + n])
    ensures !StartsWithSpace(s[i + n..])
  {
    i := FirstBreakFrom(s, 1);
    n := RunLength(s[i..], IsSpace);
    RunPieces(s, i, n);
  }

  lemma RunPieces(s: string, i: nat, n: nat)
    requires BreakAt(s, i) && i + n <= |s|
    requires AllOf(s[i..][..n], IsSpace) && (n < |s[i..]| ==> !IsSpace(s[i..][n]))
    ensures 1 <= n && EndsSentence(s[..i]) && AllSpace(s[i..i + n])
    ensures !StartsWithSpace(s[i + n..])
  {
    assert s[i..][..n] == s[i..i + n];
  }

  lemma ThreePieces(s: string, i: nat, n: nat)
    requires i + n <= |s|
    ensures s == s[..i] + s[i..i + n] + s[i + n..]
  {
  }

  /**
   * The split is a round trip: the pieces with the dropped runs put back
   * between them give the text again; every dropped run is non-empty
   * whitespace, every piece but the last ends a sentence, and no piece
   * after the first starts with whitespace (each run is dropped whole).
   */
  lemma {:induction false} SplitSentencesRoundTrip(s: string)
    ensures Interleave(SplitSentences(s), SentenceGaps(s)) == s
    ensures forall k | 0 <= k < |SentenceGaps(s)| ::
      SentenceGaps(s)[k] != [] && AllSpace(SentenceGaps(s)[k]) && EndsSentence(SplitSentences(s)[k])
    ensures forall k | 1 <= k < |SplitSentences(s)| :: !StartsWithSpace(SplitSentences(s)[k])
    decreases |s|
  {
    if FirstBreakFrom(s, 1) == |s| {
      assert SplitSentences(s) == [s];
      assert SentenceGaps(s) == [];
    } else {
      var i, n := SplitSentencesStep(s);
      ThreePieces(s, i, n);
      var rest := s[i + n..];
      SplitSentencesRoundTrip(rest);
      FirstPieceStart(rest);
      GapsCons(s[..i], s[i..i + n], SplitSentences(rest), SentenceGaps(rest));
    }
  }

  /** The first piece starts where the text does. */
  lemma FirstPieceStart(s: string)
    ensures StartsWithSpace(SplitSentences(s)[0]) ==> StartsWithSpace(s)
  {
    var i := FirstBreakFrom(s, 1);
    if i < |s| {
      assert SplitSentences(s)[0] == s[..i];
    }
  }

  /** The round-trip facts carry over when a piece and a run are put in front. */
  lemma GapsCons(p: string, g: string, ps: seq<string>, gs: seq<string>)
    requires |ps| == |gs| + 1
    requires g != [] && AllSpace(g) && EndsSentence(p) && !StartsWithSpace(ps[0])
    requires forall k | 0 <= k < |gs| :: gs[k] != [] && AllSpace(gs[k]) && EndsSentence(ps[k])
    requires forall k | 1 <= k < |ps| :: !StartsWithSpace(ps[k])
    ensures Interleave([p] + ps, [g] + gs) == p + g + Interleave(ps, gs)
    ensures forall k | 0 <= k < |[g] + gs| ::
      ([g] + gs)[k] != [] && AllSpace(([g] + gs)[k]) && EndsSentence(([p] + ps)[k])
    ensures forall k | 1 <= k < |[p] + ps| :: !StartsWithSpace(([p] + ps)[k])
  {
    assert ([p] + ps)[1..] == ps;
    assert ([g] + gs)[1..] == gs;
    forall k | 1 <= k < |[p] + ps|
      ensures ([p] + ps)[k] == ps[k - 1]
    {
    }
    forall k | 1 <= k < |[g] + gs|
      ensures ([g] + gs)[k] == gs[k - 1]
    {
    }
  }

  // ---------------------------------------------------------------------
  // normalize_content
  // ---------------------------------------------------------------------

  predicate IsUpper(c: char) {
    'A' <= c <= 'Z'
  }

  /**
   * re.sub(r'([.!?])\s+([A-Z])', r'\1\n\n\2', s): from left to right, the
   * whitespace between a sentence end and a capital letter becomes a
   * blank line.
   */
  function Breaks(s: string): string
    decreases |s|
  {
    if s == [] then []
    else if IsSentenceEnd(s[0]) && |s| >= 2 && IsSpace(s[1]) then
      var n := RunLength(s[1..], IsSpace);
      if 1 + n < |s| && IsUpper(s[1 + n]) then [s[0]] + "\n\n" + [s[1 + n]] + Breaks(s[2 + n..])
      else [s[0]] + Breaks(s[1..])
    else [s[0]] + Breaks(s[1..])
  }

  /** Dropping a whitespace run from between two strings keeps the other characters. */
  lemma OthersAroundRun(x: string, ws: string, y: string)
    requires AllOf(ws, IsSpace)
    ensures Others(x + ws + y, IsSpace) == Others(x, IsSpace) + Others(y, IsSpace)
  {
    OthersAppend(x + ws, y, IsSpace);
    OthersAppend(x, ws, IsSpace);
    OthersOfRun(ws, IsSpace);
  }

  /** Dropping the whitespace run s[i..i + n] keeps the other characters. */
  lemma OthersSkipRun(s: string, i: nat, n: nat)
    requires i + n <= |s| && AllOf(s[i..][..n], IsSpace)
    ensures Others(s, IsSpace) == Others(s[..i], IsSpace) + Others(s[i + n..], IsSpace)
  {
    assert s == s[..i] + s[i..][..n] + s[i + n..];
    OthersAroundRun(s[..i], s[i..][..n], s[i + n..]);
  }

  /** One rewrite step: the run between s[0] and s[1 + n] becomes "\n\n". */
  lemma BreakStepKeepsText(s: string, n: nat, tail: string)
    requires 2 + n <= |s| && AllOf(s[1..][..n], IsSpace)
    requires Others(tail, IsSpace) == Others(s[2 + n..], IsSpace)
    ensures Others([s[0]] + "\n\n" + [s[1 + n]] + tail, IsSpace) == Others(s, IsSpace)
  {
    var c0, run, c1, rest := [s[0]], s[1..][..n], [s[1 + n]], s[2 + n..];
    assert AllOf("\n\n", IsSpace);
    BreakPieces(s, n, tail);
    OthersAroundRun(c0, "\n\n", c1 + tail);
    OthersAppend(c1, tail, IsSpace);
    OthersAroundRun(c0, run, c1 + rest);
    OthersAppend(c1, rest, IsSpace);
  }

  /** The pieces of a string around the run s[1..1 + n], before and after the rewrite. */
  lemma BreakPieces(s: string, n: nat, tail: string)
    requires 2 + n <= |s|
    ensures [s[0]] + "\n\n" + [s[1 + n]] + tail == [s[0]] + "\n\n" + ([s[1 + n]] + tail)
    ensures s == [s[0]] + s[1..][..n] + ([s[1 + n]] + s[2 + n..])
  {
    assert s == [s[0]] + s[1..][..n] + ([s[1 + n]] + s[2 + n..]);
  }

  /** Inserting blank lines only changes whitespace. */
  lemma {:induction false} BreaksKeepsText(s: string)
    ensures Others(Breaks(s), IsSpace) == Others(s, IsSpace)
    decreases |s|
  {
    if s != [] {
      var n := RunLength(s[1..], IsSpace);
      if IsSentenceEnd(s[0]) && |s| >= 2 && IsSpace(s[1]) && 1 + n < |s| && IsUpper(s[1 + n]) {
        BreaksKeepsText(s[2 + n..]);
        BreakStepKeepsText(s, n, Breaks(s[2 + n..]));
      } else {
        BreaksKeepsText(s[1..]);
        OthersAppend([s[0]], Breaks(s[1..]), IsSpace);
        assert s == [s[0]] + s[1..];
        OthersAppend([s[0]], s[1..], IsSpace);
      }
    }
  }

  /** Stripping only removes whitespace. */
  lemma StripKeepsText(s: string)
    ensures Others(Strip(s), IsSpace) == Others(s, IsSpace)
  {
    var l := LeadingSpace(s);
    var r := Strip(s);
    var tail := s[l + |r|..];
    assert s == s[..l] + (r + tail);
    OthersAppend(s[..l], r + tail, IsSpace);
    OthersAppend(r, tail, IsSpace);
    OthersOfRun(s[..l], IsSpace);
    OthersOfRun(tail, IsSpace);
  }

  /**
   * The PDF normalize_content: the base strip, every whitespace run to one
   * space, the sentence-end blank lines (applied twice), and a final strip.
   */
  function NormalizePdf(content: string): (r: string)
    ensures NoEdgeSpace(r)
  {
    Strip(Breaks(Breaks(CollapseWhitespace(Strip(content)))))
  }

  /** Normalisation only changes whitespace: the other characters stay, in order. */
  lemma NormalizePdfKeepsText(content: string)
    ensures Others(NormalizePdf(content), IsSpace) == Others(content, IsSpace)
  {
    var a := Strip(content);
    StripKeepsText(content);
    var b := CollapseWhitespace(a);
    CollapseKeepsOthers(a, IsSpace, 1, " ");
    BreaksKeepsText(b);
    BreaksKeepsText(Breaks(b));
    StripKeepsText(Breaks(Breaks(b)));
  }

  // ---------------------------------------------------------------------
  // File names
  // ---------------------------------------------------------------------

  /** Index just after the last '/', 0 when there is none. */
  function LastSlashEnd(p: string): (i: nat)
    ensures i <= |p| && (i > 0 ==> p[i - 1] == '/')
    ensures forall j | i <= j < |p| :: p[j] != '/'
  {
    if p == [] then 0
    else if p[|p| - 1] == '/' then |p|
    else LastSlashEnd(p[..|p| - 1])
  }

  /**
   * os.path.basename: the longest suffix without '/'; it is the whole path
   * or follows a '/'.
   */
  function Basename(p: string): (b: string)
    ensures '/' !in b && |b| <= |p| && b == p[|p| - |b|..]
    ensures |b| == |p| || p[|p| - |b| - 1] == '/'
  {
    p[LastSlashEnd(p)..]
  }

  // ---------------------------------------------------------------------
  // Chapter titles
  // ---------------------------------------------------------------------

  /** [IVX] under re.IGNORECASE. */
  predicate IsRomanChar(c: char) {
    c == 'i' || c == 'v' || c == 'x' || c == 'I' || c == 'V' || c == 'X'
  }

  /** Empty, or the last character is not whitespace. */
  predicate EndsNonSpace(s: string) {
    s == [] || !IsSpace(s[|s| - 1])
  }

  /**
   * "<number>[.:]\s*(.+)$" on a line that does not end with whitespace:
   * a non-empty run of numbering characters, a '.' or ':', optional
   * whitespace, and a non-empty rest, which is the title (stripped).
   */
  function NumberedTitle(s: string, isNum: char -> bool): (r: Option<string>)
    requires EndsNonSpace(s)
    ensures r.Some? ==> r.value != [] && NoEdgeSpace(r.value)
  {
    var n := RunLength(s, isNum);
    if n == 0 || n == |s| || (s[n] != '.' && s[n] != ':') then None
    else
      var rest := s[n + 1..];
      var w := RunLength(rest, IsSpace);
      var body := rest[w..];
      if body == [] then None
      else
        assert !IsSpace(body[0]) && body[|body| - 1] == s[|s| - 1];
        StripNoEdge(body);
        Some(Strip(body))
  }

  /**
   * The three chapter patterns, tried in order, case-insensitively, on a
   * stripped line: "Chapter <digits>", "<digits>" and "<roman numeral>",
   * each followed by '.' or ':' and the title.
   */
  function ChapterTitleOf(line: string): (r: Option<string>)
    requires NoEdgeSpace(line)
    ensures r.Some? ==> r.value != [] && NoEdgeSpace(r.value)
  {
    var chapter :=
      if |line| >= 7 && Lower(line[..7]) == "chapter" then
        var t := line[7..];
        var w := RunLength(t, IsSpace);
        if w == 0 then None else NumberedTitle(t[w..], IsDigit)
      else None;
    if chapter.Some? then chapter
    else
      var numbered := NumberedTitle(line, IsDigit);
      if numbered.Some? then numbered else NumberedTitle(line, IsRomanChar)
  }

  /** _detect_chapter_title: the chapter patterns on the stripped first line of the text. */
  function DetectChapterTitle(text: string): (r: Option<string>)
    ensures r.Some? ==> r.value != [] && NoEdgeSpace(r.value)
  {
    ChapterTitleOf(Strip(Split(text, "\n")[0]))
  }

  /** Only the first line counts: whatever follows the first "\n" is ignored. */
  lemma FirstLineOnly(first: string, rest: string)
    requires '\n' !in first
    ensures DetectChapterTitle(first + "\n" + rest) == DetectChapterTitle(first)
  {
    var s := first + "\n" + rest;
    assert IsAt(s, "\n", |first|) by {
      assert s[|first|..|first| + 1] == "\n";
    }
    forall j | 0 <= j <= |first|
      ensures j < |first| ==> !IsAt(s, "\n", j)
      ensures !IsAt(first, "\n", j)
    {
      if j < |first| {
        assert s[j..j + 1][0] == s[j] == first[j];
        assert first[j..j + 1][0] == first[j];
      }
    }
    assert Find(s, "\n") == |first|;
    assert s[..|first|] == first;
    assert Find(first, "\n") == |first| + 1;
  }

  /** A run of class characters followed by a non-class character has exactly that length. */
  lemma RunLengthOfPrefix(x: string, y: string, p: char -> bool)
    requires AllOf(x, p) && y != [] && !p(y[0])
    ensures RunLength(x + y, p) == |x|
  {
    assert forall k | 0 <= k < |x| :: (x + y)[k] == x[k];
    assert (x + y)[|x|] == y[0];
  }

  /** "<number><sep><whitespace><title>" gives the title. */
  lemma NumberedTitleOf(num: string, sep: char, ws: string, title: string, isNum: char -> bool)
    requires num != [] && AllOf(num, isNum)
    requires (sep == '.' || sep == ':') && !isNum(sep)
    requires AllOf(ws, IsSpace) && title != [] && NoEdgeSpace(title)
    ensures NumberedTitle(num + [sep] + ws + title, isNum) == Some(title)
  {
    var s := NumberedLine(num, sep, ws, title, isNum);
    SpacedTitle(ws, title);
    NumberedTitleAt(s, isNum, |num|, |ws|);
    StripNoEdge(title);
  }

  /** The pieces of "<number><sep><whitespace><title>" as NumberedTitle finds them. */
  lemma NumberedLine(num: string, sep: char, ws: string, title: string, isNum: char -> bool) returns (s: string)
    requires num != [] && AllOf(num, isNum)
    requires (sep == '.' || sep == ':') && !isNum(sep)
    requires title != [] && NoEdgeSpace(title)
    ensures s == num + [sep] + ws + title && EndsNonSpace(s)
    ensures 0 < |num| < |s| && RunLength(s, isNum) == |num| && s[|num|] == sep && s[|num| + 1..] == ws + title
  {
    s := num + [sep] + (ws + title);
    assert s == num + [sep] + ws + title;
    NumberedParts(num, sep, ws + title, isNum);
    assert s[|s| - 1] == title[|title| - 1];
  }

  /** Whitespace then a title that does not start with whitespace: the run is the whitespace. */
  lemma SpacedTitle(ws: string, title: string)
    requires AllOf(ws, IsSpace) && title != [] && NoEdgeSpace(title)
    ensures RunLength(ws + title, IsSpace) == |ws| && (ws + title)[|ws|..] == title
  {
    RunLengthOfPrefix(ws, title, IsSpace);
  }

  /** The number run of "<number><sep><rest>" ends at the separator. */
  lemma NumberedParts(num: string, sep: char, rest: string, isNum: char -> bool)
    requires AllOf(num, isNum) && !isNum(sep)
    ensures var s := num + [sep] + rest;
      RunLength(s, isNum) == |num| && s[|num|] == sep && s[|num| + 1..] == rest
  {
    var s := num + [sep] + rest;
    assert s == num + ([sep] + rest);
    RunLengthOfPrefix(num, [sep] + rest, isNum);
  }

  /** NumberedTitle once the number run and the whitespace run are known. */
  lemma NumberedTitleAt(s: string, isNum: char -> bool, n: nat, w: nat)
    requires EndsNonSpace(s)
    requires 0 < n < |s| && RunLength(s, isNum) == n && (s[n] == '.' || s[n] == ':')
    requires w < |s| - n - 1 && RunLength(s[n + 1..], IsSpace) == w
    ensures NumberedTitle(s, isNum) == Some(Strip(s[n + 1..][w..]))
  {
  }

  /** After "Chapter" and whitespace, the first pattern reads the numbered title of the rest. */
  lemma ChapterPrefix(word: string, gap: string, t: string)
    requires |word| == 7 && Lower(word) == "chapter"
    requires gap != [] && AllOf(gap, IsSpace)
    requires t != [] && NoEdgeSpace(t)
    ensures NoEdgeSpace(word + gap + t)
    ensures NumberedTitle(t, IsDigit).Some? ==> ChapterTitleOf(word + gap + t) == NumberedTitle(t, IsDigit)
  {
    var line := word + gap + t;
    assert LowerChar(word[0]) == 'c';
    assert line[0] == word[0];
    assert line[|line| - 1] == t[|t| - 1];
    assert line[..7] == word;
    assert line[7..] == gap + t;
    RunLengthOfPrefix(gap, t, IsSpace);
    assert (gap + t)[|gap|..] == t;
  }

  /** A number, a separator, spaces and a title have no whitespace at either end. */
  lemma NumberedNoEdge(num: string, sep: char, ws: string, title: string)
    requires num != [] && AllOf(num, IsDigit)
    requires title != [] && NoEdgeSpace(title)
    ensures NoEdgeSpace(num + [sep] + ws + title)
  {
    var t := num + [sep] + ws + title;
    assert t[0] == num[0] && t[|t| - 1] == title[|title| - 1];
  }

  /** "Chapter <digits><sep><whitespace><title>", in any letter case, gives the title. */
  lemma ChapterLineTitle(word: string, gap: string, num: string, sep: char, ws: string, title: string)
    requires |word| == 7 && Lower(word) == "chapter"
    requires gap != [] && AllOf(gap, IsSpace)
    requires num != [] && AllOf(num, IsDigit) && (sep == '.' || sep == ':')
    requires AllOf(ws, IsSpace) && title != [] && NoEdgeSpace(title)
    ensures NoEdgeSpace(word + gap + (num + [sep] + ws + title))
    ensures ChapterTitleOf(word + gap + (num + [sep] + ws + title)) == Some(title)
  {
    var t := num + [sep] + ws + title;
    NumberedNoEdge(num, sep, ws, title);
    NumberedTitleOf(num, sep, ws, title, IsDigit);
    ChapterPrefix(word, gap, t);
  }
}
