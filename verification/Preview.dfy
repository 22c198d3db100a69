/** The text preview as a whole: what is rendered stays within its bounds and reads back as the text. */
module Preview {
  import opened Basics
  import opened PreviewPager
  import opened Numbers
  import opened PdfText
  import opened PdfFile
  import opened PdfReader
  import opened MarkerCount

  // ------------------------------------------------------------------------- size

  const MAX_OUTPUT_BYTES := 25 * 1024 * 1024
  const MAX_BODY_BYTES := 15200

  predicate AllSmall(bodies: seq<string>) {
    forall k :: 0 <= k < |bodies| ==> |bodies[k]| <= MAX_BODY_BYTES
  }

  lemma Short(n: nat)
    ensures n <= 9999 ==> |Decimal(n)| <= 4
    ensures n <= 99999 ==> |Decimal(n)| <= 5
    ensures n < 10_000_000_000 ==> |Decimal(n)| <= 10
  {
    assert Pow10(4) == 10000 && Pow10(5) == 100000;
    TenDigits();
    if n <= 9999 { DecimalLength(n, 4); }
    if n <= 99999 { DecimalLength(n, 5); }
    if n < 10_000_000_000 { DecimalLength(n, 10); }
  }

  lemma ObjectSize(id: nat, body: string)
    requires id <= 9999
    ensures |ObjectText(id, body)| <= |body| + 19
  {
    Short(id);
  }

  lemma {:induction false} ObjectsSize(bodies: seq<string>)
    requires |bodies| <= 9999 && AllSmall(bodies)
    ensures |Objects(bodies)| <= 15 + |bodies| * (MAX_BODY_BYTES + 19)
  {
    if bodies != [] {
      ObjectsSize(bodies[..|bodies| - 1]);
      ObjectSize(|bodies|, bodies[|bodies| - 1]);
    }
  }

  lemma ContentSize(lines: seq<string>)
    requires |lines| <= MAX_LINES
    ensures |ContentBody(ContentStream(lines))| <= MAX_BODY_BYTES
  {
    StreamSize(lines, true);
    Short(|ContentStream(lines)|);
  }

  lemma {:induction false} RefsSize(ids: seq<nat>)
    requires forall i :: 0 <= i < |ids| ==> ids[i] <= 9999
    ensures |JoinedRefs(ids)| <= 9 * |ids|
  {
    if ids != [] {
      Short(ids[0]);
      RefsSize(ids[1..]);
    }
  }

  lemma HeadsSize(pages: nat)
    requires pages <= MAX_PAGES
    ensures AllSmall(Heads(pages))
  {
    RefsSize(KidIds(pages));
    Short(pages);
  }

  lemma SmallConcat(heads: seq<string>, bodies: seq<string>)
    requires AllSmall(heads) && AllSmall(bodies)
    ensures AllSmall(heads + bodies)
  {
  }

  predicate SmallStreams(streams: seq<string>) {
    forall i :: 0 <= i < |streams| ==> |ContentBody(streams[i])| <= MAX_BODY_BYTES
  }

  lemma {:induction false} PageBodiesSmall(streams: seq<string>)
    requires |streams| <= MAX_PAGES && SmallStreams(streams)
    ensures AllSmall(PageBodies(streams))
  {
    if streams != [] {
      var n := |streams| - 1;
      PageBodiesSmall(streams[..n]);
      Short(4 + 2 * n);
      SmallConcat(PageBodies(streams[..n]), [ContentBody(streams[n]), PageBody(4 + 2 * n)]);
    }
  }

  lemma StreamsSmall(pages: seq<string>)
    ensures SmallStreams(Streams(pages))
  {
    forall i | 0 <= i < |pages|
      ensures |ContentBody(Streams(pages)[i])| <= MAX_BODY_BYTES
    {
      ContentSize(PageLines(pages[i]));
    }
  }

  lemma {:induction false} BodiesSmall(pages: seq<string>)
    requires |pages| <= MAX_PAGES
    ensures AllSmall(Bodies(Streams(pages)))
  {
    HeadsSize(|pages|);
    StreamsSmall(pages);
    PageBodiesSmall(Streams(pages));
    SmallConcat(Heads(|pages|), PageBodies(Streams(pages)));
  }

  lemma FileSize(bodies: seq<string>)
    requires 1 <= |bodies| <= 3 + 2 * MAX_PAGES && |Objects(bodies)| <= 15 + |bodies| * (MAX_BODY_BYTES + 19)
    ensures OffsetsFit(bodies) && |FileOf(bodies)| <= MAX_OUTPUT_BYTES
  {
    TableSize(bodies);
    Short(|bodies| + 1);
    Short(|Objects(bodies)|);
  }

  /** Whatever is on them, up to 500 pages stay under 25 MiB, so every offset fits its table entry. */
  lemma {:induction false} PagesStayBounded(pages: seq<string>)
    requires |pages| <= 500
    ensures OffsetsFit(Bodies(Streams(pages))) && |FileOf(Bodies(Streams(pages)))| <= 26_214_400
  {
    BodiesSmall(pages);
    ObjectsSize(Bodies(Streams(pages)));
    FileSize(Bodies(Streams(pages)));
  }

  // -------------------------------------------------------------------- what it shows

  /** The lines that a page shows: the first 60 lines of its text, one empty line if it has none. */
  lemma LinesShown(text: string)
    ensures SplitLines(text) == [] ==> PageLines(text) == [""]
    ensures SplitLines(text) != [] ==> PageLines(text) == if |SplitLines(text)| <= 60 then SplitLines(text) else SplitLines(text)[..60]
  {
  }

  /** A reader of the file finds these pages, and on each the first 60 lines of its text, each cut to 120
      characters and cleaned. */
  predicate Displays(pdf: string, pages: seq<string>) {
    && ReadPdf(pdf).Some? && |ReadPdf(pdf).value| == |pages|
    && forall i :: 0 <= i < |pages| ==> ReadContent(ReadPdf(pdf).value[i]) == Some(Shown(PageLines(pages[i])))
  }

  lemma {:induction false} WrittenDisplays(pages: seq<string>)
    requires 1 <= |pages| <= MAX_PAGES
    ensures Displays(FileOf(Bodies(Streams(pages))), pages)
  {
    PagesStayBounded(pages);
    FileReadsBack(Streams(pages));
    forall i | 0 <= i < |pages|
      ensures ReadContent(Streams(pages)[i]) == Some(Shown(PageLines(pages[i])))
    {
      StreamReadsBack(PageLines(pages[i]));
    }
  }

  /** _validate_pdf_bytes: the pages a file is taken to have. */
  method ValidatePdfBytes(pdf: string) returns (r: Result<nat, PreviewError>)
    ensures r.Success? <==> "%PDF-" <= pdf && 8 <= |pdf| <= 26_214_400 && PageMarkers(pdf) <= 500
    ensures r.Success? ==> r.value == if PageMarkers(pdf) < 1 then 1 else PageMarkers(pdf)
    ensures "%PDF-" <= pdf && 8 <= |pdf| <= 26_214_400 && PageMarkers(pdf) > 500 ==> r == Failure(TooManyPages)
    ensures "%PDF-" <= pdf && |pdf| > 26_214_400 ==> r == Failure(OutputTooLarge)
    ensures !("%PDF-" <= pdf) || |pdf| < 8 ==> r == Failure(MalformedOutput)
  {
    if !("%PDF-" <= pdf) {
      return Failure(MalformedOutput);
    }
    if |pdf| > MAX_OUTPUT_BYTES {
      return Failure(OutputTooLarge);
    }
    if |pdf| < 8 {
      return Failure(MalformedOutput);
    }
    var pageCount := PageMarkers(pdf);
    if pageCount < 1 {
      pageCount := 1;
    }
    if pageCount > MAX_PAGES {
      return Failure(TooManyPages);
    }
    return Success(pageCount);
  }

  datatype Rendered = Rendered(pdf: string, pageCount: nat, pageMap: PageMap)

  lemma {:induction false} StartsWithHeader(bodies: seq<string>)
    ensures HEADER <= Objects(bodies)
  {
    if bodies != [] {
      StartsWithHeader(bodies[..|bodies| - 1]);
    }
  }

  lemma WrittenHead(pages: seq<string>)
    ensures "%PDF-" <= FileOf(Bodies(Streams(pages))) && |FileOf(Bodies(Streams(pages)))| >= 8
  {
    StartsWithHeader(Bodies(Streams(pages)));
    assert "%PDF-" <= HEADER;
  }

  // ------------------------------------------------------------------------ rendering

  /** These pages are the whole text. */
  predicate Complete(text: string, pages: seq<string>, entries: seq<PageEntry>) {
    Tiles(Normalized(text), pages, entries) && EndOf(entries) == |Normalized(text)|
  }

  /** What was rendered is the text: its pages spell it, the file displays them, the map locates them. */
  predicate Renders(text: string, r: Rendered, pages: seq<string>) {
    && Concat(pages) == Normalized(text)
    && Displays(r.pdf, pages) && |r.pdf| <= 26_214_400
    && r.pageCount == |pages| && PageMapHolds(r.pageMap, r.pageCount, "ce-preview-text-v1")
    && Complete(text, pages, r.pageMap.pages)
  }

  lemma WrittenRenders(text: string, pages: seq<string>, entries: seq<PageEntry>)
    requires Complete(text, pages, entries) && 1 <= |pages| <= MAX_PAGES
    ensures Renders(text, Rendered(FileOf(Bodies(Streams(pages))), |pages|,
                                   PageMap(1, RENDERER_VERSION_TEXT, |pages|, entries[..|pages|])), pages)
  {
    PagesSpellText(Normalized(text), pages, entries);
    assert Normalized(text)[..|Normalized(text)|] == Normalized(text);
    TilingMapHolds(Normalized(text), pages, entries);
    assert entries[..|pages|] == entries;
    WrittenDisplays(pages);
    PagesStayBounded(pages);
  }

  /** The text has at most 500 pages, and its pages together with what looks like a page in the lines they show
      are at most 500. */
  ghost predicate Renderable(text: string) {
    exists pages, entries :: Complete(text, pages, entries) && |pages| + TextMarkers(pages) <= 500
  }

  /** A page begins before the text ends. */
  lemma NextStart(text: string, pages: seq<string>, entries: seq<PageEntry>, n: nat)
    requires Tiles(text, pages, entries) && n < |pages|
    ensures EndOf(entries[..n]) < |text|
  {
    PageSizes(text, pages, entries, n);
  }

  /** No tiling goes on behind a complete one. */
  lemma NothingBehind(text: string, pages: seq<string>, entries: seq<PageEntry>, others: seq<string>, otherEntries: seq<PageEntry>)
    requires Complete(text, pages, entries) && Tiles(Normalized(text), others, otherEntries)
    ensures |others| <= |pages|
  {
    var n := |pages|;
    if n < |others| {
      NextStart(Normalized(text), others, otherEntries, n);
      TilingUnique(Normalized(text), pages, entries, others, otherEntries);
    }
  }

  lemma CompleteUnique(text: string, pages: seq<string>, entries: seq<PageEntry>, others: seq<string>, otherEntries: seq<PageEntry>)
    requires Complete(text, pages, entries) && Complete(text, others, otherEntries)
    ensures pages == others
  {
    NothingBehind(text, pages, entries, others, otherEntries);
    NothingBehind(text, others, otherEntries, pages, entries);
    TilingUnique(Normalized(text), pages, entries, others, otherEntries);
  }

  /** So a complete tiling decides whether the text is renderable. */
  lemma RenderableByTiling(text: string, pages: seq<string>, entries: seq<PageEntry>)
    requires Complete(text, pages, entries)
    ensures Renderable(text) <==> |pages| + TextMarkers(pages) <= 500
  {
    forall others, otherEntries | Complete(text, others, otherEntries)
      ensures others == pages
    {
      CompleteUnique(text, pages, entries, others, otherEntries);
    }
  }

  lemma TooLongToRender(text: string, pages: seq<string>, entries: seq<PageEntry>)
    requires Tiles(Normalized(text), pages, entries) && |pages| > MAX_PAGES
    ensures !Renderable(text)
  {
    forall others, otherEntries | Complete(text, others, otherEntries)
      ensures |others| > MAX_PAGES
    {
      NothingBehind(text, others, otherEntries, pages, entries);
    }
  }

  /** _render_text_like, from the decoded text on. Its only failure is too many pages, and it fails exactly for
      the texts that have too many: of their own, or together with what looks like a page in their lines. */
  method RenderTextLike(text: string) returns (r: Result<Rendered, PreviewError>)
    ensures r.Success? <==> Renderable(text)
    ensures r.Success? ==> exists pages :: Renders(text, r.value, pages)
    ensures r.Failure? ==> r.error == TooManyPages
  {
    var chunked := ChunkTextToPages(text);
    if chunked.Failure? {
      ghost var pages, entries :| Tiles(Normalized(text), pages, entries) && |pages| == MAX_PAGES + 1;
      TooLongToRender(text, pages, entries);
      return Failure(TooManyPages);
    }
    var (pageTexts, entries) := chunked.value;
    var pdf := AssemblePdf(pageTexts);
    WrittenRenders(text, pageTexts, entries);
    PagesStayBounded(pageTexts);
    WrittenHead(pageTexts);
    MarkersOfFile(pageTexts);
    RenderableByTiling(text, pageTexts, entries);
    var counted := ValidatePdfBytes(pdf);
    if counted.Failure? {
      return Failure(counted.error);
    }
    var pageCount := counted.value;
    if pageCount != |pageTexts| {
      pageCount := |pageTexts|;
    }
    return Success(Rendered(pdf, pageCount, PageMap(1, RENDERER_VERSION_TEXT, pageCount, entries[..pageCount])));
  }
}
