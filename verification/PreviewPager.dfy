/** The text pager of the governed preview: newline normalization, page breaks and the page map. */
module PreviewPager {
  import opened Basics

  const MAX_PAGES := 500
  const CHARS_PER_PAGE := 1800
  const BREAK_WINDOW := 200

  datatype PreviewError = TooManyPages | InvalidPageMap | OutputTooLarge | MalformedOutput

  datatype PageEntry = PageEntry(pageNumber: nat, charStart: nat, charEnd: nat)

  // ------------------------------------------------------------- normalization

  /** text.replace("\r\n", "\n") */
  function JoinCrLf(text: string): string {
    if |text| < 2 then text
    else if text[0] == '\r' && text[1] == '\n' then "\n" + JoinCrLf(text[2..])
    else [text[0]] + JoinCrLf(text[1..])
  }

  /** text.replace("\r", "\n") */
  function CrToLf(text: string): (r: string)
    ensures |r| == |text|
    ensures forall i :: 0 <= i < |r| ==> r[i] == if text[i] == '\r' then '\n' else text[i]
  {
    seq(|text|, i requires 0 <= i < |text| => if text[i] == '\r' then '\n' else text[i])
  }

  /** What is paged: only line feeds end lines, and blank text is one space. */
  function Normalized(text: string): (r: string)
    ensures r != "" && '\r' !in r
  {
    var joined := CrToLf(JoinCrLf(text));
    if Strip(joined) == "" then " " else joined
  }

  /** Every line ending, of one or two characters, as one line feed. */
  function UnixLines(text: string): string {
    if text == "" then ""
    else if text[0] != '\r' then [text[0]] + UnixLines(text[1..])
    else "\n" + UnixLines(text[if |text| > 1 && text[1] == '\n' then 2 else 1..])
  }

  lemma CrToLfCons(c: char, rest: string)
    ensures CrToLf([c] + rest) == [if c == '\r' then '\n' else c] + CrToLf(rest)
  {
  }

  lemma {:induction false} TwoReplaces(text: string)
    ensures CrToLf(JoinCrLf(text)) == UnixLines(text)
    decreases |text|
  {
    if |text| == 1 {
      assert text == [text[0]] + "" && UnixLines(text[1..]) == "";
    } else if text != "" {
      if text[0] == '\r' && text[1] == '\n' {
        TwoReplaces(text[2..]);
        CrToLfCons('\n', JoinCrLf(text[2..]));
      } else {
        TwoReplaces(text[1..]);
        CrToLfCons(text[0], JoinCrLf(text[1..]));
      }
    }
  }

  /** Normalizing rewrites line endings and nothing else, except that a blank text becomes one space. */
  lemma NormalizedIs(text: string)
    ensures Normalized(text) == if Blank(UnixLines(text)) then " " else UnixLines(text)
  {
    TwoReplaces(text);
    BlankStripsToNothing(UnixLines(text));
  }

  // --------------------------------------------------------------- page breaks

  /** str.rfind("\n", from): the last newline at or after `from`, or -1. */
  function LastNewline(window: string, from: nat): (br: int)
    ensures br == -1 || from <= br < |window|
    ensures br >= 0 ==> window[br] == '\n'
    ensures forall k :: from <= k < |window| && k > br ==> window[k] != '\n'
  {
    if |window| <= from then -1
    else if window[|window| - 1] == '\n' then |window| - 1
    else LastNewline(window[..|window| - 1], from)
  }

  predicate NoNewline(text: string, from: nat, to: nat)
    requires to <= |text|
  {
    forall k :: from <= k < to ==> text[k] != '\n'
  }

  /** Where the page that starts at `start` must end: at the end of the text if that is near enough, else
      after the last newline among the final 200 characters of a full page, else after a full page. */
  predicate Breaks(text: string, start: nat, end: nat) {
    && start < end <= |text|
    && (if |text| - start <= 1800 then end == |text|
        else
          var full := start + 1800;
          && full - 200 < end <= full
          && (if text[end - 1] == '\n' then NoNewline(text, end, full)
              else end == full && NoNewline(text, full - 200, full)))
  }

  /** The break that the last newline of the window decides. */
  lemma NewlineBreaks(text: string, start: nat, window: string, br: int)
    requires start + CHARS_PER_PAGE < |text| && window == text[start..start + CHARS_PER_PAGE]
    requires br == LastNewline(window, CHARS_PER_PAGE - BREAK_WINDOW)
    ensures Breaks(text, start, if br > 0 then start + br + 1 else start + CHARS_PER_PAGE)
  {
    forall k | start + CHARS_PER_PAGE - BREAK_WINDOW <= k < start + CHARS_PER_PAGE && k - start > br
      ensures text[k] != '\n'
    {
      assert text[k] == window[k - start];
    }
    if br > 0 {
      assert text[start + br] == window[br];
    } else {
      assert text[start + CHARS_PER_PAGE - 1] == window[CHARS_PER_PAGE - 1];
    }
  }

  /** A page break is determined: there is one right place for it. */
  lemma BreakUnique(text: string, start: nat, end: nat, other: nat)
    requires Breaks(text, start, end) && Breaks(text, start, other)
    ensures end == other
  {
  }

  // -------------------------------------------------------------------- tiling

  function EndOf(entries: seq<PageEntry>): nat {
    if entries == [] then 0 else entries[|entries| - 1].charEnd
  }

  /** The pages so far: numbered from 1, contiguous from the start of the text, each broken where it must
      be, each holding the text it claims. */
  predicate Tiles(text: string, pages: seq<string>, entries: seq<PageEntry>) {
    && |pages| == |entries|
    && (pages != [] ==>
          var n := |pages| - 1; var last := entries[n];
          && Tiles(text, pages[..n], entries[..n])
          && last.pageNumber == n + 1 && last.charStart == EndOf(entries[..n])
          && Breaks(text, last.charStart, last.charEnd)
          && pages[n] == text[last.charStart..last.charEnd])
  }

  lemma TilesSnoc(text: string, pages: seq<string>, entries: seq<PageEntry>, end: nat)
    requires Tiles(text, pages, entries) && Breaks(text, EndOf(entries), end)
    ensures Tiles(text, pages + [text[EndOf(entries)..end]], entries + [PageEntry(|pages| + 1, EndOf(entries), end)])
  {
    var last := PageEntry(|pages| + 1, EndOf(entries), end);
    assert (pages + [text[EndOf(entries)..end]])[..|pages|] == pages && (entries + [last])[..|pages|] == entries;
  }

  /** The break the loop takes: after a full page, moved back behind the window's last newline. */
  method NextBreak(text: string, cursor: nat) returns (end: nat)
    requires cursor < |text|
    ensures Breaks(text, cursor, end)
  {
    end := if cursor + CHARS_PER_PAGE < |text| then cursor + CHARS_PER_PAGE else |text|;
    if end < |text| {
      var window := text[cursor..end];
      var from := if |window| > BREAK_WINDOW then |window| - BREAK_WINDOW else 0;
      var br := LastNewline(window, from);
      NewlineBreaks(text, cursor, window, br);
      if br > 0 {
        end := cursor + br + 1;
      }
    }
  }

  /** So n pages that leave text over cover 1601 n to 1800 n characters. */
  lemma {:induction false} FullPages(text: string, pages: seq<string>, entries: seq<PageEntry>)
    requires Tiles(text, pages, entries) && EndOf(entries) < |text|
    ensures 1601 * |pages| <= EndOf(entries) <= 1800 * |pages|
  {
    if pages != [] {
      var n := |pages| - 1;
      FullPages(text, pages[..n], entries[..n]);
    }
  }

  /** A text that fills 501 pages is longer than 500 * 1601, and one that fits 500 is no longer than 500 * 1800. */
  lemma Coverage(text: string, pages: seq<string>, entries: seq<PageEntry>)
    requires Tiles(text, pages, entries) && pages != []
    ensures 1601 * (|pages| - 1) < EndOf(entries) <= 1800 * |pages|
  {
    var n := |pages| - 1;
    FullPages(text, pages[..n], entries[..n]);
  }

  /** _chunk_text_to_pages. It stops with an error as soon as a 501st page is cut. */
  method ChunkTextToPages(text: string) returns (r: Result<(seq<string>, seq<PageEntry>), PreviewError>)
    ensures r.Success? ==>
      && Tiles(Normalized(text), r.value.0, r.value.1) && EndOf(r.value.1) == |Normalized(text)|
      && 1 <= |r.value.0| <= 500
    ensures r.Failure? ==>
      && r.error == TooManyPages
      && exists pages, entries :: Tiles(Normalized(text), pages, entries) && |pages| == 501
    ensures |Normalized(text)| <= 800_500 ==> r.Success?
    ensures |Normalized(text)| > 900_000 ==> r.Failure?
  {
    var normalized := Normalized(text);
    var pages: seq<string>, entries: seq<PageEntry> := [], [];
    var cursor, total := 0, |normalized|;
    while cursor < total
      invariant Tiles(normalized, pages, entries)
      invariant cursor == EndOf(entries) <= total
      invariant |pages| <= MAX_PAGES && (cursor > 0 ==> |pages| > 0)
      decreases total - cursor
    {
      var end := NextBreak(normalized, cursor);
      TilesSnoc(normalized, pages, entries, end);
      pages := pages + [normalized[cursor..end]];
      entries := entries + [PageEntry(|pages|, cursor, end)];
      cursor := end;
      if |pages| > MAX_PAGES {
        Coverage(normalized, pages, entries);
        return Failure(TooManyPages);
      }
    }
    Coverage(normalized, pages, entries);
    return Success((pages, entries));
  }

  /** The pages spell the text, whole and in order, up to where they end. */
  lemma {:induction false} PagesSpellText(text: string, pages: seq<string>, entries: seq<PageEntry>)
    requires Tiles(text, pages, entries)
    ensures EndOf(entries) <= |text| && Concat(pages) == text[..EndOf(entries)]
  {
    if pages != [] {
      var n := |pages| - 1;
      PagesSpellText(text, pages[..n], entries[..n]);
      assert text[..entries[n].charEnd] == text[..entries[n].charStart] + text[entries[n].charStart..entries[n].charEnd];
    }
  }

  /** Every page but the last of the text has 1601 to 1800 characters, the last one 1 to 1800; each starts
      where the one before it ends. */
  lemma {:induction false} PageSizes(text: string, pages: seq<string>, entries: seq<PageEntry>, i: nat)
    requires Tiles(text, pages, entries) && i < |pages|
    ensures entries[i].pageNumber == i + 1
    ensures entries[i].charStart == (if i == 0 then 0 else entries[i - 1].charEnd)
    ensures entries[i].charStart < entries[i].charEnd <= |text|
    ensures pages[i] == text[entries[i].charStart..entries[i].charEnd] && 1 <= |pages[i]| <= 1800
    ensures entries[i].charEnd < |text| ==> 1601 <= |pages[i]|
  {
    var n := |pages| - 1;
    if i < n {
      PageSizes(text, pages[..n], entries[..n], i);
    }
  }

  lemma {:induction false} TilesFront(text: string, pages: seq<string>, entries: seq<PageEntry>, n: nat)
    requires Tiles(text, pages, entries) && n <= |pages|
    ensures Tiles(text, pages[..n], entries[..n])
  {
    if n < |pages| {
      TilesFront(text, pages[..|pages| - 1], entries[..|pages| - 1], n);
      assert pages[..|pages| - 1][..n] == pages[..n] && entries[..|pages| - 1][..n] == entries[..n];
    } else {
      assert pages[..n] == pages && entries[..n] == entries;
    }
  }

  /** The tiling of a text is determined: of two, one begins the other. */
  lemma {:induction false} TilingUnique(text: string, pages: seq<string>, entries: seq<PageEntry>,
                                        others: seq<string>, otherEntries: seq<PageEntry>)
    requires Tiles(text, pages, entries) && Tiles(text, others, otherEntries) && |pages| <= |others|
    ensures pages == others[..|pages|] && entries == otherEntries[..|pages|]
  {
    if pages != [] {
      var n := |pages| - 1;
      TilesFront(text, others, otherEntries, n + 1);
      TilingUnique(text, pages[..n], entries[..n], others, otherEntries);
      BreakUnique(text, entries[n].charStart, entries[n].charEnd, otherEntries[n].charEnd);
    }
  }

  // ------------------------------------------------------------------ page map

  datatype PageMap = PageMap(version: nat, rendererVersion: string, pageCount: nat, pages: seq<PageEntry>)

  const RENDERER_VERSION_TEXT := "ce-preview-text-v1"

  predicate PageMapHolds(m: PageMap, pageCount: nat, rendererVersion: string) {
    && m.version == 1 && m.rendererVersion == rendererVersion
    && m.pageCount == pageCount == |m.pages|
    && forall i :: 0 <= i < |m.pages| ==> m.pages[i].pageNumber == i + 1
  }

  /** _validate_page_map */
  method ValidatePageMap(m: PageMap, pageCount: nat, rendererVersion: string) returns (r: Option<PreviewError>)
    ensures r == if PageMapHolds(m, pageCount, rendererVersion) then None else Some(InvalidPageMap)
  {
    if m.version != 1 || m.rendererVersion != rendererVersion || m.pageCount != pageCount || |m.pages| != pageCount {
      return Some(InvalidPageMap);
    }
    for i := 0 to |m.pages|
      invariant forall k :: 0 <= k < i ==> m.pages[k].pageNumber == k + 1
    {
      if m.pages[i].pageNumber != i + 1 {
        return Some(InvalidPageMap);
      }
    }
    return None;
  }

  /** The map made of any tiling is accepted. */
  lemma {:induction false} TilingMapHolds(text: string, pages: seq<string>, entries: seq<PageEntry>)
    requires Tiles(text, pages, entries)
    ensures PageMapHolds(PageMap(1, RENDERER_VERSION_TEXT, |pages|, entries[..|pages|]), |pages|, RENDERER_VERSION_TEXT)
  {
    var m := PageMap(1, RENDERER_VERSION_TEXT, |pages|, entries[..|pages|]);
    forall i | 0 <= i < |m.pages|
      ensures m.pages[i].pageNumber == i + 1
    {
      PageSizes(text, pages, entries, i);
    }
  }
}
