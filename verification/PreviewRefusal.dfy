/** A short text that is refused as having too many pages: its lines look like pages. */
module PreviewRefusal {
  import opened Basics
  import opened PdfText
  import opened MarkerCount
  import opened PreviewPager
  import opened Preview

  const NAME := "/Type/Page"

  function Names(n: nat): (s: string)
    ensures |s| == 10 * n
  {
    if n == 0 then "" else NAME + Names(n - 1)
  }

  /** `n` times this line. */
  function Lines(line: string, n: nat): (s: string)
    ensures |line| == 120 ==> |s| == 121 * n
  {
    if n == 0 then "" else line + "\n" + Lines(line, n - 1)
  }

  /** Printable characters without blanks. */
  predicate Solid(s: string) {
    forall i :: 0 <= i < |s| ==> 33 <= s[i] as int < 127
  }

  lemma {:induction false} NamesSolid(n: nat)
    ensures Solid(Names(n))
    ensures n > 0 ==> Names(n)[0] == '/'
  {
    if n > 0 { NamesSolid(n - 1); }
  }

  /** Each name is a marker, also where another follows it at once. */
  lemma {:induction false} NamesMark(n: nat)
    ensures PageMarkers(Names(n)) == n
  {
    if n > 0 {
      var s, rest := Names(n), Names(n - 1);
      NamesMark(n - 1);
      NamesSolid(n - 1);
      assert s == NAME + rest;
      assert s[0] == '/' && s[1] == 'T' && s[2] == 'y' && s[3] == 'p' && s[4] == 'e';
      assert s[5] == '/' && s[6] == 'P' && s[7] == 'a' && s[8] == 'g' && s[9] == 'e';
      assert AfterBlanks(s[5..]) == s[5..] && s[5..][5..] == rest;
    }
  }

  lemma SolidShown(s: string)
    requires Solid(s) && |s| <= MAX_LINE_CHARS
    ensures Cleaned(Cut(s)) == s && OneLine(s)
  {
  }

  /** A line of twelve names fills a shown line. */
  predicate Marked(line: string) {
    Solid(line) && |line| == 120 && PageMarkers(line) == 12
  }

  predicate Holds(lines: seq<string>, n: nat) {
    |lines| == n && LineMarkers(lines) == 12 * n
  }

  lemma NextLine(line: string, rest: string, lines: seq<string>, n: nat)
    requires Marked(line) && lines == SplitLines(rest) && Holds(lines, n)
    ensures SplitLines(line + "\n" + rest) == [line] + lines && Holds([line] + lines, n + 1)
  {
    SolidShown(line);
    SplitsLine(line, rest);
    assert ([line] + lines)[1..] == lines;
  }

  lemma {:induction false} LinesSplit(line: string, n: nat) returns (lines: seq<string>)
    requires Marked(line)
    ensures lines == SplitLines(Lines(line, n)) && Holds(lines, n)
  {
    if n == 0 {
      lines := [];
    } else {
      var before := LinesSplit(line, n - 1);
      NextLine(line, Lines(line, n - 1), before, n - 1);
      lines := [line] + before;
    }
  }

  lemma PageOfLines(line: string, n: nat)
    requires Marked(line) && 0 < n <= MAX_LINES
    ensures LineMarkers(PageLines(Lines(line, n))) == 12 * n
  {
    var lines := LinesSplit(line, n);
  }

  // ------------------------------------------------------------------------ its pages

  lemma {:induction false} LinesConcat(line: string, m: nat, n: nat)
    ensures Lines(line, m + n) == Lines(line, m) + Lines(line, n)
  {
    if m > 0 {
      LinesConcat(line, m - 1, n);
    } else {
      assert Lines(line, 0) + Lines(line, n) == Lines(line, n);
    }
  }

  lemma MiddleSlice(a: string, b: string, c: string)
    ensures (a + (b + c))[|a|..|a| + |b|] == b
  {
  }

  lemma LinesSlice(line: string, total: nat, from: nat, n: nat)
    requires from + n <= total && |line| == 120
    ensures Lines(line, total)[121 * from..121 * (from + n)] == Lines(line, n)
  {
    LinesConcat(line, from, total - from);
    LinesConcat(line, n, total - from - n);
    MiddleSlice(Lines(line, from), Lines(line, n), Lines(line, total - from - n));
  }

  lemma SliceAt(text: string, from: nat, piece: string)
    requires from + |piece| <= |text| && text[from..from + |piece|] == piece
    ensures forall k :: 0 <= k < |piece| ==> text[from + k] == piece[k]
  {
    forall k | 0 <= k < |piece|
      ensures text[from + k] == piece[k]
    {
      assert text[from..from + |piece|][k] == text[from + k];
    }
  }

  /** The characters of one line of many. */
  lemma LineAt(line: string, total: nat, from: nat)
    requires from < total && |line| == 120
    ensures forall k :: 0 <= k < 121 ==> Lines(line, total)[121 * from + k] == (line + "\n")[k]
  {
    LinesSlice(line, total, from, 1);
    assert Lines(line, 1) == line + "\n" + Lines(line, 0) == line + "\n";
    SliceAt(Lines(line, total), 121 * from, line + "\n");
  }

  /** With more than fourteen lines to go, a page takes fourteen. */
  lemma FourteenLines(line: string, total: nat, from: nat)
    requires Solid(line) && |line| == 120 && from + 15 <= total
    ensures Breaks(Lines(line, total), 121 * from, 121 * (from + 14))
  {
    var text, end := Lines(line, total), 121 * (from + 14);
    LineAt(line, total, from + 13);
    LineAt(line, total, from + 14);
    assert text[121 * (from + 13) + 120] == (line + "\n")[120] == '\n';
    forall k | end <= k < 121 * from + CHARS_PER_PAGE
      ensures text[k] != '\n'
    {
      assert text[end + (k - end)] == (line + "\n")[k - end] == line[k - end];
    }
  }

  lemma LastLines(line: string, total: nat, from: nat)
    requires |line| == 120 && from < total <= from + 14
    ensures Breaks(Lines(line, total), 121 * from, 121 * total)
  {
  }

  lemma {:induction false} LinesPlain(line: string, n: nat)
    requires Solid(line)
    ensures forall i :: 0 <= i < |Lines(line, n)| ==> Lines(line, n)[i] == '\n' || 33 <= Lines(line, n)[i] as int < 127
  {
    if n > 0 {
      LinesPlain(line, n - 1);
    }
  }

  lemma {:induction false} NoCrLf(text: string)
    requires forall i :: 0 <= i < |text| ==> text[i] != '\r'
    ensures JoinCrLf(text) == text
  {
    if |text| >= 2 {
      NoCrLf(text[1..]);
      assert text == [text[0]] + text[1..];
    }
  }

  lemma LinesNormalized(line: string, n: nat)
    requires Solid(line) && line != "" && n > 0
    ensures Normalized(Lines(line, n)) == Lines(line, n)
  {
    LinesPlain(line, n);
    NoCrLf(Lines(line, n));
    assert CrToLf(Lines(line, n)) == Lines(line, n);
    assert Lines(line, n)[0] == line[0];
    BlankStripsToNothing(Lines(line, n));
  }

  lemma ThreeTiles(text: string, page: string) returns (entries: seq<PageEntry>)
    requires Breaks(text, 0, 1694) && Breaks(text, 1694, 3388) && Breaks(text, 3388, 5082) && |text| == 5082
    requires text[0..1694] == page && text[1694..3388] == page && text[3388..5082] == page
    ensures Tiles(text, [page] + [page] + [page], entries) && EndOf(entries) == 5082
  {
    TilesSnoc(text, [], [], 1694);
    var first := [PageEntry(1, 0, 1694)];
    assert [] + [page] == [page] && [] + first == first;
    TilesSnoc(text, [page], first, 3388);
    var second := first + [PageEntry(2, 1694, 3388)];
    TilesSnoc(text, [page] + [page], second, 5082);
    entries := second + [PageEntry(3, 3388, 5082)];
  }

  /** Forty-two lines make three pages of fourteen. */
  lemma ThreePages(line: string) returns (entries: seq<PageEntry>)
    requires Solid(line) && |line| == 120
    ensures Complete(Lines(line, 42), [Lines(line, 14)] + [Lines(line, 14)] + [Lines(line, 14)], entries)
  {
    var text, page := Lines(line, 42), Lines(line, 14);
    LinesNormalized(line, 42);
    FourteenLines(line, 42, 0);
    FourteenLines(line, 42, 14);
    LastLines(line, 42, 28);
    LinesSlice(line, 42, 0, 14);
    LinesSlice(line, 42, 14, 14);
    LinesSlice(line, 42, 28, 14);
    entries := ThreeTiles(text, page);
  }

  lemma ThreePagesMark(page: string, n: nat)
    requires LineMarkers(PageLines(page)) == n
    ensures TextMarkers([page] + [page] + [page]) == 3 * n
  {
    var two, three := [page] + [page], [page] + [page] + [page];
    assert three[..2] == two && two[..1] == [page] && [page][..0] == [];
    assert TextMarkers([]) == 0 && TextMarkers([page]) == n;
    assert TextMarkers(two) == 2 * n;
  }

  /** A text of 5082 characters on three pages, far below any bound on pages, that is refused as having too many:
      its lines hold 504 of what looks like a page. */
  lemma ShortTextRefused() returns (text: string)
    ensures |text| == 5082 && !Renderable(text)
  {
    var line := Names(12);
    NamesSolid(12);
    NamesMark(12);
    text := Lines(line, 42);
    var entries := ThreePages(line);
    PageOfLines(line, 14);
    ThreePagesMark(Lines(line, 14), 168);
    RenderableByTiling(text, [Lines(line, 14)] + [Lines(line, 14)] + [Lines(line, 14)], entries);
  }
}
