/** The count that decides whether a written file has too many pages: how often its bytes hold /Type, any
    blanks, and a /Page that ends a word and is not followed, behind any blanks, by an s. */
module MarkerCount {
  import opened Basics
  import opened Numbers
  import opened PdfText
  import opened PdfFile

  // --------------------------------------------------------------- the expression

  // What the expression's \s and \w match on bytes.
  predicate BlankByte(c: char) { c == ' ' || 9 <= c as int <= 13 }

  predicate WordByte(c: char) { 'a' <= c <= 'z' || 'A' <= c <= 'Z' || '0' <= c <= '9' || c == '_' }

  function AfterBlanks(s: string): (r: string)
    ensures |r| <= |s| && (r != "" ==> !BlankByte(r[0]))
  {
    if s != "" && BlankByte(s[0]) then AfterBlanks(s[1..]) else s
  }

  predicate StartsType(s: string) {
    |s| >= 5 && s[0] == '/' && s[1] == 'T' && s[2] == 'y' && s[3] == 'p' && s[4] == 'e'
  }

  predicate StartsPage(s: string) {
    |s| >= 5 && s[0] == '/' && s[1] == 'P' && s[2] == 'a' && s[3] == 'g' && s[4] == 'e'
  }

  /** After /Page: an s behind blanks, or no end of the word. */
  predicate GoesOn(s: string) {
    (AfterBlanks(s) != "" && AfterBlanks(s)[0] == 's') || (s != "" && WordByte(s[0]))
  }

  /** The expression matches here. */
  predicate MarkerAt(s: string) {
    StartsType(s) && StartsPage(AfterBlanks(s[5..])) && !GoesOn(AfterBlanks(s[5..])[5..])
  }

  /** len(findall(s)): scanning goes on behind each match. */
  function PageMarkers(s: string): nat
    decreases |s|
  {
    if s == "" then 0
    else if MarkerAt(s) then 1 + PageMarkers(AfterBlanks(s[5..])[5..])
    else PageMarkers(s[1..])
  }

  /** The positions in `s`, followed by `rest`, at which the expression matches. */
  function MarkersIn(s: string, rest: string): nat {
    if s == "" then 0 else (if MarkerAt(s + rest) then 1 else 0) + MarkersIn(s[1..], rest)
  }

  lemma SkipFour(s: string)
    requires |s| >= 5 && s[1] != '/' && s[2] != '/' && s[3] != '/' && s[4] != '/'
    ensures MarkersIn(s[1..], "") == MarkersIn(s[5..], "")
  {
    assert s[1..][1..] == s[2..] && s[2..][1..] == s[3..] && s[3..][1..] == s[4..] && s[4..][1..] == s[5..];
    assert !MarkerAt(s[1..] + "") && !MarkerAt(s[2..] + "") && !MarkerAt(s[3..] + "") && !MarkerAt(s[4..] + "");
    assert MarkersIn(s[3..], "") == MarkersIn(s[4..], "") == MarkersIn(s[5..], "");
  }

  lemma {:induction false} SkipBlanks(s: string)
    ensures MarkersIn(s, "") == MarkersIn(AfterBlanks(s), "")
  {
    if s != "" && BlankByte(s[0]) {
      assert (s + "")[0] == s[0];
      SkipBlanks(s[1..]);
    }
  }

  /** Matches never overlap: scanning finds as many as there are positions. */
  lemma {:induction false} FoundAreAll(s: string)
    ensures PageMarkers(s) == MarkersIn(s, "")
    decreases |s|
  {
    if s != "" {
      assert s + "" == s;
      if MarkerAt(s) {
        var page := AfterBlanks(s[5..]);
        SkipFour(s);
        SkipBlanks(s[5..]);
        assert !MarkerAt(page + "");
        SkipFour(page);
        FoundAreAll(page[5..]);
      } else {
        FoundAreAll(s[1..]);
      }
    }
  }

  // ------------------------------------------------------------ counting piece by piece

  /** A piece of a file with this many matches, whatever follows it. */
  ghost predicate Marks(s: string, n: nat) {
    forall rest :: MarkersIn(s, rest) == n
  }

  lemma {:induction false} MarkersConcat(a: string, b: string, rest: string)
    ensures MarkersIn(a + b, rest) == MarkersIn(a, b + rest) + MarkersIn(b, rest)
  {
    if a == "" {
      assert a + b == b;
    } else {
      MarkersConcat(a[1..], b, rest);
      assert (a + b)[1..] == a[1..] + b && (a + b) + rest == a + (b + rest);
    }
  }

  lemma MarksConcat(a: string, m: nat, b: string, n: nat)
    requires Marks(a, m) && Marks(b, n)
    ensures Marks(a + b, m + n)
  {
    forall rest
      ensures MarkersIn(a + b, rest) == m + n
    {
      MarkersConcat(a, b, rest);
    }
  }

  predicate NoSlash(s: string) { forall i :: 0 <= i < |s| ==> s[i] != '/' }

  predicate NoType(s: string) {
    (forall i :: 0 <= i < |s| ==> s[i] != 'T') && (s != "" ==> s[|s| - 1] != '/')
  }

  lemma {:induction false} QuietIn(s: string, rest: string)
    requires NoSlash(s) || NoType(s)
    ensures MarkersIn(s, rest) == 0
  {
    if s != "" {
      assert (s + rest)[0] == s[0] && (|s| > 1 ==> (s + rest)[1] == s[1]);
      QuietIn(s[1..], rest);
    }
  }

  lemma Quiet(s: string)
    requires NoSlash(s) || NoType(s)
    ensures Marks(s, 0)
  {
    forall rest
      ensures MarkersIn(s, rest) == 0
    {
      QuietIn(s, rest);
    }
  }

  /** A name behind /Type, and whether the two are a page marker. */
  lemma TypeThen(tail: string, marker: bool)
    requires NoType(tail) && forall rest :: MarkerAt("/Type" + (tail + rest)) == marker
    ensures Marks("/Type" + tail, if marker then 1 else 0)
  {
    var s := "/Type" + tail;
    Quiet("Type");
    Quiet(tail);
    MarksConcat("Type", 0, tail, 0);
    assert s[1..] == "Type" + tail;
    forall rest
      ensures MarkersIn(s, rest) == if marker then 1 else 0
    {
      assert s + rest == "/Type" + (tail + rest);
    }
  }

  lemma BehindType(tail: string)
    requires tail != ""
    ensures StartsType("/Type" + tail) && ("/Type" + tail)[5..] == tail
    ensures tail[0] != ' ' && !BlankByte(tail[0]) ==> AfterBlanks(tail) == tail
    ensures |tail| > 1 && tail[0] == ' ' && !BlankByte(tail[1]) ==> AfterBlanks(tail) == tail[1..]
  {
    assert "/Type" == ['/', 'T', 'y', 'p', 'e'];
  }

  /** A name that is not /Page, or one that goes on, is no marker. */
  lemma OtherName(tail: string, rest: string)
    requires |tail| >= 7 && tail[0] == ' ' && tail[1] == '/'
    requires tail[2] != 'P' || tail[3] != 'a' || tail[4] != 'g' || tail[5] != 'e' || tail[6] == 's'
    ensures !MarkerAt("/Type" + (tail + rest))
  {
    BehindType(tail + rest);
    var name := (tail + rest)[1..];
    assert forall k :: 1 <= k < 7 ==> (tail + rest)[k] == tail[k];
    if StartsPage(name) {
      assert name[5..][0] == 's' && AfterBlanks(name[5..]) == name[5..];
    }
  }

  // ------------------------------------------------------------------ object bodies

  lemma Three(a: string, m: nat, b: string, n: nat, c: string, k: nat)
    requires Marks(a, m) && Marks(b, n) && Marks(c, k)
    ensures Marks(a + b + c, m + n + k)
  {
    MarksConcat(a, m, b, n);
    MarksConcat(a + b, m + n, c, k);
  }

  lemma NamedOther(tail: string)
    requires NoType(tail) && |tail| >= 7 && tail[0] == ' ' && tail[1] == '/'
    requires tail[2] != 'P' || tail[3] != 'a' || tail[4] != 'g' || tail[5] != 'e' || tail[6] == 's'
    ensures Marks("<< " + "/Type" + tail, 0)
  {
    forall rest
      ensures MarkerAt("/Type" + (tail + rest)) == false
    {
      OtherName(tail, rest);
    }
    TypeThen(tail, false);
    Quiet("<< ");
    MarksConcat("<< ", 0, "/Type" + tail, 0);
    assert "<< " + "/Type" + tail == "<< " + ("/Type" + tail);
  }

  lemma CatalogMarks()
    ensures Marks(CATALOG, 0)
  {
    var tail := " /Catalog /Pages ";
    assert NoType(tail) && tail[2] == 'C';
    NamedOther(tail);
    Quiet("2");
    Quiet(" 0 R >>");
    Three("<< " + "/Type" + tail, 0, "2", 0, " 0 R >>", 0);
  }

  lemma FontMarks()
    ensures Marks(FONT, 0)
  {
    var first, second := " /Font /Subtype ", "1 /BaseFont /Helvetica >>";
    assert NoType(first) && first[2] == 'F';
    NamedOther(first);
    assert NoType(second) && second[0] == '1';
    forall rest
      ensures MarkerAt("/Type" + (second + rest)) == false
    {
      BehindType(second + rest);
      assert (second + rest)[0] == '1';
    }
    TypeThen(second, false);
    MarksConcat("<< " + "/Type" + first, 0, "/Type" + second, 0);
    assert FONT == ("<< " + "/Type" + first) + ("/Type" + second);
  }

  lemma {:induction false} DigitsQuiet(n: nat)
    ensures Marks(Decimal(n), 0)
  {
    DecimalValue(n);
    Quiet(Decimal(n));
  }

  lemma {:induction false} RefsMarks(ids: seq<nat>)
    ensures NoSlash(JoinedRefs(ids))
  {
    if ids != [] {
      DecimalValue(ids[0]);
      RefsMarks(ids[1..]);
    }
  }

  lemma PagesBodyMarks(kids: seq<nat>)
    ensures Marks(PagesBody(kids), 0)
  {
    var tail := " /Pages /Kids [";
    assert NoType(tail) && tail[2] == 'P' && tail[6] == 's';
    NamedOther(tail);
    RefsMarks(kids);
    Quiet(JoinedRefs(kids));
    Quiet("]");
    Three(KIDS_HEAD, 0, JoinedRefs(kids), 0, "]", 0);
    Quiet(" /Count ");
    DigitsQuiet(|kids|);
    Quiet(" >>");
    Three(KIDS_HEAD + JoinedRefs(kids) + "]", 0, " /Count ", 0, Decimal(|kids|), 0);
    MarksConcat(KIDS_HEAD + JoinedRefs(kids) + "]" + " /Count " + Decimal(|kids|), 0, " >>", 0);
  }

  lemma PageNameStands(tail: string, rest: string)
    requires tail == " /Page /Parent 2 0 R "
    ensures MarkerAt("/Type" + (tail + rest))
  {
    var behind := tail + rest;
    BehindType(behind);
    var name := behind[1..];
    assert behind[0] == ' ' && behind[1] == '/' && behind[2] == 'P' && behind[3] == 'a' && behind[4] == 'g' && behind[5] == 'e' && behind[6] == ' ' && behind[7] == '/';
    assert name[5..][0] == ' ' && name[5..][1..] == behind[7..];
    assert AfterBlanks(name[5..]) == AfterBlanks(behind[7..]) == behind[7..];
  }

  /** The head of a page object is one marker. */
  lemma PageHeadMarks()
    ensures Marks(PAGE_HEAD, 1)
  {
    var tail := " /Page /Parent 2 0 R ";
    assert NoType(tail);
    forall rest
      ensures MarkerAt("/Type" + (tail + rest)) == true
    {
      PageNameStands(tail, rest);
    }
    TypeThen(tail, true);
    Quiet("<< ");
    MarksConcat("<< ", 0, "/Type" + tail, 1);
    Quiet("/MediaBox [0 0 612 792] /Contents ");
    MarksConcat("<< " + ("/Type" + tail), 1, "/MediaBox [0 0 612 792] /Contents ", 0);
    assert "<< " + "/Type" + tail == "<< " + ("/Type" + tail);
  }

  lemma PageBodyMarks(contentId: nat)
    ensures Marks(PageBody(contentId), 1)
  {
    PageHeadMarks();
    DigitsQuiet(contentId);
    Quiet(" 0 R");
    Three(PAGE_HEAD, 1, Decimal(contentId), 0, " 0 R", 0);
    Quiet(" /Resources << /Font ");
    Quiet("<< /F1 3 0 R >> >> >>");
    MarksConcat(" /Resources << /Font ", 0, "<< /F1 3 0 R >> >> >>", 0);
    MarksConcat(PAGE_HEAD + Decimal(contentId) + " 0 R", 1, PAGE_TAIL, 0);
  }

  // ------------------------------------------------------------------- shown lines

  lemma {:induction false} BlanksInEscaped(s: string, more: string)
    ensures AfterBlanks(EscapeOnce(s) + ")" + more) == EscapeOnce(AfterBlanks(s)) + ")" + more
  {
    var z := EscapeOnce(s) + ")" + more;
    if s == "" {
      assert z[0] == ')';
    } else if BlankByte(s[0]) {
      BlanksInEscaped(s[1..], more);
      assert z[1..] == EscapeOnce(s[1..]) + ")" + more;
    } else {
      assert z[0] == if Delimits(s[0]) then '\\' else s[0];
    }
  }

  /** The first character of escaped text, a delimiter or the end apart. */
  lemma FirstEscaped(s: string, more: string)
    ensures var z := EscapeOnce(s) + ")" + more;
      z != "" && z[0] == if s == "" then ')' else if Delimits(s[0]) then '\\' else s[0]
  {
  }

  lemma PrefixCons(word: string, s: string, tail: string)
    requires word != "" && s == [word[0]] + tail
    ensures word <= s <==> word[1..] <= tail
  {
    assert s[1..] == tail;
    if word[1..] <= tail { assert word == [word[0]] + word[1..]; }
  }

  /** Escaped text begins with a word without delimiters exactly when the text does, and then goes on as the
      rest of the text, escaped. */
  lemma {:induction false} WordEscaped(word: string, s: string, more: string)
    requires forall k :: 0 <= k < |word| ==> !Delimits(word[k])
    ensures word <= EscapeOnce(s) + ")" + more <==> word <= s
    ensures word <= s ==> (EscapeOnce(s) + ")" + more)[|word|..] == EscapeOnce(s[|word|..]) + ")" + more
  {
    var z := EscapeOnce(s) + ")" + more;
    if word != "" {
      FirstEscaped(s, more);
      if s != "" && s[0] == word[0] {
        var tail := EscapeOnce(s[1..]) + ")" + more;
        assert z == [s[0]] + tail;
        WordEscaped(word[1..], s[1..], more);
        PrefixCons(word, z, tail);
        PrefixCons(word, s, s[1..]);
        if word <= s {
          assert s[1..][|word| - 1..] == s[|word|..] && tail[|word| - 1..] == z[|word|..];
        }
      }
    }
  }

  lemma StartsAsWords(s: string)
    ensures StartsType(s) <==> "/Type" <= s
    ensures StartsPage(s) <==> "/Page" <= s
  {
    assert "/Type" == ['/', 'T', 'y', 'p', 'e'] && "/Page" == ['/', 'P', 'a', 'g', 'e'];
  }

  lemma GoesOnEscaped(s: string, more: string)
    ensures GoesOn(EscapeOnce(s) + ")" + more) <==> GoesOn(s)
  {
    FirstEscaped(s, more);
    BlanksInEscaped(s, more);
    FirstEscaped(AfterBlanks(s), more);
  }

  lemma PageEscaped(s: string, more: string)
    ensures var z := EscapeOnce(s) + ")" + more;
      StartsPage(z) && !GoesOn(z[5..]) <==> StartsPage(s) && !GoesOn(s[5..])
  {
    var z := EscapeOnce(s) + ")" + more;
    StartsAsWords(s);
    StartsAsWords(z);
    WordEscaped("/Page", s, more);
    if StartsPage(s) { GoesOnEscaped(s[5..], more); }
  }

  /** Escaping and closing a line leaves its markers where they are. */
  lemma MarkerEscaped(s: string, more: string)
    ensures MarkerAt(EscapeOnce(s) + ")" + more) <==> MarkerAt(s)
  {
    var z := EscapeOnce(s) + ")" + more;
    StartsAsWords(s);
    StartsAsWords(z);
    WordEscaped("/Type", s, more);
    if StartsType(s) {
      BlanksInEscaped(s[5..], more);
      PageEscaped(AfterBlanks(s[5..]), more);
    }
  }

  lemma {:induction false} EscapedPositions(s: string, rest: string)
    ensures MarkersIn(EscapeOnce(s) + ")", rest) == MarkersIn(s, "")
  {
    var z := EscapeOnce(s) + ")";
    if s == "" {
      QuietIn(z, rest);
    } else {
      assert s + "" == s;
      MarkerEscaped(s, rest);
      EscapedPositions(s[1..], rest);
      var tail := EscapeOnce(s[1..]) + ")";
      if Delimits(s[0]) {
        QuietIn(['\\', s[0]], tail + rest);
        MarkersConcat(['\\', s[0]], tail, rest);
        assert z == ['\\', s[0]] + tail;
      } else {
        assert z == [s[0]] + tail && z[1..] == tail;
      }
    }
  }

  lemma {:induction false} EscapedMarkersIn(s: string, rest: string)
    ensures MarkersIn(EscapeOnce(s) + ")", rest) == PageMarkers(s)
  {
    FoundAreAll(s);
    EscapedPositions(s, rest);
  }

  lemma EscapedMarks(s: string)
    ensures Marks(EscapeOnce(s) + ")", PageMarkers(s))
  {
    forall rest
      ensures MarkersIn(EscapeOnce(s) + ")", rest) == PageMarkers(s)
    {
      EscapedMarkersIn(s, rest);
    }
  }

  /** The markers in what a reader shows of these lines. */
  function LineMarkers(lines: seq<string>): nat {
    if lines == [] then 0 else PageMarkers(Cleaned(Cut(lines[0]))) + LineMarkers(lines[1..])
  }

  lemma ShowLineMarks(line: string, first: bool)
    ensures Marks("\n" + ShowLine(line, first), PageMarkers(Cleaned(Cut(line))))
  {
    var text := Cleaned(Cut(line));
    var operator := if first then " (" else " T* (";
    ReplacesAreOnePass(text);
    Quiet("\n" + operator);
    EscapedMarks(text);
    Quiet(" Tj");
    Three("\n" + operator, 0, EscapeOnce(text) + ")", PageMarkers(text), " Tj", 0);
    assert "\n" + ShowLine(line, first) == ("\n" + operator) + (EscapeOnce(text) + ")") + " Tj";
  }

  lemma {:induction false} ShowLinesMarks(lines: seq<string>, first: bool)
    ensures Marks(ShowLines(lines, first), LineMarkers(lines))
  {
    if lines == [] {
      Quiet("\n ET");
    } else {
      ShowLineMarks(lines[0], first);
      ShowLinesMarks(lines[1..], false);
      MarksConcat("\n" + ShowLine(lines[0], first), PageMarkers(Cleaned(Cut(lines[0]))), ShowLines(lines[1..], false), LineMarkers(lines[1..]));
    }
  }

  lemma StreamMarks(lines: seq<string>)
    ensures Marks(ContentStream(lines), LineMarkers(lines))
  {
    Quiet("BT ");
    Quiet("/F1 11 ");
    Quiet("Tf 50 750 Td 14 TL");
    Three("BT ", 0, "/F1 11 ", 0, "Tf 50 750 Td 14 TL", 0);
    ShowLinesMarks(lines, true);
    MarksConcat(BEGIN_TEXT, 0, ShowLines(lines, true), LineMarkers(lines));
  }

  lemma StreamBodyMarks(stream: string, n: nat)
    requires Marks(stream, n)
    ensures Marks(ContentBody(stream), n)
  {
    Quiet(LENGTH_HEAD);
    DigitsQuiet(|stream|);
    Quiet(STREAM_HEAD);
    Quiet(STREAM_TAIL);
    Three(LENGTH_HEAD, 0, Decimal(|stream|), 0, STREAM_HEAD, 0);
    Three(LENGTH_HEAD + Decimal(|stream|) + STREAM_HEAD, 0, stream, n, STREAM_TAIL, 0);
  }

  lemma ContentMarks(lines: seq<string>)
    ensures Marks(ContentBody(ContentStream(lines)), LineMarkers(lines))
  {
    StreamMarks(lines);
    StreamBodyMarks(ContentStream(lines), LineMarkers(lines));
  }

  // ------------------------------------------------------------------- whole files

  /** The markers in what a reader shows of these pages. */
  function TextMarkers(pages: seq<string>): nat {
    if pages == [] then 0
    else TextMarkers(pages[..|pages| - 1]) + LineMarkers(PageLines(pages[|pages| - 1]))
  }

  lemma ObjectMarks(id: nat, body: string, n: nat)
    requires Marks(body, n)
    ensures Marks(ObjectText(id, body), n)
  {
    DigitsQuiet(id);
    Quiet(OBJ_HEAD);
    Quiet(OBJ_TAIL);
    MarksConcat(Decimal(id), 0, OBJ_HEAD, 0);
    Three(Decimal(id) + OBJ_HEAD, 0, body, n, OBJ_TAIL, 0);
  }

  lemma ObjectsSnoc(bodies: seq<string>, m: nat, body: string, n: nat)
    requires Marks(Objects(bodies), m) && Marks(body, n)
    ensures Marks(Objects(bodies + [body]), m + n)
  {
    ObjectMarks(|bodies| + 1, body, n);
    MarksConcat(Objects(bodies), m, ObjectText(|bodies| + 1, body), n);
    assert (bodies + [body])[..|bodies|] == bodies;
  }

  lemma HeadsMarks(pages: nat)
    ensures Marks(Objects(Heads(pages)), 0)
  {
    var none: seq<string> := [];
    var kids := PagesBody(KidIds(pages));
    Quiet(HEADER);
    CatalogMarks();
    PagesBodyMarks(KidIds(pages));
    FontMarks();
    ObjectsSnoc(none, 0, CATALOG, 0);
    ObjectsSnoc(none + [CATALOG], 0, kids, 0);
    ObjectsSnoc(none + [CATALOG] + [kids], 0, FONT, 0);
    assert Heads(pages) == none + [CATALOG] + [kids] + [FONT];
  }

  lemma NextPageMarks(heads: seq<string>, streams: seq<string>, i: nat, m: nat, n: nat)
    requires i < |streams| && Marks(Objects(heads + PageBodies(streams[..i])), m) && Marks(ContentBody(streams[i]), n)
    ensures Marks(Objects(heads + PageBodies(streams[..i + 1])), m + n + 1)
  {
    var before := heads + PageBodies(streams[..i]);
    PageBodyMarks(4 + 2 * i);
    ObjectsSnoc(before, m, ContentBody(streams[i]), n);
    ObjectsSnoc(before + [ContentBody(streams[i])], m + n, PageBody(4 + 2 * i), 1);
    PageBodiesNext(heads, streams, i);
  }

  lemma TextMarkersNext(pages: seq<string>, i: nat)
    requires i < |pages|
    ensures TextMarkers(pages[..i + 1]) == TextMarkers(pages[..i]) + LineMarkers(PageLines(pages[i]))
  {
    assert pages[..i + 1][..i] == pages[..i];
  }

  /** The objects up to the first `i` pages hold a marker for each of them, and those of their lines. */
  ghost predicate MarkedUpTo(heads: seq<string>, streams: seq<string>, pages: seq<string>, i: nat)
    requires i <= |pages| == |streams|
  {
    Marks(Objects(heads + PageBodies(streams[..i])), i + TextMarkers(pages[..i]))
  }

  lemma PageStep(heads: seq<string>, streams: seq<string>, pages: seq<string>, i: nat)
    requires i < |pages| == |streams| && streams[i] == ContentStream(PageLines(pages[i])) && MarkedUpTo(heads, streams, pages, i)
    ensures MarkedUpTo(heads, streams, pages, i + 1)
  {
    var lines := PageLines(pages[i]);
    ContentMarks(lines);
    NextPageMarks(heads, streams, i, i + TextMarkers(pages[..i]), LineMarkers(lines));
    TextMarkersNext(pages, i);
  }

  lemma {:induction false} PagesMarks(heads: seq<string>, streams: seq<string>, pages: seq<string>, i: nat)
    requires i <= |pages| == |streams| && MarkedUpTo(heads, streams, pages, 0)
    requires forall k :: 0 <= k < |pages| ==> streams[k] == ContentStream(PageLines(pages[k]))
    ensures MarkedUpTo(heads, streams, pages, i)
    decreases i
  {
    if i > 0 {
      PagesMarks(heads, streams, pages, i - 1);
      PageStep(heads, streams, pages, i - 1);
    }
  }

  lemma EntryQuiet(offset: nat)
    ensures NoSlash(Entry(offset))
  {
    PaddedReadsBack(offset);
  }

  lemma {:induction false} TableQuiet(offsets: seq<nat>)
    ensures NoSlash(Table(offsets))
  {
    if offsets != [] {
      TableQuiet(offsets[..|offsets| - 1]);
      EntryQuiet(offsets[|offsets| - 1]);
    }
  }

  lemma XrefMarks(size: nat, table: string)
    requires NoSlash(table)
    ensures Marks(XrefHead(size) + FREE_ENTRY + table, 0)
  {
    DecimalValue(size);
    Quiet(XrefHead(size));
    Quiet(FREE_ENTRY);
    Quiet(table);
    Three(XrefHead(size), 0, FREE_ENTRY, 0, table, 0);
  }

  lemma TrailerMarks(size: nat, xref: nat)
    ensures Marks(Trailer(size, xref), 0)
  {
    Quiet("trailer\n<< /Size ");
    DigitsQuiet(size);
    Quiet(" /Root ");
    Three("trailer\n<< /Size ", 0, Decimal(size), 0, " /Root ", 0);
    Quiet("1");
    Quiet(" 0 R >>\n");
    Three("trailer\n<< /Size " + Decimal(size) + " /Root ", 0, "1", 0, " 0 R >>\n", 0);
    Quiet(STARTXREF);
    DigitsQuiet(xref);
    Three("trailer\n<< /Size " + Decimal(size) + " /Root " + "1" + " 0 R >>\n", 0, STARTXREF, 0, Decimal(xref), 0);
    Quiet(EOF_TAIL);
    MarksConcat("trailer\n<< /Size " + Decimal(size) + " /Root " + "1" + " 0 R >>\n" + STARTXREF + Decimal(xref), 0, EOF_TAIL, 0);
  }

  lemma MiddleThree(a: string, b: string, c: string, d: string, e: string)
    ensures a + b + c + d + e == a + (b + c + d) + e
  {
  }

  lemma FileMarks(bodies: seq<string>, n: nat)
    requires Marks(Objects(bodies), n)
    ensures Marks(FileOf(bodies), n)
  {
    var size, xref := |bodies| + 1, |Objects(bodies)|;
    TableQuiet(Offsets(bodies));
    XrefMarks(size, Table(Offsets(bodies)));
    TrailerMarks(size, xref);
    Three(Objects(bodies), n, XrefHead(size) + FREE_ENTRY + Table(Offsets(bodies)), 0, Trailer(size, xref), 0);
    MiddleThree(Objects(bodies), XrefHead(size), FREE_ENTRY, Table(Offsets(bodies)), Trailer(size, xref));
  }

  /** The count over a written file is its number of pages, and as many again as its shown lines hold of what
      looks like a page: no match spans two lines, or a line and the operators around it. */
  lemma {:induction false} MarkersOfFile(pages: seq<string>)
    ensures PageMarkers(FileOf(Bodies(Streams(pages)))) == |pages| + TextMarkers(pages)
  {
    var file := FileOf(Bodies(Streams(pages)));
    HeadsMarks(|pages|);
    AllPages(Streams(pages));
    PagesMarks(Heads(|pages|), Streams(pages), pages, |pages|);
    assert pages[..|pages|] == pages;
    FileMarks(Bodies(Streams(pages)), |pages| + TextMarkers(pages));
    FoundAreAll(file);
  }
}
