/** Page text as PDF content: escaping into literal strings, and the reading of them that section 7.3.4.2
    of ISO 32000-1 prescribes. */
module PdfText {
  import opened Basics

  const MAX_LINES := 60
  const MAX_LINE_CHARS := 120

  // ------------------------------------------------------------------ escaping

  /** s.replace(c, w) for a single character c. */
  function ReplaceChar(s: string, c: char, w: string): string {
    if s == "" then "" else (if s[0] == c then w else [s[0]]) + ReplaceChar(s[1..], c, w)
  }

  predicate PrintableAscii(c: char) { 32 <= c as int < 127 }

  function Cleaned(text: string): (r: string)
    ensures |r| == |text|
    ensures forall i :: 0 <= i < |r| ==> PrintableAscii(r[i]) && (PrintableAscii(text[i]) ==> r[i] == text[i])
  {
    seq(|text|, i requires 0 <= i < |text| => if PrintableAscii(text[i]) then text[i] else ' ')
  }

  /** The three replaces, one after the other: the backslash must come first. */
  function ThreeReplaces(s: string): string {
    ReplaceChar(ReplaceChar(ReplaceChar(s, '\\', "\\\\"), '(', "\\("), ')', "\\)")
  }

  /** _escape_pdf_text */
  function EscapePdfText(text: string): string {
    ThreeReplaces(Cleaned(text))
  }

  predicate Delimits(c: char) { c == '\\' || c == '(' || c == ')' }

  /** One pass that puts a backslash before every delimiter. */
  function EscapeOnce(s: string): (r: string)
    ensures |s| <= |r| <= 2 * |s|
  {
    if s == "" then "" else (if Delimits(s[0]) then ['\\', s[0]] else [s[0]]) + EscapeOnce(s[1..])
  }

  lemma {:induction false} ReplaceConcat(a: string, b: string, c: char, w: string)
    ensures ReplaceChar(a + b, c, w) == ReplaceChar(a, c, w) + ReplaceChar(b, c, w)
  {
    if a == "" {
      assert a + b == b;
    } else {
      ReplaceConcat(a[1..], b, c, w);
      assert (a + b)[1..] == a[1..] + b;
    }
  }

  /** What the three replaces make of a single character. */
  lemma ReplacesOfOne(c: char)
    ensures ThreeReplaces([c]) == EscapeOnce([c])
  {
    var none: string := "";
    assert [c][1..] == none;
    assert forall x: char, y: char, w: string :: ReplaceChar([x], y, w) == (if x == y then w else [x]) by {
      forall x: char, y: char, w: string ensures ReplaceChar([x], y, w) == (if x == y then w else [x]) { assert [x][1..] == none; }
    }
    ReplaceConcat("\\", "\\", '(', "\\(");
    ReplaceConcat("\\", "\\", ')', "\\)");
    ReplaceConcat("\\", "(", ')', "\\)");
    assert "\\\\" == "\\" + "\\" && "\\(" == "\\" + "(";
  }

  /** The three sequential replaces are the one-pass escape. */
  lemma {:induction false} ReplacesAreOnePass(s: string)
    ensures ThreeReplaces(s) == EscapeOnce(s)
  {
    if s != "" {
      var head, tail := [s[0]], s[1..];
      assert s == head + tail;
      ReplacesAreOnePass(tail);
      ReplacesOfOne(s[0]);
      ReplaceConcat(head, tail, '\\', "\\\\");
      ReplaceConcat(ReplaceChar(head, '\\', "\\\\"), ReplaceChar(tail, '\\', "\\\\"), '(', "\\(");
      ReplaceConcat(ReplaceChar(ReplaceChar(head, '\\', "\\\\"), '(', "\\("),
                    ReplaceChar(ReplaceChar(tail, '\\', "\\\\"), '(', "\\("), ')', "\\)");
      assert EscapeOnce(head) + EscapeOnce(tail) == EscapeOnce(s);
    }
  }

  // ------------------------------------------------------------ literal strings

  datatype Scanned = Scanned(text: string, rest: string)

  predicate Octal(c: char) { '0' <= c <= '7' }

  function OctalDigits(s: string, most: nat): (n: nat)
    ensures n <= most && n <= |s|
    ensures s != "" && most > 0 && Octal(s[0]) ==> n > 0
  {
    if s == "" || most == 0 || !Octal(s[0]) then 0 else 1 + OctalDigits(s[1..], most - 1)
  }

  function OctalValue(s: string): nat {
    if s == "" then 0
    else 8 * OctalValue(s[..|s| - 1]) + (if Octal(s[|s| - 1]) then s[|s| - 1] as nat - '0' as nat else 0)
  }

  /** An end-of-line marker at the front: carriage return and line feed together are one. */
  function EolLength(s: string): (n: nat)
    ensures n <= |s|
  {
    if s == "" then 0
    else if s[0] == '\r' then (if |s| > 1 && s[1] == '\n' then 2 else 1)
    else if s[0] == '\n' then 1 else 0
  }

  /** How much of what follows a backslash belongs to the escape. */
  function EscapeLength(s: string): (n: nat)
    requires s != ""
    ensures 1 <= n <= |s|
  {
    if Octal(s[0]) then OctalDigits(s, 3) else if EolLength(s) > 0 then EolLength(s) else 1
  }

  /** What an escape stands for; a backslash before any other character is ignored, an escaped end of
      line vanishes, and high-order overflow of an octal code is dropped. */
  function EscapeMeaning(s: string): string
    requires s != ""
  {
    if Octal(s[0]) then [(OctalValue(s[..OctalDigits(s, 3)]) % 256) as char]
    else if EolLength(s) > 0 then ""
    else
      match s[0]
      case 'n' => "\n"
      case 'r' => "\r"
      case 't' => "\t"
      case 'b' => [8 as char]
      case 'f' => [12 as char]
      case c => [c]
  }

  function Prepend(text: string, scanned: Option<Scanned>): Option<Scanned> {
    if scanned.Some? then Some(scanned.value.(text := text + scanned.value.text)) else None
  }

  /** A literal string from behind its opening parenthesis: its text, and what follows its own closing
      parenthesis. Unescaped parentheses inside must balance. */
  function ScanLiteral(s: string, depth: nat): (r: Option<Scanned>)
    ensures r.Some? ==> |r.value.rest| < |s|
    decreases |s|
  {
    if s == "" then None
    else if s[0] == '\\' then
      if |s| == 1 then None
      else Prepend(EscapeMeaning(s[1..]), ScanLiteral(s[1 + EscapeLength(s[1..])..], depth))
    else if s[0] == ')' then
      if depth == 0 then Some(Scanned("", s[1..])) else Prepend(")", ScanLiteral(s[1..], depth - 1))
    else if s[0] == '(' then Prepend("(", ScanLiteral(s[1..], depth + 1))
    else if EolLength(s) > 0 then Prepend("\n", ScanLiteral(s[EolLength(s)..], depth))
    else Prepend([s[0]], ScanLiteral(s[1..], depth))
  }

  predicate AllPrintable(s: string) {
    forall i :: 0 <= i < |s| ==> PrintableAscii(s[i])
  }

  lemma ScanEscaped(c: char, tail: string)
    requires Delimits(c)
    ensures ScanLiteral(['\\', c] + tail, 0) == Prepend([c], ScanLiteral(tail, 0))
  {
    var s := ['\\', c] + tail;
    assert s[1..] == [c] + tail && s[2..] == tail;
  }

  lemma ScanPlain(c: char, tail: string)
    requires PrintableAscii(c) && !Delimits(c)
    ensures ScanLiteral([c] + tail, 0) == Prepend([c], ScanLiteral(tail, 0))
  {
    assert ([c] + tail)[1..] == tail;
  }

  lemma EscapeUncons(s: string, rest: string)
    requires s != ""
    ensures EscapeOnce(s) + ")" + rest ==
            (if Delimits(s[0]) then ['\\', s[0]] else [s[0]]) + (EscapeOnce(s[1..]) + ")" + rest)
  {
  }

  /** Escaping is exact: a scanner started behind the writer's `(` stops at the writer's own `)`, whatever
      follows, and has read the escaped text. */
  lemma {:induction false} EscapedScansBack(s: string, rest: string)
    requires AllPrintable(s)
    ensures ScanLiteral(EscapeOnce(s) + ")" + rest, 0) == Some(Scanned(s, rest))
  {
    if s == "" {
      assert EscapeOnce(s) + ")" + rest == ")" + rest && (")" + rest)[1..] == rest;
    } else {
      var tail := EscapeOnce(s[1..]) + ")" + rest;
      EscapedScansBack(s[1..], rest);
      EscapeUncons(s, rest);
      if Delimits(s[0]) { ScanEscaped(s[0], tail); } else { ScanPlain(s[0], tail); }
      assert s == [s[0]] + s[1..];
    }
  }

  // ------------------------------------------------------------- content streams

  function Cut(line: string): string {
    if |line| <= MAX_LINE_CHARS then line else line[..MAX_LINE_CHARS]
  }

  /** (text.splitlines() or [""])[:60] */
  function PageLines(text: string): (lines: seq<string>)
    ensures 1 <= |lines| <= MAX_LINES
  {
    var lines := if SplitLines(text) == [] then [""] else SplitLines(text);
    if |lines| <= MAX_LINES then lines else lines[..MAX_LINES]
  }

  const BEGIN_TEXT := "BT " + "/F1 11 " + "Tf 50 750 Td 14 TL"

  function ShowLine(line: string, first: bool): string {
    (if first then " (" else " T* (") + EscapePdfText(Cut(line)) + ") Tj"
  }

  /** What shows these lines, up to the end of the text object. */
  function ShowLines(lines: seq<string>, first: bool): string {
    if lines == [] then "\n ET"
    else "\n" + ShowLine(lines[0], first) + ShowLines(lines[1..], false)
  }

  function ContentStream(lines: seq<string>): string {
    BEGIN_TEXT + ShowLines(lines, true)
  }

  lemma PartShows(parts: seq<string>, lines: seq<string>, first: bool)
    requires parts != [] && lines != []
    ensures JoinLines(parts + [ShowLine(lines[0], first)]) + ShowLines(lines[1..], false) == JoinLines(parts) + ShowLines(lines, first)
  {
    JoinSnoc(parts, ShowLine(lines[0], first));
  }

  lemma NextPart(parts: seq<string>, lines: seq<string>, i: nat, first: bool)
    requires parts != [] && i < |lines|
    ensures JoinLines(parts + [ShowLine(lines[i], first)]) + ShowLines(lines[i + 1..], false) == JoinLines(parts) + ShowLines(lines[i..], first)
  {
    PartShows(parts, lines[i..], first);
    assert lines[i..][1..] == lines[i + 1..];
  }

  /** The page loop of _assemble_pdf. */
  method RenderContent(text: string) returns (stream: string)
    ensures stream == ContentStream(PageLines(text))
  {
    var lines := PageLines(text);
    var parts := [BEGIN_TEXT];
    var first := true;
    ghost var whole := ContentStream(lines);
    assert lines[0..] == lines;
    for i := 0 to |lines|
      invariant parts != [] && first == (i == 0)
      invariant JoinLines(parts) + ShowLines(lines[i..], first) == whole
    {
      NextPart(parts, lines, i, first);
      if first {
        parts := parts + [ShowLine(lines[i], true)];
        first := false;
      } else {
        parts := parts + [ShowLine(lines[i], false)];
      }
    }
    JoinSnoc(parts, " ET");
    return JoinLines(parts + [" ET"]);
  }

  // ------------------------------------------------------- reading a stream back

  /** What follows this prefix, if the text has it. */
  function Behind(s: string, prefix: string): (r: Option<string>)
    ensures r.Some? ==> |r.value| == |s| - |prefix|
  {
    if |prefix| <= |s| && s[..|prefix|] == prefix then Some(s[|prefix|..]) else None
  }

  lemma BehindConcat(prefix: string, rest: string)
    ensures Behind(prefix + rest, prefix) == Some(rest)
  {
    assert (prefix + rest)[..|prefix|] == prefix && (prefix + rest)[|prefix|..] == rest;
  }

  /** The strings that the rest of a text object shows, one line each: the first where the text begins, every
      other after a move to the next line (T*), up to the end of the object (ET). */
  function LinesIn(s: string, first: bool): Option<seq<string>>
    decreases |s|
  {
    if s == "\n ET" && !first then Some([])
    else
      var inside := Behind(s, if first then "\n (" else "\n T* (");
      if inside.None? then None
      else
        var shown := ScanLiteral(inside.value, 0);
        if shown.None? then None
        else
          var behind := Behind(shown.value.rest, " Tj");
          if behind.None? then None
          else
            var more := LinesIn(behind.value, false);
            if more.None? then None else Some([shown.value.text] + more.value)
  }

  /** The lines that a content stream shows, by section 9.4 of ISO 32000-1: one text object in the font F1
      at 11 points, from (50, 750) down in steps of 14. */
  function ReadContent(stream: string): Option<seq<string>> {
    var body := Behind(stream, "BT /F1 11 Tf 50 750 Td 14 TL");
    if body.None? then None else LinesIn(body.value, true)
  }

  /** What a reader shows of these lines: each cut to 120 characters, and cleaned. */
  function Shown(lines: seq<string>): seq<string> {
    if lines == [] then [] else [Cleaned(Cut(lines[0]))] + Shown(lines[1..])
  }

  /** A shown line is the first 120 characters of its text, with a blank for everything but printable ASCII. */
  lemma {:induction false} ShownAt(lines: seq<string>, i: nat)
    requires i < |lines|
    ensures |Shown(lines)| == |lines| && |Shown(lines)[i]| == (if |lines[i]| <= 120 then |lines[i]| else 120)
    ensures forall k :: 0 <= k < |Shown(lines)[i]| ==>
      Shown(lines)[i][k] == if ' ' <= lines[i][k] <= '~' then lines[i][k] else ' '
  {
    if i > 0 {
      ShownAt(lines[1..], i - 1);
    } else if |lines| > 1 {
      ShownAt(lines[1..], 0);
    }
  }

  lemma ShowLineParts(line: string, first: bool, rest: string)
    ensures "\n" + ShowLine(line, first) + rest ==
            (if first then "\n (" else "\n T* (") + (EscapeOnce(Cleaned(Cut(line))) + ")" + (" Tj" + rest))
  {
    ReplacesAreOnePass(Cleaned(Cut(line)));
  }

  /** One shown line reads back as its text, and reading goes on behind it. */
  lemma LineReadsBack(line: string, first: bool, rest: string, more: seq<string>)
    requires LinesIn(rest, false) == Some(more)
    ensures LinesIn("\n" + ShowLine(line, first) + rest, first) == Some([Cleaned(Cut(line))] + more)
  {
    var text := Cleaned(Cut(line));
    var inside := EscapeOnce(text) + ")" + (" Tj" + rest);
    var s := (if first then "\n (" else "\n T* (") + inside;
    ShowLineParts(line, first, rest);
    BehindConcat(if first then "\n (" else "\n T* (", inside);
    EscapedScansBack(text, " Tj" + rest);
    BehindConcat(" Tj", rest);
    if !first { assert s[2] == 'T' && "\n ET"[2] == 'E'; }
  }

  lemma {:induction false} ShownReadsBack(lines: seq<string>, first: bool)
    requires lines == [] ==> !first
    ensures LinesIn(ShowLines(lines, first), first) == Some(Shown(lines))
  {
    if lines != [] {
      ShownReadsBack(lines[1..], false);
      LineReadsBack(lines[0], first, ShowLines(lines[1..], false), Shown(lines[1..]));
    }
  }

  /** A content stream reads back, operator by operator, as its page's lines. */
  lemma StreamReadsBack(lines: seq<string>)
    requires lines != []
    ensures ReadContent(ContentStream(lines)) == Some(Shown(lines))
  {
    assert BEGIN_TEXT == "BT /F1 11 Tf 50 750 Td 14 TL";
    BehindConcat(BEGIN_TEXT, ShowLines(lines, true));
    ShownReadsBack(lines, true);
  }

  /** A stream is at most 30 bytes, and 251 more for every line. */
  lemma {:induction false} StreamSize(lines: seq<string>, first: bool)
    ensures |ShowLines(lines, first)| <= 4 + 251 * |lines|
  {
    if lines != [] {
      StreamSize(lines[1..], false);
      ReplacesAreOnePass(Cleaned(Cut(lines[0])));
    }
  }
}
