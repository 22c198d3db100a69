/** A reader for the files that PdfFile writes, by sections 7.3.8, 7.5.4, 7.5.5 and 7.7.3 of ISO 32000-1:
    it starts at the end of the file and reaches every page through recorded offsets, declared lengths and
    references. Reading what was written gives back every page. */
module PdfReader {
  import opened Basics
  import opened Numbers
  import opened PdfText
  import opened PdfFile

  // ----------------------------------------------------------------------- words

  // What the standard writes, in the reader's own words: none of them is the writer's.
  const MAGIC := "%PDF-1.4\n"
  const IN_USE := " 00000 n \n"
  const FREE := "0000000000 65535 f \n"
  const OBJ := " 0 obj\n"
  const END_OBJ := "\nendobj\n"
  const LENGTH := "<< /Length "
  const STREAM := " >>\nstream\n"
  const END_STREAM := "\nendstream"
  const KIDS := "<< /Type /Pages /Kids ["
  const PARENT := "<< /Type /Page /Parent "
  const CONTENTS := " 0 R " + "/MediaBox [0 0 612 792] /Contents "
  const FONT_NAME := " 0 R" + " /Resources << /Font " + "<< /F1 "
  const END_PAGE := " 0 R >> >> >>" + "\nendobj\n"
  const HELVETICA := "<< /Type /Font /Subtype " + "/Type1 /BaseFont /Helvetica >>" + "\nendobj\n"
  const XREF_AT := "startxref\n"
  const END_FILE := "\n%%EOF\n"

  lemma TableWords()
    ensures ENTRY_TAIL == IN_USE && FREE_ENTRY == FREE && STARTXREF == XREF_AT && EOF_TAIL == END_FILE
  {
  }

  lemma ObjectWords()
    ensures OBJ_HEAD == OBJ && OBJ_TAIL == END_OBJ && LENGTH_HEAD == LENGTH && STREAM_HEAD == STREAM && STREAM_TAIL == END_STREAM
  {
  }

  lemma Regrouped(a: string, b: string, c: string, d: string, e: string, f: string)
    ensures a + b + c + d + e + f == (a + b + c) + (d + e) + f
    ensures a + b + (c + d + e) + f == (a + b + c) + d + (e + f)
    ensures a + (b + (c + d + e)) + f == (a + b + c) + d + (e + f)
  {
  }

  lemma TreeWords()
    ensures KIDS_HEAD == KIDS
    ensures FONT + OBJ_TAIL == HELVETICA
  {
    assert "<< " + "/Type" + " /Font /Subtype " == "<< /Type /Font /Subtype ";
    assert "/Type" + "1 /BaseFont /Helvetica >>" == "/Type1 /BaseFont /Helvetica >>";
    Regrouped("<< ", "/Type", " /Font /Subtype ", "/Type", "1 /BaseFont /Helvetica >>", OBJ_TAIL);
    ObjectWords();
  }

  lemma PageHeadWords()
    ensures PAGE_HEAD == PARENT + "2" + CONTENTS
  {
    assert " /Page /Parent 2 0 R " == " /Page /Parent " + "2" + " 0 R ";
    assert "<< " + "/Type" + " /Page /Parent " == PARENT;
    Regrouped("<< ", "/Type", " /Page /Parent ", "2", " 0 R ", "/MediaBox [0 0 612 792] /Contents ");
  }

  lemma PageTailWords()
    ensures " 0 R" + PAGE_TAIL + OBJ_TAIL == FONT_NAME + "3" + END_PAGE
  {
    assert "<< /F1 3 0 R >> >> >>" == "<< /F1 " + "3" + " 0 R >> >> >>";
    Regrouped(" 0 R", " /Resources << /Font ", "<< /F1 ", "3", " 0 R >> >> >>", OBJ_TAIL);
    ObjectWords();
  }

  // --------------------------------------------------------------------- reading

  /** The number between two keywords at the front, and what follows. */
  function Keyed(s: string, before: string, after: string): Option<(nat, string)> {
    var inside := Behind(s, before);
    if inside.None? then None
    else
      var number := ReadNumber(inside.value);
      if number.None? then None
      else
        var rest := Behind(number.value.1, after);
        if rest.None? then None else Some((number.value.0, rest.value))
  }

  function TailRun(s: string): (n: nat)
    ensures n <= |s| && AllDigits(s[|s| - n..])
  {
    if s == "" || !IsDigit(s[|s| - 1]) then 0
    else
      var n := TailRun(s[..|s| - 1]);
      assert s[|s| - 1 - n..] == s[..|s| - 1][|s| - 1 - n..] + [s[|s| - 1]];
      1 + n
  }

  function Before(s: string, suffix: string): Option<string> {
    if |suffix| <= |s| && s[|s| - |suffix|..] == suffix then Some(s[..|s| - |suffix|]) else None
  }

  /** The offset that the end of the file announces. */
  function StartXref(file: string): Option<nat> {
    var body := Before(file, END_FILE);
    if body.None? then None
    else
      var n := TailRun(body.value);
      var at := |body.value| - n;
      if n == 0 || Before(body.value[..at], XREF_AT).None? then None else Some(ValueOf(body.value[at..]))
  }

  /** A file with its cross-reference table: 20-byte entries from object 0 on. */
  datatype Index = Index(file: string, size: nat, table: string)

  function OpenIndex(file: string): Option<Index> {
    var x := StartXref(file);
    if !(MAGIC <= file) || x.None? || x.value > |file| then None
    else
      var section := Keyed(file[x.value..], "xref\n0 ", "\n");
      if section.None? || |section.value.1| < 20 * section.value.0 || !(FREE <= section.value.1) then None
      else Some(Index(file, section.value.0, section.value.1))
  }

  function EntryOffset(entry: string): Option<nat>
    requires |entry| == 20
  {
    if AllDigits(entry[..10]) && entry[10..] == IN_USE then Some(ValueOf(entry[..10])) else None
  }

  function OffsetIn(ix: Index, id: nat): Option<nat> {
    if id >= ix.size || |ix.table| < 20 * ix.size then None else EntryOffset(ix.table[20 * id..20 * id + 20])
  }

  /** What follows the header of this object. */
  function ObjectIn(ix: Index, id: nat): Option<string> {
    var offset := OffsetIn(ix, id);
    if offset.None? || offset.value > |ix.file| then None
    else Behind(ix.file[offset.value..], Decimal(id) + OBJ)
  }

  /** The stream of a content object: exactly as many bytes as its length says. */
  function StreamIn(found: string): Option<string> {
    var length := Keyed(found, LENGTH, STREAM);
    if length.None? || |length.value.1| < length.value.0 then None
    else if Behind(length.value.1[length.value.0..], END_STREAM + END_OBJ).None? then None
    else Some(length.value.1[..length.value.0])
  }

  /** References up to the closing bracket, and what follows it. */
  function RefsIn(s: string): (r: Option<(seq<nat>, string)>)
    decreases |s|
  {
    var first := Keyed(s, "", " 0 R");
    if first.None? || |first.value.1| >= |s| then None
    else
      var end := Behind(first.value.1, "]");
      if end.Some? then Some(([first.value.0], end.value))
      else
        var space := Behind(first.value.1, " ");
        if space.None? then None
        else
          var more := RefsIn(space.value);
          if more.None? then None else Some(([first.value.0] + more.value.0, more.value.1))
  }

  /** The kids of the page tree, as many as its count says. */
  function KidsIn(found: string): Option<seq<nat>> {
    var inside := Behind(found, KIDS);
    if inside.None? then None
    else
      var refs := RefsIn(inside.value);
      if refs.None? then None
      else
        var count := Keyed(refs.value.1, " /Count ", " >>" + END_OBJ);
        if count.None? || count.value.0 != |refs.value.0| then None else Some(refs.value.0)
  }

  /** What a page object refers to: its parent, its content and its font F1. */
  datatype PageRefs = PageRefs(parent: nat, contents: nat, font: nat)

  function PageRefsIn(found: string): Option<PageRefs> {
    var parent := Keyed(found, PARENT, CONTENTS);
    if parent.None? then None
    else
      var contents := Keyed(parent.value.1, "", FONT_NAME);
      if contents.None? then None
      else
        var font := Keyed(contents.value.1, "", END_PAGE);
        if font.None? then None else Some(PageRefs(parent.value.0, contents.value.0, font.value.0))
  }

  /** The object is the font Helvetica. */
  predicate IsHelvetica(ix: Index, font: nat) {
    ObjectIn(ix, font).Some? && HELVETICA <= ObjectIn(ix, font).value
  }

  /** The content stream of one page of this tree. */
  function PageIn(ix: Index, tree: nat, pageId: nat): Option<string> {
    var found := ObjectIn(ix, pageId);
    if found.None? then None
    else
      var refs := PageRefsIn(found.value);
      if refs.None? || refs.value.parent != tree || !IsHelvetica(ix, refs.value.font) then None
      else
        var content := ObjectIn(ix, refs.value.contents);
        if content.None? then None else StreamIn(content.value)
  }

  /** Where to find each page of this tree. */
  function Finder(ix: Index, tree: nat): nat -> Option<string> {
    (pageId: nat) => PageIn(ix, tree, pageId)
  }

  /** What is found for each of these pages. */
  function Each<T>(find: nat -> T, ids: seq<nat>): (found: seq<T>)
    ensures |found| == |ids|
  {
    if ids == [] then [] else [find(ids[0])] + Each(find, ids[1..])
  }

  /** All of them, if none is missing. */
  function AllOf(pages: seq<Option<string>>): Option<seq<string>> {
    if pages == [] then Some([])
    else
      var rest := AllOf(pages[1..]);
      if pages[0].None? || rest.None? then None else Some([pages[0].value] + rest.value)
  }

  /** The root that the trailer behind the table names, and the page tree that the root names. */
  function PageTreeOf(ix: Index): Option<nat> {
    if |ix.table| < 20 * ix.size then None
    else
      var size := Keyed(ix.table[20 * ix.size..], "trailer\n<< /Size ", " /Root ");
      if size.None? || size.value.0 != ix.size then None
      else
        var root := Keyed(size.value.1, "", " 0 R >>\n");
        if root.None? then None
        else
          var catalog := ObjectIn(ix, root.value.0);
          if catalog.None? then None
          else
            var pages := Keyed(catalog.value, "<< /Type /Catalog /Pages ", " 0 R >>" + END_OBJ);
            if pages.None? then None else Some(pages.value.0)
  }

  /** The content streams of all pages, in order. */
  function ReadPdf(file: string): Option<seq<string>> {
    var ix := OpenIndex(file);
    if ix.None? then None
    else
      var tree := PageTreeOf(ix.value);
      if tree.None? then None
      else
        var found := ObjectIn(ix.value, tree.value);
        if found.None? then None
        else
          var kids := KidsIn(found.value);
          if kids.None? then None else AllOf(Each(Finder(ix.value, tree.value), kids.value))
  }

  // ------------------------------------------------------------- reading primitives

  lemma BeforeConcat(start: string, suffix: string)
    ensures Before(start + suffix, suffix) == Some(start)
  {
    assert (start + suffix)[|start|..] == suffix && (start + suffix)[..|start|] == start;
  }

  lemma KeyedReads(before: string, n: nat, after: string, rest: string)
    requires after != "" && !IsDigit(after[0])
    ensures Keyed(before + (Decimal(n) + (after + rest)), before, after) == Some((n, rest))
  {
    BehindConcat(before, Decimal(n) + (after + rest));
    ReadsDecimal(n, after + rest);
    BehindConcat(after, rest);
  }

  lemma FrontOfConcat(start: string, end: string)
    requires end != ""
    ensures (start + end)[..|start + end| - 1] == start + end[..|end| - 1]
  {
  }

  lemma {:induction false} TailRunExact(start: string, digits: string)
    requires AllDigits(digits) && start != "" && !IsDigit(start[|start| - 1])
    ensures TailRun(start + digits) == |digits|
  {
    var s := start + digits;
    if digits != "" {
      TailRunExact(start, digits[..|digits| - 1]);
      FrontOfConcat(start, digits);
    }
  }

  /** startxref is found from the end of the file, whatever precedes it. */
  lemma StartXrefReads(start: string, n: nat)
    ensures StartXref(start + STARTXREF + Decimal(n) + EOF_TAIL) == Some(n)
  {
    TableWords();
    var head := start + STARTXREF;
    BeforeConcat(head + Decimal(n), EOF_TAIL);
    DecimalValue(n);
    assert head[|head| - 1] == '\n';
    TailRunExact(head, Decimal(n));
    assert (head + Decimal(n))[..|head|] == head && (head + Decimal(n))[|head|..] == Decimal(n);
    BeforeConcat(start, STARTXREF);
  }

  // ------------------------------------------------------------- the written layout

  /** Every offset fits the ten digits of its table entry. */
  predicate OffsetsFit(bodies: seq<string>) {
    |Objects(bodies)| < 10_000_000_000
  }

  lemma {:induction false} ObjectsPrefix(bodies: seq<string>, n: nat) returns (rest: string)
    requires n <= |bodies|
    ensures Objects(bodies) == Objects(bodies[..n]) + rest
  {
    if n == |bodies| {
      assert bodies[..n] == bodies;
      rest := "";
    } else {
      var front := bodies[..|bodies| - 1];
      var middle := ObjectsPrefix(front, n);
      assert front[..n] == bodies[..n];
      rest := middle + ObjectText(|bodies|, bodies[|bodies| - 1]);
    }
  }

  lemma SplitAt(start: string, text: string, later: string, behind: string)
    ensures (start + text + later + behind)[|start|..] == text + (later + behind)
  {
  }

  /** At its offset, the file holds the object's header, its body and its end. */
  lemma ObjectAtOffset(bodies: seq<string>, id: nat, behind: string) returns (rest: string)
    requires 1 <= id <= |bodies|
    ensures Offset(bodies, id) <= |Objects(bodies)|
    ensures (Objects(bodies) + behind)[Offset(bodies, id)..] == ObjectText(id, bodies[id - 1]) + rest
  {
    var later := ObjectsPrefix(bodies, id);
    assert bodies[..id][..id - 1] == bodies[..id - 1];
    var start := Objects(bodies[..id - 1]);
    var text := ObjectText(id, bodies[id - 1]);
    assert Objects(bodies[..id]) == start + text;
    rest := later + behind;
    SplitAt(start, text, later, behind);
  }

  lemma EntrySize(offset: nat)
    requires offset < 10_000_000_000
    ensures |Entry(offset)| == 20 && EntryOffset(Entry(offset)) == Some(offset)
  {
    TableWords();
    PaddedReadsBack(offset);
    assert Entry(offset)[..10] == Padded(offset) && Entry(offset)[10..] == ENTRY_TAIL;
  }

  /** The table is one 20-byte entry per object, at the position that its id gives. */
  lemma {:induction false} TableAt(offsets: seq<nat>, i: nat)
    requires i < |offsets| && forall k :: 0 <= k < |offsets| ==> offsets[k] < 10_000_000_000
    ensures |Table(offsets)| == 20 * |offsets|
    ensures Table(offsets)[20 * i..20 * i + 20] == Entry(offsets[i])
  {
    var n := |offsets| - 1;
    var front, last := Table(offsets[..n]), Entry(offsets[n]);
    EntrySize(offsets[n]);
    if n > 0 {
      TableAt(offsets[..n], if i < n then i else 0);
    }
    assert Table(offsets) == front + last && |front| == 20 * n;
    if i < n {
      assert (front + last)[20 * i..20 * i + 20] == front[20 * i..20 * i + 20];
    } else {
      assert (front + last)[20 * n..20 * n + 20] == last;
    }
  }

  /** Everything from the free entry to the end of the file. */
  function TableAndTrailer(bodies: seq<string>): string {
    FREE_ENTRY + Table(Offsets(bodies)) + Trailer(|bodies| + 1, |Objects(bodies)|)
  }

  function WrittenIndex(bodies: seq<string>): Index {
    Index(FileOf(bodies), |bodies| + 1, TableAndTrailer(bodies))
  }

  lemma {:induction false} OffsetsBounded(bodies: seq<string>, id: nat)
    requires 1 <= id <= |bodies|
    ensures Offset(bodies, id) <= |Objects(bodies)|
  {
    var _ := ObjectAtOffset(bodies, id, "");
  }

  lemma TableSize(bodies: seq<string>)
    requires OffsetsFit(bodies) && bodies != []
    ensures |Table(Offsets(bodies))| == 20 * |bodies|
    ensures forall k :: 0 <= k < |bodies| ==> Offsets(bodies)[k] < 10_000_000_000
  {
    forall k | 0 <= k < |bodies|
      ensures Offsets(bodies)[k] < 10_000_000_000
    {
      OffsetsBounded(bodies, k + 1);
    }
    TableAt(Offsets(bodies), 0);
  }

  lemma TrailerParts(size: nat, xref: nat)
    ensures Trailer(size, xref) ==
      ("trailer\n<< /Size " + Decimal(size) + " /Root " + "1" + " 0 R >>\n") + STARTXREF + Decimal(xref) + EOF_TAIL
  {
  }

  lemma {:induction false} OpenAt(file: string, start: string, x: nat, size: nat, table: string)
    requires file == start + STARTXREF + Decimal(x) + EOF_TAIL
    requires x <= |file| && file[x..] == "xref\n0 " + (Decimal(size) + ("\n" + table)) && |table| >= 20 * size
    requires MAGIC <= file && FREE <= table
    ensures OpenIndex(file) == Some(Index(file, size, table))
  {
    StartXrefReads(start, x);
    KeyedReads("xref\n0 ", size, "\n", table);
  }

  lemma {:induction false} FileEnd(bodies: seq<string>) returns (start: string)
    ensures FileOf(bodies) == start + STARTXREF + Decimal(|Objects(bodies)|) + EOF_TAIL
  {
    var size := |bodies| + 1;
    var before := Objects(bodies) + XrefHead(size) + FREE_ENTRY + Table(Offsets(bodies));
    start := before + ("trailer\n<< /Size " + Decimal(size) + " /Root " + "1" + " 0 R >>\n");
    TrailerParts(size, |Objects(bodies)|);
  }

  /** Five pieces, with the first one, and then the first two, set apart. */
  lemma FivePieces(a: string, b: string, c: string, d: string, e: string)
    ensures a + b + c + d + e == a + (b + (c + d + e))
    ensures (a + b + c + d + e)[|a|..] == b + (c + d + e)
  {
  }

  lemma {:induction false} FileFromXref(bodies: seq<string>)
    ensures |Objects(bodies)| <= |FileOf(bodies)|
    ensures FileOf(bodies) == Objects(bodies) + (XrefHead(|bodies| + 1) + TableAndTrailer(bodies))
    ensures FileOf(bodies)[|Objects(bodies)|..] == XrefHead(|bodies| + 1) + TableAndTrailer(bodies)
  {
    FivePieces(Objects(bodies), XrefHead(|bodies| + 1), FREE_ENTRY, Table(Offsets(bodies)), Trailer(|bodies| + 1, |Objects(bodies)|));
  }

  lemma XrefHeadParts(size: nat, table: string)
    ensures XrefHead(size) + table == "xref\n0 " + (Decimal(size) + ("\n" + table))
  {
  }

  lemma {:induction false} HeaderFirst(bodies: seq<string>)
    ensures HEADER <= Objects(bodies)
  {
    if bodies != [] {
      HeaderFirst(bodies[..|bodies| - 1]);
    }
  }

  lemma {:induction false} WrittenMagic(bodies: seq<string>)
    ensures MAGIC <= FileOf(bodies)
  {
    HeaderFirst(bodies);
    FileFromXref(bodies);
    assert MAGIC <= HEADER;
  }

  /** The end of the file leads to the table. */
  lemma IndexReads(bodies: seq<string>)
    requires OffsetsFit(bodies) && bodies != []
    ensures OpenIndex(FileOf(bodies)) == Some(WrittenIndex(bodies))
  {
    var start := FileEnd(bodies);
    FileFromXref(bodies);
    XrefHeadParts(|bodies| + 1, TableAndTrailer(bodies));
    TableSize(bodies);
    TableWords();
    WrittenMagic(bodies);
    OpenAt(FileOf(bodies), start, |Objects(bodies)|, |bodies| + 1, TableAndTrailer(bodies));
  }

  lemma EntryAfterFree(table: string, trailer: string, id: nat)
    requires id >= 1 && 20 * id <= |table|
    ensures (FREE_ENTRY + table + trailer)[20 * id..20 * id + 20] == table[20 * (id - 1)..20 * (id - 1) + 20]
  {
    assert |FREE_ENTRY| == 20;
  }

  /** The table gives every object the offset at which it was written. */
  lemma OffsetReads(bodies: seq<string>, id: nat)
    requires OffsetsFit(bodies) && 1 <= id <= |bodies|
    ensures OffsetIn(WrittenIndex(bodies), id) == Some(Offset(bodies, id))
  {
    TableSize(bodies);
    TableAt(Offsets(bodies), id - 1);
    var table := Table(Offsets(bodies));
    EntryAfterFree(table, Trailer(|bodies| + 1, |Objects(bodies)|), id);
    EntrySize(Offset(bodies, id));
  }

  lemma ObjectAt(ix: Index, id: nat, offset: nat, body: string, rest: string)
    requires OffsetIn(ix, id) == Some(offset) && offset <= |ix.file|
    requires ix.file[offset..] == ObjectText(id, body) + rest
    ensures ObjectIn(ix, id) == Some(body + OBJ_TAIL + rest)
  {
    ObjectWords();
    assert ObjectText(id, body) + rest == (Decimal(id) + OBJ_HEAD) + (body + OBJ_TAIL + rest);
    BehindConcat(Decimal(id) + OBJ_HEAD, body + OBJ_TAIL + rest);
  }

  /** Every id leads to its own object, header and body. */
  lemma ObjectReads(bodies: seq<string>, id: nat) returns (rest: string)
    requires OffsetsFit(bodies) && 1 <= id <= |bodies|
    ensures ObjectIn(WrittenIndex(bodies), id) == Some(bodies[id - 1] + OBJ_TAIL + rest)
  {
    OffsetReads(bodies, id);
    FileFromXref(bodies);
    rest := ObjectAtOffset(bodies, id, XrefHead(|bodies| + 1) + TableAndTrailer(bodies));
    ObjectAt(WrittenIndex(bodies), id, Offset(bodies, id), bodies[id - 1], rest);
  }

  // ------------------------------------------------------------------ the bytes themselves

  lemma {:induction false} TableLength(bodies: seq<string>)
    requires OffsetsFit(bodies) && bodies != []
    ensures |TableAndTrailer(bodies)| >= 20 * (|bodies| + 1)
  {
    TableSize(bodies);
  }

  /** The 20 bytes of entry `id` in the table of this file. */
  function EntryBytes(bodies: seq<string>, id: nat): string
    requires OffsetsFit(bodies) && bodies != [] && id <= |bodies|
  {
    TableLength(bodies);
    TableAndTrailer(bodies)[20 * id..20 * id + 20]
  }

  lemma SliceBehind(file: string, a: string, b: string, c: string, at: nat, i: nat)
    requires file == a + (b + c) && i + 20 <= |c| && at == |a| + |b| + i
    ensures at + 20 <= |file| && file[at..at + 20] == c[i..i + 20]
  {
  }

  /** Where they stand. */
  lemma {:induction false} EntryStands(bodies: seq<string>, id: nat, at: nat, file: string)
    requires OffsetsFit(bodies) && bodies != [] && id <= |bodies| && file == FileOf(bodies)
    requires at == |Objects(bodies)| + |XrefHead(|bodies| + 1)| + 20 * id
    ensures at + 20 <= |file| && file[at..at + 20] == EntryBytes(bodies, id)
  {
    TableLength(bodies);
    FileFromXref(bodies);
    SliceBehind(file, Objects(bodies), XrefHead(|bodies| + 1), TableAndTrailer(bodies), at, 20 * id);
  }

  lemma FreeFirst(table: string, trailer: string)
    ensures |FREE_ENTRY + table + trailer| >= 20 && (FREE_ENTRY + table + trailer)[0..20] == "0000000000 65535 f \n"
  {
    assert |FREE_ENTRY| == 20;
  }

  lemma {:induction false} UsedEntry(bodies: seq<string>, id: nat)
    requires OffsetsFit(bodies) && 1 <= id <= |bodies|
    ensures EntryBytes(bodies, id) == Padded(Offset(bodies, id)) + " 00000 n \n"
  {
    TableSize(bodies);
    TableAt(Offsets(bodies), id - 1);
    EntryAfterFree(Table(Offsets(bodies)), Trailer(|bodies| + 1, |Objects(bodies)|), id);
    TableWords();
  }

  lemma UsedBytes(entry: string, offset: nat)
    requires offset < 10_000_000_000 && entry == Padded(offset) + " 00000 n \n"
    ensures |entry| == 20 && entry[17] == 'n' && entry[10..] == " 00000 n \n"
    ensures AllDigits(entry[..10]) && ValueOf(entry[..10]) == offset
  {
    PaddedReadsBack(offset);
    assert entry[..10] == Padded(offset);
  }

  lemma {:induction false} ObjectBytes(bodies: seq<string>, id: nat)
    requires OffsetsFit(bodies) && 1 <= id <= |bodies|
    ensures Offset(bodies, id) < 10_000_000_000 && Offset(bodies, id) <= |FileOf(bodies)|
    ensures Decimal(id) + " 0 obj\n" + bodies[id - 1] + "\nendobj\n" <= FileOf(bodies)[Offset(bodies, id)..]
  {
    FileFromXref(bodies);
    ObjectWords();
    var rest := ObjectAtOffset(bodies, id, XrefHead(|bodies| + 1) + TableAndTrailer(bodies));
  }

  /** The table byte by byte, by section 7.5.4 of ISO 32000-1: 20 bytes per object behind the section's head.
      Entry 0 is free and every other one is in use; its first ten digits are an offset, and at that offset
      stand the object's number, its body and its end. */
  lemma {:induction false} TableBytes(bodies: seq<string>, id: nat, at: nat) returns (entry: string)
    requires OffsetsFit(bodies) && bodies != [] && id <= |bodies|
    requires at == |Objects(bodies)| + |"xref\n0 " + Decimal(|bodies| + 1) + "\n"| + 20 * id
    ensures at + 20 <= |FileOf(bodies)| && entry == FileOf(bodies)[at..at + 20]
    ensures entry[17] == if id == 0 then 'f' else 'n'
    ensures id == 0 ==> entry == "0000000000 65535 f \n"
    ensures id > 0 ==> entry[10..] == " 00000 n \n" && AllDigits(entry[..10]) && ValueOf(entry[..10]) <= |FileOf(bodies)|
    ensures id > 0 ==> Decimal(id) + " 0 obj\n" + bodies[id - 1] + "\nendobj\n" <= FileOf(bodies)[ValueOf(entry[..10])..]
  {
    EntryStands(bodies, id, at, FileOf(bodies));
    entry := EntryBytes(bodies, id);
    if id == 0 {
      FreeFirst(Table(Offsets(bodies)), Trailer(|bodies| + 1, |Objects(bodies)|));
    } else {
      ObjectBytes(bodies, id);
      UsedEntry(bodies, id);
      UsedBytes(entry, Offset(bodies, id));
    }
  }

  // ---------------------------------------------------------------- object bodies

  lemma StreamReads(stream: string, rest: string)
    ensures StreamIn(ContentBody(stream) + OBJ_TAIL + rest) == Some(stream)
  {
    ObjectWords();
    var behind := (STREAM_TAIL + OBJ_TAIL) + rest;
    assert ContentBody(stream) + OBJ_TAIL + rest == LENGTH_HEAD + (Decimal(|stream|) + (STREAM_HEAD + (stream + behind)));
    KeyedReads(LENGTH_HEAD, |stream|, STREAM_HEAD, stream + behind);
    assert (stream + behind)[..|stream|] == stream && (stream + behind)[|stream|..] == behind;
    BehindConcat(STREAM_TAIL + OBJ_TAIL, rest);
  }

  lemma SixPieces(a: string, b: string, c: string, d: string, e: string, f: string)
    ensures a + b + c + d + e + f == a + b + (c + (d + e + f))
    ensures a + b + c + d + e + f == a + b + (c + d + e) + f
  {
  }

  lemma PagePieces(parent: string, contents: string, id: string, fontName: string, end: string, rest: string)
    ensures parent + "2" + contents + id + (fontName + "3" + end) + rest ==
      parent + ("2" + (contents + ("" + (id + (fontName + ("" + ("3" + (end + rest))))))))
  {
  }

  lemma WrittenPage(contentId: nat, rest: string)
    ensures PageBody(contentId) + OBJ_TAIL + rest == PARENT + "2" + CONTENTS + Decimal(contentId) + (FONT_NAME + "3" + END_PAGE) + rest
  {
    PageHeadWords();
    PageTailWords();
    SixPieces(PAGE_HEAD, Decimal(contentId), " 0 R", PAGE_TAIL, OBJ_TAIL, rest);
  }

  /** A written page names the page tree 2, its own content and the font 3. */
  lemma PageReads(contentId: nat, rest: string)
    ensures PageRefsIn(PageBody(contentId) + OBJ_TAIL + rest) == Some(PageRefs(2, contentId, 3))
  {
    var font := END_PAGE + rest;
    var contents := FONT_NAME + ("" + (Decimal(3) + font));
    assert Decimal(2) == "2" && Decimal(3) == "3";
    WrittenPage(contentId, rest);
    PagePieces(PARENT, CONTENTS, Decimal(contentId), FONT_NAME, END_PAGE, rest);
    KeyedReads(PARENT, 2, CONTENTS, "" + (Decimal(contentId) + contents));
    KeyedReads("", contentId, FONT_NAME, "" + (Decimal(3) + font));
    KeyedReads("", 3, END_PAGE, rest);
  }

  lemma RefReads(id: nat, rest: string)
    ensures Keyed(Decimal(id) + " 0 R" + rest, "", " 0 R") == Some((id, rest))
  {
    assert Decimal(id) + " 0 R" + rest == "" + (Decimal(id) + (" 0 R" + rest));
    KeyedReads("", id, " 0 R", rest);
  }

  lemma {:induction false} LastRefReads(id: nat, rest: string)
    ensures RefsIn(Decimal(id) + " 0 R" + ("]" + rest)) == Some(([id], rest))
  {
    RefReads(id, "]" + rest);
    BehindConcat("]", rest);
  }

  lemma RefThenMore(id: nat, more: string, ids: seq<nat>, rest: string)
    requires RefsIn(more) == Some((ids, rest))
    ensures RefsIn(Decimal(id) + " 0 R" + (" " + more)) == Some(([id] + ids, rest))
  {
    RefReads(id, " " + more);
    BehindConcat(" ", more);
    assert (" " + more)[..1] == " ";
  }

  lemma ThreePieces(a: string, b: string, c: string)
    ensures a + b + c == a + (b + c)
  {
  }

  lemma {:induction false} OneRef(ids: seq<nat>, rest: string)
    requires |ids| == 1
    ensures JoinedRefs(ids) + "]" + rest == Decimal(ids[0]) + " 0 R" + ("]" + rest) && ids == [ids[0]]
  {
    assert JoinedRefs(ids) == Decimal(ids[0]) + " 0 R";
    ThreePieces(Decimal(ids[0]) + " 0 R", "]", rest);
  }

  lemma RefsParts(ids: seq<nat>, rest: string)
    requires |ids| > 1
    ensures JoinedRefs(ids) + "]" + rest == Decimal(ids[0]) + " 0 R" + (" " + (JoinedRefs(ids[1..]) + "]" + rest))
  {
    assert JoinedRefs(ids) == Decimal(ids[0]) + " 0 R" + " " + JoinedRefs(ids[1..]);
    SixPieces(Decimal(ids[0]), " 0 R", " ", JoinedRefs(ids[1..]), "]", rest);
  }

  lemma {:induction false} RefsRead(ids: seq<nat>, rest: string)
    requires ids != []
    ensures RefsIn(JoinedRefs(ids) + "]" + rest) == Some((ids, rest))
  {
    if |ids| == 1 {
      OneRef(ids, rest);
      LastRefReads(ids[0], rest);
    } else {
      RefsRead(ids[1..], rest);
      RefThenMore(ids[0], JoinedRefs(ids[1..]) + "]" + rest, ids[1..], rest);
      RefsParts(ids, rest);
      assert ids == [ids[0]] + ids[1..];
    }
  }

  lemma EightPieces(a: string, b: string, c: string, d: string, e: string, f: string, g: string, h: string)
    ensures a + b + c + d + e + f + g + h == a + (b + c + (d + (e + ((f + g) + h))))
    ensures a + b + c + d + e + f + g + h == a + (b + (c + ("" + (d + (e + (f + g + h))))))
  {
  }

  lemma {:induction false} KidsParts(ids: seq<nat>, rest: string)
    ensures PagesBody(ids) + OBJ_TAIL + rest ==
      KIDS_HEAD + (JoinedRefs(ids) + "]" + (" /Count " + (Decimal(|ids|) + ((" >>" + OBJ_TAIL) + rest))))
  {
    EightPieces(KIDS_HEAD, JoinedRefs(ids), "]", " /Count ", Decimal(|ids|), " >>", OBJ_TAIL, rest);
  }

  lemma KidsRead(ids: seq<nat>, rest: string)
    requires ids != []
    ensures KidsIn(PagesBody(ids) + OBJ_TAIL + rest) == Some(ids)
  {
    var tail := " /Count " + (Decimal(|ids|) + ((" >>" + OBJ_TAIL) + rest));
    TreeWords();
    ObjectWords();
    KidsParts(ids, rest);
    BehindConcat(KIDS_HEAD, JoinedRefs(ids) + "]" + tail);
    RefsRead(ids, tail);
    KeyedReads(" /Count ", |ids|, " >>" + OBJ_TAIL, rest);
  }

  // -------------------------------------------------------------------- whole files

  lemma TrailerSplit(size: nat, xref: nat, end: string)
    requires end == STARTXREF + Decimal(xref) + EOF_TAIL
    ensures Trailer(size, xref) ==
      "trailer\n<< /Size " + (Decimal(size) + (" /Root " + ("" + (Decimal(1) + (" 0 R >>\n" + end)))))
  {
    assert Decimal(1) == "1";
    EightPieces("trailer\n<< /Size ", Decimal(size), " /Root ", "1", " 0 R >>\n", STARTXREF, Decimal(xref), EOF_TAIL);
  }

  lemma {:induction false} TrailerReads(size: nat, xref: nat)
    ensures var found := Keyed(Trailer(size, xref), "trailer\n<< /Size ", " /Root ");
      && found.Some? && found.value.0 == size
      && Keyed(found.value.1, "", " 0 R >>\n") == Some((1, STARTXREF + Decimal(xref) + EOF_TAIL))
  {
    var end := STARTXREF + Decimal(xref) + EOF_TAIL;
    var root := "" + (Decimal(1) + (" 0 R >>\n" + end));
    TrailerSplit(size, xref, end);
    KeyedReads("trailer\n<< /Size ", size, " /Root ", root);
    KeyedReads("", 1, " 0 R >>\n", end);
  }

  lemma CatalogReads(rest: string)
    ensures Keyed(CATALOG + OBJ_TAIL + rest, "<< /Type /Catalog /Pages ", " 0 R >>" + OBJ_TAIL) == Some((2, rest))
  {
    ObjectWords();
    assert Decimal(2) == "2";
    assert CATALOG == "<< /Type /Catalog /Pages " + "2" + " 0 R >>";
    assert CATALOG + OBJ_TAIL + rest == "<< /Type /Catalog /Pages " + (Decimal(2) + ((" 0 R >>" + OBJ_TAIL) + rest));
    KeyedReads("<< /Type /Catalog /Pages ", 2, " 0 R >>" + OBJ_TAIL, rest);
  }

  lemma TrailerBehindTable(table: string, trailer: string)
    ensures (FREE_ENTRY + table + trailer)[20 + |table|..] == trailer
  {
    assert |FREE_ENTRY| == 20;
  }

  /** The trailer leads to the catalog and the catalog to the page tree. */
  lemma {:induction false} PageTreeReads(bodies: seq<string>)
    requires OffsetsFit(bodies) && bodies != [] && bodies[0] == CATALOG
    ensures PageTreeOf(WrittenIndex(bodies)) == Some(2)
  {
    TableSize(bodies);
    TrailerBehindTable(Table(Offsets(bodies)), Trailer(|bodies| + 1, |Objects(bodies)|));
    TrailerReads(|bodies| + 1, |Objects(bodies)|);
    var rest := ObjectReads(bodies, 1);
    CatalogReads(rest);
  }

  /** The two objects of a page, by their ids. */
  lemma PageObjects(streams: seq<string>, i: nat)
    requires i < |streams|
    ensures Bodies(streams)[3 + 2 * i] == ContentBody(streams[i]) && Bodies(streams)[4 + 2 * i] == PageBody(4 + 2 * i)
  {
    PageBodiesAt(streams, i);
  }

  lemma {:induction false} FontReads(streams: seq<string>)
    requires OffsetsFit(Bodies(streams))
    ensures IsHelvetica(WrittenIndex(Bodies(streams)), 3)
  {
    TreeWords();
    var rest := ObjectReads(Bodies(streams), 3);
    assert Bodies(streams)[2] == FONT;
  }

  lemma PageInIs(ix: Index, tree: nat, pageId: nat, found: string, refs: PageRefs, content: string, stream: string)
    requires ObjectIn(ix, pageId) == Some(found) && PageRefsIn(found) == Some(refs) && refs.parent == tree
    requires IsHelvetica(ix, refs.font) && ObjectIn(ix, refs.contents) == Some(content) && StreamIn(content) == Some(stream)
    ensures PageIn(ix, tree, pageId) == Some(stream)
  {
  }

  lemma {:induction false} PageObjectReads(streams: seq<string>, i: nat) returns (found: string)
    requires OffsetsFit(Bodies(streams)) && i < |streams|
    ensures ObjectIn(WrittenIndex(Bodies(streams)), 5 + 2 * i) == Some(found)
    ensures PageRefsIn(found) == Some(PageRefs(2, 4 + 2 * i, 3))
  {
    PageObjects(streams, i);
    var behind := ObjectReads(Bodies(streams), 5 + 2 * i);
    PageReads(4 + 2 * i, behind);
    found := PageBody(4 + 2 * i) + OBJ_TAIL + behind;
  }

  lemma {:induction false} ContentObjectReads(streams: seq<string>, i: nat) returns (found: string)
    requires OffsetsFit(Bodies(streams)) && i < |streams|
    ensures ObjectIn(WrittenIndex(Bodies(streams)), 4 + 2 * i) == Some(found) && StreamIn(found) == Some(streams[i])
  {
    PageObjects(streams, i);
    var behind := ObjectReads(Bodies(streams), 4 + 2 * i);
    StreamReads(streams[i], behind);
    found := ContentBody(streams[i]) + OBJ_TAIL + behind;
  }

  lemma {:induction false} PageInReads(streams: seq<string>, i: nat)
    requires OffsetsFit(Bodies(streams)) && i < |streams|
    ensures PageIn(WrittenIndex(Bodies(streams)), 2, 5 + 2 * i) == Some(streams[i])
  {
    FontReads(streams);
    var found := PageObjectReads(streams, i);
    var content := ContentObjectReads(streams, i);
    PageInIs(WrittenIndex(Bodies(streams)), 2, 5 + 2 * i, found, PageRefs(2, 4 + 2 * i, 3), content, streams[i]);
  }

  lemma {:induction false} EachAt<T>(find: nat -> T, ids: seq<nat>, i: nat)
    requires i < |ids|
    ensures Each(find, ids)[i] == find(ids[i])
  {
    if i > 0 {
      EachAt(find, ids[1..], i - 1);
    }
  }

  lemma {:induction false} AllFound(pages: seq<Option<string>>, streams: seq<string>)
    requires |pages| == |streams| && forall i :: 0 <= i < |pages| ==> pages[i] == Some(streams[i])
    ensures AllOf(pages) == Some(streams)
  {
    if pages != [] {
      AllFound(pages[1..], streams[1..]);
      assert streams == [streams[0]] + streams[1..];
    }
  }

  lemma {:induction false} AllPagesRead(streams: seq<string>)
    requires OffsetsFit(Bodies(streams))
    ensures AllOf(Each(Finder(WrittenIndex(Bodies(streams)), 2), KidIds(|streams|))) == Some(streams)
  {
    var find, kids := Finder(WrittenIndex(Bodies(streams)), 2), KidIds(|streams|);
    forall i | 0 <= i < |streams|
      ensures Each(find, kids)[i] == Some(streams[i])
    {
      EachAt(find, kids, i);
      PageInReads(streams, i);
    }
    AllFound(Each(find, kids), streams);
  }

  /** The page tree names the page objects, as many as it counts. */
  lemma PageTreeKids(streams: seq<string>)
    requires streams != [] && OffsetsFit(Bodies(streams))
    ensures var found := ObjectIn(WrittenIndex(Bodies(streams)), 2);
      found.Some? && KidsIn(found.value) == Some(KidIds(|streams|))
  {
    var rest := ObjectReads(Bodies(streams), 2);
    KidsRead(KidIds(|streams|), rest);
  }

  /** Reading what was written gives back the content streams of all pages, byte for byte. */
  lemma {:induction false} FileReadsBack(streams: seq<string>)
    requires streams != [] && OffsetsFit(Bodies(streams))
    ensures ReadPdf(FileOf(Bodies(streams))) == Some(streams)
  {
    IndexReads(Bodies(streams));
    PageTreeReads(Bodies(streams));
    PageTreeKids(streams);
    AllPagesRead(streams);
  }
}
