/** The PDF writer: objects with recorded byte offsets, the cross-reference table, the trailer.
    Bytes are characters below 256. */
module PdfFile {
  import opened Basics
  import opened Numbers
  import opened PdfText

  const HEADER := "%PDF-1.4\n%\U{E2}\U{E3}\U{CF}\U{D3}\n"
  const CATALOG := "<< " + "/Type" + " /Catalog /Pages " + "2" + " 0 R >>"
  const FONT := "<< " + "/Type" + " /Font /Subtype " + "/Type" + "1 /BaseFont /Helvetica >>"
  const KIDS_HEAD := "<< " + "/Type" + " /Pages /Kids ["
  const PAGE_HEAD := "<< " + "/Type" + " /Page /Parent 2 0 R " + "/MediaBox [0 0 612 792] /Contents "
  const PAGE_TAIL := " /Resources << /Font " + "<< /F1 3 0 R >> >> >>"
  const LENGTH_HEAD := "<< /Length "
  const STREAM_HEAD := " >>\nstream\n"
  const STREAM_TAIL := "\nendstream"
  const OBJ_HEAD := " 0 obj\n"
  const OBJ_TAIL := "\nendobj\n"
  const FREE_ENTRY := "0000000000 65535 f \n"
  const STARTXREF := "startxref\n"
  const EOF_TAIL := "\n%%EOF\n"
  const ENTRY_TAIL := " 00000 n \n"

  // --------------------------------------------------------------- object bodies

  function ContentBody(stream: string): string {
    LENGTH_HEAD + Decimal(|stream|) + STREAM_HEAD + stream + STREAM_TAIL
  }

  function PageBody(contentId: nat): string {
    PAGE_HEAD + Decimal(contentId) + " 0 R" + PAGE_TAIL
  }

  /** " ".join(f"{kid} 0 R" for kid in ids) */
  function JoinedRefs(ids: seq<nat>): string {
    if ids == [] then ""
    else if |ids| == 1 then Decimal(ids[0]) + " 0 R"
    else Decimal(ids[0]) + " 0 R" + " " + JoinedRefs(ids[1..])
  }

  function PagesBody(kids: seq<nat>): string {
    KIDS_HEAD + JoinedRefs(kids) + "]" + " /Count " + Decimal(|kids|) + " >>"
  }

  /** Ids of the page objects: a content object and its page for every page, from 4 on. */
  function KidIds(pages: nat): (ids: seq<nat>)
    ensures |ids| == pages && forall i :: 0 <= i < pages ==> ids[i] == 5 + 2 * i
  {
    seq(pages, i requires 0 <= i < pages => 5 + 2 * i)
  }

  function PageBodies(streams: seq<string>): (bodies: seq<string>)
    ensures |bodies| == 2 * |streams|
  {
    if streams == [] then []
    else
      var n := |streams| - 1;
      PageBodies(streams[..n]) + [ContentBody(streams[n]), PageBody(4 + 2 * n)]
  }

  lemma {:induction false} PageBodiesAt(streams: seq<string>, i: nat)
    requires i < |streams|
    ensures PageBodies(streams)[2 * i] == ContentBody(streams[i]) && PageBodies(streams)[2 * i + 1] == PageBody(4 + 2 * i)
  {
    var n := |streams| - 1;
    if i < n {
      PageBodiesAt(streams[..n], i);
    }
  }

  function Heads(pages: nat): (bodies: seq<string>)
    ensures |bodies| == 3
  {
    [CATALOG, PagesBody(KidIds(pages)), FONT]
  }

  /** All objects by id, from 1. */
  function Bodies(streams: seq<string>): (bodies: seq<string>)
    ensures |bodies| == 3 + 2 * |streams|
  {
    Heads(|streams|) + PageBodies(streams)
  }

  // --------------------------------------------------------------------- layout

  function ObjectText(id: nat, body: string): string {
    Decimal(id) + OBJ_HEAD + body + OBJ_TAIL
  }

  /** The header and the objects 1..n, one after the other. */
  function Objects(bodies: seq<string>): string {
    if bodies == [] then HEADER
    else Objects(bodies[..|bodies| - 1]) + ObjectText(|bodies|, bodies[|bodies| - 1])
  }

  /** Where object `id` begins. */
  function Offset(bodies: seq<string>, id: nat): nat
    requires 1 <= id <= |bodies|
  {
    |Objects(bodies[..id - 1])|
  }

  function Entry(offset: nat): string { Padded(offset) + ENTRY_TAIL }

  function Offsets(bodies: seq<string>): (offsets: seq<nat>)
    ensures |offsets| == |bodies| && forall id :: 1 <= id <= |bodies| ==> offsets[id - 1] == Offset(bodies, id)
  {
    seq(|bodies|, i requires 0 <= i < |bodies| => Offset(bodies, i + 1))
  }

  function Table(offsets: seq<nat>): string {
    if offsets == [] then "" else Table(offsets[..|offsets| - 1]) + Entry(offsets[|offsets| - 1])
  }

  function XrefHead(size: nat): string { "xref\n0 " + Decimal(size) + "\n" }

  function Trailer(size: nat, xref: nat): string {
    "trailer\n<< /Size " + Decimal(size) + " /Root " + "1" + " 0 R >>\n" + STARTXREF + Decimal(xref) + EOF_TAIL
  }

  function FileOf(bodies: seq<string>): string {
    Objects(bodies) + XrefHead(|bodies| + 1) + FREE_ENTRY + Table(Offsets(bodies)) +
    Trailer(|bodies| + 1, |Objects(bodies)|)
  }

  // --------------------------------------------------------------------- writing

  lemma PageBodiesNext(heads: seq<string>, streams: seq<string>, i: nat)
    requires i < |streams|
    ensures heads + PageBodies(streams[..i]) + [ContentBody(streams[i])] + [PageBody(4 + 2 * i)] ==
            heads + PageBodies(streams[..i + 1])
  {
    assert streams[..i + 1][..i] == streams[..i];
  }

  lemma TableNext(offsets: seq<nat>, n: nat)
    requires n < |offsets|
    ensures Table(offsets[..n + 1]) == Table(offsets[..n]) + Entry(offsets[n])
  {
    assert offsets[..n + 1][..n] == offsets[..n];
  }

  lemma {:induction false} AllPages(streams: seq<string>)
    ensures Heads(|streams|) + PageBodies(streams[..0]) == Heads(|streams|)
    ensures Heads(|streams|) + PageBodies(streams[..|streams|]) == Bodies(streams)
  {
    assert streams[..|streams|] == streams;
  }

  /** The buffer that write_obj extends, and the offsets it records. */
  class Output {
    var bytes: string
    var offsets: map<nat, nat>

    constructor ()
      ensures bytes == HEADER && offsets == map[]
    {
      bytes, offsets := HEADER, map[];
    }

    method WriteObj(id: nat, body: string)
      modifies this
      ensures bytes == old(bytes) + ObjectText(id, body)
      ensures offsets == old(offsets)[id := |old(bytes)|]
    {
      offsets := offsets[id := |bytes|];
      bytes := bytes + Decimal(id) + OBJ_HEAD;
      bytes := bytes + body;
      bytes := bytes + OBJ_TAIL;
    }

    /** Objects 1..|bodies| have been written, in order, and their offsets recorded. */
    ghost predicate Wrote(bodies: seq<string>)
      reads this
    {
      && bytes == Objects(bodies)
      && forall id :: 1 <= id <= |bodies| ==> id in offsets && offsets[id] == Offset(bodies, id)
    }

    /** Write the next object. */
    method WriteNext(ghost bodies: seq<string>, id: nat, body: string)
      requires Wrote(bodies) && id == |bodies| + 1
      modifies this
      ensures Wrote(bodies + [body])
    {
      ghost var all := bodies + [body];
      assert all[..|bodies|] == bodies;
      forall k | 1 <= k <= |bodies|
        ensures Offset(all, k) == Offset(bodies, k)
      {
        assert all[..k - 1] == bodies[..k - 1];
      }
      WriteObj(id, body);
    }

    /** The catalog, the page tree and the font. */
    method WriteHeads(kids: seq<nat>)
      requires Wrote([]) && kids == KidIds(|kids|)
      modifies this
      ensures Wrote(Heads(|kids|))
    {
      ghost var one := [CATALOG];
      assert [] + [CATALOG] == one;
      WriteNext([], 1, CATALOG);
      WriteNext(one, 2, PagesBody(kids));
      WriteNext(one + [PagesBody(kids)], 3, FONT);
      assert one + [PagesBody(kids)] + [FONT] == Heads(|kids|);
    }

    /** The next page: its content, then the page itself. */
    method WritePage(ghost heads: seq<string>, streams: seq<string>, i: nat, contentId: nat, pageId: nat)
      requires i < |streams| && |heads| == 3 && Wrote(heads + PageBodies(streams[..i]))
      requires contentId == 4 + 2 * i && pageId == contentId + 1
      modifies this
      ensures Wrote(heads + PageBodies(streams[..i + 1]))
    {
      ghost var bodies := heads + PageBodies(streams[..i]);
      WriteNext(bodies, contentId, ContentBody(streams[i]));
      WriteNext(bodies + [ContentBody(streams[i])], pageId, PageBody(contentId));
      PageBodiesNext(heads, streams, i);
    }

    method WritePages(ghost heads: seq<string>, streams: seq<string>, contentIds: seq<nat>, kids: seq<nat>)
      requires |heads| == 3 && Wrote(heads + PageBodies(streams[..0])) && |contentIds| == |kids| == |streams|
      requires forall i :: 0 <= i < |streams| ==> contentIds[i] == 4 + 2 * i && kids[i] == 5 + 2 * i
      modifies this
      ensures Wrote(heads + PageBodies(streams[..|streams|]))
    {
      for i := 0 to |streams|
        invariant Wrote(heads + PageBodies(streams[..i]))
      {
        WritePage(heads, streams, i, contentIds[i], kids[i]);
      }
    }

    method WriteTable(ghost all: seq<nat>, maxId: nat)
      requires maxId == |all|
      requires forall id :: 1 <= id <= maxId ==> id in offsets && offsets[id] == all[id - 1]
      modifies this`bytes
      ensures bytes == old(bytes) + Table(all)
    {
      for id := 1 to maxId + 1
        invariant bytes == old(bytes) + Table(all[..id - 1])
      {
        TableNext(all, id - 1);
        bytes := bytes + Entry(offsets[id]);
      }
      assert all[..maxId] == all;
    }

    method WriteXref(ghost bodies: seq<string>, maxId: nat)
      requires Wrote(bodies) && maxId == |bodies|
      modifies this`bytes
      ensures bytes == FileOf(bodies)
    {
      var xrefPos := |bytes|;
      bytes := bytes + XrefHead(maxId + 1);
      bytes := bytes + FREE_ENTRY;
      WriteTable(Offsets(bodies), maxId);
      bytes := bytes + Trailer(maxId + 1, xrefPos);
    }

    /** The whole file: heads, pages, table, trailer. */
    method WriteFile(streams: seq<string>, contentIds: seq<nat>, kids: seq<nat>, maxId: nat)
      requires Wrote([]) && |contentIds| == |kids| == |streams| && kids == KidIds(|kids|) && maxId == 3 + 2 * |streams|
      requires forall i :: 0 <= i < |streams| ==> contentIds[i] == 4 + 2 * i
      modifies this
      ensures bytes == FileOf(Bodies(streams))
    {
      WriteHeads(kids);
      AllPages(streams);
      WritePages(Heads(|kids|), streams, contentIds, kids);
      WriteXref(Bodies(streams), maxId);
    }
  }

  /** The content streams of these pages. */
  function Streams(pageTexts: seq<string>): (streams: seq<string>)
    ensures |streams| == |pageTexts|
    ensures forall i :: 0 <= i < |pageTexts| ==> streams[i] == ContentStream(PageLines(pageTexts[i]))
  {
    seq(|pageTexts|, i requires 0 <= i < |pageTexts| => ContentStream(PageLines(pageTexts[i])))
  }

  /** No pages are one empty page. */
  function AtLeastOne(pageTexts: seq<string>): (texts: seq<string>)
    ensures texts != []
  {
    if pageTexts == [] then [""] else pageTexts
  }

  /** The two loops that precede the writing: every page's stream, and the ids of its two objects. */
  method PreparePages(texts: seq<string>) returns (streams: seq<string>, contentIds: seq<nat>, kids: seq<nat>, nextId: nat)
    ensures streams == Streams(texts) && kids == KidIds(|texts|) && nextId == 4 + 2 * |texts|
    ensures |contentIds| == |texts| && forall i :: 0 <= i < |texts| ==> contentIds[i] == 4 + 2 * i
  {
    streams := [];
    for i := 0 to |texts|
      invariant streams == Streams(texts)[..i]
    {
      var stream := RenderContent(texts[i]);
      streams := streams + [stream];
    }
    nextId, contentIds, kids := 4, [], [];
    for i := 0 to |streams|
      invariant nextId == 4 + 2 * i && |contentIds| == |kids| == i
      invariant forall k :: 0 <= k < i ==> contentIds[k] == 4 + 2 * k && kids[k] == 5 + 2 * k
    {
      contentIds := contentIds + [nextId];
      kids := kids + [nextId + 1];
      nextId := nextId + 2;
    }
  }

  /** _assemble_pdf */
  method AssemblePdf(pageTexts: seq<string>) returns (file: string)
    ensures file == FileOf(Bodies(Streams(AtLeastOne(pageTexts))))
  {
    var texts := AtLeastOne(pageTexts);
    var streams, contentIds, kids, nextId := PreparePages(texts);
    var out := new Output();
    out.WriteFile(streams, contentIds, kids, nextId - 1);
    return out.bytes;
  }
}
