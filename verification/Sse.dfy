/** The server-sent event printer and its two readers (section 9.2 of the WHATWG HTML Standard).
    An envelope is identified with its JSON text; `typeOf` is the type that the text carries. */
module Sse {
  import opened Basics

  // -------------------------------------------------------------------- printing

  /** A printed event: identifier, type, and the JSON of its envelope. */
  datatype WireEvent = WireEvent(id: string, eventType: string, data: string)

  /** JSON with escaped control characters is one line, and an object does not end in a blank. */
  predicate Printable(e: WireEvent) {
    OneLine(e.id) && OneLine(e.eventType) && OneLine(e.data) && e.data != "" && !IsSpace(e.data[|e.data| - 1])
  }

  function BlockOf(e: WireEvent): string {
    "id: " + e.id + "\n" + "event: " + e.eventType + "\n" + "data: " + e.data
  }

  /** encode_sse_event */
  function EncodeSseEvent(e: WireEvent): string {
    BlockOf(e) + "\n\n"
  }

  function EncodeAll(events: seq<WireEvent>): string {
    if events == [] then "" else EncodeSseEvent(events[0]) + EncodeAll(events[1..])
  }

  function DataOf(events: seq<WireEvent>): (data: seq<string>)
    ensures |data| == |events| && forall i :: 0 <= i < |events| ==> data[i] == events[i].data
  {
    if events == [] then [] else [events[0].data] + DataOf(events[1..])
  }

  // --------------------------------------------------------------- blocks and frames

  /** Where the first blank line begins. */
  function FirstBreak(s: string): (r: Option<nat>)
    ensures r.Some? ==> r.value + 2 <= |s|
  {
    if |s| < 2 then None
    else if s[0] == '\n' && s[1] == '\n' then Some(0)
    else
      var later := FirstBreak(s[1..]);
      if later.Some? then Some(1 + later.value) else None
  }

  function FirstData(lines: seq<string>): Option<string> {
    if lines == [] then None
    else if "data: " <= lines[0] then Some(lines[0][6..])
    else FirstData(lines[1..])
  }

  /** The data of a block: its first data line. */
  function DataLine(block: string): Option<string> {
    FirstData(SplitLines(block))
  }

  function FrameOf(block: string): seq<string> {
    var data := DataLine(block);
    if data.Some? then [data.value] else []
  }

  /** The frames of all completed blocks of a text, whatever the text is. */
  function FramesOf(text: string): seq<string>
    decreases |text|
  {
    var at := FirstBreak(text);
    if at.None? then [] else FrameOf(text[..at.value]) + FramesOf(text[at.value + 2..])
  }

  // ---------------------------------------------------------------- incremental reader

  predicate TerminalType(eventType: string) {
    eventType == "turn.completed" || eventType == "turn.failed" || eventType == "turn.cancelled"
  }

  function Deltas(frames: seq<string>, typeOf: string -> string): nat {
    if frames == [] then 0
    else Deltas(frames[..|frames| - 1], typeOf) + (if typeOf(frames[|frames| - 1]) == "answer.delta" then 1 else 0)
  }

  /** A reader that has these frames stops: the last one is terminal, or it was told to drop the
      connection after so many deltas. */
  predicate Stops(frames: seq<string>, typeOf: string -> string, dropAfter: Option<nat>) {
    && frames != []
    && (TerminalType(typeOf(frames[|frames| - 1])) || (dropAfter.Some? && Deltas(frames, typeOf) >= dropAfter.value))
  }

  /** What a reader that already has `seen` keeps of the frames to come. */
  function Kept(seen: seq<string>, coming: seq<string>, typeOf: string -> string, dropAfter: Option<nat>): seq<string>
    decreases |coming|
  {
    if coming == [] then seen
    else
      var now := seen + [coming[0]];
      if Stops(now, typeOf, dropAfter) then now else Kept(now, coming[1..], typeOf, dropAfter)
  }

  /** The reads up to an empty one, which is the end of the response. */
  function Received(chunks: seq<string>): string {
    if chunks == [] || chunks[0] == "" then "" else chunks[0] + Received(chunks[1..])
  }

  /** The first blank line of a text is still the first when more text arrives. */
  lemma {:induction false} FirstBreakStays(text: string, more: string)
    requires FirstBreak(text).Some?
    ensures FirstBreak(text + more) == FirstBreak(text)
  {
    if !(text[0] == '\n' && text[1] == '\n') {
      FirstBreakStays(text[1..], more);
      assert (text + more)[1..] == text[1..] + more;
    }
  }

  /** Taking one completed block off the buffer. */
  lemma TakeBlock(buffer: string, more: string, at: nat)
    requires FirstBreak(buffer) == Some(at)
    ensures FramesOf(buffer + more) == FrameOf(buffer[..at]) + FramesOf(buffer[at + 2..] + more)
  {
    FirstBreakStays(buffer, more);
    assert (buffer + more)[..at] == buffer[..at] && (buffer + more)[at + 2..] == buffer[at + 2..] + more;
  }

  lemma KeptNext(seen: seq<string>, next: string, coming: seq<string>, typeOf: string -> string, dropAfter: Option<nat>)
    ensures Kept(seen, [next] + coming, typeOf, dropAfter) ==
      if Stops(seen + [next], typeOf, dropAfter) then seen + [next] else Kept(seen + [next], coming, typeOf, dropAfter)
  {
    assert ([next] + coming)[1..] == coming;
  }

  /** What taking one completed block off the buffer means for what is kept in the end. */
  lemma DrainStep(had: seq<string>, buffer: string, at: nat, data: Option<string>, more: string, typeOf: string -> string, dropAfter: Option<nat>)
    requires FirstBreak(buffer) == Some(at) && data == DataLine(buffer[..at])
    ensures Kept(had, FramesOf(buffer + more), typeOf, dropAfter) ==
      if data.None? then Kept(had, FramesOf(buffer[at + 2..] + more), typeOf, dropAfter)
      else if Stops(had + [data.value], typeOf, dropAfter) then had + [data.value]
      else Kept(had + [data.value], FramesOf(buffer[at + 2..] + more), typeOf, dropAfter)
  {
    var frame, coming := FrameOf(buffer[..at]), FramesOf(buffer[at + 2..] + more);
    TakeBlock(buffer, more, at);
    if data.None? {
      assert frame + coming == coming;
    } else {
      KeptNext(had, data.value, coming, typeOf, dropAfter);
    }
  }

  /** The inner loop: every completed block of the buffer becomes a frame or is skipped. */
  method DrainBuffer(had: seq<string>, held: string, typeOf: string -> string, dropAfter: Option<nat>, ghost more: string)
    returns (frames: seq<string>, buffer: string, stopped: bool)
    ensures Kept(had, FramesOf(held + more), typeOf, dropAfter) ==
      if stopped then frames else Kept(frames, FramesOf(buffer + more), typeOf, dropAfter)
    ensures !stopped ==> FirstBreak(buffer).None?
  {
    frames, buffer, stopped := had, held, false;
    while FirstBreak(buffer).Some?
      invariant Kept(frames, FramesOf(buffer + more), typeOf, dropAfter) == Kept(had, FramesOf(held + more), typeOf, dropAfter)
      decreases |buffer|
    {
      var at := FirstBreak(buffer).value;
      var data := DataLine(buffer[..at]);
      DrainStep(frames, buffer, at, data, more, typeOf, dropAfter);
      buffer := buffer[at + 2..];
      if data.None? {
        continue;
      }
      frames := frames + [data.value];
      if Stops(frames, typeOf, dropAfter) {
        stopped := true;
        return;
      }
    }
  }

  lemma NextChunk(buffer: string, chunks: seq<string>, i: nat)
    requires i < |chunks| && chunks[i] != ""
    ensures buffer + Received(chunks[i..]) == (buffer + chunks[i]) + Received(chunks[i + 1..])
  {
    assert chunks[i..][1..] == chunks[i + 1..];
  }

  /** stream_post_chunked and stream_get_chunked (which never drops early). A deadline is a shorter list of
      chunks. The result depends on the chunks only through the text they make up. */
  method ReadStream(chunks: seq<string>, typeOf: string -> string, dropAfter: Option<nat>) returns (frames: seq<string>)
    ensures frames == Kept([], FramesOf(Received(chunks)), typeOf, dropAfter)
  {
    frames := [];
    var buffer := "";
    var i := 0;
    assert chunks[0..] == chunks && buffer + Received(chunks) == Received(chunks);
    while i < |chunks| && chunks[i] != ""
      invariant 0 <= i <= |chunks|
      invariant FirstBreak(buffer).None?
      invariant Kept(frames, FramesOf(buffer + Received(chunks[i..])), typeOf, dropAfter)
             == Kept([], FramesOf(Received(chunks)), typeOf, dropAfter)
    {
      NextChunk(buffer, chunks, i);
      var stopped;
      frames, buffer, stopped := DrainBuffer(frames, buffer + chunks[i], typeOf, dropAfter, Received(chunks[i + 1..]));
      if stopped {
        return;
      }
      i := i + 1;
    }
    assert Received(chunks[i..]) == "" && buffer + "" == buffer;
  }

  /** Without early drops, a reader keeps everything up to and including the first terminal frame. */
  predicate UpToTerminal(kept: seq<string>, all: seq<string>, typeOf: string -> string) {
    && kept <= all
    && (forall i :: 0 <= i < |kept| - 1 ==> typeOf(kept[i]) !in {"turn.completed", "turn.failed", "turn.cancelled"})
    && (kept == all || (kept != [] && typeOf(kept[|kept| - 1]) in {"turn.completed", "turn.failed", "turn.cancelled"}))
  }

  lemma {:induction false} KeptUpToTerminal(seen: seq<string>, coming: seq<string>, typeOf: string -> string)
    requires forall i :: 0 <= i < |seen| ==> !TerminalType(typeOf(seen[i]))
    ensures UpToTerminal(Kept(seen, coming, typeOf, None), seen + coming, typeOf)
    decreases |coming|
  {
    if coming != [] {
      assert seen + coming == (seen + [coming[0]]) + coming[1..];
      if !TerminalType(typeOf(coming[0])) {
        KeptUpToTerminal(seen + [coming[0]], coming[1..], typeOf);
      }
    }
  }

  /** Where in the list the deltas stand. */
  function DeltasAt(frames: seq<string>, typeOf: string -> string): set<nat> {
    set i: nat | i < |frames| && typeOf(frames[i]) == "answer.delta"
  }

  lemma {:induction false} DeltasCounted(frames: seq<string>, typeOf: string -> string)
    ensures Deltas(frames, typeOf) == |DeltasAt(frames, typeOf)|
  {
    if frames != [] {
      var n := |frames| - 1;
      DeltasCounted(frames[..n], typeOf);
      var front, all := DeltasAt(frames[..n], typeOf), DeltasAt(frames, typeOf);
      if typeOf(frames[n]) == "answer.delta" { assert all == front + {n}; } else { assert all == front; }
    }
  }

  /** Nothing here is a reason to stop: the last frame is not terminal, and fewer than `n` are deltas. */
  predicate Unfinished(frames: seq<string>, typeOf: string -> string, n: nat) {
    frames == [] ||
    (typeOf(frames[|frames| - 1]) !in {"turn.completed", "turn.failed", "turn.cancelled"} && |DeltasAt(frames, typeOf)| < n)
  }

  /** What a reader keeps that was told to drop the connection after `n` deltas: it stops at the first frame
      that is terminal or makes up that number, and keeps everything if there is none. */
  predicate UpToDrop(kept: seq<string>, all: seq<string>, typeOf: string -> string, n: nat) {
    && kept <= all
    && (forall i :: 0 <= i < |kept| ==> Unfinished(kept[..i], typeOf, n))
    && (kept == all || !Unfinished(kept, typeOf, n))
  }

  lemma {:induction false} KeptUpToDrop(seen: seq<string>, coming: seq<string>, typeOf: string -> string, n: nat)
    requires forall i :: 0 <= i <= |seen| ==> Unfinished(seen[..i], typeOf, n)
    ensures UpToDrop(Kept(seen, coming, typeOf, Some(n)), seen + coming, typeOf, n)
    decreases |coming|
  {
    if coming == [] {
      assert seen + coming == seen;
    } else {
      var now := seen + [coming[0]];
      assert seen + coming == now + coming[1..];
      DeltasCounted(now, typeOf);
      forall i | 0 <= i <= |seen|
        ensures now[..i] == seen[..i]
      {
      }
      if !Stops(now, typeOf, Some(n)) {
        assert now[..|now|] == now;
        forall i | 0 <= i <= |now|
          ensures Unfinished(now[..i], typeOf, n)
        {
          if i <= |seen| { assert now[..i] == seen[..i]; }
        }
        KeptUpToDrop(now, coming[1..], typeOf, n);
      }
    }
  }

  lemma PrefixBehind(a: seq<string>, b: seq<string>, c: seq<string>)
    requires b <= c
    ensures a + b <= a + c
  {
  }

  lemma PrefixStep(text: string, more: string, at: nat)
    requires FirstBreak(text) == Some(at)
    requires FramesOf(text[at + 2..]) <= FramesOf(text[at + 2..] + more)
    ensures FramesOf(text) <= FramesOf(text + more)
  {
    TakeBlock(text, more, at);
    PrefixBehind(FrameOf(text[..at]), FramesOf(text[at + 2..]), FramesOf(text[at + 2..] + more));
  }

  /** Text cut off anywhere yields a prefix of the frames. */
  lemma {:induction false} FramesOfPrefix(text: string, more: string)
    ensures FramesOf(text) <= FramesOf(text + more)
    decreases |text|
  {
    var at := FirstBreak(text);
    if at.Some? {
      FramesOfPrefix(text[at.value + 2..], more);
      PrefixStep(text, more, at.value);
    }
  }

  // ------------------------------------------------------- printed streams read back

  lemma {:induction false} NoLineBreak(line: string)
    requires OneLine(line)
    ensures LineLength(line) == |line|
  {
    if line != "" {
      NoLineBreak(line[1..]);
    }
  }

  lemma LastLine(line: string)
    requires OneLine(line) && line != ""
    ensures SplitLines(line) == [line]
  {
    NoLineBreak(line);
    assert line[..|line|] == line && line[|line|..] == "";
    assert SplitLines("") == [];
  }

  lemma EightPieces(a: string, b: string, c: string, d: string, e: string, f: string, g: string, h: string)
    ensures a + b + c + d + e + f + g + h == (a + b) + c + ((d + e) + f + (g + h))
  {
  }

  lemma BlockParts(e: WireEvent)
    ensures BlockOf(e) == ("id: " + e.id) + "\n" + (("event: " + e.eventType) + "\n" + ("data: " + e.data))
  {
    EightPieces("id: ", e.id, "\n", "event: ", e.eventType, "\n", "data: ", e.data);
  }

  lemma ThreeLines(first: string, second: string, third: string)
    requires OneLine(first) && OneLine(second) && OneLine(third) && third != ""
    ensures SplitLines(first + "\n" + (second + "\n" + third)) == [first] + ([second] + [third])
  {
    SplitsLine(first, second + "\n" + third);
    SplitsLine(second, third);
    LastLine(third);
  }

  lemma {:induction false} BlockLines(e: WireEvent)
    requires Printable(e)
    ensures SplitLines(BlockOf(e)) == ["id: " + e.id] + (["event: " + e.eventType] + ["data: " + e.data])
  {
    BlockParts(e);
    ThreeLines("id: " + e.id, "event: " + e.eventType, "data: " + e.data);
  }

  lemma NotPrefix(prefix: string, s: string)
    requires prefix != "" && s != "" && prefix[0] != s[0]
    ensures !(prefix <= s)
  {
  }

  lemma ThirdIsData(first: string, second: string, data: string)
    requires first != "" && first[0] != 'd' && second != "" && second[0] != 'd'
    ensures FirstData([first] + ([second] + ["data: " + data])) == Some(data)
  {
    var line := "data: " + data;
    NotPrefix("data: ", first);
    NotPrefix("data: ", second);
    assert line[6..] == data && "data: " <= line;
    assert FirstData([line]) == Some(data);
    assert ([second] + [line])[1..] == [line];
    assert ([first] + ([second] + [line]))[1..] == [second] + [line];
  }

  /** The data line of a printed block is the event's data. */
  lemma BlockHasData(e: WireEvent)
    requires Printable(e)
    ensures DataLine(BlockOf(e)) == Some(e.data)
  {
    BlockLines(e);
    ThirdIsData("id: " + e.id, "event: " + e.eventType, e.data);
  }

  lemma {:induction false} BreakBehindLine(line: string, rest: string)
    requires OneLine(line) && rest != "" && rest[0] != '\n'
    ensures FirstBreak(line + "\n" + rest) ==
      (if FirstBreak(rest).Some? then Some(|line| + 1 + FirstBreak(rest).value) else None)
  {
    var s := line + "\n" + rest;
    if line == "" {
      assert s[1..] == rest;
    } else {
      BreakBehindLine(line[1..], rest);
      assert s[1..] == line[1..] + "\n" + rest;
    }
  }

  lemma {:induction false} BreakAtEnd(line: string, rest: string)
    requires OneLine(line)
    ensures FirstBreak(line + "\n\n" + rest) == Some(|line|)
  {
    var s := line + "\n\n" + rest;
    if line != "" {
      BreakAtEnd(line[1..], rest);
      assert s[1..] == line[1..] + "\n\n" + rest;
    }
  }

  /** A printed block ends at its own blank line. */
  lemma BlockEnds(e: WireEvent, rest: string)
    requires Printable(e)
    ensures FirstBreak(EncodeSseEvent(e) + rest) == Some(|BlockOf(e)|)
  {
    var first, second, third := "id: " + e.id, "event: " + e.eventType, "data: " + e.data;
    var end := third + "\n\n" + rest;
    BreakAtEnd(third, rest);
    BreakBehindLine(second, end);
    BreakBehindLine(first, second + "\n" + end);
    assert EncodeSseEvent(e) + rest == first + "\n" + (second + "\n" + end);
  }

  lemma {:induction false} BlockIsFrame(block: string, later: string, data: string)
    requires FirstBreak(block + "\n\n" + later) == Some(|block|) && DataLine(block) == Some(data)
    ensures FramesOf(block + "\n\n" + later) == [data] + FramesOf(later)
  {
    var text := block + "\n\n" + later;
    assert text[..|block|] == block && text[|block| + 2..] == later;
  }

  lemma {:induction false} PrintedStep(e: WireEvent, later: string)
    requires Printable(e)
    ensures FramesOf(EncodeSseEvent(e) + later) == [e.data] + FramesOf(later)
  {
    BlockEnds(e, later);
    BlockHasData(e);
    BlockIsFrame(BlockOf(e), later, e.data);
  }

  lemma EncodeNext(events: seq<WireEvent>, rest: string)
    requires events != []
    ensures EncodeAll(events) + rest == EncodeSseEvent(events[0]) + (EncodeAll(events[1..]) + rest)
  {
  }

  lemma {:induction false} PrintedCons(events: seq<WireEvent>, rest: string, data: seq<string>, frames: seq<string>)
    requires events != [] && Printable(events[0])
    requires FramesOf(EncodeAll(events[1..]) + rest) == data + frames
    ensures FramesOf(EncodeAll(events) + rest) == ([events[0].data] + data) + frames
  {
    EncodeNext(events, rest);
    PrintedStep(events[0], EncodeAll(events[1..]) + rest);
  }

  /** Whatever follows it, a printed stream reads back as its events' data. */
  lemma {:induction false} PrintedReadsBack(events: seq<WireEvent>, rest: string)
    requires forall i :: 0 <= i < |events| ==> Printable(events[i])
    ensures FramesOf(EncodeAll(events) + rest) == DataOf(events) + FramesOf(rest)
  {
    if events == [] {
      assert EncodeAll(events) + rest == rest && DataOf(events) + FramesOf(rest) == FramesOf(rest);
    } else {
      PrintedReadsBack(events[1..], rest);
      PrintedCons(events, rest, DataOf(events[1..]), FramesOf(rest));
    }
  }

  // --------------------------------------------------------------------- batch reader

  /** text.split("\n\n") */
  function SplitBlocks(text: string): seq<string>
    decreases |text|
  {
    var at := FirstBreak(text);
    if at.None? then [text] else [text[..at.value]] + SplitBlocks(text[at.value + 2..])
  }

  function FramesIn(blocks: seq<string>): seq<string> {
    if blocks == [] then []
    else (if Blank(blocks[0]) then [] else FrameOf(blocks[0])) + FramesIn(blocks[1..])
  }

  lemma NextIn(blocks: seq<string>, i: nat)
    requires i < |blocks|
    ensures FramesIn(blocks[i..]) == (if Blank(blocks[i]) then [] else FrameOf(blocks[i])) + FramesIn(blocks[i + 1..])
  {
    assert blocks[i..][1..] == blocks[i + 1..];
  }

  lemma CollectStep(frames: seq<string>, blocks: seq<string>, i: nat, data: Option<string>)
    requires i < |blocks| && data == DataLine(blocks[i])
    ensures frames + FramesIn(blocks[i..]) ==
      (if Blank(blocks[i]) || data.None? then frames else frames + [data.value]) + FramesIn(blocks[i + 1..])
  {
    NextIn(blocks, i);
  }

  method CollectFrames(blocks: seq<string>) returns (frames: seq<string>)
    ensures frames == FramesIn(blocks)
  {
    frames := [];
    assert blocks[0..] == blocks;
    for i := 0 to |blocks|
      invariant frames + FramesIn(blocks[i..]) == FramesIn(blocks)
    {
      var data := DataLine(blocks[i]);
      CollectStep(frames, blocks, i, data);
      BlankStripsToNothing(blocks[i]);
      if Strip(blocks[i]) == "" || data.None? {
        continue;
      }
      frames := frames + [data.value];
    }
  }

  /** _parse_sse: unlike the incremental reader it also takes a last block that no blank line ends. */
  method ParseSse(text: string) returns (frames: seq<string>)
    ensures frames == FramesIn(SplitBlocks(Strip(text)))
  {
    frames := CollectFrames(SplitBlocks(Strip(text)));
  }

  lemma StripLast(text: string, c: char)
    requires text != "" && !IsSpace(text[0]) && IsSpace(c)
    ensures Strip(text + [c]) == Strip(text)
  {
    assert (text + [c])[..|text|] == text;
  }

  lemma StripKeeps(text: string)
    requires text != "" && !IsSpace(text[0]) && !IsSpace(text[|text| - 1])
    ensures Strip(text + "\n\n") == text
  {
    StripLast(text, '\n');
    StripLast(text + ['\n'], '\n');
    assert text + "\n\n" == text + ['\n'] + ['\n'];
  }

  /** The printed stream without its last blank line. */
  function Trimmed(events: seq<WireEvent>): string
    requires events != []
  {
    if |events| == 1 then BlockOf(events[0]) else EncodeSseEvent(events[0]) + Trimmed(events[1..])
  }

  lemma BlockEdges(e: WireEvent)
    requires Printable(e)
    ensures var b := BlockOf(e);
      |b| > 0 && !IsSpace(b[0]) && !IsSpace(b[|b| - 1]) && !Blank(b)
  {
    var b := BlockOf(e);
    assert b[0] == 'i' && b[|b| - 1] == e.data[|e.data| - 1];
  }

  lemma {:induction false} TrimmedIsStripped(events: seq<WireEvent>)
    requires events != [] && forall i :: 0 <= i < |events| ==> Printable(events[i])
    ensures EncodeAll(events) == Trimmed(events) + "\n\n"
    ensures var t := Trimmed(events); |t| > 0 && !IsSpace(t[0]) && !IsSpace(t[|t| - 1])
  {
    BlockEdges(events[0]);
    if |events| == 1 {
      assert EncodeAll(events[1..]) == "";
      assert EncodeAll(events) == EncodeSseEvent(events[0]);
    } else {
      TrimmedIsStripped(events[1..]);
    }
  }

  lemma LastBlock(block: string)
    requires FirstBreak(block).None?
    ensures SplitBlocks(block) == [block]
  {
  }

  lemma NextBlock(block: string, later: string)
    requires FirstBreak(block + "\n\n" + later) == Some(|block|)
    ensures SplitBlocks(block + "\n\n" + later) == [block] + SplitBlocks(later)
  {
    var text := block + "\n\n" + later;
    assert text[..|block|] == block && text[|block| + 2..] == later;
  }

  lemma FrameThen(block: string, data: string, blocks: seq<string>)
    requires !Blank(block) && DataLine(block) == Some(data)
    ensures FramesIn([block] + blocks) == [data] + FramesIn(blocks)
  {
    assert ([block] + blocks)[1..] == blocks;
  }

  lemma {:induction false} NoBreakInLine(line: string)
    requires OneLine(line)
    ensures FirstBreak(line).None?
  {
    if line != "" {
      NoBreakInLine(line[1..]);
    }
  }

  lemma NoBreakInBlock(e: WireEvent)
    requires Printable(e)
    ensures FirstBreak(BlockOf(e)).None?
  {
    var first, second, third := "id: " + e.id, "event: " + e.eventType, "data: " + e.data;
    NoBreakInLine(third);
    BreakBehindLine(second, third);
    BreakBehindLine(first, second + "\n" + third);
    assert BlockOf(e) == first + "\n" + (second + "\n" + third);
  }

  /** The batch reader recovers every event of a printed stream. */
  lemma {:induction false} BlocksReadBack(events: seq<WireEvent>)
    requires events != [] && forall i :: 0 <= i < |events| ==> Printable(events[i])
    ensures FramesIn(SplitBlocks(Trimmed(events))) == DataOf(events)
  {
    var block := BlockOf(events[0]);
    BlockEdges(events[0]);
    BlockHasData(events[0]);
    if |events| == 1 {
      NoBreakInBlock(events[0]);
      LastBlock(block);
      FrameThen(block, events[0].data, []);
      assert [block] + [] == [block];
    } else {
      var later := Trimmed(events[1..]);
      BlockEnds(events[0], later);
      NextBlock(block, later);
      FrameThen(block, events[0].data, SplitBlocks(later));
      BlocksReadBack(events[1..]);
    }
  }

  lemma {:induction false} StripEncoded(events: seq<WireEvent>, text: string)
    requires events != [] && (forall i :: 0 <= i < |events| ==> Printable(events[i])) && text == EncodeAll(events)
    ensures Strip(text) == Trimmed(events)
  {
    TrimmedIsStripped(events);
    StripKeeps(Trimmed(events));
  }

  lemma NothingIn()
    ensures FramesIn(SplitBlocks(Strip(""))) == []
  {
    assert SplitBlocks("") == [""] && FramesIn([""]) == FramesIn([""][1..]);
  }

  lemma {:induction false} BatchReadsBack(events: seq<WireEvent>)
    requires forall i :: 0 <= i < |events| ==> Printable(events[i])
    ensures FramesIn(SplitBlocks(Strip(EncodeAll(events)))) == DataOf(events)
  {
    if events == [] {
      NothingIn();
    } else {
      StripEncoded(events, EncodeAll(events));
      BlocksReadBack(events);
    }
  }

  lemma {:induction false} PrintedFrames(events: seq<WireEvent>)
    requires forall i :: 0 <= i < |events| ==> Printable(events[i])
    ensures FramesOf(EncodeAll(events)) == DataOf(events)
  {
    PrintedReadsBack(events, "");
    assert EncodeAll(events) + "" == EncodeAll(events) && DataOf(events) + FramesOf("") == DataOf(events);
  }

  lemma KeptOf(frames: seq<string>, typeOf: string -> string)
    ensures UpToTerminal(Kept([], frames, typeOf, None), frames, typeOf)
  {
    KeptUpToTerminal([], frames, typeOf);
    assert [] + frames == frames;
  }

  /** Any split of a printed stream into non-empty reads gives the incremental reader exactly the events up
      to and including the first terminal one, and the batch reader all of them: they agree on that prefix. */
  lemma {:induction false} ReadersAgree(events: seq<WireEvent>, chunks: seq<string>, typeOf: string -> string)
    requires forall i :: 0 <= i < |events| ==> Printable(events[i]) && typeOf(events[i].data) == events[i].eventType
    requires Received(chunks) == EncodeAll(events)
    ensures var kept := Kept([], FramesOf(Received(chunks)), typeOf, None);
      && UpToTerminal(kept, DataOf(events), typeOf)
      && kept <= FramesIn(SplitBlocks(Strip(Received(chunks))))
      && forall i :: 0 <= i < |kept| ==> kept[i] == events[i].data && typeOf(kept[i]) == events[i].eventType
  {
    PrintedFrames(events);
    KeptOf(DataOf(events), typeOf);
    BatchReadsBack(events);
  }

  /** A stream cut off anywhere still gives the incremental reader a prefix of the events. */
  lemma {:induction false} CutStream(events: seq<WireEvent>, received: string, lost: string, typeOf: string -> string)
    requires forall i :: 0 <= i < |events| ==> Printable(events[i])
    requires received + lost == EncodeAll(events)
    ensures Kept([], FramesOf(received), typeOf, None) <= DataOf(events)
  {
    FramesOfPrefix(received, lost);
    PrintedFrames(events);
    KeptOf(FramesOf(received), typeOf);
  }
}
