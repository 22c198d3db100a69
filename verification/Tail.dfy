/** Readers that tail the ledger: each poll reads the status first and the rows afterwards, while other
    actors append and redact in between; clients drop connections anywhere and resume after the last
    sequence they saw. */
module Tail {
  import opened Basics
  import opened TurnTypes
  import opened TurnRow
  import opened Ledger
  import opened TurnInvariant
  import opened Evolution
  import opened Replay
  import opened ChatSystem
  import opened ChatInvariant

  // ------------------------------------------------------------------ snapshots

  predicate SoundAt(snapshots: seq<Turn>, k: int)
    requires 0 <= k < |snapshots|
  {
    RowSound(snapshots[k])
  }

  predicate EvolvesAt(snapshots: seq<Turn>, k: int)
    requires 0 <= k < |snapshots| - 1
  {
    Evolves(snapshots[k], snapshots[k + 1])
  }

  /** Successive reads of one turn row. Poll k reads the status from snapshot 2k and the rows from 2k + 1. */
  predicate History(snapshots: seq<Turn>) {
    && (forall k {:trigger SoundAt(snapshots, k)} :: 0 <= k < |snapshots| ==> SoundAt(snapshots, k))
    && (forall k {:trigger EvolvesAt(snapshots, k)} :: 0 <= k < |snapshots| - 1 ==> EvolvesAt(snapshots, k))
  }

  /** What a read of the turn finds after the first `n` steps. */
  predicate ReadAt(steps: seq<Move>, n: nat, turn: nat, found: Turn) {
    n <= |steps| && turn < |Run(INITIAL, steps[..n]).cells| && found == Run(INITIAL, steps[..n]).cells[turn].row
  }

  lemma ReadIsSound(steps: seq<Move>, n: nat, turn: nat, found: Turn)
    requires ReadAt(steps, n, turn, found)
    ensures RowSound(found)
  {
    ReachableCell(steps[..n], turn);
  }

  lemma ReadsEvolve(steps: seq<Move>, i: nat, j: nat, turn: nat, earlier: Turn, later: Turn)
    requires i <= j && ReadAt(steps, i, turn, earlier) && ReadAt(steps, j, turn, later)
    ensures Evolves(earlier, later)
  {
    assert steps[..j] == steps[..i] + steps[i..j];
    RunSplit(INITIAL, steps[..i], steps[i..j]);
    RunEvolves(Run(INITIAL, steps[..i]), steps[i..j], turn);
  }

  /** Reads taken along any run are such a history. */
  lemma {:induction false} RunsGiveHistories(steps: seq<Move>, turn: nat, times: seq<nat>, snapshots: seq<Turn>)
    requires |snapshots| == |times|
    requires forall k :: 0 <= k < |times| - 1 ==> times[k] <= times[k + 1]
    requires forall k :: 0 <= k < |times| ==> ReadAt(steps, times[k], turn, snapshots[k])
    ensures History(snapshots)
  {
    forall k | 0 <= k < |times|
      ensures SoundAt(snapshots, k)
    {
      ReadIsSound(steps, times[k], turn, snapshots[k]);
    }
    forall k | 0 <= k < |times| - 1
      ensures EvolvesAt(snapshots, k)
    {
      ReadsEvolve(steps, times[k], times[k + 1], turn, snapshots[k], snapshots[k + 1]);
    }
  }

  /** Of any run: what a poll emits to a request that attached to a closed turn. With the status read closed
      and no redaction before the rows are read it is the stored row relabelled; with the status read still
      running it is not, for a completion. */
  lemma {:induction false} PolledReplay(steps: seq<Move>, i: nat, j: nat, turn: nat, status: Turn, rows: Turn, k: nat)
    requires i <= j && ReadAt(steps, i, turn, status) && ReadAt(steps, j, turn, rows)
    requires rows.status == Redacted ==> status.status == Redacted
    requires k < |rows.ledger|
    ensures var stored := EventFromRow(rows.ledger[k], status);
      WithEmitReplay(stored, status, true) == Relabelled(stored) <==> ReplaysFaithfully(status, rows.ledger[k].payload)
  {
    ReadIsSound(steps, i, turn, status);
    ReadIsSound(steps, j, turn, rows);
    ReadsEvolve(steps, i, j, turn, status, rows);
    RunFaithful(steps[..i]);
    RunFaithful(steps[..j]);
    PollReplay(status, rows, k);
  }

  lemma {:induction false} HistoryEvolves(snapshots: seq<Turn>, i: nat, j: nat)
    requires History(snapshots) && i <= j < |snapshots|
    ensures Evolves(snapshots[i], snapshots[j])
    decreases j - i
  {
    if i < j {
      HistoryEvolves(snapshots, i, j - 1);
      assert EvolvesAt(snapshots, j - 1);
      EvolvesTransitive(snapshots[i], snapshots[j - 1], snapshots[j]);
    }
  }

  // ------------------------------------------------------------------- one poll

  /** The rows with a sequence beyond the cursor, in order, as they are emitted. */
  function StoredEvents(ledger: seq<Event>, current: Turn, cursor: nat, terminalReplay: bool): seq<StreamEvent> {
    if ledger == [] then []
    else
      var last := ledger[|ledger| - 1];
      StoredEvents(ledger[..|ledger| - 1], current, cursor, terminalReplay) +
      (if last.sequence > cursor then [WithEmitReplay(EventFromRow(last, current), current, terminalReplay)] else [])
  }

  /** In a dense ledger the rows beyond the cursor are its tail from that position. */
  lemma {:induction false} StoredEventsDense(ledger: seq<Event>, current: Turn, cursor: nat, terminalReplay: bool)
    requires Dense(ledger)
    ensures var rows := StoredEvents(ledger, current, cursor, terminalReplay);
      && |rows| == (if cursor < |ledger| then |ledger| - cursor else 0)
      && forall k :: 0 <= k < |rows| ==>
           rows[k] == WithEmitReplay(EventFromRow(ledger[cursor + k], current), current, terminalReplay)
  {
    if ledger != [] {
      StoredEventsDense(ledger[..|ledger| - 1], current, cursor, terminalReplay);
    }
  }

  predicate Delivers(event: StreamEvent, position: nat, ledger: seq<Event>) {
    && position < |ledger|
    && event.sequence == position + 1 && ledger[position].sequence == position + 1
    && event.id == ledger[position].id && event.occurredAt == ledger[position].occurredAt
    && TypeOf(event.payload) == TypeOf(ledger[position].payload)
    && (Terminal(TypeOf(event.payload)) || event.payload == ledger[position].payload || Sanitized(event.payload) == ledger[position].payload)
  }

  /** What a client was sent, set against the ledger as it finally stands: row `after + k` of the ledger has
      the identity, position and time of the k-th event received, and its type; unless that is terminal, also
      its payload, which a redaction may have blanked since. */
  predicate Segment(received: seq<StreamEvent>, after: nat, ledger: seq<Event>) {
    && (received != [] ==> after + |received| <= |ledger|)
    && forall k :: 0 <= k < |received| ==> Delivers(received[k], after + k, ledger)
  }

  lemma EmitDelivers(row: Event, later: Event, current: Turn, terminalReplay: bool, event: StreamEvent, position: nat, final: seq<Event>)
    requires SameEvent(row, later) && row.sequence == position + 1 && position < |final| && final[position] == later
    requires event == WithEmitReplay(EventFromRow(row, current), current, terminalReplay)
    ensures Delivers(event, position, final)
  {
  }

  lemma PollDelivers(ledger: seq<Event>, final: seq<Event>, current: Turn, cursor: nat, terminalReplay: bool)
    requires Dense(ledger) && Extends(ledger, final)
    ensures Segment(StoredEvents(ledger, current, cursor, terminalReplay), cursor, final)
  {
    var rows := StoredEvents(ledger, current, cursor, terminalReplay);
    StoredEventsDense(ledger, current, cursor, terminalReplay);
    forall k | 0 <= k < |rows|
      ensures Delivers(rows[k], cursor + k, final)
    {
      assert SameEvent(ledger[cursor + k], final[cursor + k]);
      EmitDelivers(ledger[cursor + k], final[cursor + k], current, terminalReplay, rows[k], cursor + k, final);
    }
  }

  /** All of these are events of this turn. */
  predicate Addressed(events: seq<StreamEvent>, turnRef: string) {
    forall k :: 0 <= k < |events| ==> events[k].turnRef == turnRef
  }

  lemma {:induction false} StoredAddressed(ledger: seq<Event>, current: Turn, cursor: nat, terminalReplay: bool)
    ensures Addressed(StoredEvents(ledger, current, cursor, terminalReplay), current.key.publicRef)
  {
    if ledger != [] { StoredAddressed(ledger[..|ledger| - 1], current, cursor, terminalReplay); }
  }

  lemma SegmentsJoin(first: seq<StreamEvent>, second: seq<StreamEvent>, after: nat, ledger: seq<Event>)
    requires Segment(first, after, ledger) && Segment(second, after + |first|, ledger)
    ensures Segment(first + second, after, ledger)
  {
  }

  lemma SegmentPrefix(received: seq<StreamEvent>, n: nat, after: nat, ledger: seq<Event>)
    requires Segment(received, after, ledger) && n <= |received|
    ensures Segment(received[..n], after, ledger)
  {
  }

  // ---------------------------------------------------------------- one connection

  /** The turn had closed, and the cursor is past its terminal or redacted row. */
  predicate ReachesEnd(t: Turn, cursor: nat) {
    && t.status != Running && t.ledger != [] && |t.ledger| <= cursor
    && (var last := TypeOf(t.ledger[|t.ledger| - 1].payload); Terminal(last) || last == RedactedEvent)
  }

  /** A status read before the rows are read: if it was closed, its last row is among the rows. */
  lemma ClosedPoll(status: Turn, rows: Turn, cursor: nat, end: nat)
    requires RowSound(status) && status.status != Running && Evolves(status, rows)
    requires end == if cursor < |rows.ledger| then |rows.ledger| else cursor
    ensures ReachesEnd(status, end)
  {
    ShapeOf(status.ledger);
  }

  lemma PollReads(status: Turn, rows: Turn, final: seq<Event>, cursor: nat, terminalReplay: bool)
    requires RowSound(status) && RowSound(rows) && Evolves(status, rows) && Extends(rows.ledger, final)
    ensures var sent := StoredEvents(rows.ledger, status, cursor, terminalReplay);
      && Segment(sent, cursor, final)
      && (status.status != Running ==> ReachesEnd(status, cursor + |sent|))
  {
    StoredEventsDense(rows.ledger, status, cursor, terminalReplay);
    PollDelivers(rows.ledger, final, status, cursor, terminalReplay);
    if status.status != Running {
      ClosedPoll(status, rows, cursor, cursor + |StoredEvents(rows.ledger, status, cursor, terminalReplay)|);
    }
  }

  /** One poll of a history, against the ledger as it finally stands. */
  lemma PollStep(snapshots: seq<Turn>, poll: nat, cursor: nat, terminalReplay: bool)
    requires History(snapshots) && poll + 1 < |snapshots|
    ensures var rows := StoredEvents(snapshots[poll + 1].ledger, snapshots[poll], cursor, terminalReplay);
      && Segment(rows, cursor, snapshots[|snapshots| - 1].ledger)
      && (snapshots[poll].status != Running ==> ReachesEnd(snapshots[poll], cursor + |rows|))
  {
    assert SoundAt(snapshots, poll) && SoundAt(snapshots, poll + 1);
    HistoryEvolves(snapshots, poll, poll + 1);
    HistoryEvolves(snapshots, poll + 1, |snapshots| - 1);
    PollReads(snapshots[poll], snapshots[poll + 1], snapshots[|snapshots| - 1].ledger, cursor, terminalReplay);
  }

  /** The inner loop of a poll: the cursor follows the sequence of each event it yields. */
  method YieldAll(rows: seq<StreamEvent>, cursor: nat, ghost ledger: seq<Event>) returns (last: nat)
    requires Segment(rows, cursor, ledger)
    ensures last == cursor + |rows|
  {
    last := cursor;
    for i := 0 to |rows|
      invariant last == cursor + i
    {
      assert Delivers(rows[i], cursor + i, ledger);
      last := rows[i].sequence;
    }
  }

  /** _tail_turn_events. `snapshots` are the reads it happens to make; running out of them is the idle
      deadline. `sent` is what it yields, `cursor` its cursor at the end, and `closed` whether it returned
      because a status read was not running; then the rows it has sent reach past a terminal or redacted row. */
  method TailTurnEvents(snapshots: seq<Turn>, after: nat, terminalReplay: bool)
    returns (sent: seq<StreamEvent>, cursor: nat, closed: bool)
    requires History(snapshots) && |snapshots| % 2 == 0 && snapshots != []
    ensures Segment(sent, after, snapshots[|snapshots| - 1].ledger)
    ensures cursor == after + |sent|
    ensures closed <==> exists k :: 0 <= k < |snapshots| && k % 2 == 0 && snapshots[k].status != Running
    ensures closed ==> exists t :: t in snapshots && ReachesEnd(t, cursor)
    ensures Addressed(sent, snapshots[0].key.publicRef)
  {
    sent, cursor, closed := [], after, false;
    ghost var final := snapshots[|snapshots| - 1].ledger;
    var poll := 0;
    while poll < |snapshots|
      invariant 0 <= poll <= |snapshots| && poll % 2 == 0
      invariant !closed && forall k :: 0 <= k < poll && k % 2 == 0 ==> snapshots[k].status == Running
      invariant Segment(sent, after, final)
      invariant cursor == after + |sent| && Addressed(sent, snapshots[0].key.publicRef)
      decreases |snapshots| - poll
    {
      var current := snapshots[poll];
      HistoryEvolves(snapshots, 0, poll);
      StoredAddressed(snapshots[poll + 1].ledger, current, cursor, terminalReplay);
      var rows := StoredEvents(snapshots[poll + 1].ledger, current, cursor, terminalReplay);
      PollStep(snapshots, poll, cursor, terminalReplay);
      SegmentsJoin(sent, rows, after, final);
      cursor := YieldAll(rows, cursor, final);
      sent := sent + rows;
      if current.status != Running {
        closed := true;
        assert current in snapshots && ReachesEnd(current, cursor);
        return;
      }
      poll := poll + 2;
    }
  }

  // ------------------------------------------------------------ many connections

  /** A client that keeps only a prefix of what each connection sends, and resumes after the last sequence
      it saw. */
  datatype Connection = Connection(polls: nat, kept: nat, terminalReplay: bool)

  function TotalReads(connections: seq<Connection>): nat {
    if connections == [] then 0
    else TotalReads(connections[..|connections| - 1]) + 2 * connections[|connections| - 1].polls
  }

  lemma {:induction false} ReadsUpTo(connections: seq<Connection>, n: nat)
    requires n < |connections|
    ensures TotalReads(connections[..n]) + 2 * connections[n].polls == TotalReads(connections[..n + 1]) <= TotalReads(connections)
    decreases |connections|
  {
    if n < |connections| - 1 {
      var front := connections[..|connections| - 1];
      ReadsUpTo(front, n);
      assert front[..n] == connections[..n] && front[..n + 1] == connections[..n + 1];
    } else {
      assert connections[..n + 1] == connections;
    }
    assert connections[..n + 1][..n] == connections[..n];
  }

  lemma WindowIsHistory(snapshots: seq<Turn>, from: nat, n: nat)
    requires History(snapshots) && from + n <= |snapshots|
    ensures History(snapshots[from..from + n])
  {
    var window := snapshots[from..from + n];
    forall k | 0 <= k < |window|
      ensures SoundAt(window, k)
    {
      assert SoundAt(snapshots, from + k);
    }
    forall k | 0 <= k < |window| - 1
      ensures EvolvesAt(window, k)
    {
      assert EvolvesAt(snapshots, from + k);
    }
  }

  lemma SegmentExtends(received: seq<StreamEvent>, after: nat, ledger: seq<Event>, later: seq<Event>)
    requires Segment(received, after, ledger) && Extends(ledger, later)
    ensures Segment(received, after, later)
  {
    forall k | 0 <= k < |received|
      ensures Delivers(received[k], after + k, later)
    {
      assert Delivers(received[k], after + k, ledger);
      assert SameEvent(ledger[after + k], later[after + k]);
    }
  }

  /** What was received reaches the end of the turn: a closed turn's terminal or redacted row is behind the
      start, or was received. */
  predicate HoldsEnd(received: seq<StreamEvent>, start: nat, t: Turn) {
    && ReachesEnd(t, start + |received|)
    && (start < |t.ledger| ==>
          var last := TypeOf(received[|t.ledger| - 1 - start].payload); Terminal(last) || last == RedactedEvent)
  }

  lemma EndReceived(snapshots: seq<Turn>, i: nat, received: seq<StreamEvent>, start: nat)
    requires History(snapshots) && i < |snapshots|
    requires Segment(received, start, snapshots[|snapshots| - 1].ledger) && ReachesEnd(snapshots[i], start + |received|)
    ensures HoldsEnd(received, start, snapshots[i])
  {
    var t, final := snapshots[i], snapshots[|snapshots| - 1].ledger;
    HistoryEvolves(snapshots, i, |snapshots| - 1);
    if start < |t.ledger| {
      var k := |t.ledger| - 1;
      assert Delivers(received[k - start], k, final);
      assert SameEvent(t.ledger[k], final[k]);
    }
  }

  /** One connection of a client that saw everything up to `lastSeen`, against the final ledger. `ended` says
      that the tail closed and the client kept all of it; then what it kept reaches the end of the turn. */
  method Connect(snapshots: seq<Turn>, window: seq<Turn>, ghost from: nat, connection: Connection, lastSeen: nat)
    returns (kept: seq<StreamEvent>, resumeAt: nat, ended: bool)
    requires History(snapshots) && from + |window| <= |snapshots| && window == snapshots[from..from + |window|]
    requires |window| % 2 == 0 && window != []
    ensures Segment(kept, lastSeen, snapshots[|snapshots| - 1].ledger)
    ensures resumeAt == lastSeen + |kept|
    ensures ended ==> exists i :: 0 <= i < |snapshots| && ReachesEnd(snapshots[i], resumeAt)
    ensures Addressed(kept, snapshots[0].key.publicRef)
  {
    WindowIsHistory(snapshots, from, |window|);
    HistoryEvolves(snapshots, 0, from);
    var sent, cursor, closed := TailTurnEvents(window, lastSeen, connection.terminalReplay);
    ghost var final := snapshots[|snapshots| - 1].ledger;
    HistoryEvolves(snapshots, from + |window| - 1, |snapshots| - 1);
    SegmentExtends(sent, lastSeen, window[|window| - 1].ledger, final);
    var n := if connection.kept < |sent| then connection.kept else |sent|;
    SegmentPrefix(sent, n, lastSeen, final);
    kept, resumeAt := sent[..n], lastSeen;
    ended := closed && n == |sent|;
    if n > 0 {
      assert Delivers(kept[n - 1], lastSeen + (n - 1), final);
      resumeAt := kept[n - 1].sequence;
    }
    if ended {
      ghost var t :| t in window && ReachesEnd(t, cursor);
      ghost var i :| 0 <= i < |window| && window[i] == t;
      assert snapshots[from + i] == t;
    }
  }

  /** However often it disconnects and resumes, a client receives one contiguous segment of the ledger from
      where it began: no row twice, none missing, each with the row's own identity and type. If its last
      connection ended with the turn, it has received the terminal or redacted row. */
  method FollowWithReconnects(snapshots: seq<Turn>, connections: seq<Connection>, start: nat)
    returns (received: seq<StreamEvent>, ended: bool)
    requires History(snapshots) && snapshots != [] && |snapshots| == TotalReads(connections)
    ensures Segment(received, start, snapshots[|snapshots| - 1].ledger)
    ensures ended ==> exists i :: 0 <= i < |snapshots| && HoldsEnd(received, start, snapshots[i])
    ensures Addressed(received, snapshots[0].key.publicRef)
  {
    received, ended := [], false;
    var lastSeen := start;
    var used := 0;
    for c := 0 to |connections|
      invariant used == TotalReads(connections[..c]) <= |snapshots|
      invariant Segment(received, start, snapshots[|snapshots| - 1].ledger)
      invariant lastSeen == start + |received| && Addressed(received, snapshots[0].key.publicRef)
      invariant ended ==> exists i :: 0 <= i < |snapshots| && ReachesEnd(snapshots[i], lastSeen)
    {
      ReadsUpTo(connections, c);
      var polled := 2 * connections[c].polls;
      if polled > 0 {
        var window := snapshots[used..used + polled];
        var kept, resumeAt, closed := Connect(snapshots, window, used, connections[c], lastSeen);
        SegmentsJoin(received, kept, start, snapshots[|snapshots| - 1].ledger);
        received, lastSeen, ended := received + kept, resumeAt, closed;
      }
      used := used + polled;
    }
    assert connections[..|connections|] == connections;
    if ended {
      ghost var i :| 0 <= i < |snapshots| && ReachesEnd(snapshots[i], lastSeen);
      EndReceived(snapshots, i, received, start);
    }
  }

  // ---------------------------------------------------------------- a whole replay

  lemma EarlierRowsSame(t: Turn, k: nat)
    requires RowSound(t) && (t.status == Completed || t.status == Failed || t.status == Cancelled) && k < |t.ledger| - 1
    ensures WithEmitReplay(EventFromRow(t.ledger[k], t), t, true) == WithEmitReplay(EventFromRow(t.ledger[k], t), t, false)
  {
    if Terminal(TypeOf(t.ledger[k].payload)) {
      TerminalRowOf(t, k);
    }
  }

  /** The stream with its last event relabelled. */
  predicate LastRelabelled(replayed: seq<StreamEvent>, stored: seq<StreamEvent>) {
    && |replayed| == |stored| > 0
    && replayed[..|stored| - 1] == stored[..|stored| - 1]
    && replayed[|stored| - 1] == Relabelled(stored[|stored| - 1])
  }

  lemma OnlyLastDiffers(replayed: seq<StreamEvent>, stored: seq<StreamEvent>)
    requires |replayed| == |stored| > 0 && forall k :: 0 <= k < |stored| - 1 ==> replayed[k] == stored[k]
    ensures LastRelabelled(replayed, stored) <==> replayed[|stored| - 1] == Relabelled(stored[|stored| - 1])
  {
  }

  lemma EarlierEventsSame(t: Turn, cursor: nat)
    requires RowSound(t) && (t.status == Completed || t.status == Failed || t.status == Cancelled) && cursor < |t.ledger|
    ensures var replayed, stored := StoredEvents(t.ledger, t, cursor, true), StoredEvents(t.ledger, t, cursor, false);
      && |replayed| == |stored| == |t.ledger| - cursor
      && (forall k :: 0 <= k < |stored| - 1 ==> replayed[k] == stored[k])
      && stored[|stored| - 1] == EventFromRow(t.ledger[|t.ledger| - 1], t)
      && replayed[|stored| - 1] == WithEmitReplay(EventFromRow(t.ledger[|t.ledger| - 1], t), t, true)
  {
    var replayed, stored := StoredEvents(t.ledger, t, cursor, true), StoredEvents(t.ledger, t, cursor, false);
    StoredEventsDense(t.ledger, t, cursor, true);
    StoredEventsDense(t.ledger, t, cursor, false);
    forall k | 0 <= k < |stored| - 1
      ensures replayed[k] == stored[k]
    {
      EarlierRowsSame(t, cursor + k);
    }
  }

  lemma LastReplayed(t: Turn, cursor: nat, last: StreamEvent)
    requires RowSound(t) && (t.status == Completed || t.status == Failed || t.status == Cancelled) && cursor < |t.ledger|
    requires last == EventFromRow(t.ledger[|t.ledger| - 1], t)
    ensures LastRelabelled(StoredEvents(t.ledger, t, cursor, true), StoredEvents(t.ledger, t, cursor, false)) <==>
      WithEmitReplay(last, t, true) == Relabelled(last)
  {
    EarlierEventsSame(t, cursor);
    OnlyLastDiffers(StoredEvents(t.ledger, t, cursor, true), StoredEvents(t.ledger, t, cursor, false));
  }

  /** Over a whole replay of a closed, unredacted row behind any cursor: every event is the stored one, except
      that the terminal one is relabelled, if and only if the row still holds what is stored. */
  lemma WholeReplay(t: Turn, cursor: nat)
    requires RowSound(t) && TerminalFaithful(t) && (t.status == Completed || t.status == Failed || t.status == Cancelled)
    requires cursor < |t.ledger|
    ensures LastRelabelled(StoredEvents(t.ledger, t, cursor, true), StoredEvents(t.ledger, t, cursor, false)) <==>
      ReplaysFaithfully(t, t.ledger[|t.ledger| - 1].payload)
  {
    LastReplayed(t, cursor, EventFromRow(t.ledger[|t.ledger| - 1], t));
    ReplayOfRow(t, |t.ledger| - 1);
  }

  lemma CompletedLast(t: Turn)
    requires RowSound(t) && TerminalFaithful(t) && t.status == Completed
    ensures ReplaysFaithfully(t, t.ledger[|t.ledger| - 1].payload)
  {
  }

  /** Of any run: attaching to a completed turn that is not redacted meanwhile yields the stored ledger behind
      the cursor with one flag changed, that of its terminal event. */
  lemma {:induction false} CompletedReplay(steps: seq<Move>, i: nat, j: nat, turn: nat, status: Turn, rows: Turn, cursor: nat)
    requires i <= j && ReadAt(steps, i, turn, status) && ReadAt(steps, j, turn, rows)
    requires status.status == Completed && rows.status != Redacted && cursor < |rows.ledger|
    ensures LastRelabelled(StoredEvents(rows.ledger, status, cursor, true), StoredEvents(rows.ledger, status, cursor, false))
  {
    ReadIsSound(steps, i, turn, status);
    ReadsEvolve(steps, i, j, turn, status, rows);
    RunFaithful(steps[..i]);
    CompletedLast(status);
    WholeReplay(status, cursor);
  }
}
