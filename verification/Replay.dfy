/** The events a client is sent: stored rows, with the terminal payload rebuilt from the turn row when a
    request attaches to a turn that was already there. */
module Replay {
  import opened Basics
  import opened TurnTypes
  import opened TurnRow
  import opened Ledger
  import opened TurnInvariant
  import opened Executor
  import opened ChatSystem
  import opened ChatInvariant
  import opened Evolution
  import opened ChatTheorems

  datatype StreamEvent = StreamEvent(id: string, turnRef: string, sequence: nat, occurredAt: int, payload: Payload)

  function EventFromRow(e: Event, t: Turn): StreamEvent {
    StreamEvent(e.id, t.key.publicRef, e.sequence, e.occurredAt, e.payload)
  }

  /** Python's `value or default` on a nullable string. */
  function OrDefault(value: Option<string>, default: string): string {
    if value.Some? && value.value != "" then value.value else default
  }

  function TerminalPayloadForEmit(t: Turn, e: EventType): Option<Payload> {
    match e
    case CompletedEvent => Some(CompletedPayload(t, true))
    case FailedEvent => Some(TurnFailed(OrDefault(t.errorCode, SAFE_PROVIDER_FAILURE_CODE),
                                        OrDefault(t.errorMessage, SAFE_PROVIDER_FAILURE_MESSAGE), true))
    case CancelledEvent => Some(TurnCancelled(TURN_CANCELLED_CODE, SAFE_TURN_CANCELLED_MESSAGE, true))
    case _ => None
  }

  function WithEmitReplay(event: StreamEvent, t: Turn, terminalReplay: bool): StreamEvent {
    if !terminalReplay || !Terminal(TypeOf(event.payload)) then event
    else
      var payload := TerminalPayloadForEmit(t, TypeOf(event.payload));
      if payload.None? then event else event.(payload := payload.value)
  }

  /** The stored event with nothing but its replay flag turned on. */
  function Relabelled(event: StreamEvent): StreamEvent {
    match event.payload
    case TurnCompleted(route, stopReason, citations, acceptedRefs, budget, _) =>
      event.(payload := TurnCompleted(route, stopReason, citations, acceptedRefs, budget, true))
    case TurnFailed(code, message, _) => event.(payload := TurnFailed(code, message, true))
    case TurnCancelled(code, message, _) => event.(payload := TurnCancelled(code, message, true))
    case _ => event
  }

  // ------------------------------------------------ the terminal row tells the turn row

  /** The last ledger row of a closed turn carries what the turn row says; a cancellation says one thing. */
  predicate TerminalFaithful(t: Turn) {
    (forall i :: 0 <= i < |t.ledger| && t.ledger[i].payload.TurnCancelled? ==>
       t.ledger[i].payload == TurnCancelled(TURN_CANCELLED_CODE, SAFE_TURN_CANCELLED_MESSAGE, false)) &&
    t.ledger != [] &&
    var last := t.ledger[|t.ledger| - 1].payload;
    match t.status
    case Completed => last == CompletedPayload(t, false)
    case Failed => t.errorCode.Some? && t.errorMessage.Some? && last == TurnFailed(t.errorCode.value, t.errorMessage.value, false)
    case Cancelled => last == TurnCancelled(TURN_CANCELLED_CODE, SAFE_TURN_CANCELLED_MESSAGE, false)
    case _ => true
  }

  lemma CompleteFaithful(t: Turn, stopReason: StopReason, answer: Option<string>, budget: Budget, generation: nat, id: string, now: int)
    requires TerminalFaithful(t)
    ensures TerminalFaithful(CompleteTurn(t, stopReason, answer, budget, Some(generation), id, now).row)
  {
  }

  lemma FailFaithful(t: Turn, code: string, message: string, generation: nat, id: string, now: int)
    requires TerminalFaithful(t)
    ensures TerminalFaithful(FailTurn(t, code, message, Some(generation), id, now).row)
  {
  }

  lemma PerformFaithful(t: Turn, generation: nat, a: Action, io: Io)
    requires TerminalFaithful(t)
    requires a.AppendEvent? ==> WorkEvent(a.payload)
    ensures Perform(t, generation, a, io).Success? ==> TerminalFaithful(Perform(t, generation, a, io).value.row)
  {
    if a.CompleteAs? {
      CompleteFaithful(t, a.stopReason, a.answer, a.budget, generation, io.eventId, io.now);
    } else if a.FailAs? {
      FailFaithful(t, a.code, a.message, generation, io.eventId, io.now);
    }
  }

  lemma LeaseFaithful(t: Turn, owner: string, generation: nat, leaseSeconds: nat, now: int)
    requires TerminalFaithful(t)
    ensures TerminalFaithful(HeartbeatLease(t, owner, generation, leaseSeconds, now))
    ensures Claimable(t, now) ==> TerminalFaithful(ClaimTurn(t, owner, leaseSeconds, now))
  {
  }

  lemma CancelFaithful(t: Turn, id: string, now: int)
    requires TerminalFaithful(t)
    ensures TerminalFaithful(CancelRunningTurn(t, id, now).row)
  {
  }

  lemma RedactFaithful(t: Turn, id: string, now: int)
    requires TerminalFaithful(t)
    ensures TerminalFaithful(RedactTurn(t, id, now).row)
  {
  }

  predicate AllFaithful(cells: seq<Cell>) {
    forall i :: 0 <= i < |cells| ==> TerminalFaithful(cells[i].row)
  }

  lemma {:induction false} ExecuteFaithful(s: State, turn: nat, generation: nat, io: Io)
    requires AllFaithful(s.cells)
    ensures AllFaithful(ExecuteStep(s, turn, generation, io).cells)
  {
    if Stored(s, turn) && 0 < generation <= |s.cells[turn].execs| {
      var x := s.cells[turn].execs[generation - 1];
      var at := io.(now := s.now);
      PerformFaithful(s.cells[turn].row, x.generation, Decide(s.cells[turn].row, x, at), at);
    }
  }

  lemma CommitFaithful(s: State, starter: nat, authenticated: bool, ids: FreshIds)
    requires AllFaithful(s.cells)
    ensures AllFaithful(CommitStart(s, starter, authenticated, ids).cells)
  {
  }

  lemma HeartbeatFaithful(s: State, turn: nat, generation: nat, leaseSeconds: nat)
    requires AllFaithful(s.cells)
    ensures AllFaithful(HeartbeatStep(s, turn, generation, leaseSeconds).cells)
  {
    if Stored(s, turn) && 0 < generation <= |s.cells[turn].execs| {
      LeaseFaithful(s.cells[turn].row, s.cells[turn].execs[generation - 1].owner, generation, leaseSeconds, s.now);
    }
  }

  lemma {:induction false} TurnMoveFaithful(s: State, step: Move)
    requires AllFaithful(s.cells) && OnTurn(step)
    ensures AllFaithful(ApplyToTurn(s, step).cells)
  {
    if Stored(s, step.turn) {
      var t := s.cells[step.turn].row;
      match step
      case Claim(_, owner, leaseSeconds) => LeaseFaithful(t, owner, 0, leaseSeconds, s.now);
      case Heartbeat(turn, generation, leaseSeconds) => HeartbeatFaithful(s, turn, generation, leaseSeconds);
      case Execute(turn, generation, io) => ExecuteFaithful(s, turn, generation, io);
      case Crash(_, _) =>
      case Cancel(_, eventId) => CancelFaithful(t, eventId, s.now);
      case Redact(_, eventId) => RedactFaithful(t, eventId, s.now);
    }
  }

  lemma {:induction false} StepFaithful(s: State, step: Move)
    requires AllFaithful(s.cells)
    ensures AllFaithful(Apply(s, step).cells)
  {
    if OnTurn(step) {
      TurnMoveFaithful(s, step);
    } else if step.StartCommits? {
      CommitFaithful(s, step.starter, step.authenticated, step.ids);
    }
  }

  lemma {:induction false} RunFaithful(steps: seq<Move>)
    ensures AllFaithful(Run(INITIAL, steps).cells)
  {
    if steps != [] {
      RunFaithful(steps[..|steps| - 1]);
      StepFaithful(Run(INITIAL, steps[..|steps| - 1]), steps[|steps| - 1]);
    }
  }

  // ------------------------------------------------------------------ citations

  lemma {:induction false} AllUnredacted(refs: seq<EvidenceRef>)
    requires forall i :: 0 <= i < |refs| ==> refs[i].redactedAt.None?
    ensures Unredacted(refs) == refs
  {
    if refs != [] {
      AllUnredacted(refs[..|refs| - 1]);
    }
  }

  lemma {:induction false} AllUnredactedAccepted(refs: seq<AcceptedRef>)
    requires forall i :: 0 <= i < |refs| ==> refs[i].redactedAt.None?
    ensures UnredactedAccepted(refs) == refs
  {
    if refs != [] {
      AllUnredactedAccepted(refs[..|refs| - 1]);
    }
  }

  lemma {:induction false} CitationsOfLabelled(refs: seq<EvidenceRef>)
    requires forall i :: 0 <= i < |refs| ==> refs[i].citationLabel == Some(CitationLabel(i + 1))
    ensures |CitationsOf(refs)| == |refs|
    ensures forall i :: 0 <= i < |refs| ==> CitationsOf(refs)[i] == Citation(refs[i].publicRef, CitationLabel(i + 1))
  {
    if refs != [] {
      CitationsOfLabelled(refs[..|refs| - 1]);
    }
  }

  /** The citations of a completion are exactly the turn's Evidence refs: one each, in order, labelled [1]..[k]. */
  predicate CitesEvidence(evidence: seq<EvidenceRef>, citations: seq<Citation>) {
    && |citations| == |evidence|
    && forall i :: 0 <= i < |evidence| ==> citations[i] == Citation(evidence[i].publicRef, CitationLabel(i + 1))
  }

  /** Its accepted refs are exactly the ones the turn was started with, in order. */
  predicate ListsAccepted(accepted: seq<AcceptedRef>, items: seq<AcceptedItem>) {
    && |items| == |accepted|
    && forall i :: 0 <= i < |accepted| ==>
         && items[i].id == accepted[i].publicRef && items[i].kind == accepted[i].kind && items[i].order == accepted[i].order
         && items[i].safeLabel == accepted[i].safeLabel && items[i].safeDescription == accepted[i].safeDescription
  }

  lemma CompletionCites(t: Turn)
    requires EvidenceNumbered(t) && t.status == Completed
    ensures CitesEvidence(t.evidence, CitationsOf(PublicEvidenceRefs(t)))
  {
    AllUnredacted(t.evidence);
    CitationsOfLabelled(t.evidence);
  }

  lemma CompletionLists(t: Turn)
    requires AcceptedUnredacted(t) && t.status == Completed
    ensures ListsAccepted(t.accepted, AcceptedItemsOf(PublicComposerRefs(t)))
  {
    AllUnredactedAccepted(t.accepted);
  }

  predicate LastRowCites(t: Turn) {
    && t.ledger != []
    && (var last := t.ledger[|t.ledger| - 1].payload;
        && last.TurnCompleted? && last.completedRoute == t.key.route && last.stopReason == t.stopReason
        && last.budget == t.budget && !last.replay
        && CitesEvidence(t.evidence, last.citations) && ListsAccepted(t.accepted, last.acceptedRefs))
  }

  lemma CompletedRowCites(t: Turn)
    requires EvidenceNumbered(t) && AcceptedUnredacted(t) && TerminalFaithful(t) && t.status == Completed
    ensures LastRowCites(t)
  {
    CompletionCites(t);
    CompletionLists(t);
  }

  /** In every reachable store, the last row of a completed turn cites exactly the turn's Evidence. */
  lemma {:induction false} CitationsNameEvidence(steps: seq<Move>, turn: nat, t: Turn)
    requires turn < |Run(INITIAL, steps).cells| && t == Run(INITIAL, steps).cells[turn].row && t.status == Completed
    ensures LastRowCites(t)
  {
    ReachableCell(steps, turn);
    RunFaithful(steps);
    CompletedRowCites(t);
  }

  // ------------------------------------------------------------------- replay

  /** When attaching to a turn replays its ledger with only the replay flag changed. A completion that was
      redacted since no longer does (its stop reason has become "redacted"), and a failure does unless its
      code or message is one that the row no longer holds. */
  predicate ReplaysFaithfully(t: Turn, stored: Payload) {
    match stored
    case TurnCompleted(_, _, _, _, _, _) => t.status == Completed
    case TurnFailed(code, message, _) =>
      if t.status == Failed then code != "" && message != ""
      else code == SAFE_PROVIDER_FAILURE_CODE && message == SAFE_PROVIDER_FAILURE_MESSAGE
    case _ => true
  }

  lemma TerminalInLanguage(ledger: seq<Event>, i: nat)
    requires InLanguage(ledger) && i < |ledger| && Terminal(TypeOf(ledger[i].payload))
    ensures ledger[i].payload.TurnCompleted? ==> ledger[i].payload.stopReason.Some? && ledger[i].payload.stopReason != Some(StopRedacted)
    ensures i == |ledger| - 1 || (i == |ledger| - 2 && ledger[i + 1].payload.TurnRedacted?)
  {
    TerminalThenRedaction(ledger, i);
    PrefixesAccepted(ledger, i + 1);
    var upTo := ledger[..i + 1];
    assert upTo[..i] == ledger[..i] && upTo[i] == ledger[i];
    assert Scan(upTo) == Next(Scan(ledger[..i]), ledger[i]);
  }

  /** The row of a closed turn at which the ledger was terminated. */
  lemma TerminalRowOf(t: Turn, i: nat)
    requires RowSound(t) && i < |t.ledger| && Terminal(TypeOf(t.ledger[i].payload))
    ensures t.status != Running
    ensures t.status != Redacted ==> i == |t.ledger| - 1
    ensures t.ledger[i].payload.TurnCompleted? ==> t.ledger[i].payload.stopReason.Some? && t.ledger[i].payload.stopReason != Some(StopRedacted)
    ensures t.status == Completed ==> t.ledger[i].payload.TurnCompleted?
    ensures t.status == Failed ==> t.ledger[i].payload.TurnFailed?
    ensures t.status == Cancelled ==> t.ledger[i].payload.TurnCancelled?
  {
    TerminalInLanguage(t.ledger, i);
    ShapeOf(t.ledger);
  }

  lemma ReplayOfRow(t: Turn, i: nat)
    requires RowSound(t) && TerminalFaithful(t) && i < |t.ledger|
    ensures var stored := EventFromRow(t.ledger[i], t);
      WithEmitReplay(stored, t, true) == Relabelled(stored) <==> ReplaysFaithfully(t, t.ledger[i].payload)
  {
    if Terminal(TypeOf(t.ledger[i].payload)) {
      TerminalRowOf(t, i);
    }
  }

  /** In every reachable store, replaying a stored row to a request that attaches to a closed turn is a pure
      relabelling exactly when the row still holds what was stored. */
  lemma {:induction false} ReplayIsRelabelling(steps: seq<Move>, turn: nat, i: nat)
    requires turn < |Run(INITIAL, steps).cells| && i < |Run(INITIAL, steps).cells[turn].row.ledger|
    ensures var t := Run(INITIAL, steps).cells[turn].row; var stored := EventFromRow(t.ledger[i], t);
      WithEmitReplay(stored, t, true) == Relabelled(stored) <==> ReplaysFaithfully(t, t.ledger[i].payload)
  {
    ReachableCell(steps, turn);
    RunFaithful(steps);
    ReplayOfRow(Run(INITIAL, steps).cells[turn].row, i);
  }

  /** A poll reads the status row first and the ledger later: the same condition, on the row that was read
      first, decides what it emits, unless the turn is redacted between the two reads. */
  lemma PollReplay(status: Turn, rows: Turn, i: nat)
    requires RowSound(status) && RowSound(rows) && TerminalFaithful(status) && TerminalFaithful(rows)
    requires Evolves(status, rows) && (rows.status == Redacted ==> status.status == Redacted)
    requires i < |rows.ledger|
    ensures var stored := EventFromRow(rows.ledger[i], status);
      WithEmitReplay(stored, status, true) == Relabelled(stored) <==> ReplaysFaithfully(status, rows.ledger[i].payload)
  {
    if status.status != Running {
      ReplayOfRow(status, i);
    } else if Terminal(TypeOf(rows.ledger[i].payload)) {
      TerminalRowOf(rows, i);
    }
  }
}
