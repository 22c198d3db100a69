/** What holds of every turn in every reachable store, and over every run. */
module ChatTheorems {
  import opened Basics
  import opened TurnTypes
  import opened TurnRow
  import opened Ledger
  import opened Executor
  import opened TurnInvariant
  import opened ComposerRefs
  import opened ChatSystem
  import opened ChatInvariant
  import opened Evolution

  // -------------------------------------------------------- ledgers and outcomes

  predicate IsDelta(ledger: seq<Event>, i: int) {
    0 <= i < |ledger| && ledger[i].payload.AnswerDelta?
  }

  /** Under any interleaving, all answer.delta rows of a turn come from one execution generation, and a
      direct or grounded answer is exactly what the ledger's deltas spell. */
  lemma {:induction false} AnswerIsItsDeltas(steps: seq<Move>, turn: nat)
    requires turn < |Run(INITIAL, steps).cells|
    ensures var t := Run(INITIAL, steps).cells[turn].row;
      && (forall i, j | IsDelta(t.ledger, i) && IsDelta(t.ledger, j) :: t.ledger[i].writer == t.ledger[j].writer)
      && (t.status == Completed && (t.stopReason == Some(StopDirectLlm) || t.stopReason == Some(StopGrounded)) ==>
            t.answer == Some(Strip(Concat(DeltaTexts(t.ledger)))) && t.answer.value != "")
  {
    ReachableCell(steps, turn);
    var t := Run(INITIAL, steps).cells[turn].row;
    forall i, j | IsDelta(t.ledger, i) && IsDelta(t.ledger, j)
      ensures t.ledger[i].writer == t.ledger[j].writer
    {
      DeltasOfOneWriter(t.ledger, i, j);
    }
  }

  /** A redaction is the last row of its ledger. */
  lemma RedactionLast(ledger: seq<Event>, i: nat)
    requires InLanguage(ledger) && i < |ledger| && ledger[i].payload.TurnRedacted?
    ensures i == |ledger| - 1
  {
    PrefixesAccepted(ledger, i + 1);
    var upTo := ledger[..i + 1];
    assert upTo[..i] == ledger[..i] && upTo[i] == ledger[i];
    assert Scan(upTo) == Next(Scan(ledger[..i]), ledger[i]);
  }

  /** Once terminal, a ledger grows only by a redaction. */
  lemma TerminalThenRedaction(ledger: seq<Event>, i: nat)
    requires InLanguage(ledger) && i < |ledger| && Terminal(TypeOf(ledger[i].payload))
    ensures i == |ledger| - 1 || (i == |ledger| - 2 && ledger[i + 1].payload.TurnRedacted?)
  {
    PrefixesAccepted(ledger, i + 1);
    var upTo := ledger[..i + 1];
    assert upTo[..i] == ledger[..i] && upTo[i] == ledger[i];
    assert Scan(upTo) == Next(Scan(ledger[..i]), ledger[i]);
    if i < |ledger| - 1 {
      assert ledger[..|ledger| - 1] == upTo;
    }
  }

  /** The first two rows of a ledger and the route itself say what the turn was started with. */
  predicate OpensWithKey(t: Turn) {
    && |t.ledger| >= 2
    && t.ledger[0].payload == TurnAccepted(t.key.conversationRef, t.key.clientRequestId, false)
    && t.ledger[1].payload == RouteSelected(t.key.route, t.key.domainId)
    && (t.key.route == DirectLlm <==> t.key.domainId.None?)
  }

  lemma NewTurnIsInserted(s: State, step: Move, turn: nat)
    requires |s.cells| <= turn < |Apply(s, step).cells|
    ensures OpensWithKey(Apply(s, step).cells[turn].row)
  {
  }

  lemma OpeningKept(t: Turn, u: Turn)
    requires OpensWithKey(t) && Evolves(t, u)
    ensures OpensWithKey(u)
  {
    assert SameEvent(t.ledger[0], u.ledger[0]) && SameEvent(t.ledger[1], u.ledger[1]);
  }

  /** The first rows of every reachable ledger name the conversation, the client's request, the turn's own
      route and its domain; and a turn takes the direct route exactly when it has no domain. */
  lemma {:induction false} RouteRow(steps: seq<Move>, turn: nat)
    requires turn < |Run(INITIAL, steps).cells|
    ensures OpensWithKey(Run(INITIAL, steps).cells[turn].row)
  {
    var front := steps[..|steps| - 1];
    var before := Run(INITIAL, front);
    if turn < |before.cells| {
      RouteRow(front, turn);
      StepEvolves(before, steps[|steps| - 1], turn);
      OpeningKept(before.cells[turn].row, Run(INITIAL, steps).cells[turn].row);
    } else {
      NewTurnIsInserted(before, steps[|steps| - 1], turn);
    }
  }

  /** Every reachable ledger is dense, authentic, in the language, and determines the turn's status by
      its last row; Evidence, terminals and redactions are shown at most once. */
  lemma {:induction false} LedgerLanguage(steps: seq<Move>, turn: nat)
    requires turn < |Run(INITIAL, steps).cells|
    ensures var t := Run(INITIAL, steps).cells[turn].row;
      && Dense(t.ledger) && DigestsMatch(t.ledger) && InLanguage(t.ledger) && |t.ledger| >= 2
      && t.status == StatusAfter(TypeOf(t.ledger[|t.ledger| - 1].payload))
      && t.ledger[1].payload.RouteSelected? && t.ledger[1].payload.route == t.key.route
      && TallyOf(t.ledger).shown <= 1 && TallyOf(t.ledger).terminals <= 1 && TallyOf(t.ledger).redactions <= 1
  {
    ReachableCell(steps, turn);
    ShapeOf(Run(INITIAL, steps).cells[turn].row.ledger);
    RouteRow(steps, turn);
  }

  lemma OrderInLanguage(ledger: seq<Event>, i: nat, j: nat)
    requires InLanguage(ledger) && i <= j < |ledger|
    ensures ledger[j].writer > 0 ==> ledger[i].writer <= ledger[j].writer
    ensures ledger[i].payload.TurnRedacted? ==> i == j
    ensures Terminal(TypeOf(ledger[i].payload)) && i < j ==> ledger[j].payload.TurnRedacted?
  {
    if ledger[j].writer > 0 { WritersOrdered(ledger, i, j); }
    if ledger[i].payload.TurnRedacted? { RedactionLast(ledger, i); }
    if Terminal(TypeOf(ledger[i].payload)) { TerminalThenRedaction(ledger, i); }
  }

  /** In every reachable ledger the rows of executors appear in the order of their generations, a
      redaction is last, and nothing but a redaction follows a terminal row. */
  lemma {:induction false} LedgerOrder(steps: seq<Move>, turn: nat, i: nat, j: nat)
    requires turn < |Run(INITIAL, steps).cells|
    requires i <= j < |Run(INITIAL, steps).cells[turn].row.ledger|
    ensures var ledger := Run(INITIAL, steps).cells[turn].row.ledger;
      && (ledger[j].writer > 0 ==> ledger[i].writer <= ledger[j].writer)
      && (ledger[i].payload.TurnRedacted? ==> i == j)
      && (Terminal(TypeOf(ledger[i].payload)) && i < j ==> ledger[j].payload.TurnRedacted?)
  {
    ReachableCell(steps, turn);
    OrderInLanguage(Run(INITIAL, steps).cells[turn].row.ledger, i, j);
  }

  /** A completion carries one of the four completion stop reasons. */
  lemma CompletionReasons(ledger: seq<Event>)
    requires Scan(ledger).Closed? && Scan(ledger).status == Completed
    ensures Scan(ledger).stop in {Some(StopDirectLlm), Some(StopGrounded), Some(StopEvidenceOnly), Some(StopNoGroundedContext)}
  {
  }

  /** The outcome a completed turn reports is the one its ledger tells. */
  lemma {:induction false} OutcomeMatchesLedger(steps: seq<Move>, turn: nat)
    requires turn < |Run(INITIAL, steps).cells|
    requires Run(INITIAL, steps).cells[turn].row.status == Completed
    ensures var t := Run(INITIAL, steps).cells[turn].row; var tally := TallyOf(t.ledger);
      && t.stopReason.Some?
      && (tally.deltas > 0 <==> t.stopReason == Some(StopDirectLlm) || t.stopReason == Some(StopGrounded))
      && (tally.deltas == 0 <==> t.stopReason == Some(StopEvidenceOnly) || t.stopReason == Some(StopNoGroundedContext))
      && (t.stopReason == Some(StopEvidenceOnly) || t.stopReason == Some(StopGrounded) ==>
            && tally.shown == 1 && t.evidence != []
            && forall i :: 0 <= i < |t.evidence| ==>
                 t.evidence[i].order == i + 1 && t.evidence[i].citationLabel == Some(CitationLabel(i + 1)))
      && (t.answer.Some? <==> tally.deltas > 0)
  {
    ReachableCell(steps, turn);
    var t := Run(INITIAL, steps).cells[turn].row;
    ShapeOf(t.ledger);
    CompletionReasons(t.ledger);
  }

  lemma ShownAnswer(t: Turn)
    requires LedgerSound(t) && OutcomeSound(t)
    ensures PublicAnswer(t) ==
      if t.status == Completed && (t.stopReason == Some(StopDirectLlm) || t.stopReason == Some(StopGrounded))
      then Some(AnswerOf(DeltaTexts(t.ledger))) else None
  {
    if t.status == Completed { CompletionReasons(t.ledger); }
  }

  /** What the conversation detail shows as a turn's answer is what its ledger's deltas spell, for exactly
      the completed direct and grounded turns; no other turn shows one. */
  lemma {:induction false} PublicAnswerIsDeltas(steps: seq<Move>, turn: nat)
    requires turn < |Run(INITIAL, steps).cells|
    ensures var t := Run(INITIAL, steps).cells[turn].row;
      PublicAnswer(t) ==
        if t.status == Completed && (t.stopReason == Some(StopDirectLlm) || t.stopReason == Some(StopGrounded))
        then Some(AnswerOf(DeltaTexts(t.ledger))) else None
  {
    ReachableCell(steps, turn);
    ShownAnswer(Run(INITIAL, steps).cells[turn].row);
  }

  /** The execution that the turn's last claim launched stands at this step. */
  predicate Standing(s: State, turn: nat, pc: Pc) {
    Stored(s, turn) && s.cells[turn].row.status == Running && s.cells[turn].row.generation > 0
    && s.cells[turn].row.generation <= |s.cells[turn].execs| && s.cells[turn].execs[s.cells[turn].row.generation - 1].pc == pc
  }

  lemma StandingExec(s: State, turn: nat, pc: Pc)
    requires Sound(s) && Standing(s, turn, pc)
    ensures var cell := s.cells[turn]; var x := cell.execs[cell.row.generation - 1];
      EvidenceNumbered(cell.row) && x.generation == cell.row.generation && Tracks(cell.row, x)
  {
    assert CellSound(s.cells[turn]);
  }

  lemma CurrentExecutes(s: State, turn: nat, pc: Pc, io: Io)
    requires Standing(s, turn, pc)
    ensures var cell := s.cells[turn]; var g := cell.row.generation; var r := Step(cell.row, cell.execs[g - 1], io.(now := s.now));
      Apply(s, Execute(turn, g, io)) == Update(s, turn, Cell(r.row, cell.execs[g - 1 := r.exec]), r.bumped)
  {
  }

  // -------------------------------------------------------------- stale executors

  predicate SameRows(s: State, u: State) {
    && |u.cells| == |s.cells| && (forall i :: 0 <= i < |s.cells| ==> u.cells[i].row == s.cells[i].row)
    && u.conversations == s.conversations && u.tokens == s.tokens && u.starters == s.starters && u.now == s.now
  }

  lemma {:induction false} StaleExecute(s: State, turn: nat, generation: nat, io: Io)
    requires Sound(s) && turn < |s.cells| && generation < s.cells[turn].row.generation
    ensures SameRows(s, Apply(s, Execute(turn, generation, io)))
  {
    assert CellSound(s.cells[turn]);
    if Stored(s, turn) && generation > 0 {
      StaleStepIsInert(s.cells[turn].row, s.cells[turn].execs[generation - 1], io.(now := s.now));
    }
  }

  lemma StaleHeartbeat(s: State, turn: nat, generation: nat, leaseSeconds: nat)
    requires Sound(s) && turn < |s.cells| && generation < s.cells[turn].row.generation
    ensures Apply(s, Heartbeat(turn, generation, leaseSeconds)) == s
  {
    assert CellSound(s.cells[turn]);
    assert s.cells[turn := s.cells[turn]] == s.cells;
  }

  /** After a claim has raised the generation, no later step of an older generation changes any row, the
      conversations or the tokens: only that execution's own program counter and locals may move. */
  lemma {:induction false} StaleExecutorsAreInert(s: State, later: seq<Move>, turn: nat, generation: nat, io: Io, leaseSeconds: nat)
    requires Sound(s) && turn < |s.cells| && generation < s.cells[turn].row.generation
    ensures var u := Run(s, later);
      SameRows(u, Apply(u, Execute(turn, generation, io))) && Apply(u, Heartbeat(turn, generation, leaseSeconds)) == u
  {
    RunKeepsSound(s, later);
    RunEvolves(s, later, turn);
    StaleExecute(Run(s, later), turn, generation, io);
    StaleHeartbeat(Run(s, later), turn, generation, leaseSeconds);
  }

  // ---------------------------------------------------------- closed and redacted

  /** A closed turn changes only by redaction, and a redacted one never: no step of any executor, nor any
      other step, restores what was erased. */
  lemma {:induction false} RedactionIsFinal(s: State, later: seq<Move>, turn: nat)
    requires Sound(s) && turn < |s.cells|
    ensures turn < |Run(s, later).cells|
    ensures var t, u := s.cells[turn].row, Run(s, later).cells[turn].row;
      && (t.status != Running ==> u == t || u.status == Redacted)
      && (t.status == Redacted ==> u == t && Erasure(u))
      && (u.status == Redacted ==> Erasure(u) && DigestsMatch(u.ledger) && Extends(t.ledger, u.ledger))
  {
    RunEvolves(s, later, turn);
    RunKeepsSound(s, later);
    assert CellSound(Run(s, later).cells[turn]);
    assert CellSound(s.cells[turn]);
  }

  // ------------------------------------------------------------- one row per move

  /** A row was appended: the next one, at this time. */
  predicate Appended(t: Turn, u: Turn, now: int) {
    && |u.ledger| == |t.ledger| + 1
    && u.ledger[|t.ledger|].sequence == |t.ledger| + 1 && u.ledger[|t.ledger|].occurredAt == now
  }

  /** How a transaction closes a turn: it is stamped, the terminal row is appended, and the lease is given up
      unless the turn is redacted. */
  predicate ClosedBy(t: Turn, u: Turn, now: int) {
    && Appended(t, u, now) && u.completedAt == Some(now) && u.updatedAt == now
    && (u.status != Redacted ==> u.leaseOwner.None? && u.leaseExpiresAt.None? && u.claimableAt.None?)
    && (u.status == Cancelled ==>
          && u.errorCode == Some("turn_cancelled") && u.errorMessage == Some("The answer was cancelled.")
          && u.ledger[|t.ledger|].payload == TurnCancelled("turn_cancelled", "The answer was cancelled.", false))
    && (u.status == Failed ==>
          && u.errorCode.Some? && u.errorMessage.Some?
          && u.ledger[|t.ledger|].payload == TurnFailed(u.errorCode.value, u.errorMessage.value, false))
  }

  /** What one transaction on a turn may do to its ledger. */
  predicate Transacted(t: Turn, u: Turn, now: int) {
    && (u.ledger == t.ledger || Appended(t, u, now))
    && (t.status == Running && u.status != Running ==> ClosedBy(t, u, now))
  }

  lemma PerformTransacts(t: Turn, generation: nat, a: Action, io: Io)
    requires Dense(t.ledger) && t.completedAt.None? == (t.status == Running)
    ensures var r := Perform(t, generation, a, io); r.Success? ==> Transacted(t, r.value.row, io.now)
  {
    DenseMax(t.ledger);
  }

  lemma StepTransacts(t: Turn, x: Exec, io: Io)
    requires Dense(t.ledger) && t.completedAt.None? == (t.status == Running)
    ensures Transacted(t, Step(t, x, io).row, io.now)
  {
    PerformTransacts(t, x.generation, Decide(t, x, io), io);
  }

  lemma SanitizedDense(ledger: seq<Event>)
    requires Dense(ledger)
    ensures MaxSequence(SanitizedLedger(ledger)) == |ledger|
  {
    DenseMax(SanitizedLedger(ledger));
  }

  lemma CloseTransacts(t: Turn, id: string, now: int)
    requires Dense(t.ledger) && t.completedAt.None? == (t.status == Running)
    ensures Transacted(t, CancelRunningTurn(t, id, now).row, now)
    ensures var u := RedactTurn(t, id, now).row; (u == t || Appended(t, u, now)) && (t.status == Running ==> ClosedBy(t, u, now))
  {
    DenseMax(t.ledger);
    SanitizedDense(t.ledger);
    if t.status != Redacted { RedactResult(t, id, now); }
  }

  lemma ExecuteTransacts(s: State, turn: nat, generation: nat, io: Io)
    requires turn < |s.cells| && CellSound(s.cells[turn])
    ensures Transacted(s.cells[turn].row, ExecuteStep(s, turn, generation, io).cells[turn].row, s.now)
  {
    if Stored(s, turn) && 0 < generation <= |s.cells[turn].execs| {
      StepTransacts(s.cells[turn].row, s.cells[turn].execs[generation - 1], io.(now := s.now));
    }
  }

  lemma {:induction false} MoveTransacts(s: State, step: Move, turn: nat)
    requires OnTurn(step) && step.turn == turn < |s.cells| && CellSound(s.cells[turn])
    ensures var t, u := s.cells[turn].row, ApplyToTurn(s, step).cells[turn].row;
      && (|u.ledger| == |t.ledger| || Appended(t, u, s.now))
      && (t.status == Running && u.status != Running ==> ClosedBy(t, u, s.now))
  {
    if step.Execute? {
      ExecuteTransacts(s, turn, step.generation, step.io);
    } else if step.Cancel? || step.Redact? {
      CloseTransacts(s.cells[turn].row, step.eventId, s.now);
    }
  }

  /** Every move of a run appends at most one row to a turn, densely and at the time of the move; and the move
      that closes a turn stamps it, writes its terminal row and gives up its lease. */
  lemma {:induction false} OneRowPerMove(steps: seq<Move>, s: State, step: Move, turn: nat)
    requires s == Run(INITIAL, steps) && turn < |s.cells|
    ensures turn < |Apply(s, step).cells|
    ensures var t, u := s.cells[turn].row, Apply(s, step).cells[turn].row;
      && (|u.ledger| == |t.ledger| || Appended(t, u, s.now))
      && (t.status == Running && u.status != Running ==> ClosedBy(t, u, s.now))
  {
    ReachableCell(steps, turn);
    StepEvolves(s, step, turn);
    if !OnTurn(step) {
      StoreMoveAppends(s, step);
    } else if step.turn == turn {
      MoveTransacts(s, step, turn);
    }
  }

  /** A cancellation cancels exactly the running turns, and a redaction redacts every stored one. */
  lemma {:induction false} ClosingMoves(s: State, turn: nat, eventId: string)
    requires Stored(s, turn)
    ensures var t, u := s.cells[turn].row, Apply(s, Cancel(turn, eventId)).cells[turn].row;
      if t.status == Running then u.status == Cancelled else u == t
    ensures Apply(s, Redact(turn, eventId)).cells[turn].row.status == Redacted
  {
    CancelResult(s.cells[turn].row, eventId, s.now);
    if s.cells[turn].row.status != Redacted { RedactResult(s.cells[turn].row, eventId, s.now); }
  }
}
