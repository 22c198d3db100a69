/** Over any run a turn says what its generations were told: its deltas and answer are the provider's tokens,
    its Evidence is what the search found, its failure is the one reported. */
module Transcript {
  import opened Basics
  import opened TurnTypes
  import opened TurnRow
  import opened Ledger
  import opened Executor
  import opened TurnInvariant
  import opened ChatSystem
  import opened ChatInvariant
  import opened Evolution
  import opened ChatTheorems
  import opened Replay
  import opened Reclaim
  import opened Hearing

  // ------------------------------------------------------------------------ runs

  /** Generation `g` of this cell heeds what it was told; one that was never launched was told nothing. */
  ghost predicate CellHeeds(c: Cell, g: nat, h: Heard) {
    if 0 < g <= |c.execs| then c.row.status != Redacted ==> Heeds(c.row, c.execs[g - 1], g, h) else h == SILENT
  }

  ghost predicate StateHeeds(s: State, turn: nat, g: nat, h: Heard) {
    if turn < |s.cells| then CellHeeds(s.cells[turn], g, h) else h == SILENT
  }

  lemma LaunchHeeds(t: Turn, owner: string, leaseSeconds: nat, now: int, g: nat)
    requires Written(t) && g == t.generation + 1 && Claimable(t, now)
    ensures Heeds(ClaimTurn(t, owner, leaseSeconds, now), Launch(g, owner), g, SILENT)
  {
    DeltasByNobody(t.ledger, g);
  }

  lemma ClaimHeeds(c: Cell, owner: string, leaseSeconds: nat, now: int, g: nat, h: Heard)
    requires CellSound(c) && CellHeeds(c, g, h) && Claimable(c.row, now)
    ensures var row := ClaimTurn(c.row, owner, leaseSeconds, now);
      CellHeeds(Cell(row, c.execs + [Launch(row.generation, owner)]), g, h)
  {
    if 0 < g <= |c.execs| {
      OthersHeed(c.row, ClaimTurn(c.row, owner, leaseSeconds, now), c.execs[g - 1], g, h);
    } else if g == |c.execs| + 1 {
      LaunchHeeds(c.row, owner, leaseSeconds, now, g);
    }
  }

  lemma HeartbeatHeeds(c: Cell, owner: string, generation: nat, leaseSeconds: nat, now: int, g: nat, h: Heard)
    requires CellSound(c) && CellHeeds(c, g, h)
    ensures CellHeeds(c.(row := HeartbeatLease(c.row, owner, generation, leaseSeconds, now)), g, h)
  {
    if 0 < g <= |c.execs| && LeaseCurrent(c.row, owner, generation, now) {
      OthersHeed(c.row, HeartbeatLease(c.row, owner, generation, leaseSeconds, now), c.execs[g - 1], g, h);
    }
  }

  lemma StoppedHeeds(t: Turn, x: Exec, g: nat, h: Heard)
    requires Heeds(t, x, g, h)
    ensures Heeds(t, x.(pc := Stopped), g, h)
  {
  }

  lemma CrashHeeds(c: Cell, generation: nat, g: nat, h: Heard)
    requires 0 < generation <= |c.execs| && CellHeeds(c, g, h)
    ensures CellHeeds(Crashed(c, generation), g, h)
  {
    if g == generation && c.row.status != Redacted { StoppedHeeds(c.row, c.execs[g - 1], g, h); }
  }

  lemma CancelAdds(t: Turn, id: string, now: int)
    requires t.status == Running
    ensures var u := CancelRunningTurn(t, id, now).row;
      && u.key == t.key && u.evidence == t.evidence && u.status == Cancelled && t.ledger <= u.ledger
      && forall i :: |t.ledger| <= i < |u.ledger| ==> u.ledger[i].writer == 0
  {
  }

  lemma CancelHeeds(c: Cell, id: string, now: int, g: nat, h: Heard)
    requires CellSound(c) && CellHeeds(c, g, h)
    ensures CellHeeds(c.(row := CancelRunningTurn(c.row, id, now).row), g, h)
  {
    CancelResult(c.row, id, now);
    if 0 < g <= |c.execs| && c.row.status == Running {
      CancelAdds(c.row, id, now);
      OthersHeed(c.row, CancelRunningTurn(c.row, id, now).row, c.execs[g - 1], g, h);
    }
  }

  lemma RedactHeeds(c: Cell, id: string, now: int, g: nat, h: Heard)
    requires CellHeeds(c, g, h)
    ensures CellHeeds(c.(row := RedactTurn(c.row, id, now).row), g, h)
  {
    if c.row.status != Redacted { RedactResult(c.row, id, now); }
  }

  lemma StepHeeds(t: Turn, x: Exec, io: Io, g: nat, h: Heard)
    requires RowSound(t) && x.generation == g && (t.status == Running && g == t.generation ==> Tracks(t, x))
    requires Heeds(t, x, g, h)
    ensures Heeds(Step(t, x, io).row, Step(t, x, io).exec, g, Hear(h, x.pc, io))
  {
    if t.status == Running && g == t.generation {
      OwnHeeds(t, x, io, g, h);
    } else {
      StaleHeeds(t, x, io, g, h);
    }
  }

  lemma RedactedStays(t: Turn, x: Exec, io: Io)
    requires t.status == Redacted
    ensures Step(t, x, io).row == t
  {
    StaleStepIsInert(t, x, io);
  }

  lemma OwnCellHeeds(c: Cell, io: Io, g: nat, h: Heard)
    requires Launched(c, g) && CellHeeds(c, g, h)
    ensures var r := Step(c.row, c.execs[g - 1], io);
      CellHeeds(Cell(r.row, c.execs[g - 1 := r.exec]), g, Hear(h, c.execs[g - 1].pc, io))
  {
    if c.row.status == Redacted {
      RedactedStays(c.row, c.execs[g - 1], io);
    } else {
      StepHeeds(c.row, c.execs[g - 1], io, g, h);
    }
  }

  lemma OtherCellHeeds(c: Cell, generation: nat, io: Io, g: nat, h: Heard)
    requires Launched(c, generation) && CellHeeds(c, g, h) && g != generation
    ensures var r := Step(c.row, c.execs[generation - 1], io);
      CellHeeds(Cell(r.row, c.execs[generation - 1 := r.exec]), g, h)
  {
    if c.row.status == Redacted {
      RedactedStays(c.row, c.execs[generation - 1], io);
    } else if 0 < g <= |c.execs| {
      OtherExecutes(c.row, c.execs[generation - 1], io, c.execs[g - 1], g, h);
    }
  }

  lemma HearAnyTime(h: Heard, pc: Pc, io: Io, now: int)
    ensures Hear(h, pc, io.(now := now)) == Hear(h, pc, io)
  {
  }

  lemma {:induction false} OwnExecuteHeeds(s: State, turn: nat, g: nat, io: Io, h: Heard)
    requires Stored(s, turn) && Launched(s.cells[turn], g) && StateHeeds(s, turn, g, h)
    ensures StateHeeds(ExecuteStep(s, turn, g, io), turn, g, Hear(h, s.cells[turn].execs[g - 1].pc, io))
  {
    OwnCellHeeds(s.cells[turn], io.(now := s.now), g, h);
    HearAnyTime(h, s.cells[turn].execs[g - 1].pc, io, s.now);
  }

  lemma {:induction false} OtherExecuteHeeds(s: State, turn: nat, generation: nat, io: Io, g: nat, h: Heard)
    requires Stored(s, turn) && Launched(s.cells[turn], generation) && StateHeeds(s, turn, g, h) && g != generation
    ensures StateHeeds(ExecuteStep(s, turn, generation, io), turn, g, h)
  {
    OtherCellHeeds(s.cells[turn], generation, io.(now := s.now), g, h);
  }

  lemma {:induction false} ExecuteStepHeeds(s: State, turn: nat, generation: nat, io: Io, g: nat, h: Heard)
    requires CellsSound(s.cells) && StateHeeds(s, turn, g, h)
    ensures StateHeeds(ExecuteStep(s, turn, generation, io), turn, g, HearStep(s, Execute(turn, generation, io), turn, g, h))
  {
    if Stored(s, turn) && 0 < generation <= |s.cells[turn].execs| {
      SoundLaunched(s.cells[turn], generation);
      if g == generation {
        OwnExecuteHeeds(s, turn, g, io, h);
      } else {
        OtherExecuteHeeds(s, turn, generation, io, g, h);
      }
    }
  }

  lemma {:induction false} LeaseStepHeeds(s: State, step: Move, turn: nat, g: nat, h: Heard)
    requires step.Claim? || step.Heartbeat?
    requires CellsSound(s.cells) && StateHeeds(s, turn, g, h) && step.turn == turn
    ensures StateHeeds(ApplyToTurn(s, step), turn, g, h)
  {
    if Stored(s, turn) {
      var c := s.cells[turn];
      if step.Claim? {
        if Claimable(c.row, s.now) { ClaimHeeds(c, step.owner, step.leaseSeconds, s.now, g, h); }
      } else if 0 < step.generation <= |c.execs| {
        HeartbeatHeeds(c, c.execs[step.generation - 1].owner, step.generation, step.leaseSeconds, s.now, g, h);
      }
    }
  }

  lemma {:induction false} EndStepHeeds(s: State, step: Move, turn: nat, g: nat, h: Heard)
    requires step.Crash? || step.Cancel? || step.Redact?
    requires CellsSound(s.cells) && StateHeeds(s, turn, g, h) && step.turn == turn
    ensures StateHeeds(ApplyToTurn(s, step), turn, g, h)
  {
    if Stored(s, turn) {
      var c := s.cells[turn];
      match step
      case Crash(_, generation) => if 0 < generation <= |c.execs| { CrashHeeds(c, generation, g, h); }
      case Cancel(_, eventId) => CancelHeeds(c, eventId, s.now, g, h);
      case Redact(_, eventId) => RedactHeeds(c, eventId, s.now, g, h);
    }
  }

  lemma {:induction false} TurnStepHeeds(s: State, step: Move, turn: nat, g: nat, h: Heard)
    requires CellsSound(s.cells) && StateHeeds(s, turn, g, h) && OnTurn(step) && step.turn == turn
    ensures StateHeeds(ApplyToTurn(s, step), turn, g, HearStep(s, step, turn, g, h))
  {
    if step.Execute? {
      ExecuteStepHeeds(s, turn, step.generation, step.io, g, h);
    } else if step.Claim? || step.Heartbeat? {
      LeaseStepHeeds(s, step, turn, g, h);
    } else {
      EndStepHeeds(s, step, turn, g, h);
    }
  }

  /** A turn is launched without executions. */
  lemma {:induction false} NewCellsIdle(s: State, step: Move, turn: nat)
    requires |s.cells| <= turn < |Apply(s, step).cells|
    ensures Apply(s, step).cells[turn].execs == []
  {
  }

  lemma {:induction false} ElsewhereHeeds(s: State, step: Move, turn: nat, g: nat, h: Heard)
    requires StateHeeds(s, turn, g, h) && (OnTurn(step) ==> step.turn != turn)
    ensures StateHeeds(Apply(s, step), turn, g, h)
  {
    if turn < |s.cells| {
      ElsewhereKeepsCell(s, step, turn);
    } else if turn < |Apply(s, step).cells| {
      NewCellsIdle(s, step, turn);
    }
  }

  lemma {:induction false} MoveHeeds(s: State, step: Move, turn: nat, g: nat, h: Heard)
    requires CellsSound(s.cells) && StateHeeds(s, turn, g, h)
    ensures StateHeeds(Apply(s, step), turn, g, HearStep(s, step, turn, g, h))
  {
    if OnTurn(step) && step.turn == turn {
      TurnStepHeeds(s, step, turn, g, h);
    } else {
      ElsewhereHeeds(s, step, turn, g, h);
    }
  }

  /** After any run, every generation of every turn heeds what it was told. */
  lemma {:induction false} RunHeeds(steps: seq<Move>, turn: nat, g: nat)
    ensures StateHeeds(Run(INITIAL, steps), turn, g, HeardOver(INITIAL, steps, turn, g))
  {
    if steps != [] {
      var front := steps[..|steps| - 1];
      RunHeeds(front, turn, g);
      ReachableSound(front);
      MoveHeeds(Run(INITIAL, front), steps[|steps| - 1], turn, g, HeardOver(INITIAL, front, turn, g));
    }
  }

  /** What `Heeds` says of one turn of a reachable store, at any generation it was claimed with. */
  lemma {:induction false} TurnHeeds(steps: seq<Move>, turn: nat, g: nat, t: Turn)
    requires turn < |Run(INITIAL, steps).cells| && t == Run(INITIAL, steps).cells[turn].row
    requires 0 < g <= t.generation && t.status != Redacted
    ensures RowSound(t) && HasExec(Run(INITIAL, steps), turn, g)
    ensures Heeds(t, Run(INITIAL, steps).cells[turn].execs[g - 1], g, HeardOver(INITIAL, steps, turn, g))
  {
    ReachableCell(steps, turn);
    RunHeeds(steps, turn, g);
  }

  // ------------------------------------------------------- deltas and answers, as streamed

  lemma CaughtUpToLast(x: Exec, texts: seq<string>, deltas: seq<string>)
    requires Caught(x, texts, deltas)
    ensures UpToLast(deltas, texts)
  {
  }

  /** Whatever happens to a turn, the deltas that a generation wrote are the non-empty texts that its provider
      streamed, unchanged and in order, apart perhaps from a last one that was fenced out or not persisted. */
  lemma {:induction false} DeltasAreStreamed(steps: seq<Move>, turn: nat, g: nat, t: Turn)
    requires turn < |Run(INITIAL, steps).cells| && t == Run(INITIAL, steps).cells[turn].row
    requires 0 < g <= t.generation && t.status != Redacted
    ensures UpToLast(DeltasBy(t.ledger, g), HeardOver(INITIAL, steps, turn, g).texts)
  {
    TurnHeeds(steps, turn, g, t);
    CaughtUpToLast(Run(INITIAL, steps).cells[turn].execs[g - 1], HeardOver(INITIAL, steps, turn, g).texts, DeltasBy(t.ledger, g));
  }

  /** A direct or grounded answer is all that the provider streamed to the generation that completed the
      turn, joined and stripped, and is not blank. */
  lemma {:induction false} AnswerIsStreamed(steps: seq<Move>, turn: nat, t: Turn)
    requires turn < |Run(INITIAL, steps).cells| && t == Run(INITIAL, steps).cells[turn].row
    requires t.status == Completed && (t.stopReason == Some(StopDirectLlm) || t.stopReason == Some(StopGrounded))
    ensures t.answer == Some(Strip(Concat(HeardOver(INITIAL, steps, turn, t.generation).texts))) && t.answer.value != ""
    ensures PublicAnswer(t) == t.answer
  {
    var texts := HeardOver(INITIAL, steps, turn, t.generation).texts;
    ReachableCell(steps, turn);
    TurnHeeds(steps, turn, t.generation, t);
    NonEmptySpells(texts);
    assert t.answer == Some(AnswerOf(NonEmpty(texts)));
  }

  lemma {:induction false} AttemptsAreWritten(ledger: seq<Event>)
    requires InLanguage(ledger)
    ensures var p := Scan(ledger); p.Searching? || p.Shown? || p.Found? || p.Fruitless? || p.Answering? ==> WriterIn(p) > 0
  {
    if ledger != [] {
      AttemptsAreWritten(ledger[..|ledger| - 1]);
    }
  }

  lemma {:induction false} LastDeltaIsWritten(ledger: seq<Event>, generation: nat)
    requires InLanguage(ledger) && forall i :: 0 <= i < |ledger| ==> ledger[i].writer <= generation
    ensures LastDeltaWriter(ledger) <= generation
    ensures LastDeltaWriter(ledger) == 0 ==> DeltaTexts(ledger) == []
  {
    if ledger != [] {
      LastDeltaIsWritten(ledger[..|ledger| - 1], generation);
      AttemptsAreWritten(ledger);
    }
  }

  lemma SoleWriter(ledger: seq<Event>)
    requires InLanguage(ledger)
    ensures DeltasBy(ledger, LastDeltaWriter(ledger)) == DeltaTexts(ledger)
  {
    forall i | 0 <= i < |ledger| && ledger[i].payload.AnswerDelta?
      ensures ledger[i].writer == LastDeltaWriter(ledger)
    {
      DeltaWriter(ledger, i);
    }
    DeltasBySole(ledger, LastDeltaWriter(ledger));
  }

  lemma {:induction false} NobodyIsToldNothing(s: State, steps: seq<Move>, turn: nat)
    ensures HeardOver(s, steps, turn, 0) == SILENT
  {
    if steps != [] { NobodyIsToldNothing(s, steps[..|steps| - 1], turn); }
  }

  lemma {:induction false} WriterOfDeltas(steps: seq<Move>, turn: nat, g: nat, t: Turn)
    requires turn < |Run(INITIAL, steps).cells| && t == Run(INITIAL, steps).cells[turn].row && g == LastDeltaWriter(t.ledger)
    ensures g <= t.generation && DeltasBy(t.ledger, g) == DeltaTexts(t.ledger)
    ensures g == 0 ==> DeltaTexts(t.ledger) == []
  {
    ReachableCell(steps, turn);
    SoleWriter(t.ledger);
    LastDeltaIsWritten(t.ledger, t.generation);
  }

  /** All the deltas of a turn together are those of the one generation that wrote the last of them. */
  lemma {:induction false} AllDeltasAreStreamed(steps: seq<Move>, turn: nat, g: nat, t: Turn)
    requires turn < |Run(INITIAL, steps).cells| && t == Run(INITIAL, steps).cells[turn].row
    requires g == LastDeltaWriter(t.ledger) && t.status != Redacted
    ensures UpToLast(DeltaTexts(t.ledger), HeardOver(INITIAL, steps, turn, g).texts)
  {
    WriterOfDeltas(steps, turn, g, t);
    if g > 0 {
      DeltasAreStreamed(steps, turn, g, t);
    } else {
      NobodyIsToldNothing(INITIAL, steps, turn);
    }
  }

  // --------------------------------------------------------------- outcomes, as told

  /** How a turn ended is decided by what its last generation was told, and by whether it had shown a delta:
      it completed with this stop reason, or failed if there is none. Without a reported failure and before
      the stream ended, it failed only because an earlier generation had begun to answer. */
  lemma {:induction false} EndedAsTold(steps: seq<Move>, turn: nat, t: Turn, h: Heard)
    requires turn < |Run(INITIAL, steps).cells| && t == Run(INITIAL, steps).cells[turn].row
    requires t.status == Completed || t.status == Failed
    requires h == HeardOver(INITIAL, steps, turn, t.generation)
    ensures var ending := Ending(t.key.route, h, DeltasBy(t.ledger, t.generation) != []);
      && (t.status == Completed <==> ending.Some?) && (t.status == Completed ==> t.stopReason == ending)
      && (t.status == Failed && h.failure.None? && h.end == StillOpen ==> HasAnswerDelta(t.ledger))
  {
    ReachableCell(steps, turn);
    TurnHeeds(steps, turn, t.generation, t);
  }

  /** A search that found nothing is what makes a turn no_grounded_context; what a search found, the others. The
      budget is that of the route. */
  lemma {:induction false} CompletedAsTold(steps: seq<Move>, turn: nat, t: Turn, h: Heard)
    requires turn < |Run(INITIAL, steps).cells| && t == Run(INITIAL, steps).cells[turn].row && t.status == Completed
    requires h == HeardOver(INITIAL, steps, turn, t.generation)
    ensures t.stopReason == Some(StopDirectLlm) <==> h.found.None?
    ensures t.stopReason == Some(StopNoGroundedContext) <==> h.found == Some([])
    ensures t.stopReason == Some(StopGrounded) || t.stopReason == Some(StopEvidenceOnly) <==> h.found.Some? && h.found.value != []
    ensures t.budget == if t.key.route == DirectLlm then Budget(0, 0, 0) else Budget(1, 1, 0)
  {
    ReachableCell(steps, turn);
    CompletionReasons(t.ledger);
    TurnHeeds(steps, turn, t.generation, t);
  }

  /** A failed turn shows the failure that its last generation was told, or else the provider failure. */
  lemma {:induction false} FailedAsTold(steps: seq<Move>, turn: nat, t: Turn, h: Heard)
    requires turn < |Run(INITIAL, steps).cells| && t == Run(INITIAL, steps).cells[turn].row && t.status == Failed
    requires h == HeardOver(INITIAL, steps, turn, t.generation)
    ensures h.failure.Some? ==> (t.errorCode, t.errorMessage) == (Some(h.failure.value.0), Some(h.failure.value.1))
    ensures h.failure.None? ==> (t.errorCode, t.errorMessage) == (Some("provider_failure"), Some("The answer could not be completed."))
  {
    ReachableCell(steps, turn);
    TurnHeeds(steps, turn, t.generation, t);
  }

  /** What the rows of a generation say: its evidence.delta shows exactly the turn's Evidence whose source and
      block were joined when it was written, and its searches count what they found. */
  lemma {:induction false} RowsSayWhatWasTold(steps: seq<Move>, turn: nat, t: Turn, i: nat)
    requires turn < |Run(INITIAL, steps).cells| && t == Run(INITIAL, steps).cells[turn].row && t.status != Redacted
    requires i < |t.ledger| && t.ledger[i].writer > 0
    ensures match t.ledger[i].payload
      case RetrievalStarted(attempt, most) => attempt == 1 && most == 1
      case EvidenceDelta(items) =>
        ItemsShow(items, t.evidence, HeardOver(INITIAL, steps, turn, t.ledger[i].writer).catalog)
      case RetrievalCompleted(result, count) => count == if result == EvidenceFound then |t.evidence| else 0
      case _ => true
  {
    var g := t.ledger[i].writer;
    ReachableCell(steps, turn);
    TurnHeeds(steps, turn, g, t);
    assert RowSays(t.evidence, t.ledger[i].payload, HeardOver(INITIAL, steps, turn, g).catalog);
  }

  // ---------------------------------------------------------------- Evidence, as found

  /** This generation has stored the turn's Evidence, and it is what it was told. */
  predicate StoredBy(c: Cell, g: nat, h: Heard) {
    && 0 < g <= |c.execs| && !BeforeStore(c.execs[g - 1].pc)
    && h.found.Some? && EvidenceIs(c.row.evidence, h.found.value, h.refIds)
  }

  lemma PerformStores(t: Turn, generation: nat, a: Action, io: Io)
    requires !a.StoreRefs? || |io.refIds| != |a.found|
    ensures var r := Perform(t, generation, a, io); r.Success? ==> r.value.row.evidence == t.evidence
  {
  }

  /** The step that gives a turn its Evidence is a storing step of its current generation. */
  lemma FirstStored(t: Turn, x: Exec, io: Io, g: nat, h: Heard)
    requires Current(t, x) && x.generation == g && Minds(t.key.route, x, h)
    requires t.evidence == [] && Step(t, x, io).row.evidence != []
    ensures var h' := Hear(h, x.pc, io);
      && !BeforeStore(Step(t, x, io).exec.pc)
      && h'.found.Some? && EvidenceIs(Step(t, x, io).row.evidence, h'.found.value, h'.refIds)
  {
    if x.pc.StoreEvidence? && |io.refIds| == |x.pc.found| {
      StoreStep(t, x, x.pc.found, io);
      NewRefsAre(x.pc.found, io.refIds);
    } else {
      PerformStores(t, g, Decide(t, x, io), io);
    }
  }

  lemma FirstStoredCell(c: Cell, g: nat, io: Io, h: Heard)
    requires Launched(c, g) && CellHeeds(c, g, h)
    requires c.row.evidence == [] && Step(c.row, c.execs[g - 1], io).row.evidence != []
    ensures var r := Step(c.row, c.execs[g - 1], io);
      StoredBy(Cell(r.row, c.execs[g - 1 := r.exec]), g, Hear(h, c.execs[g - 1].pc, io))
  {
    var t, x := c.row, c.execs[g - 1];
    if t.status != Running || t.generation != g {
      StaleStepIsInert(t, x, io);
    } else {
      FirstStored(t, x, io, g, h);
    }
  }

  lemma NextOf(t: Turn, x: Exec, io: Io)
    ensures BeforeStore(Step(t, x, io).exec.pc) ==> BeforeStore(x.pc)
  {
    ReportsAfter(x, io, t, true);
    ReportsAfter(x, io, t, false);
  }

  lemma EvidenceStays(t: Turn, y: Exec, io: Io)
    requires RowSound(t) && (t.status == Running && y.generation == t.generation ==> Tracks(t, y)) && t.evidence != []
    ensures Step(t, y, io).row.evidence == t.evidence
  {
    if t.status != Running || y.generation != t.generation {
      StaleStepIsInert(t, y, io);
    } else {
      PerformAdds(t, y.generation, Decide(t, y, io), io);
    }
  }

  lemma StoredExecutes(c: Cell, generation: nat, io: Io, g: nat, h: Heard)
    requires Launched(c, generation) && StoredBy(c, g, h) && c.row.evidence != []
    ensures var r := Step(c.row, c.execs[generation - 1], io);
      StoredBy(Cell(r.row, c.execs[generation - 1 := r.exec]), g, if g == generation then Hear(h, c.execs[g - 1].pc, io) else h)
  {
    EvidenceStays(c.row, c.execs[generation - 1], io);
    NextOf(c.row, c.execs[generation - 1], io);
  }

  /** Generation `g` has stored the Evidence that this turn holds, as it was told. */
  predicate StateStoredBy(s: State, turn: nat, g: nat, h: Heard) {
    turn < |s.cells| && StoredBy(s.cells[turn], g, h)
  }

  lemma {:induction false} OthersStoreNothing(s: State, step: Move, turn: nat)
    requires turn < |s.cells| && !(step.Execute? && step.turn == turn)
    ensures turn < |Apply(s, step).cells|
    ensures var t, u := s.cells[turn].row, Apply(s, step).cells[turn].row; u.status == Redacted || u.evidence == t.evidence
  {
    if !OnTurn(step) || step.turn != turn { ElsewhereKeepsCell(s, step, turn); }
  }

  lemma {:induction false} OthersKeepPc(s: State, step: Move, turn: nat, g: nat)
    requires HasExec(s, turn, g) && !(step.Execute? && step.turn == turn)
    ensures HasExec(Apply(s, step), turn, g)
    ensures var x, y := s.cells[turn].execs[g - 1], Apply(s, step).cells[turn].execs[g - 1]; y.pc == x.pc || y.pc == Stopped
  {
    if !OnTurn(step) || step.turn != turn { ElsewhereKeepsCell(s, step, turn); }
  }

  lemma {:induction false} NewTurnsHoldNothing(s: State, step: Move, turn: nat)
    requires |s.cells| <= turn < |Apply(s, step).cells|
    ensures Apply(s, step).cells[turn].row.evidence == []
  {
  }

  lemma {:induction false} ExecuteStored(s: State, turn: nat, generation: nat, io: Io, g: nat, h: Heard)
    requires CellsSound(s.cells) && StateStoredBy(s, turn, g, h) && s.cells[turn].row.evidence != []
    ensures StateStoredBy(ExecuteStep(s, turn, generation, io), turn, g, HearStep(s, Execute(turn, generation, io), turn, g, h))
  {
    if Stored(s, turn) && 0 < generation <= |s.cells[turn].execs| {
      SoundLaunched(s.cells[turn], generation);
      StoredExecutes(s.cells[turn], generation, io.(now := s.now), g, h);
      HearAnyTime(h, s.cells[turn].execs[g - 1].pc, io, s.now);
    }
  }

  lemma {:induction false} OthersKeepStored(s: State, step: Move, turn: nat, g: nat, h: Heard)
    requires StateStoredBy(s, turn, g, h) && !(step.Execute? && step.turn == turn)
    requires turn < |Apply(s, step).cells| && Apply(s, step).cells[turn].row.status != Redacted
    ensures StateStoredBy(Apply(s, step), turn, g, h)
  {
    OthersStoreNothing(s, step, turn);
    OthersKeepPc(s, step, turn, g);
  }

  lemma {:induction false} MoveStored(s: State, step: Move, turn: nat, g: nat, h: Heard)
    requires CellsSound(s.cells) && StateStoredBy(s, turn, g, h) && s.cells[turn].row.evidence != []
    requires turn < |Apply(s, step).cells| && Apply(s, step).cells[turn].row.status != Redacted
    ensures StateStoredBy(Apply(s, step), turn, g, HearStep(s, step, turn, g, h))
  {
    if step.Execute? && step.turn == turn {
      ExecuteStored(s, turn, step.generation, step.io, g, h);
    } else {
      OthersKeepStored(s, step, turn, g, h);
    }
  }

  lemma {:induction false} ExecuteStores(s: State, turn: nat, g: nat, io: Io, h: Heard)
    requires CellsSound(s.cells) && StateHeeds(s, turn, g, h) && turn < |s.cells| && s.cells[turn].row.evidence == []
    requires ExecuteStep(s, turn, g, io).cells[turn].row.evidence != []
    ensures StateStoredBy(ExecuteStep(s, turn, g, io), turn, g, HearStep(s, Execute(turn, g, io), turn, g, h))
  {
    SoundLaunched(s.cells[turn], g);
    FirstStoredCell(s.cells[turn], g, io.(now := s.now), h);
    HearAnyTime(h, s.cells[turn].execs[g - 1].pc, io, s.now);
  }

  /** Only an executor's step gives a turn Evidence. */
  lemma {:induction false} StoringMove(s: State, step: Move, turn: nat)
    requires turn < |s.cells| && s.cells[turn].row.evidence == []
    requires turn < |Apply(s, step).cells| && Apply(s, step).cells[turn].row.status != Redacted && Apply(s, step).cells[turn].row.evidence != []
    ensures step.Execute? && step.turn == turn
  {
    if !(step.Execute? && step.turn == turn) { OthersStoreNothing(s, step, turn); }
  }

  lemma {:induction false} StayedUnredacted(s: State, step: Move, turn: nat)
    requires turn < |s.cells| && Apply(s, step).cells != [] && turn < |Apply(s, step).cells|
    requires Apply(s, step).cells[turn].row.status != Redacted
    ensures s.cells[turn].row.status != Redacted
  {
    StepEvolves(s, step, turn);
  }

  /** A move after which the turn holds Evidence: it was held before, or the move stored it. */
  lemma {:induction false} MoveHolds(s: State, step: Move, after: State, turn: nat)
    requires after == Apply(s, step) && turn < |after.cells|
    requires after.cells[turn].row.status != Redacted && after.cells[turn].row.evidence != []
    ensures turn < |s.cells| && s.cells[turn].row.status != Redacted
  {
    if turn >= |s.cells| { NewTurnsHoldNothing(s, step, turn); } else { StayedUnredacted(s, step, turn); }
  }

  lemma {:induction false} StillStored(steps: seq<Move>, front: seq<Move>, last: Move, turn: nat, g: nat)
    requires steps == front + [last] && StateStoredBy(Run(INITIAL, front), turn, g, HeardOver(INITIAL, front, turn, g))
    requires Run(INITIAL, front).cells[turn].row.evidence != []
    requires turn < |Run(INITIAL, steps).cells| && Run(INITIAL, steps).cells[turn].row.status != Redacted
    ensures StateStoredBy(Run(INITIAL, steps), turn, g, HeardOver(INITIAL, steps, turn, g))
  {
    assert steps[..|steps| - 1] == front;
    ReachableSound(front);
    MoveStored(Run(INITIAL, front), last, turn, g, HeardOver(INITIAL, front, turn, g));
  }

  lemma {:induction false} NowStored(steps: seq<Move>, front: seq<Move>, last: Move, turn: nat) returns (g: nat)
    requires steps == front + [last] && turn < |Run(INITIAL, front).cells| && Run(INITIAL, front).cells[turn].row.evidence == []
    requires turn < |Run(INITIAL, steps).cells| && Run(INITIAL, steps).cells[turn].row.status != Redacted
    requires Run(INITIAL, steps).cells[turn].row.evidence != []
    ensures StateStoredBy(Run(INITIAL, steps), turn, g, HeardOver(INITIAL, steps, turn, g))
  {
    assert steps[..|steps| - 1] == front;
    ReachableSound(front);
    StoringMove(Run(INITIAL, front), last, turn);
    g := last.generation;
    RunHeeds(front, turn, g);
    ExecuteStores(Run(INITIAL, front), turn, g, last.io, HeardOver(INITIAL, front, turn, g));
  }

  lemma {:induction false} HeldBefore(steps: seq<Move>, front: seq<Move>, last: Move, turn: nat)
    requires steps == front + [last]
    requires turn < |Run(INITIAL, steps).cells| && Run(INITIAL, steps).cells[turn].row.status != Redacted
    requires Run(INITIAL, steps).cells[turn].row.evidence != []
    ensures turn < |Run(INITIAL, front).cells| && Run(INITIAL, front).cells[turn].row.status != Redacted
  {
    assert steps[..|steps| - 1] == front;
    MoveHolds(Run(INITIAL, front), last, Run(INITIAL, steps), turn);
  }

  /** The Evidence of every reachable turn that is not redacted is, field by field and in order, what the
      search told one of its generations, under the references drawn for that generation. */
  lemma {:induction false} EvidenceIsFound(steps: seq<Move>, turn: nat) returns (g: nat)
    requires turn < |Run(INITIAL, steps).cells| && Run(INITIAL, steps).cells[turn].row.status != Redacted
    requires Run(INITIAL, steps).cells[turn].row.evidence != []
    ensures StateStoredBy(Run(INITIAL, steps), turn, g, HeardOver(INITIAL, steps, turn, g))
  {
    var front, last := steps[..|steps| - 1], steps[|steps| - 1];
    assert steps == front + [last];
    HeldBefore(steps, front, last, turn);
    if Run(INITIAL, front).cells[turn].row.evidence != [] {
      g := EvidenceIsFound(front, turn);
      StillStored(steps, front, last, turn, g);
    } else {
      g := NowStored(steps, front, last, turn);
    }
  }

  lemma {:induction false} DirectFindsNothing(steps: seq<Move>, turn: nat, g: nat, t: Turn)
    requires turn < |Run(INITIAL, steps).cells| && t == Run(INITIAL, steps).cells[turn].row
    requires t.status != Redacted && t.key.route == DirectLlm
    ensures !StateStoredBy(Run(INITIAL, steps), turn, g, HeardOver(INITIAL, steps, turn, g))
  {
    if HasExec(Run(INITIAL, steps), turn, g) { RunHeeds(steps, turn, g); }
  }

  /** A turn without a domain never searches: no row of its ledger speaks of a search, whatever its run, and
      no Evidence is ever stored for it. */
  lemma {:induction false} NoSearchWithoutDomain(steps: seq<Move>, turn: nat, t: Turn)
    requires turn < |Run(INITIAL, steps).cells| && t == Run(INITIAL, steps).cells[turn].row && t.key.domainId.None?
    ensures forall i :: 0 <= i < |t.ledger| ==> !Searches(t.ledger[i].payload)
    ensures t.status != Redacted ==> t.evidence == []
  {
    RouteRow(steps, turn);
    LedgerLanguage(steps, turn);
    forall i | 0 <= i < |t.ledger|
      ensures !Searches(t.ledger[i].payload)
    {
      DirectNeverSearches(t.ledger, i);
    }
    if t.status != Redacted && t.evidence != [] {
      var g := EvidenceIsFound(steps, turn);
      DirectFindsNothing(steps, turn, g, t);
    }
  }
}
