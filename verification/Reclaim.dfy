/** When a claimed generation, left to itself, closes its turn. It need not: a generation that retrieves
    Evidence for a turn that already holds some from an earlier one is aborted by a unique index. */
module Reclaim {
  import opened Basics
  import opened TurnTypes
  import opened TurnRow
  import opened Ledger
  import opened Executor
  import opened TurnInvariant
  import opened ChatSystem
  import opened ChatInvariant
  import opened Evolution
  import opened ChatTheorems

  // ----------------------------------------------------------- one step of progress

  /** This step tells the execution that its search found something. */
  predicate Retrieves(x: Exec, io: Io) {
    x.pc.AwaitRetrieval? && io.reply.Retrieved? && io.reply.evidence != []
  }

  /** This step ends the provider's stream with a RuntimeError, on which the worker gives up. */
  predicate Raises(x: Exec, io: Io) {
    x.pc.AwaitToken? && io.reply.ProviderRaisedRuntimeError?
  }

  /** Where an execution stands that began with `held` as the turn's Evidence and has been told (`retrieved`)
      of Evidence of its own, or stopped (`raised`) by a RuntimeError. */
  predicate Progress(held: seq<EvidenceRef>, t: Turn, x: Exec, retrieved: bool, raised: bool) {
    if t.status != Running then
      && x.pc.Stopped? && !raised && !(retrieved && held != [])
      && (t.stopReason == Some(StopNoGroundedContext) ==> !retrieved && t.evidence == held)
    else
      match x.pc
      case Stopped => raised || (retrieved && held != [])
      case Boot => !retrieved && !raised && t.evidence == held
      case ResolveRuntime => !retrieved && !raised && t.evidence == held
      case StartFence => !retrieved && !raised && t.evidence == held
      case StartRetrieval => !retrieved && !raised && t.evidence == held
      case AwaitRetrieval => !retrieved && !raised && t.evidence == held
      case RetrievalFence(found) => (retrieved <==> found != []) && !raised && t.evidence == held
      case ReportFruitless => !retrieved && !raised && t.evidence == held
      case CompleteFruitless => !retrieved && !raised && t.evidence == held
      case StoreEvidence(found) => retrieved && found != [] && !raised && t.evidence == held
      case _ => !raised && (retrieved ==> held == [])
  }

  /** The execution of the turn's current generation, in step with a sound running row. */
  predicate Driving(held: seq<EvidenceRef>, t: Turn, x: Exec, retrieved: bool, raised: bool) {
    Current(t, x) && Progress(held, t, x, retrieved, raised)
  }

  predicate Progresses(held: seq<EvidenceRef>, t: Turn, x: Exec, io: Io, retrieved: bool, raised: bool) {
    Progress(held, Step(t, x, io).row, Step(t, x, io).exec, retrieved || Retrieves(x, io), raised || Raises(x, io))
  }

  lemma QuietProgress(held: seq<EvidenceRef>, t: Turn, x: Exec, io: Io, retrieved: bool, raised: bool)
    requires Driving(held, t, x, retrieved, raised)
    requires x.pc.Boot? || x.pc.ResolveRuntime? || x.pc.AwaitRetrieval? || x.pc.AwaitToken? || x.pc.Stopped?
    ensures Progresses(held, t, x, io, retrieved, raised)
  {
    assert Step(t, x, io) == StepResult(t, NextExec(t, x, io, true), false);
  }

  lemma FenceProgress(held: seq<EvidenceRef>, t: Turn, x: Exec, io: Io, retrieved: bool, raised: bool)
    requires Driving(held, t, x, retrieved, raised)
    requires x.pc.StartFence? || x.pc.RetrievalFence? || x.pc.EvidenceFence? || x.pc.TokenFence? || x.pc.EndFence?
    ensures Progresses(held, t, x, io, retrieved, raised)
  {
    assert Step(t, x, io) == StepResult(t, NextExec(t, x, io, true), false);
  }

  /** What a step of work appends. */
  function WorkOf(t: Turn, x: Exec, io: Io): Payload
    requires x.pc.StartRetrieval? || x.pc.ReportFruitless? || x.pc.ReportEvidence? || x.pc.ReportFound? || x.pc.PersistToken?
  {
    match x.pc
    case StartRetrieval => RetrievalStarted(1, 1)
    case ReportFruitless => RetrievalCompleted(NoGroundedContext, 0)
    case ReportEvidence => EvidenceDelta(ItemsOf(PublicEvidenceRefs(t), io.catalog))
    case ReportFound => RetrievalCompleted(EvidenceFound, |PublicEvidenceRefs(t)|)
    case PersistToken(token) => AnswerDelta(token)
  }

  /** A step of work appends one row to a turn of its own generation, and goes on. */
  lemma WorkAppends(t: Turn, x: Exec, io: Io)
    requires t.status == Running && t.generation == x.generation
    requires x.pc.StartRetrieval? || x.pc.ReportFruitless? || x.pc.ReportEvidence? || x.pc.ReportFound?
             || (x.pc.PersistToken? && !io.reply.DatabaseRaised?)
    ensures Step(t, x, io) == StepResult(
      t.(ledger := t.ledger + [NewEvent(t, WorkOf(t, x, io), Some(x.generation), io.eventId, io.now)]),
      NextExec(t, x, io, true), false)
  {
    WorkStep(t, x, io, WorkOf(t, x, io));
  }

  lemma WorkProgress(held: seq<EvidenceRef>, t: Turn, x: Exec, io: Io, retrieved: bool, raised: bool)
    requires Driving(held, t, x, retrieved, raised)
    requires x.pc.StartRetrieval? || x.pc.ReportFruitless? || x.pc.ReportEvidence? || x.pc.ReportFound? || x.pc.PersistToken?
    ensures Progresses(held, t, x, io, retrieved, raised)
  {
    if x.pc.PersistToken? && io.reply.DatabaseRaised? {
      RaisedStepKept(t, x, io);
      assert Step(t, x, io) == StepResult(t, x.(pc := ProviderFailed), false);
    } else {
      WorkAppends(t, x, io);
    }
  }

  /** Storing stops the execution exactly when the turn holds Evidence already. */
  lemma StoreStep(t: Turn, x: Exec, found: seq<Mapped>, io: Io)
    requires EvidenceNumbered(t) && t.status == Running && t.generation == x.generation
    requires x.pc == StoreEvidence(found) && found != [] && |io.refIds| == |found|
    ensures t.evidence != [] ==> Step(t, x, io) == StepResult(t, x.(pc := Stopped), false)
    ensures t.evidence == [] ==>
      && Step(t, x, io).exec == x.(pc := EvidenceFence) && Step(t, x, io).row.status == Running
      && Step(t, x, io).row.evidence == NewEvidenceRefs(found, io.refIds)
      && Step(t, x, io).row.ledger == t.ledger && Step(t, x, io).row.key == t.key
      && Step(t, x, io).row.leaseExpiresAt == t.leaseExpiresAt && Step(t, x, io).row.claimableAt == t.claimableAt
  {
    if t.evidence != [] {
      SecondStoreAborts(t, found, io.refIds, t.generation, io.now);
    } else {
      FirstStoreSucceeds(t, found, io.refIds, t.generation, io.now);
    }
  }

  lemma StoreProgress(held: seq<EvidenceRef>, t: Turn, x: Exec, io: Io, retrieved: bool, raised: bool)
    requires Driving(held, t, x, retrieved, raised) && x.pc.StoreEvidence?
    ensures Progresses(held, t, x, io, retrieved, raised)
  {
    if |io.refIds| == |x.pc.found| {
      StoreStep(t, x, x.pc.found, io);
    }
  }

  /** A finalizing transaction of the current generation closes the turn with the reason it asks for. */
  lemma FinalEffect(t: Turn, generation: nat, a: Action, io: Io)
    requires t.status == Running && t.generation == generation && (a.CompleteAs? || a.FailAs?)
    ensures Perform(t, generation, a, io).Success?
    ensures var row := Perform(t, generation, a, io).value.row;
      && row.evidence == t.evidence
      && (a.CompleteAs? ==> row.status == Completed && row.stopReason == Some(a.stopReason))
      && (a.FailAs? ==> row.status == Failed && row.stopReason == Some(StopProviderFailure))
  {
  }

  lemma FinalActions(t: Turn, x: Exec, io: Io)
    requires x.pc.CompleteFruitless? || x.pc.Conclude? || x.pc.ProviderFailed? || x.pc.FailWith?
    ensures Decide(t, x, io).CompleteAs? || Decide(t, x, io).FailAs?
    ensures Decide(t, x, io).CompleteAs? && Decide(t, x, io).stopReason == StopNoGroundedContext ==> x.pc.CompleteFruitless?
  {
  }

  lemma FinalProgress(held: seq<EvidenceRef>, t: Turn, x: Exec, io: Io, retrieved: bool, raised: bool)
    requires Driving(held, t, x, retrieved, raised)
    requires x.pc.CompleteFruitless? || x.pc.Conclude? || x.pc.ProviderFailed? || x.pc.FailWith?
    ensures Progresses(held, t, x, io, retrieved, raised)
  {
    var a := Decide(t, x, io);
    FinalActions(t, x, io);
    FinalEffect(t, x.generation, a, io);
    assert Step(t, x, io) == StepResult(Perform(t, x.generation, a, io).value.row, x.(pc := Stopped), Perform(t, x.generation, a, io).value.bumped);
  }

  /** Every step of an execution left to itself, with any reply, keeps its progress. */
  lemma StepProgress(held: seq<EvidenceRef>, t: Turn, x: Exec, io: Io, retrieved: bool, raised: bool)
    requires Driving(held, t, x, retrieved, raised)
    ensures Progresses(held, t, x, io, retrieved, raised)
  {
    if x.pc.Boot? || x.pc.ResolveRuntime? || x.pc.AwaitRetrieval? || x.pc.AwaitToken? || x.pc.Stopped? {
      QuietProgress(held, t, x, io, retrieved, raised);
    } else if x.pc.StoreEvidence? {
      StoreProgress(held, t, x, io, retrieved, raised);
    } else if x.pc.CompleteFruitless? || x.pc.Conclude? || x.pc.ProviderFailed? || x.pc.FailWith? {
      FinalProgress(held, t, x, io, retrieved, raised);
    } else if x.pc.StartRetrieval? || x.pc.ReportFruitless? || x.pc.ReportEvidence? || x.pc.ReportFound? || x.pc.PersistToken? {
      WorkProgress(held, t, x, io, retrieved, raised);
    } else {
      FenceProgress(held, t, x, io, retrieved, raised);
    }
  }

  /** A closed turn has nothing left to do. */
  lemma ClosedProgress(held: seq<EvidenceRef>, t: Turn, x: Exec, io: Io, retrieved: bool, raised: bool)
    requires t.status != Running && Progress(held, t, x, retrieved, raised)
    ensures Progresses(held, t, x, io, retrieved, raised)
  {
    StaleStepIsInert(t, x, io);
  }

  lemma HeartbeatProgress(held: seq<EvidenceRef>, t: Turn, x: Exec, owner: string, generation: nat, leaseSeconds: nat, now: int, retrieved: bool, raised: bool)
    requires Progress(held, t, x, retrieved, raised)
    ensures Progress(held, HeartbeatLease(t, owner, generation, leaseSeconds, now), x, retrieved, raised)
  {
  }

  // ------------------------------------------------------------------------ runs

  /** The step leaves generation `g` of this turn to itself: nobody claims, cancels or redacts the turn, and
      the generation's process does not die. Heartbeats and executions of older generations may go on. */
  predicate LeavesAlone(step: Move, turn: nat, g: nat) {
    OnTurn(step) && step.turn == turn ==> step.Heartbeat? || step.Execute? || (step.Crash? && step.generation != g)
  }

  predicate Undisturbed(steps: seq<Move>, turn: nat, g: nat) {
    forall k :: 0 <= k < |steps| ==> LeavesAlone(steps[k], turn, g)
  }

  predicate HasExec(s: State, turn: nat, g: nat) {
    turn < |s.cells| && 0 < g <= |s.cells[turn].execs|
  }

  /** This step tells generation `g` that its search found something. */
  predicate RetrievesNow(s: State, step: Move, turn: nat, g: nat) {
    HasExec(s, turn, g) && step.Execute? && step.turn == turn && step.generation == g && Retrieves(s.cells[turn].execs[g - 1], step.io)
  }

  predicate RaisesNow(s: State, step: Move, turn: nat, g: nat) {
    HasExec(s, turn, g) && step.Execute? && step.turn == turn && step.generation == g && Raises(s.cells[turn].execs[g - 1], step.io)
  }

  /** Over this run generation `g` was told that its search found something. */
  predicate Retrieved(s: State, steps: seq<Move>, turn: nat, g: nat) {
    steps != [] &&
    (Retrieved(s, steps[..|steps| - 1], turn, g) || RetrievesNow(Run(s, steps[..|steps| - 1]), steps[|steps| - 1], turn, g))
  }

  /** Over this run the provider's stream of generation `g` ended in a RuntimeError. */
  predicate Raised(s: State, steps: seq<Move>, turn: nat, g: nat) {
    steps != [] &&
    (Raised(s, steps[..|steps| - 1], turn, g) || RaisesNow(Run(s, steps[..|steps| - 1]), steps[|steps| - 1], turn, g))
  }

  /** Generation `g` is the turn's current one and stands where its progress says. */
  predicate Holds(s: State, turn: nat, g: nat, held: seq<EvidenceRef>, retrieved: bool, raised: bool) {
    && HasExec(s, turn, g) && s.cells[turn].row.generation == g
    && Progress(held, s.cells[turn].row, s.cells[turn].execs[g - 1], retrieved, raised)
  }

  lemma OwnStep(s: State, turn: nat, g: nat, io: Io, held: seq<EvidenceRef>, retrieved: bool, raised: bool)
    requires CellsSound(s.cells) && Stored(s, turn) && Holds(s, turn, g, held, retrieved, raised)
    ensures Holds(ExecuteStep(s, turn, g, io), turn, g, held,
                  retrieved || Retrieves(s.cells[turn].execs[g - 1], io), raised || Raises(s.cells[turn].execs[g - 1], io))
  {
    var cell := s.cells[turn];
    var t, x, at := cell.row, cell.execs[g - 1], io.(now := s.now);
    assert CellSound(cell);
    if t.status == Running {
      StepProgress(held, t, x, at, retrieved, raised);
    } else {
      ClosedProgress(held, t, x, at, retrieved, raised);
    }
    StepContinues(t, x, at);
  }

  lemma OlderStep(s: State, turn: nat, g: nat, generation: nat, io: Io, held: seq<EvidenceRef>, retrieved: bool, raised: bool)
    requires CellsSound(s.cells) && Stored(s, turn) && Holds(s, turn, g, held, retrieved, raised) && generation != g
    ensures Holds(ExecuteStep(s, turn, generation, io), turn, g, held, retrieved, raised)
  {
    var cell := s.cells[turn];
    assert CellSound(cell);
    if 0 < generation <= |cell.execs| {
      StaleStepIsInert(cell.row, cell.execs[generation - 1], io.(now := s.now));
    }
  }

  lemma HeartbeatHolds(s: State, turn: nat, g: nat, generation: nat, leaseSeconds: nat, held: seq<EvidenceRef>, retrieved: bool, raised: bool)
    requires Stored(s, turn) && Holds(s, turn, g, held, retrieved, raised)
    ensures Holds(HeartbeatStep(s, turn, generation, leaseSeconds), turn, g, held, retrieved, raised)
  {
    var cell := s.cells[turn];
    if 0 < generation <= |cell.execs| {
      HeartbeatProgress(held, cell.row, cell.execs[g - 1], cell.execs[generation - 1].owner, generation, leaseSeconds, s.now, retrieved, raised);
    }
  }

  lemma TurnStepHolds(s: State, step: Move, turn: nat, g: nat, held: seq<EvidenceRef>, retrieved: bool, raised: bool)
    requires CellsSound(s.cells) && Stored(s, turn) && Holds(s, turn, g, held, retrieved, raised)
    requires OnTurn(step) && step.turn == turn && LeavesAlone(step, turn, g)
    ensures Holds(ApplyToTurn(s, step), turn, g, held, retrieved || RetrievesNow(s, step, turn, g), raised || RaisesNow(s, step, turn, g))
  {
    if step.Execute? && step.generation == g {
      OwnStep(s, turn, g, step.io, held, retrieved, raised);
    } else if step.Execute? {
      OlderStep(s, turn, g, step.generation, step.io, held, retrieved, raised);
    } else if step.Heartbeat? {
      HeartbeatHolds(s, turn, g, step.generation, step.leaseSeconds, held, retrieved, raised);
    }
  }

  /** Steps on other turns, and steps on the store, leave this cell as it is. */
  lemma ElsewhereKeepsCell(s: State, step: Move, turn: nat)
    requires turn < |s.cells| && (OnTurn(step) ==> step.turn != turn)
    ensures turn < |Apply(s, step).cells| && Apply(s, step).cells[turn] == s.cells[turn]
  {
    if !OnTurn(step) { StoreMoveAppends(s, step); }
  }

  lemma StepHolds(s: State, step: Move, turn: nat, g: nat, held: seq<EvidenceRef>, retrieved: bool, raised: bool)
    requires CellsSound(s.cells) && Stored(s, turn) && Holds(s, turn, g, held, retrieved, raised) && LeavesAlone(step, turn, g)
    ensures Holds(Apply(s, step), turn, g, held, retrieved || RetrievesNow(s, step, turn, g), raised || RaisesNow(s, step, turn, g))
  {
    if OnTurn(step) && step.turn == turn {
      TurnStepHolds(s, step, turn, g, held, retrieved, raised);
    } else {
      ElsewhereKeepsCell(s, step, turn);
    }
  }

  /** A conversation that is not deleted now never was. */
  lemma StoredBefore(s: State, step: Move, turn: nat)
    requires turn < |s.cells| && s.cells[turn].row.key.conversation < |s.conversations| && Stored(Apply(s, step), turn)
    ensures Stored(s, turn)
  {
    if OnTurn(step) { TurnMoveEvolves(s, step, turn); } else { StoreMoveAppends(s, step); }
    DeletionIsFinal(s, step, s.cells[turn].row.key.conversation);
  }

  lemma {:induction false} StoredAlong(s: State, front: seq<Move>, last: Move, turn: nat)
    requires Sound(s) && turn < |s.cells| && Stored(Apply(Run(s, front), last), turn)
    ensures CellsSound(Run(s, front).cells) && Stored(Run(s, front), turn)
  {
    RunKeepsSound(s, front);
    RunEvolves(s, front, turn);
    StoredBefore(Run(s, front), last, turn);
  }

  lemma {:induction false} RunHolds(s: State, steps: seq<Move>, turn: nat, g: nat, held: seq<EvidenceRef>)
    requires Sound(s) && Holds(s, turn, g, held, false, false)
    requires Undisturbed(steps, turn, g) && Stored(Run(s, steps), turn)
    ensures Holds(Run(s, steps), turn, g, held, Retrieved(s, steps, turn, g), Raised(s, steps, turn, g))
  {
    if steps != [] {
      var front, last := steps[..|steps| - 1], steps[|steps| - 1];
      StoredAlong(s, front, last, turn);
      RunHolds(s, front, turn, g, held);
      StepHolds(Run(s, front), last, turn, g, held, Retrieved(s, front, turn, g), Raised(s, front, turn, g));
    }
  }

  /** What progress says of an execution that has stopped, and of one that has not. */
  lemma ProgressDecides(held: seq<EvidenceRef>, t: Turn, x: Exec, retrieved: bool, raised: bool)
    requires Progress(held, t, x, retrieved, raised)
    ensures x.pc == Stopped ==> (t.status != Running <==> !raised && !(held != [] && retrieved))
    ensures x.pc != Stopped ==> t.status == Running
  {
  }

  /** The exact condition under which a claimed generation that is left to itself closes its turn. From its
      claim until it has stopped, whatever the environment answers: the turn is closed if and only if the
      provider's stream did not end in a RuntimeError and it is not so that the turn already held
      Evidence at the claim and this generation's own search found some again. */
  lemma {:induction false} UndisturbedGeneration(s: State, steps: seq<Move>, end: State, turn: nat, g: nat)
    requires Sound(s) && Standing(s, turn, Boot) && g == s.cells[turn].row.generation
    requires Undisturbed(steps, turn, g) && end == Run(s, steps) && Stored(end, turn)
    ensures HasExec(end, turn, g)
    ensures end.cells[turn].execs[g - 1].pc == Stopped ==>
      (end.cells[turn].row.status != Running <==>
        !Raised(s, steps, turn, g) && !(s.cells[turn].row.evidence != [] && Retrieved(s, steps, turn, g)))
    ensures end.cells[turn].execs[g - 1].pc != Stopped ==> end.cells[turn].row.status == Running
  {
    var held := s.cells[turn].row.evidence;
    RunHolds(s, steps, turn, g, held);
    ProgressDecides(held, end.cells[turn].row, end.cells[turn].execs[g - 1], Retrieved(s, steps, turn, g), Raised(s, steps, turn, g));
  }

  /** A generation left to itself that ends the turn as no_grounded_context leaves the Evidence as it was at
      the claim: the two coexist exactly when an earlier generation had stored some. */
  lemma {:induction false} FruitlessKeepsEvidence(s: State, steps: seq<Move>, end: State, turn: nat, g: nat)
    requires Sound(s) && Standing(s, turn, Boot) && g == s.cells[turn].row.generation
    requires Undisturbed(steps, turn, g) && end == Run(s, steps) && Stored(end, turn)
    requires end.cells[turn].row.status == Completed && end.cells[turn].row.stopReason == Some(StopNoGroundedContext)
    ensures end.cells[turn].row.evidence == s.cells[turn].row.evidence
    ensures end.cells[turn].row.evidence != [] <==> s.cells[turn].row.evidence != []
    ensures !Retrieved(s, steps, turn, g)
  {
    RunHolds(s, steps, turn, g, s.cells[turn].row.evidence);
  }

  lemma StoreOutcome(t: Turn, x: Exec, found: seq<Mapped>, io: Io)
    requires EvidenceNumbered(t) && t.status == Running && t.generation == x.generation
    requires x.pc == StoreEvidence(found) && found != [] && |io.refIds| == |found|
    ensures var r := Step(t, x, io);
      && (r.exec.pc == Stopped <==> t.evidence != [])
      && (t.evidence != [] ==> r.row == t && !r.bumped)
      && (t.evidence == [] ==> EvidenceIs(r.row.evidence, found, io.refIds))
  {
    StoreStep(t, x, found, io);
    NewRefsAre(found, io.refIds);
  }

  lemma StoreInState(s: State, turn: nat, g: nat, found: seq<Mapped>, io: Io)
    requires Standing(s, turn, StoreEvidence(found)) && |io.refIds| == |found| && found != [] && g == s.cells[turn].row.generation
    requires EvidenceNumbered(s.cells[turn].row) && s.cells[turn].execs[g - 1].generation == g
    ensures var u := Apply(s, Execute(turn, g, io));
      && (u.cells[turn].execs[g - 1].pc == Stopped <==> s.cells[turn].row.evidence != [])
      && (s.cells[turn].row.evidence != [] ==> SameRows(s, u))
      && (s.cells[turn].row.evidence == [] ==> EvidenceIs(u.cells[turn].row.evidence, found, io.refIds))
  {
    CurrentExecutes(s, turn, StoreEvidence(found), io);
    StoreOutcome(s.cells[turn].row, s.cells[turn].execs[g - 1], found, io.(now := s.now));
  }

  /** At the step that stores what was found, the execution stops exactly when the turn holds Evidence already;
      then no row changes, and otherwise what was found is stored, field by field. */
  lemma SecondRetrievalAborts(s: State, turn: nat, found: seq<Mapped>, io: Io)
    requires Sound(s) && Standing(s, turn, StoreEvidence(found)) && |io.refIds| == |found|
    ensures var g := s.cells[turn].row.generation; var u := Apply(s, Execute(turn, g, io));
      && (u.cells[turn].execs[g - 1].pc == Stopped <==> s.cells[turn].row.evidence != [])
      && (s.cells[turn].row.evidence != [] ==> SameRows(s, u))
      && (s.cells[turn].row.evidence == [] ==> EvidenceIs(u.cells[turn].row.evidence, found, io.refIds))
  {
    StandingExec(s, turn, StoreEvidence(found));
    StoreInState(s, turn, s.cells[turn].row.generation, found, io);
  }
}
