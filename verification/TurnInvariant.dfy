/** What every reachable turn satisfies, and why each transaction keeps it. */
module TurnInvariant {
  import opened Basics
  import opened TurnTypes
  import opened TurnRow
  import opened Ledger
  import opened Executor
  import opened Numbers

  // ------------------------------------------------------------------ the row

  /** Evidence rows are numbered 1..k and, until a redaction blanks them, labelled "[1]".."[k]" with a source and an excerpt. */
  predicate EvidenceNumbered(t: Turn) {
    forall i :: 0 <= i < |t.evidence| ==>
      && t.evidence[i].order == i + 1
      && (t.status != Redacted ==>
            && t.evidence[i].redactedAt.None? && t.evidence[i].citationLabel == Some(CitationLabel(i + 1))
            && t.evidence[i].sourceLabel.Some? && t.evidence[i].excerpt.Some?)
  }

  /** Nothing that a redaction erases is left. */
  predicate Erasure(t: Turn) {
    && t.answer.None? && t.errorCode.None? && t.errorMessage.None? && t.stopReason == Some(StopRedacted)
    && (forall i :: 0 <= i < |t.evidence| ==>
          && t.evidence[i].redactedAt.Some? && t.evidence[i].citationLabel.None?
          && t.evidence[i].sourceLabel.None? && t.evidence[i].excerpt.None?)
    && (forall i :: 0 <= i < |t.accepted| ==>
          && t.accepted[i].redactedAt.Some? && t.accepted[i].safeLabel.None? && t.accepted[i].safeDescription.None?)
    && (forall i :: 0 <= i < |t.ledger| ==> Sanitized(t.ledger[i].payload) == t.ledger[i].payload)
  }

  /** The columns a status implies. The answer of a completed turn is what its deltas spell. */
  predicate OutcomeSound(t: Turn) {
    (t.completedAt.Some? <==> t.status != Running) &&
    match t.status
    case Running => t.stopReason.None? && t.answer.None? && t.errorCode.None? && t.errorMessage.None?
    case Completed =>
      && Scan(t.ledger) == Closed(Completed, t.stopReason) && t.generation > 0
      && t.errorCode.None? && t.errorMessage.None?
      && (t.stopReason == Some(StopDirectLlm) || t.stopReason == Some(StopGrounded) ==>
            t.answer == Some(AnswerOf(DeltaTexts(t.ledger))) && t.answer.value != "")
      && (t.stopReason == Some(StopEvidenceOnly) || t.stopReason == Some(StopNoGroundedContext) ==> t.answer.None?)
      && (t.stopReason == Some(StopEvidenceOnly) || t.stopReason == Some(StopGrounded) ==> t.evidence != [])
    case Failed =>
      && t.stopReason == Some(StopProviderFailure) && t.generation > 0
      && t.answer.None? && t.errorCode.Some? && t.errorMessage.Some?
    case Cancelled =>
      && t.stopReason == Some(StopCancelled) && t.answer.None?
      && t.errorCode == Some(TURN_CANCELLED_CODE) && t.errorMessage == Some(SAFE_TURN_CANCELLED_MESSAGE)
    case Redacted => Erasure(t)
  }

  predicate AcceptedUnredacted(t: Turn) {
    t.status != Redacted ==> forall i :: 0 <= i < |t.accepted| ==> t.accepted[i].redactedAt.None?
  }

  predicate LedgerSound(t: Turn) {
    var p := Scan(t.ledger);
    && !p.Rejected? && |t.ledger| >= 2
    && Dense(t.ledger) && DigestsMatch(t.ledger)
    && t.status == StatusIn(p)
    && (Live(p) || p.Closed? || p.Erased?)
    && (Live(p) ==> RouteIn(p) == Some(t.key.route))
    && WriterIn(p) <= t.generation
    && (EvidenceSeen(p) ==> t.evidence != [])
  }

  /** No row was written by a generation that is still to come. */
  predicate Written(t: Turn) {
    forall i :: 0 <= i < |t.ledger| ==> t.ledger[i].writer <= t.generation
  }

  predicate RowSound(t: Turn) {
    LedgerSound(t) && EvidenceNumbered(t) && AcceptedUnredacted(t) && OutcomeSound(t)
  }

  // ------------------------------------------------------- the current executor

  /** The phase in which the first answer.delta may be written. */
  function ReadyFor(t: Turn, x: Exec): Phase {
    if t.key.route == DirectLlm then Routed(DirectLlm) else Found(x.generation)
  }

  /** The tokens collected so far are the deltas in the ledger. */
  predicate Streaming(t: Turn, x: Exec, tokens: seq<string>) {
    var p := Scan(t.ledger);
    && DeltaTexts(t.ledger) == tokens
    && (if tokens == [] then p == ReadyFor(t, x) && !x.deltaPersisted
        else p == Answering(t.key.route, x.generation) && (t.key.route == DomainRag ==> x.deltaPersisted))
  }

  /** The execution that holds the turn's current generation is where its ledger says it is. */
  predicate Tracks(t: Turn, x: Exec) {
    var p := Scan(t.ledger);
    var g := x.generation;
    && g > 0
    && match x.pc
       case Boot => WriterIn(p) < g && x.tokens == [] && !x.deltaPersisted
       case ResolveRuntime => WriterIn(p) < g && !p.Answering? && x.tokens == [] && !x.deltaPersisted
       case StartFence => WriterIn(p) < g && !p.Answering? && x.tokens == [] && !x.deltaPersisted && t.key.route == DomainRag
       case StartRetrieval => WriterIn(p) < g && !p.Answering? && x.tokens == [] && !x.deltaPersisted && t.key.route == DomainRag
       case AwaitRetrieval => p.Searching? && p.writer == g && x.tokens == [] && !x.deltaPersisted
       case RetrievalFence(_) => p.Searching? && p.writer == g && x.tokens == [] && !x.deltaPersisted
       case ReportFruitless => p.Searching? && p.writer == g
       case CompleteFruitless => p.Fruitless? && p.writer == g
       case StoreEvidence(found) => found != [] && p.Searching? && p.writer == g && x.tokens == [] && !x.deltaPersisted
       case EvidenceFence => p == Searching(g, false) && t.evidence != [] && x.tokens == [] && !x.deltaPersisted
       case ReportEvidence => p == Searching(g, false) && t.evidence != [] && x.tokens == [] && !x.deltaPersisted
       case ReportFound => p == Shown(g) && x.tokens == [] && !x.deltaPersisted
       case AwaitToken => Streaming(t, x, x.tokens)
       case TokenFence(_) => Streaming(t, x, x.tokens)
       case PersistToken(token) => x.tokens != [] && x.tokens[|x.tokens| - 1] == token && Streaming(t, x, x.tokens[..|x.tokens| - 1])
       case EndFence => Streaming(t, x, x.tokens)
       case Conclude => Streaming(t, x, x.tokens)
       case ProviderFailed => t.key.route == DomainRag && !x.deltaPersisted ==> p == Found(g)
       case FailWith(_, _) => true
       case Stopped => true
  }

  // ---------------------------------------------------------- row transactions

  lemma AppendKeepsLedger(t: Turn, payload: Payload, generation: Option<nat>, id: string, now: int)
    requires Dense(t.ledger) && DigestsMatch(t.ledger)
    ensures var ledger := t.ledger + [NewEvent(t, payload, generation, id, now)];
      && Dense(ledger) && DigestsMatch(ledger)
      && Scan(ledger) == Next(Scan(t.ledger), NewEvent(t, payload, generation, id, now))
      && DeltaTexts(ledger) == if payload.AnswerDelta? then DeltaTexts(t.ledger) + [payload.text] else DeltaTexts(t.ledger)
  {
    DenseMax(t.ledger);
    ScanSnoc(t.ledger, NewEvent(t, payload, generation, id, now));
  }

  predicate WorkEvent(p: Payload) {
    p.RetrievalStarted? || p.EvidenceDelta? || p.RetrievalCompleted? || p.AnswerDelta?
  }

  /** A work event that the automaton accepts from the current generation keeps the row sound. */
  lemma WorkKeepsSound(t: Turn, payload: Payload, generation: nat, id: string, now: int)
    requires RowSound(t) && t.status == Running && t.generation == generation
    requires WorkEvent(payload)
    requires var q := Next(Scan(t.ledger), NewEvent(t, payload, Some(generation), id, now));
      !q.Rejected? && (EvidenceSeen(q) ==> t.evidence != [])
    ensures PersistEvent(t, payload, Some(generation), id, now).Success?
    ensures var r := PersistEvent(t, payload, Some(generation), id, now).value;
      && RowSound(r)
      && Scan(r.ledger) == Next(Scan(t.ledger), NewEvent(t, payload, Some(generation), id, now))
      && DeltaTexts(r.ledger) == if payload.AnswerDelta? then DeltaTexts(t.ledger) + [payload.text] else DeltaTexts(t.ledger)
  {
    AppendKeepsLedger(t, payload, Some(generation), id, now);
  }

  lemma NumberedRefs(evidence: seq<Mapped>, publicRefs: seq<string>)
    requires |publicRefs| == |evidence| && evidence != []
    ensures NewEvidenceRefs(evidence, publicRefs)[0].order == 1
  {
  }

  /** Evidence is stored at most once in the life of a turn: a second attempt meets the unique index. */
  lemma SecondStoreAborts(t: Turn, evidence: seq<Mapped>, publicRefs: seq<string>, generation: nat, now: int)
    requires |publicRefs| == |evidence| && evidence != []
    requires EvidenceNumbered(t) && t.status == Running && t.generation == generation && t.evidence != []
    ensures PersistEvidenceRefs(t, evidence, publicRefs, Some(generation), now) == Failure(UniqueViolation)
  {
    var refs := t.evidence + NewEvidenceRefs(evidence, publicRefs);
    NumberedRefs(evidence, publicRefs);
    assert refs[0].order == 1 && refs[|t.evidence|].order == 1;
  }

  lemma LabelsDiffer(i: nat, j: nat)
    requires CitationLabel(i) == CitationLabel(j)
    ensures i == j
  {
    assert CitationLabel(i)[1..|CitationLabel(i)| - 1] == Decimal(i);
    assert CitationLabel(j)[1..|CitationLabel(j)| - 1] == Decimal(j);
    DecimalInjective(i, j);
  }

  /** The refs of one storing meet both unique indexes: orders 1..k and labels [1]..[k] are all different. */
  lemma NewRefsIndexed(evidence: seq<Mapped>, publicRefs: seq<string>)
    requires |publicRefs| == |evidence|
    ensures EvidenceIndexHolds(NewEvidenceRefs(evidence, publicRefs))
  {
    var refs := NewEvidenceRefs(evidence, publicRefs);
    forall i, j | 0 <= i < j < |refs|
      ensures refs[i].order != refs[j].order && refs[i].citationLabel != refs[j].citationLabel
    {
      if CitationLabel(i + 1) == CitationLabel(j + 1) { LabelsDiffer(i + 1, j + 1); }
    }
  }

  /** The first storing of Evidence succeeds. */
  lemma FirstStoreSucceeds(t: Turn, evidence: seq<Mapped>, publicRefs: seq<string>, generation: nat, now: int)
    requires |publicRefs| == |evidence|
    requires t.status == Running && t.generation == generation && t.evidence == []
    ensures var r := PersistEvidenceRefs(t, evidence, publicRefs, Some(generation), now);
      && r.Success? && r.value.bumped
      && r.value.row == t.(evidence := NewEvidenceRefs(evidence, publicRefs), budget := r.value.row.budget, updatedAt := now)
  {
    NewRefsIndexed(evidence, publicRefs);
    assert t.evidence + NewEvidenceRefs(evidence, publicRefs) == NewEvidenceRefs(evidence, publicRefs);
  }

  lemma StoredRowSound(t: Turn, evidence: seq<Mapped>, publicRefs: seq<string>, budget: Budget, now: int)
    requires |publicRefs| == |evidence| && evidence != [] && RowSound(t) && t.status == Running
    ensures RowSound(t.(evidence := NewEvidenceRefs(evidence, publicRefs), budget := budget, updatedAt := now))
  {
  }

  /** Storing Evidence succeeds exactly when the turn holds none yet, and what it then holds is, field by
      field, what was found under the references drawn for it. */
  lemma StoreKeepsSound(t: Turn, evidence: seq<Mapped>, publicRefs: seq<string>, generation: nat, now: int)
    requires |publicRefs| == |evidence| && evidence != []
    requires RowSound(t) && t.status == Running && t.generation == generation
    ensures var r := PersistEvidenceRefs(t, evidence, publicRefs, Some(generation), now);
      && (r.Success? <==> t.evidence == [])
      && (r.Success? ==>
        && RowSound(r.value.row)
        && EvidenceIs(r.value.row.evidence, evidence, publicRefs)
        && r.value.row.budget.retrievalOperations == (if t.budget.retrievalOperations > 1 then t.budget.retrievalOperations else 1)
        && r.value.row.ledger == t.ledger && r.value.bumped)
  {
    if t.evidence != [] {
      SecondStoreAborts(t, evidence, publicRefs, generation, now);
    } else {
      FirstStoreSucceeds(t, evidence, publicRefs, generation, now);
      StoredRowSound(t, evidence, publicRefs, PersistEvidenceRefs(t, evidence, publicRefs, Some(generation), now).value.row.budget, now);
    }
  }

  /** A ledger that gains an accepted row stays sound with the row's new phase. */
  lemma SnocLedgerSound(t: Turn, payload: Payload, generation: Option<nat>, id: string, now: int)
    requires Dense(t.ledger) && DigestsMatch(t.ledger) && |t.ledger| >= 1
    requires var q := Next(Scan(t.ledger), NewEvent(t, payload, generation, id, now));
      && (q.Closed? || q.Erased?) && t.status == StatusIn(q)
    ensures LedgerSound(t.(ledger := t.ledger + [NewEvent(t, payload, generation, id, now)]))
  {
    AppendKeepsLedger(t, payload, generation, id, now);
  }

  lemma CompleteResult(t: Turn, stopReason: StopReason, answer: Option<string>, budget: Budget, generation: nat, id: string, now: int)
    requires t.status == Running && t.generation == generation
    ensures var after := Finalized(t, Completed, stopReason, answer, None, None, now).(budget := budget);
      CompleteTurn(t, stopReason, answer, budget, Some(generation), id, now) ==
        Commit(after.(ledger := t.ledger + [NewEvent(after, CompletedPayload(after, false), Some(generation), id, now)]), true)
  {
  }

  lemma CompletedOutcome(t: Turn, after: Turn, payload: Payload, stopReason: StopReason, generation: nat, id: string, now: int)
    requires Dense(t.ledger) && DigestsMatch(t.ledger) && after.ledger == t.ledger
    requires after.status == Completed && after.stopReason == Some(stopReason) && payload == CompletedPayload(after, false)
    requires after.errorCode.None? && after.errorMessage.None? && after.generation > 0 && after.completedAt.Some?
    requires CompletionIn(Scan(t.ledger)) == Some(stopReason) && WriterIn(Scan(t.ledger)) == generation
    requires if stopReason == StopDirectLlm || stopReason == StopGrounded
             then after.answer == Some(AnswerOf(DeltaTexts(t.ledger))) && after.answer.value != ""
             else after.answer.None?
    requires EvidenceSeen(Scan(t.ledger)) ==> after.evidence != []
    ensures OutcomeSound(after.(ledger := t.ledger + [NewEvent(after, payload, Some(generation), id, now)]))
  {
    AppendKeepsLedger(after, payload, Some(generation), id, now);
  }

  lemma CompleteKeepsSound(t: Turn, stopReason: StopReason, answer: Option<string>, budget: Budget, generation: nat, id: string, now: int)
    requires RowSound(t) && t.status == Running && t.generation == generation && generation > 0
    requires CompletionIn(Scan(t.ledger)) == Some(stopReason) && WriterIn(Scan(t.ledger)) == generation
    requires if stopReason == StopDirectLlm || stopReason == StopGrounded
             then answer == Some(AnswerOf(DeltaTexts(t.ledger))) && answer.value != ""
             else answer.None?
    ensures var c := CompleteTurn(t, stopReason, answer, budget, Some(generation), id, now);
      RowSound(c.row) && c.row.status == Completed && c.bumped
  {
    var after := Finalized(t, Completed, stopReason, answer, None, None, now).(budget := budget);
    var payload := CompletedPayload(after, false);
    CompleteResult(t, stopReason, answer, budget, generation, id, now);
    SnocLedgerSound(after, payload, Some(generation), id, now);
    CompletedOutcome(t, after, payload, stopReason, generation, id, now);
  }

  lemma FailKeepsSound(t: Turn, code: string, message: string, generation: nat, id: string, now: int)
    requires RowSound(t) && t.status == Running && t.generation == generation && generation > 0
    ensures var c := FailTurn(t, code, message, Some(generation), id, now);
      RowSound(c.row) && c.row.status == Failed && c.bumped
  {
    var after := Finalized(t, Failed, StopProviderFailure, None, Some(code), Some(message), now);
    AppendKeepsLedger(after, TurnFailed(code, message, false), Some(generation), id, now);
  }

  lemma CancelResult(t: Turn, id: string, now: int)
    ensures var c := CancelRunningTurn(t, id, now);
      && (t.status != Running ==> c == Commit(t, false))
      && (t.status == Running ==> c.row.status == Cancelled && c.bumped)
  {
  }

  lemma CancelKeepsSound(t: Turn, id: string, now: int)
    requires RowSound(t)
    ensures RowSound(CancelRunningTurn(t, id, now).row)
  {
    CancelResult(t, id, now);
    if t.status == Running {
      var after := Finalized(t, Cancelled, StopCancelled, None,
                             Some(TURN_CANCELLED_CODE), Some(SAFE_TURN_CANCELLED_MESSAGE), now);
      AppendKeepsLedger(after, TurnCancelled(TURN_CANCELLED_CODE, SAFE_TURN_CANCELLED_MESSAGE, false), None, id, now);
    }
  }

  /** The automaton does not look at what a redaction blanks. */
  lemma SanitizedNext(p: Phase, e: Event)
    ensures Next(p, SanitizedEvent(e)) == Next(p, e)
  {
  }

  lemma {:induction false} SanitizingKeepsPhase(ledger: seq<Event>)
    ensures Scan(SanitizedLedger(ledger)) == Scan(ledger)
  {
    if ledger != [] {
      var front, last := ledger[..|ledger| - 1], ledger[|ledger| - 1];
      SanitizingKeepsPhase(front);
      SanitizedNext(Scan(front), last);
      assert SanitizedLedger(ledger) == SanitizedLedger(front) + [SanitizedEvent(last)];
      ScanSnoc(SanitizedLedger(front), SanitizedEvent(last));
    }
  }

  lemma SanitizedRows(ledger: seq<Event>)
    requires Dense(ledger) && DigestsMatch(ledger)
    ensures Dense(SanitizedLedger(ledger)) && DigestsMatch(SanitizedLedger(ledger))
  {
  }

  lemma RedactResult(t: Turn, id: string, now: int)
    requires t.status != Redacted
    ensures var erased := ErasedTurn(t, now);
      RedactTurn(t, id, now) == Commit(erased.(ledger := erased.ledger + [NewEvent(erased, TurnRedacted(now), None, id, now)]), true)
  {
  }

  lemma ErasedLedgerSound(t: Turn, id: string, now: int)
    requires LedgerSound(t) && t.status != Redacted
    ensures LedgerSound(RedactTurn(t, id, now).row)
  {
    SanitizedRows(t.ledger);
    SanitizingKeepsPhase(t.ledger);
    RedactResult(t, id, now);
    SnocLedgerSound(ErasedTurn(t, now), TurnRedacted(now), None, id, now);
  }

  lemma RedactErases(t: Turn, id: string, now: int)
    requires t.status != Redacted
    ensures Erasure(RedactTurn(t, id, now).row)
  {
  }

  lemma {:induction false} RedactKeepsSound(t: Turn, id: string, now: int)
    requires RowSound(t)
    ensures RowSound(RedactTurn(t, id, now).row)
  {
    if t.status != Redacted {
      ErasedLedgerSound(t, id, now);
      RedactErases(t, id, now);
    }
  }

  lemma ClaimKeepsSound(t: Turn, owner: string, leaseSeconds: nat, now: int)
    requires RowSound(t) && Claimable(t, now)
    ensures RowSound(ClaimTurn(t, owner, leaseSeconds, now))
  {
  }

  lemma HeartbeatKeepsSound(t: Turn, owner: string, generation: nat, leaseSeconds: nat, now: int)
    requires RowSound(t)
    ensures RowSound(HeartbeatLease(t, owner, generation, leaseSeconds, now))
  {
  }

  /** The two rows a turn is inserted with, and the phase they lead to. */
  lemma InsertedLedger(key: TurnKey, refs: seq<AcceptedRef>, id0: string, id1: string, now: int)
    ensures var ledger := InsertedTurn(key, refs, id0, id1, now).ledger;
      Dense(ledger) && DigestsMatch(ledger) && |ledger| == 2 && Scan(ledger) == Routed(key.route) && DeltaTexts(ledger) == []
  {
    var bare := Turn(key, Running, None, None, None, None, Budget(0, 0, 0),
                     None, None, None, 0, None, now, [], refs, []);
    var first := NewEvent(bare, TurnAccepted(key.conversationRef, key.clientRequestId, false), None, id0, now);
    AppendKeepsLedger(bare, first.payload, None, id0, now);
    assert bare.ledger + [first] == [first];
    AppendKeepsLedger(bare.(ledger := [first]), RouteSelected(key.route, key.domainId), None, id1, now);
  }

  lemma InsertedIsSound(key: TurnKey, refs: seq<AcceptedRef>, id0: string, id1: string, now: int)
    requires forall i :: 0 <= i < |refs| ==> refs[i].redactedAt.None?
    ensures RowSound(InsertedTurn(key, refs, id0, id1, now))
    ensures Scan(InsertedTurn(key, refs, id0, id1, now).ledger) == Routed(key.route)
  {
    InsertedLedger(key, refs, id0, id1, now);
  }

  // -------------------------------------------------------- steps of an executor

  /** A step keeps the row sound and the executor in step with the ledger, unless the turn has closed. */
  predicate Kept(t: Turn, x: Exec, r: StepResult) {
    && RowSound(r.row)
    && r.row.generation == t.generation && r.exec.generation == x.generation
    && (r.row.status == Running ==> Tracks(r.row, r.exec))
  }

  predicate Current(t: Turn, x: Exec) {
    RowSound(t) && t.status == Running && t.generation == x.generation && Tracks(t, x)
  }

  /** A step that writes nothing and leaves its execution where the ledger says it is. */
  predicate Moved(t: Turn, x: Exec, r: StepResult) {
    r.row == t && !r.bumped && r.exec.generation == x.generation && Tracks(t, r.exec)
  }

  lemma OpeningHasNoDeltas(ledger: seq<Event>)
    requires Scan(ledger).Empty? || Scan(ledger).Opened?
    ensures DeltaTexts(ledger) == []
  {
  }

  lemma QuietHasNoDeltas(ledger: seq<Event>)
    requires Live(Scan(ledger)) && !Scan(ledger).Answering?
    ensures DeltaTexts(ledger) == []
  {
    var front := ledger[..|ledger| - 1];
    if |front| > 0 && Live(Scan(front)) {
      QuietHasNoDeltas(front);
    } else {
      OpeningHasNoDeltas(front);
    }
  }

  lemma BootStepMoves(t: Turn, x: Exec, io: Io)
    requires Tracks(t, x) && LedgerSound(t) && t.status == Running && (x.pc.Boot? || x.pc.ResolveRuntime?)
    ensures Moved(t, x, Step(t, x, io))
  {
    if Scan(t.ledger).Answering? {
      assert t.ledger[|t.ledger| - 1].payload.AnswerDelta?;
      assert HasAnswerDelta(t.ledger);
    } else {
      QuietHasNoDeltas(t.ledger);
    }
  }

  lemma FenceStepMoves(t: Turn, x: Exec, io: Io)
    requires Tracks(t, x) && t.status == Running && t.generation == x.generation
    requires x.pc.StartFence? || x.pc.RetrievalFence? || x.pc.EvidenceFence? || x.pc.EndFence?
    ensures Moved(t, x, Step(t, x, io))
  {
  }

  lemma TokenFenceMoves(t: Turn, x: Exec, io: Io)
    requires Tracks(t, x) && t.status == Running && t.generation == x.generation && x.pc.TokenFence?
    ensures Moved(t, x, Step(t, x, io))
  {
    assert (x.tokens + [x.pc.token])[..|x.tokens|] == x.tokens;
  }

  lemma AwaitRetrievalMoves(t: Turn, x: Exec, io: Io)
    requires Tracks(t, x) && (x.pc.AwaitRetrieval? || x.pc.Stopped?)
    ensures Moved(t, x, Step(t, x, io))
  {
  }

  lemma AwaitTokenMoves(t: Turn, x: Exec, io: Io)
    requires Tracks(t, x) && x.pc.AwaitToken?
    ensures Moved(t, x, Step(t, x, io))
  {
  }

  /** A step that appends work, once the append is known to succeed. */
  lemma WorkStep(t: Turn, x: Exec, io: Io, payload: Payload)
    requires Decide(t, x, io) == AppendEvent(payload)
    requires PersistEvent(t, payload, Some(x.generation), io.eventId, io.now).Success?
    ensures Step(t, x, io) ==
      StepResult(PersistEvent(t, payload, Some(x.generation), io.eventId, io.now).value, NextExec(t, x, io, true), false)
  {
  }

  lemma StartStepKept(t: Turn, x: Exec, io: Io)
    requires Current(t, x) && x.pc.StartRetrieval?
    ensures Kept(t, x, Step(t, x, io)) && !Step(t, x, io).bumped
  {
    WorkKeepsSound(t, RetrievalStarted(1, 1), x.generation, io.eventId, io.now);
    WorkStep(t, x, io, RetrievalStarted(1, 1));
  }

  lemma {:induction false} FruitlessStepKept(t: Turn, x: Exec, io: Io)
    requires Current(t, x) && x.pc.ReportFruitless?
    ensures Kept(t, x, Step(t, x, io)) && !Step(t, x, io).bumped
  {
    WorkKeepsSound(t, RetrievalCompleted(NoGroundedContext, 0), x.generation, io.eventId, io.now);
    WorkStep(t, x, io, RetrievalCompleted(NoGroundedContext, 0));
  }

  lemma {:induction false} ShowStepKept(t: Turn, x: Exec, io: Io)
    requires Current(t, x) && x.pc.ReportEvidence?
    ensures Kept(t, x, Step(t, x, io)) && !Step(t, x, io).bumped
  {
    WorkKeepsSound(t, EvidenceDelta(ItemsOf(PublicEvidenceRefs(t), io.catalog)), x.generation, io.eventId, io.now);
  }

  lemma {:induction false} FoundStepKept(t: Turn, x: Exec, io: Io)
    requires Current(t, x) && x.pc.ReportFound?
    ensures Kept(t, x, Step(t, x, io)) && !Step(t, x, io).bumped
  {
    WorkKeepsSound(t, RetrievalCompleted(EvidenceFound, |PublicEvidenceRefs(t)|), x.generation, io.eventId, io.now);
    WorkStep(t, x, io, RetrievalCompleted(EvidenceFound, |PublicEvidenceRefs(t)|));
    QuietHasNoDeltas(t.ledger);
  }

  lemma TokenAppended(t: Turn, x: Exec, token: string, io: Io)
    requires RowSound(t) && t.status == Running && t.generation == x.generation && x.generation > 0
    requires x.tokens != [] && x.tokens[|x.tokens| - 1] == token && Streaming(t, x, x.tokens[..|x.tokens| - 1])
    ensures PersistEvent(t, AnswerDelta(token), Some(x.generation), io.eventId, io.now).Success?
    ensures var r := PersistEvent(t, AnswerDelta(token), Some(x.generation), io.eventId, io.now).value;
      && RowSound(r) && r.generation == t.generation && r.key == t.key
      && DeltaTexts(r.ledger) == x.tokens && Scan(r.ledger) == Answering(t.key.route, x.generation)
  {
    var e := NewEvent(t, AnswerDelta(token), Some(x.generation), io.eventId, io.now);
    assert Next(Scan(t.ledger), e) == Answering(t.key.route, x.generation);
    assert x.tokens == x.tokens[..|x.tokens| - 1] + [token];
    WorkKeepsSound(t, AnswerDelta(token), x.generation, io.eventId, io.now);
  }

  lemma RaisedStepKept(t: Turn, x: Exec, io: Io)
    requires Current(t, x) && x.pc.PersistToken? && io.reply.DatabaseRaised?
    ensures Kept(t, x, Step(t, x, io)) && !Step(t, x, io).bumped
  {
    assert Step(t, x, io) == StepResult(t, x.(pc := ProviderFailed), false);
  }

  lemma TokenNextTracks(t: Turn, x: Exec, io: Io, row: Turn)
    requires x.pc.PersistToken? && !io.reply.DatabaseRaised? && x.generation > 0 && x.tokens != [] && row.key == t.key
    requires DeltaTexts(row.ledger) == x.tokens && Scan(row.ledger) == Answering(t.key.route, x.generation)
    ensures Tracks(row, NextExec(t, x, io, true)) && NextExec(t, x, io, true).generation == x.generation
  {
  }

  lemma {:induction false} TokenStepKept(t: Turn, x: Exec, io: Io)
    requires Current(t, x) && x.pc.PersistToken?
    ensures Kept(t, x, Step(t, x, io)) && !Step(t, x, io).bumped
  {
    if io.reply.DatabaseRaised? {
      RaisedStepKept(t, x, io);
    } else {
      TokenAppended(t, x, x.pc.token, io);
      WorkStep(t, x, io, AnswerDelta(x.pc.token));
      TokenNextTracks(t, x, io, Step(t, x, io).row);
    }
  }

  lemma StoreStepKept(t: Turn, x: Exec, io: Io)
    requires Current(t, x) && x.pc.StoreEvidence?
    ensures Kept(t, x, Step(t, x, io))
  {
    if |io.refIds| == |x.pc.found| {
      StoreKeepsSound(t, x.pc.found, io.refIds, x.generation, io.now);
    }
  }

  /** Every finalizing step asks for a completion that its ledger supports, or for a failure. `spelled` is
      the answer that the ledger's deltas spell. */
  predicate Supported(p: Phase, generation: nat, spelled: string, a: Action) {
    match a
    case CompleteAs(stopReason, answer, _) =>
      && CompletionIn(p) == Some(stopReason) && WriterIn(p) == generation
      && (if stopReason == StopDirectLlm || stopReason == StopGrounded
          then answer == Some(spelled) && spelled != ""
          else answer.None?)
    case FailAs(_, _) => true
    case _ => false
  }

  lemma NoTokensNoAnswer()
    ensures AnswerOf([]) == ""
  {
  }

  /** With an answer, some token was persisted, so the ledger stands at Answering; without one and with
      nothing persisted, it stands where the first delta would go. */
  lemma ConcludeSupported(t: Turn, x: Exec, answer: string)
    requires Streaming(t, x, x.tokens) && (x.tokens == [] ==> answer == "")
    ensures Supported(Scan(t.ledger), x.generation, answer, Concluding(t.key.route, x, answer))
  {
  }

  lemma FinalDecision(t: Turn, x: Exec, io: Io, spelled: string)
    requires Tracks(t, x) && spelled == AnswerOf(DeltaTexts(t.ledger))
    requires x.pc.CompleteFruitless? || x.pc.Conclude? || x.pc.ProviderFailed? || x.pc.FailWith?
    ensures Supported(Scan(t.ledger), x.generation, spelled, Decide(t, x, io))
  {
    if x.pc.Conclude? {
      NoTokensNoAnswer();
      ConcludeSupported(t, x, spelled);
    }
  }

  lemma {:induction false} FinalizingKept(t: Turn, generation: nat, a: Action, io: Io)
    requires RowSound(t) && t.status == Running && t.generation == generation && generation > 0
    requires Supported(Scan(t.ledger), generation, AnswerOf(DeltaTexts(t.ledger)), a)
    ensures Perform(t, generation, a, io).Success?
    ensures var c := Perform(t, generation, a, io).value;
      RowSound(c.row) && c.row.generation == t.generation && c.row.status != Running && c.bumped
  {
    if a.CompleteAs? {
      CompleteKeepsSound(t, a.stopReason, a.answer, a.budget, generation, io.eventId, io.now);
    } else {
      FailKeepsSound(t, a.code, a.message, generation, io.eventId, io.now);
    }
  }

  lemma {:induction false} FinalStepKept(t: Turn, x: Exec, io: Io)
    requires Current(t, x)
    requires x.pc.CompleteFruitless? || x.pc.Conclude? || x.pc.ProviderFailed? || x.pc.FailWith?
    ensures Kept(t, x, Step(t, x, io)) && Step(t, x, io).row.status != Running && Step(t, x, io).bumped
  {
    FinalDecision(t, x, io, AnswerOf(DeltaTexts(t.ledger)));
    FinalizingKept(t, x.generation, Decide(t, x, io), io);
  }

  lemma {:induction false} StepKept(t: Turn, x: Exec, io: Io)
    requires Current(t, x)
    ensures Kept(t, x, Step(t, x, io))
  {
    if x.pc.StartRetrieval? {
      StartStepKept(t, x, io);
    } else if x.pc.ReportFruitless? {
      FruitlessStepKept(t, x, io);
    } else if x.pc.ReportEvidence? {
      ShowStepKept(t, x, io);
    } else if x.pc.ReportFound? {
      FoundStepKept(t, x, io);
    } else if x.pc.PersistToken? {
      TokenStepKept(t, x, io);
    } else if x.pc.StoreEvidence? {
      StoreStepKept(t, x, io);
    } else if x.pc.CompleteFruitless? || x.pc.Conclude? || x.pc.ProviderFailed? || x.pc.FailWith? {
      FinalStepKept(t, x, io);
    } else if x.pc.Boot? || x.pc.ResolveRuntime? {
      BootStepMoves(t, x, io);
    } else if x.pc.AwaitRetrieval? || x.pc.Stopped? {
      AwaitRetrievalMoves(t, x, io);
    } else if x.pc.AwaitToken? {
      AwaitTokenMoves(t, x, io);
    } else if x.pc.TokenFence? {
      TokenFenceMoves(t, x, io);
    } else {
      FenceStepMoves(t, x, io);
    }
  }

  // ------------------------------------------------------------------ who wrote what

  lemma PerformWritten(t: Turn, generation: nat, a: Action, io: Io)
    requires Written(t) && generation <= t.generation
    ensures var r := Perform(t, generation, a, io); r.Success? ==> Written(r.value.row)
  {
  }

  lemma StepWritten(t: Turn, x: Exec, io: Io)
    requires Written(t) && x.generation <= t.generation
    ensures Written(Step(t, x, io).row)
  {
    PerformWritten(t, x.generation, Decide(t, x, io), io);
  }

  lemma CloseWritten(t: Turn, id: string, now: int)
    requires Written(t)
    ensures Written(CancelRunningTurn(t, id, now).row) && Written(RedactTurn(t, id, now).row)
  {
    if t.status != Redacted { RedactResult(t, id, now); }
  }
}
