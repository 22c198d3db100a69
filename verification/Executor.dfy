/** One leased execution of a turn: ConversationTurnWorker.run_once after a successful claim, with the
    TurnOrchestrator it drives, cut at every point where another actor can commit in between. */
module Executor {
  import opened Basics
  import opened TurnTypes
  import opened TurnRow

  datatype Pc =
    | Boot                                   // look for an answer.delta of an earlier generation
    | ResolveRuntime                         // resolve synthesis and assemble the prompt
    | StartFence                             // domain route: fence before retrieval.started
    | StartRetrieval
    | AwaitRetrieval
    | RetrievalFence(found: seq<Mapped>)
    | ReportFruitless
    | CompleteFruitless
    | StoreEvidence(found: seq<Mapped>)
    | EvidenceFence
    | ReportEvidence
    | ReportFound
    | AwaitToken
    | TokenFence(token: string)
    | PersistToken(token: string)
    | EndFence
    | Conclude
    | ProviderFailed
    | FailWith(code: string, message: string)
    | Stopped

  /** The locals of one execution. `generation` is the one its claim was given. */
  datatype Exec = Exec(generation: nat, owner: string, pc: Pc, tokens: seq<string>, deltaPersisted: bool)

  function Launch(generation: nat, owner: string): Exec {
    Exec(generation, owner, Boot, [], false)
  }

  /** What the runtime, the retrieval port, the provider or the database answers. */
  datatype Reply =
    | Proceed
    | RuntimeReady
    | RuntimeNotReady(code: string, message: string)
    | Retrieved(evidence: seq<Mapped>)
    | RetrievalFailed(code: string, message: string)
    | Token(text: string)
    | StreamEnded
    | ProviderRaised
    | ProviderRaisedRuntimeError
    | DatabaseRaised

  /** The environment's part of one step: its reply, the identifiers it draws, the joined rows it reads, the clock. */
  datatype Io = Io(reply: Reply, eventId: string, refIds: seq<string>, catalog: Catalog, now: int)

  // ------------------------------------------------------------------- writes

  /** What a step asks of the database: at most one transaction. */
  datatype Action =
    | NoWrite
    | AppendEvent(payload: Payload)
    | StoreRefs(found: seq<Mapped>)
    | CompleteAs(stopReason: StopReason, answer: Option<string>, budget: Budget)
    | FailAs(code: string, message: string)

  const DIRECT_BUDGET := Budget(0, 0, 0)
  const RETRIEVAL_BUDGET := Budget(1, 1, 0)
  const FAIL_AS_PROVIDER := FailAs(SAFE_PROVIDER_FAILURE_CODE, SAFE_PROVIDER_FAILURE_MESSAGE)

  function Perform(t: Turn, generation: nat, a: Action, io: Io): Result<Commit, TurnError> {
    match a
    case NoWrite => Success(Commit(t, false))
    case AppendEvent(payload) =>
      var r := PersistEvent(t, payload, Some(generation), io.eventId, io.now);
      if r.Success? then Success(Commit(r.value, false)) else Failure(r.error)
    case StoreRefs(found) =>
      if |io.refIds| != |found| then Success(Commit(t, false))
      else PersistEvidenceRefs(t, found, io.refIds, Some(generation), io.now)
    case CompleteAs(stopReason, answer, budget) =>
      Success(CompleteTurn(t, stopReason, answer, budget, Some(generation), io.eventId, io.now))
    case FailAs(code, message) =>
      Success(FailTurn(t, code, message, Some(generation), io.eventId, io.now))
  }

  /** The tokens so far, joined and stripped. */
  function AnswerOf(tokens: seq<string>): string { Strip(Concat(tokens)) }

  /** On the domain route a stream without an answer fails only if a delta was already shown. */
  function WithoutAnswer(x: Exec): Action {
    if x.deltaPersisted then FAIL_AS_PROVIDER else CompleteAs(StopEvidenceOnly, None, RETRIEVAL_BUDGET)
  }

  /** The end of a stream that spelled this answer. */
  function Concluding(route: Route, x: Exec, answer: string): Action {
    if answer == "" then (if route == DirectLlm then FAIL_AS_PROVIDER else WithoutAnswer(x))
    else if route == DirectLlm then CompleteAs(StopDirectLlm, Some(answer), DIRECT_BUDGET)
    else CompleteAs(StopGrounded, Some(answer), RETRIEVAL_BUDGET)
  }

  /** The transaction the step at this program counter runs. */
  function Decide(t: Turn, x: Exec, io: Io): Action {
    match x.pc
    case StartRetrieval => AppendEvent(RetrievalStarted(1, 1))
    case ReportFruitless => AppendEvent(RetrievalCompleted(NoGroundedContext, 0))
    case CompleteFruitless => CompleteAs(StopNoGroundedContext, None, RETRIEVAL_BUDGET)
    case StoreEvidence(found) => StoreRefs(found)
    case ReportEvidence => AppendEvent(EvidenceDelta(ItemsOf(PublicEvidenceRefs(t), io.catalog)))
    case ReportFound => AppendEvent(RetrievalCompleted(EvidenceFound, |PublicEvidenceRefs(t)|))
    case PersistToken(token) => if io.reply.DatabaseRaised? then NoWrite else AppendEvent(AnswerDelta(token))
    case Conclude => Concluding(t.key.route, x, AnswerOf(x.tokens))
    case ProviderFailed => if t.key.route == DirectLlm then FAIL_AS_PROVIDER else WithoutAnswer(x)
    case FailWith(code, message) => FailAs(code, message)
    case _ => NoWrite
  }

  // ------------------------------------------------------------------ control

  /** Where a fence leads: on if the turn is still running under this generation, otherwise out. */
  function Fence(t: Turn, x: Exec, next: Pc): Pc {
    if FenceOpen(t, Some(x.generation)) then next else Stopped
  }

  /** The next program counter. `ok` is false when the transaction raised. A reply the program counter
      is not waiting for leaves it where it is. */
  function NextPc(t: Turn, x: Exec, io: Io, ok: bool): Pc {
    match x.pc
    case Boot =>
      if HasAnswerDelta(t.ledger) then FailWith(SAFE_PROVIDER_FAILURE_CODE, SAFE_PROVIDER_FAILURE_MESSAGE)
      else ResolveRuntime
    case ResolveRuntime =>
      (match io.reply
       case RuntimeReady => if t.key.route == DirectLlm then AwaitToken else StartFence
       case RuntimeNotReady(code, message) => FailWith(code, message)
       case _ => x.pc)
    case StartFence => Fence(t, x, StartRetrieval)
    case StartRetrieval => if ok then AwaitRetrieval else Stopped
    case AwaitRetrieval =>
      (match io.reply
       case Retrieved(evidence) => RetrievalFence(evidence)
       case RetrievalFailed(code, message) => FailWith(code, message)
       case _ => x.pc)
    case RetrievalFence(found) => Fence(t, x, if found == [] then ReportFruitless else StoreEvidence(found))
    case ReportFruitless => if ok then CompleteFruitless else Stopped
    case StoreEvidence(found) => if |io.refIds| != |found| then x.pc else if ok then EvidenceFence else Stopped
    case EvidenceFence => Fence(t, x, ReportEvidence)
    case ReportEvidence => if ok then ReportFound else Stopped
    case ReportFound => if ok then AwaitToken else Stopped
    case AwaitToken =>
      (match io.reply
       case Token(text) => TokenFence(text)
       case StreamEnded => EndFence
       case ProviderRaised => ProviderFailed
       case ProviderRaisedRuntimeError => Stopped
       case _ => x.pc)
    case TokenFence(token) => Fence(t, x, if token == "" then AwaitToken else PersistToken(token))
    case PersistToken(token) => if io.reply.DatabaseRaised? then ProviderFailed else if ok then AwaitToken else Stopped
    case EndFence => Fence(t, x, Conclude)
    case CompleteFruitless => Stopped
    case Conclude => Stopped
    case ProviderFailed => Stopped
    case FailWith(_, _) => Stopped
    case Stopped => Stopped
  }

  /** The locals after the step: a token is collected before it is persisted. */
  function NextExec(t: Turn, x: Exec, io: Io, ok: bool): Exec {
    var next := x.(pc := NextPc(t, x, io, ok));
    match x.pc
    case TokenFence(token) => if next.pc.PersistToken? then next.(tokens := x.tokens + [token]) else next
    case PersistToken(_) => if next.pc.AwaitToken? then next.(deltaPersisted := t.key.route == DomainRag) else next
    case _ => next
  }

  datatype StepResult = StepResult(row: Turn, exec: Exec, bumped: bool)

  function Step(t: Turn, x: Exec, io: Io): StepResult {
    var r := Perform(t, x.generation, Decide(t, x, io), io);
    if r.Success? then StepResult(r.value.row, NextExec(t, x, io, true), r.value.bumped)
    else StepResult(t, NextExec(t, x, io, false), false)
  }

  /** A transaction that is fenced out, or that finds the turn closed, commits nothing. No step of an
      executor appends one of the event types a closed turn still accepts. */
  lemma FencedOutIsInert(t: Turn, generation: nat, a: Action, io: Io)
    requires t.status != Running || t.generation != generation
    requires a.AppendEvent? ==> !AllowedWhenClosed(Completed, TypeOf(a.payload)) && !AllowedWhenClosed(Failed, TypeOf(a.payload)) && !AllowedWhenClosed(Cancelled, TypeOf(a.payload))
    ensures Perform(t, generation, a, io).Success? ==> Perform(t, generation, a, io).value == Commit(t, false)
  {
  }

  /** A stale execution is inert: whatever it does next and whatever it is told, it leaves the row as it
      is. So is every execution of a turn that is no longer running. */
  lemma StaleStepIsInert(t: Turn, x: Exec, io: Io)
    requires x.generation != t.generation || t.status != Running
    ensures Step(t, x, io).row == t && !Step(t, x, io).bumped
    ensures Step(t, x, io).exec.generation == x.generation
  {
    FencedOutIsInert(t, x.generation, Decide(t, x, io), io);
  }

  lemma StaleFenceStops(t: Turn, x: Exec, io: Io)
    requires x.generation != t.generation || t.status != Running
    requires x.pc.StartFence? || x.pc.RetrievalFence? || x.pc.EvidenceFence? || x.pc.TokenFence? || x.pc.EndFence?
    ensures Step(t, x, io).exec.pc == Stopped
  {
    assert Perform(t, x.generation, NoWrite, io).Success?;
  }

  lemma StaleWriteStops(t: Turn, x: Exec, io: Io)
    requires x.generation != t.generation || t.status != Running
    requires x.pc.StartRetrieval? || x.pc.ReportFruitless? || x.pc.ReportEvidence? || x.pc.ReportFound? || x.pc.PersistToken?
    requires x.pc.PersistToken? ==> !io.reply.DatabaseRaised?
    ensures Step(t, x, io).exec.pc == Stopped
  {
    assert Perform(t, x.generation, Decide(t, x, io), io).Failure?;
  }

  /** A stale execution does not go on either: the first fence or write it comes to stops it. Only while it
      waits for an answer, or stores Evidence (which then stores nothing), does it take one more step. */
  lemma StaleStops(t: Turn, x: Exec, io: Io)
    requires x.generation != t.generation || t.status != Running
    requires !x.pc.Boot? && !x.pc.ResolveRuntime? && !x.pc.AwaitRetrieval? && !x.pc.AwaitToken? && !x.pc.StoreEvidence?
    requires x.pc.PersistToken? ==> !io.reply.DatabaseRaised?
    ensures Step(t, x, io).exec.pc == Stopped
  {
    if x.pc.StartRetrieval? || x.pc.ReportFruitless? || x.pc.ReportEvidence? || x.pc.ReportFound? || x.pc.PersistToken? {
      StaleWriteStops(t, x, io);
    } else if x.pc.StartFence? || x.pc.RetrievalFence? || x.pc.EvidenceFence? || x.pc.TokenFence? || x.pc.EndFence? {
      StaleFenceStops(t, x, io);
    }
  }
}
