/** What the environment tells one generation, and why every step of that generation and of everybody else
    keeps what its turn says in line with it. */
module Hearing {
  import opened Basics
  import opened TurnTypes
  import opened TurnRow
  import opened Ledger
  import opened Executor
  import opened TurnInvariant
  import opened ChatSystem
  import opened ChatInvariant
  import opened Evolution
  import opened ChatTheorems
  import opened Replay
  import opened Reclaim

  // --------------------------------------------------------------------- what was told

  /** How the provider's stream ended: by itself, or in an error of the provider or of the database. */
  datatype StreamEnd = StillOpen | Finished | Broken

  /** The environment's answers to one generation: what its search found, the references drawn for it, the
      joined rows when it showed them, every token the provider streamed and how the stream ended, and a
      failure reported to it. */
  datatype Heard = Heard(
    found: Option<seq<Mapped>>, refIds: seq<string>, catalog: Catalog, texts: seq<string>, end: StreamEnd,
    failure: Option<(string, string)>)

  const SILENT := Heard(None, [], map[], [], StillOpen, None)

  /** What one more reply adds, to an execution that stands at `pc`. */
  function Hear(h: Heard, pc: Pc, io: Io): Heard {
    match pc
    case ResolveRuntime =>
      if io.reply.RuntimeNotReady? then h.(failure := Some((io.reply.code, io.reply.message))) else h
    case AwaitRetrieval =>
      if io.reply.Retrieved? then h.(found := Some(io.reply.evidence))
      else if io.reply.RetrievalFailed? then h.(failure := Some((io.reply.code, io.reply.message)))
      else h
    case StoreEvidence(found) => if |io.refIds| == |found| then h.(refIds := io.refIds) else h
    case ReportEvidence => h.(catalog := io.catalog)
    case AwaitToken =>
      if io.reply.Token? then h.(texts := h.texts + [io.reply.text])
      else if io.reply.StreamEnded? then h.(end := Finished)
      else if io.reply.ProviderRaised? then h.(end := Broken)
      else h
    case PersistToken(_) => if io.reply.DatabaseRaised? then h.(end := Broken) else h
    case _ => h
  }

  function HearStep(s: State, step: Move, turn: nat, g: nat, h: Heard): Heard {
    if HasExec(s, turn, g) && Stored(s, turn) && step.Execute? && step.turn == turn && step.generation == g
    then Hear(h, s.cells[turn].execs[g - 1].pc, step.io)
    else h
  }

  /** Everything that generation `g` of the turn was told over a run. */
  function HeardOver(s: State, steps: seq<Move>, turn: nat, g: nat): Heard {
    if steps == [] then SILENT
    else
      var front := steps[..|steps| - 1];
      HearStep(Run(s, front), steps[|steps| - 1], turn, g, HeardOver(s, front, turn, g))
  }

  // ------------------------------------------------------------------- texts and deltas

  function NonEmpty(texts: seq<string>): seq<string> {
    if texts == [] then []
    else NonEmpty(texts[..|texts| - 1]) + (if texts[|texts| - 1] == "" then [] else [texts[|texts| - 1]])
  }

  lemma NonEmptySnoc(texts: seq<string>, text: string)
    ensures NonEmpty(texts + [text]) == NonEmpty(texts) + (if text == "" then [] else [text])
  {
    assert (texts + [text])[..|texts|] == texts;
  }

  /** Empty texts add nothing to what is spelled. */
  lemma {:induction false} NonEmptySpells(texts: seq<string>)
    ensures Concat(NonEmpty(texts)) == Concat(texts)
  {
    if texts != [] {
      var front, last := texts[..|texts| - 1], texts[|texts| - 1];
      NonEmptySpells(front);
      if last == "" {
        assert NonEmpty(texts) == NonEmpty(front) && Concat(front) + last == Concat(front);
      } else {
        ConcatSnoc(NonEmpty(front), last);
      }
    }
  }

  /** The delta texts that one generation wrote. */
  function DeltasBy(ledger: seq<Event>, g: nat): seq<string> {
    if ledger == [] then []
    else
      var last := ledger[|ledger| - 1];
      DeltasBy(ledger[..|ledger| - 1], g) + (if last.payload.AnswerDelta? && last.writer == g then [last.payload.text] else [])
  }

  lemma DeltasBySnoc(ledger: seq<Event>, e: Event, g: nat)
    ensures DeltasBy(ledger + [e], g) ==
      DeltasBy(ledger, g) + (if e.payload.AnswerDelta? && e.writer == g then [e.payload.text] else [])
  {
    assert (ledger + [e])[..|ledger|] == ledger;
  }

  lemma {:induction false} DeltasByNobody(ledger: seq<Event>, g: nat)
    requires forall i :: 0 <= i < |ledger| ==> ledger[i].writer != g
    ensures DeltasBy(ledger, g) == []
  {
    if ledger != [] {
      DeltasByNobody(ledger[..|ledger| - 1], g);
    }
  }

  /** With one writer, that writer's deltas are all of them. */
  lemma {:induction false} DeltasBySole(ledger: seq<Event>, g: nat)
    requires forall i :: 0 <= i < |ledger| && ledger[i].payload.AnswerDelta? ==> ledger[i].writer == g
    ensures DeltasBy(ledger, g) == DeltaTexts(ledger)
  {
    if ledger != [] {
      DeltasBySole(ledger[..|ledger| - 1], g);
    }
  }

  /** All that was streamed, apart perhaps from a last token that was fenced out or not persisted. */
  predicate UpToLast(deltas: seq<string>, texts: seq<string>) {
    deltas == NonEmpty(texts) || (texts != [] && deltas == NonEmpty(texts[..|texts| - 1]))
  }

  /** Where the deltas of an execution stand against the tokens it was told. */
  predicate Caught(x: Exec, texts: seq<string>, deltas: seq<string>) {
    match x.pc
    case TokenFence(token) =>
      texts != [] && texts[|texts| - 1] == token && x.tokens == deltas == NonEmpty(texts[..|texts| - 1])
    case PersistToken(token) =>
      && texts != [] && texts[|texts| - 1] == token && token != ""
      && x.tokens == NonEmpty(texts) && deltas == NonEmpty(texts[..|texts| - 1])
    case ProviderFailed => UpToLast(deltas, texts)
    case Stopped => UpToLast(deltas, texts)
    case _ => x.tokens == deltas == NonEmpty(texts)
  }

  // ------------------------------------------------------------------- Evidence told

  /** An item shows a stored ref, with the anchor its source and block project to. */
  predicate ItemShows(item: EvidenceItem, ref: EvidenceRef, catalog: Catalog) {
    && (ref.sourceId, ref.blockId) in catalog
    && item.id == ref.publicRef && item.anchor == catalog[(ref.sourceId, ref.blockId)]
    && Some(item.citationLabel) == ref.citationLabel && Some(item.sourceLabel) == ref.sourceLabel && Some(item.excerpt) == ref.excerpt
  }

  function ShowsIn(catalog: Catalog): (EvidenceItem, EvidenceRef) -> bool {
    (item: EvidenceItem, ref: EvidenceRef) => ItemShows(item, ref, catalog)
  }

  function JoinedIn(catalog: Catalog): EvidenceRef -> bool {
    (ref: EvidenceRef) => (ref.sourceId, ref.blockId) in catalog
  }

  /** The items show, in order, exactly the refs whose source and block are joined. */
  ghost predicate ItemsShow(items: seq<EvidenceItem>, evidence: seq<EvidenceRef>, catalog: Catalog) {
    exists at :: Filters(at, items, evidence, ShowsIn(catalog), JoinedIn(catalog))
  }

  predicate Labelled(ref: EvidenceRef) {
    ref.citationLabel.Some? && ref.sourceLabel.Some? && ref.excerpt.Some?
  }

  lemma {:induction false} ItemsPicked(refs: seq<EvidenceRef>, catalog: Catalog) returns (at: seq<nat>)
    requires forall i :: 0 <= i < |refs| ==> Labelled(refs[i])
    ensures Filters(at, ItemsOf(refs, catalog), refs, ShowsIn(catalog), JoinedIn(catalog))
  {
    if refs == [] {
      at := [];
    } else {
      var front, last := refs[..|refs| - 1], refs[|refs| - 1];
      assert Labelled(last) && refs == front + [last];
      at := ItemsPicked(front, catalog);
      if JoinedIn(catalog)(last) {
        KeptToo(at, ItemsOf(front, catalog), front, ShowsIn(catalog), JoinedIn(catalog), ItemOf(last, catalog).value, last);
        at := at + [|front|];
      } else {
        NotKept(at, ItemsOf(front, catalog), front, ShowsIn(catalog), JoinedIn(catalog), last);
      }
    }
  }

  // -------------------------------------------------- where a generation stands, and why

  predicate BeforeSearch(pc: Pc) {
    pc.Boot? || pc.ResolveRuntime? || pc.StartFence? || pc.StartRetrieval? || pc.AwaitRetrieval?
  }

  predicate BeforeStore(pc: Pc) {
    BeforeSearch(pc) || pc.RetrievalFence? || pc.StoreEvidence?
  }

  predicate BeforeReport(pc: Pc) {
    BeforeStore(pc) || pc.EvidenceFence? || pc.ReportEvidence?
  }

  /** A search was made exactly on the domain route, and found something. */
  predicate Grounds(route: Route, h: Heard) {
    if route == DirectLlm then h.found.None? else h.found.Some? && h.found.value != []
  }

  /** What the execution carries is what it was told. */
  predicate Minds(route: Route, x: Exec, h: Heard) {
    && (route == DirectLlm ==> h.found.None?)
    && match x.pc
       case Boot => h.found.None? && h.failure.None?
       case ResolveRuntime => h.found.None? && h.failure.None?
       case StartFence => route == DomainRag && h.found.None? && h.failure.None?
       case StartRetrieval => route == DomainRag && h.found.None? && h.failure.None?
       case AwaitRetrieval => route == DomainRag && h.found.None? && h.failure.None?
       case RetrievalFence(found) => route == DomainRag && h.found == Some(found) && h.failure.None?
       case ReportFruitless => route == DomainRag && h.found == Some([]) && h.failure.None?
       case CompleteFruitless => route == DomainRag && h.found == Some([]) && h.failure.None?
       case StoreEvidence(found) => route == DomainRag && h.found == Some(found) && found != [] && h.failure.None?
       case EvidenceFence => route == DomainRag && Grounds(route, h) && h.failure.None?
       case ReportEvidence => route == DomainRag && Grounds(route, h) && h.failure.None?
       case ReportFound => route == DomainRag && Grounds(route, h) && h.failure.None?
       case FailWith(code, message) =>
         if h.failure.Some? then h.failure.value == (code, message)
         else h.found.None? && code == "provider_failure" && message == "The answer could not be completed."
       case Stopped => true
       case _ => Grounds(route, h) && h.failure.None?
  }

  /** A row of this generation says what it was told. */
  ghost predicate RowSays(evidence: seq<EvidenceRef>, p: Payload, catalog: Catalog) {
    match p
    case RetrievalStarted(attempt, most) => attempt == 1 && most == 1
    case EvidenceDelta(items) => ItemsShow(items, evidence, catalog)
    case RetrievalCompleted(EvidenceFound, count) => count == |evidence|
    case RetrievalCompleted(NoGroundedContext, count) => count == 0
    case _ => true
  }

  ghost predicate RowsSay(evidence: seq<EvidenceRef>, ledger: seq<Event>, g: nat, catalog: Catalog) {
    forall i :: 0 <= i < |ledger| && ledger[i].writer == g ==> RowSays(evidence, ledger[i].payload, catalog)
  }

  /** Nothing of this generation has shown Evidence yet. */
  predicate Unreported(ledger: seq<Event>, g: nat) {
    forall i :: 0 <= i < |ledger| && ledger[i].writer == g ==> !ledger[i].payload.EvidenceDelta?
  }

  /** Where the stream stands. */
  predicate StreamStands(pc: Pc, end: StreamEnd) {
    if pc.EndFence? || pc.Conclude? then end == Finished
    else if pc.ProviderFailed? then end == Broken
    else pc.Stopped? || end == StillOpen
  }

  /** An execution knows that it has shown an answer, on the domain route; and it fails without having been
      told of a failure only where another generation has begun to answer. */
  predicate Flows(route: Route, ledger: seq<Event>, x: Exec, g: nat, h: Heard) {
    && StreamStands(x.pc, h.end)
    && (x.deltaPersisted <==> route == DomainRag && DeltasBy(ledger, g) != [])
    && (x.pc.FailWith? && h.failure.None? ==> HasAnswerDelta(ledger))
  }

  /** How the turn of a generation ends that was told this and has shown a delta or not: the stop reason it
      completes with, or nothing if it fails. */
  function Ending(route: Route, h: Heard, shown: bool): Option<StopReason> {
    if h.failure.Some? || h.end == StillOpen then
      if h.failure.None? && h.found == Some([]) then Some(StopNoGroundedContext) else None
    else if h.end == Finished && !Blank(Concat(h.texts)) then
      Some(if route == DirectLlm then StopDirectLlm else StopGrounded)
    else if route == DirectLlm || shown then None
    else Some(StopEvidenceOnly)
  }

  /** The turn ended as its last generation, which ended it, was told. */
  predicate EndsAs(t: Turn, h: Heard) {
    var ending := Ending(t.key.route, h, DeltasBy(t.ledger, t.generation) != []);
    match t.status
    case Completed =>
      && ending == t.stopReason && ending.Some?
      && t.budget == (if t.key.route == DirectLlm then Budget(0, 0, 0) else Budget(1, 1, 0))
      && (h.found.None? <==> t.key.route == DirectLlm)
      && (t.stopReason == Some(StopDirectLlm) || t.stopReason == Some(StopGrounded) ==> DeltaTexts(t.ledger) == NonEmpty(h.texts))
      && (t.stopReason == Some(StopGrounded) || t.stopReason == Some(StopEvidenceOnly) ==> h.found.Some? && h.found.value != [])
    case Failed =>
      && ending.None?
      && t.errorCode == Some(if h.failure.Some? then h.failure.value.0 else "provider_failure")
      && t.errorMessage == Some(if h.failure.Some? then h.failure.value.1 else "The answer could not be completed.")
      && (h.failure.None? && h.end == StillOpen ==> HasAnswerDelta(t.ledger))
    case _ => true
  }

  /** The generation that ended the turn has stopped, and the turn ended as it was told. */
  predicate Ended(t: Turn, x: Exec, h: Heard) {
    (t.status == Completed || t.status == Failed ==> x.pc == Stopped) && EndsAs(t, h)
  }

  /** A turn that is not redacted, an execution of generation `g` of it, and all that generation was told. */
  ghost predicate Heeds(t: Turn, x: Exec, g: nat, h: Heard) {
    && Caught(x, h.texts, DeltasBy(t.ledger, g))
    && Minds(t.key.route, x, h) && Flows(t.key.route, t.ledger, x, g, h)
    && (BeforeReport(x.pc) ==> Unreported(t.ledger, g))
    && RowsSay(t.evidence, t.ledger, g, h.catalog)
    && (g == t.generation ==> Ended(t, x, h))
  }

  // -------------------------------------------- steps that leave the row as it is

  lemma TokenTold(x: Exec, texts: seq<string>, io: Io, t: Turn, deltas: seq<string>, ok: bool)
    requires Caught(x, texts, deltas) && x.pc.AwaitToken? && io.reply.Token?
    ensures Caught(NextExec(t, x, io, ok), texts + [io.reply.text], deltas)
  {
    assert (texts + [io.reply.text])[..|texts|] == texts;
  }

  lemma TokenCollected(x: Exec, texts: seq<string>, io: Io, t: Turn, deltas: seq<string>, ok: bool)
    requires Caught(x, texts, deltas) && x.pc.TokenFence?
    ensures Caught(NextExec(t, x, io, ok), texts, deltas)
  {
    var front := texts[..|texts| - 1];
    assert texts == front + [x.pc.token];
    NonEmptySnoc(front, x.pc.token);
  }

  lemma TokenLost(x: Exec, texts: seq<string>, io: Io, t: Turn, deltas: seq<string>, ok: bool)
    requires Caught(x, texts, deltas) && x.pc.PersistToken? && (ok ==> io.reply.DatabaseRaised?)
    ensures Caught(NextExec(t, x, io, ok), texts, deltas)
  {
  }

  lemma NoTokenCaught(x: Exec, texts: seq<string>, io: Io, t: Turn, deltas: seq<string>, ok: bool)
    requires Caught(x, texts, deltas) && !x.pc.TokenFence? && !x.pc.PersistToken? && !(x.pc.AwaitToken? && io.reply.Token?)
    ensures Caught(NextExec(t, x, io, ok), texts, deltas)
  {
  }

  lemma TextsAfter(x: Exec, h: Heard, io: Io, t: Turn, deltas: seq<string>, ok: bool)
    requires Caught(x, h.texts, deltas) && (x.pc.PersistToken? && ok ==> io.reply.DatabaseRaised?)
    ensures Caught(NextExec(t, x, io, ok), Hear(h, x.pc, io).texts, deltas)
  {
    if x.pc.AwaitToken? && io.reply.Token? {
      TokenTold(x, h.texts, io, t, deltas, ok);
    } else if x.pc.TokenFence? {
      TokenCollected(x, h.texts, io, t, deltas, ok);
    } else if x.pc.PersistToken? {
      TokenLost(x, h.texts, io, t, deltas, ok);
    } else {
      NoTokenCaught(x, h.texts, io, t, deltas, ok);
    }
  }

  predicate Starting(pc: Pc) {
    pc.Boot? || pc.ResolveRuntime? || pc.StartFence? || pc.StartRetrieval? || pc.AwaitRetrieval?
  }

  lemma StartMinds(x: Exec, h: Heard, io: Io, t: Turn, ok: bool)
    requires Minds(t.key.route, x, h) && Starting(x.pc)
    ensures Minds(t.key.route, NextExec(t, x, io, ok), Hear(h, x.pc, io))
  {
  }

  predicate Storing(pc: Pc) {
    pc.RetrievalFence? || pc.ReportFruitless? || pc.StoreEvidence? || pc.EvidenceFence? || pc.ReportEvidence? || pc.ReportFound?
  }

  lemma StoringMinds(x: Exec, h: Heard, io: Io, t: Turn, ok: bool)
    requires Minds(t.key.route, x, h) && Storing(x.pc)
    ensures Minds(t.key.route, NextExec(t, x, io, ok), Hear(h, x.pc, io))
  {
  }

  lemma LaterMinds(x: Exec, h: Heard, io: Io, t: Turn, ok: bool)
    requires Minds(t.key.route, x, h) && !Starting(x.pc) && !Storing(x.pc)
    ensures Minds(t.key.route, NextExec(t, x, io, ok), Hear(h, x.pc, io))
  {
  }

  /** Whatever an execution is told next, what it then carries is what it was told. */
  lemma MindsAfter(x: Exec, h: Heard, io: Io, t: Turn, ok: bool)
    requires Minds(t.key.route, x, h)
    ensures Minds(t.key.route, NextExec(t, x, io, ok), Hear(h, x.pc, io))
  {
    if Starting(x.pc) {
      StartMinds(x, h, io, t, ok);
    } else if Storing(x.pc) {
      StoringMinds(x, h, io, t, ok);
    } else {
      LaterMinds(x, h, io, t, ok);
    }
  }

  lemma StreamAfter(x: Exec, h: Heard, io: Io, t: Turn, ok: bool)
    requires StreamStands(x.pc, h.end)
    ensures StreamStands(NextPc(t, x, io, ok), Hear(h, x.pc, io).end)
  {
  }

  lemma FailureAfter(x: Exec, h: Heard, io: Io, t: Turn, ok: bool)
    requires x.pc.FailWith? && h.failure.None? ==> HasAnswerDelta(t.ledger)
    ensures NextPc(t, x, io, ok).FailWith? && Hear(h, x.pc, io).failure.None? ==> HasAnswerDelta(t.ledger)
  {
  }

  lemma FlowsAfter(x: Exec, h: Heard, io: Io, t: Turn, ok: bool, g: nat)
    requires Flows(t.key.route, t.ledger, x, g, h) && (x.pc.PersistToken? && ok ==> io.reply.DatabaseRaised?)
    ensures Flows(t.key.route, t.ledger, NextExec(t, x, io, ok), g, Hear(h, x.pc, io))
  {
    StreamAfter(x, h, io, t, ok);
    FailureAfter(x, h, io, t, ok);
  }

  lemma ReportsAfter(x: Exec, io: Io, t: Turn, ok: bool)
    ensures BeforeReport(NextPc(t, x, io, ok)) ==> BeforeReport(x.pc)
    ensures x.pc.ReportEvidence? ==> !BeforeReport(NextPc(t, x, io, ok))
    ensures BeforeStore(NextPc(t, x, io, ok)) ==> BeforeStore(x.pc)
  {
  }

  /** The joined rows matter only where they are shown. */
  lemma RowsSayAfter(evidence: seq<EvidenceRef>, ledger: seq<Event>, g: nat, h: Heard, pc: Pc, io: Io)
    requires RowsSay(evidence, ledger, g, h.catalog) && (pc.ReportEvidence? ==> Unreported(ledger, g))
    ensures RowsSay(evidence, ledger, g, Hear(h, pc, io).catalog)
  {
    if pc.ReportEvidence? {
      forall i | 0 <= i < |ledger| && ledger[i].writer == g
        ensures RowSays(evidence, ledger[i].payload, io.catalog)
      {
        assert RowSays(evidence, ledger[i].payload, h.catalog);
      }
    }
  }

  /** A step that commits nothing. */
  lemma QuietHeeds(t: Turn, x: Exec, io: Io, ok: bool, g: nat, h: Heard)
    requires Heeds(t, x, g, h) && (x.pc.PersistToken? && ok ==> io.reply.DatabaseRaised?)
    ensures Heeds(t, NextExec(t, x, io, ok), g, Hear(h, x.pc, io))
  {
    TextsAfter(x, h, io, t, DeltasBy(t.ledger, g), ok);
    MindsAfter(x, h, io, t, ok);
    FlowsAfter(x, h, io, t, ok, g);
    ReportsAfter(x, io, t, ok);
    RowsSayAfter(t.evidence, t.ledger, g, h, x.pc, io);
  }

  /** An execution that is not the turn's current one, or whose turn is closed, commits nothing. */
  lemma StaleHeeds(t: Turn, x: Exec, io: Io, g: nat, h: Heard)
    requires Heeds(t, x, g, h) && x.generation == g && (g != t.generation || t.status != Running)
    ensures Heeds(Step(t, x, io).row, Step(t, x, io).exec, g, Hear(h, x.pc, io))
  {
    StaleStepIsInert(t, x, io);
    var ok := Perform(t, g, Decide(t, x, io), io).Success?;
    assert Step(t, x, io) == StepResult(t, NextExec(t, x, io, ok), false);
    QuietHeeds(t, x, io, ok, g, h);
  }

  // ------------------------------------------------- steps of the current generation

  lemma AppendedDeltas(t: Turn, e: Event, g: nat)
    requires !e.payload.AnswerDelta? || e.writer != g
    ensures DeltasBy(t.ledger + [e], g) == DeltasBy(t.ledger, g)
  {
    DeltasBySnoc(t.ledger, e, g);
  }

  lemma RowsSaySnoc(evidence: seq<EvidenceRef>, ledger: seq<Event>, e: Event, g: nat, catalog: Catalog)
    requires RowsSay(evidence, ledger, g, catalog) && (e.writer == g ==> RowSays(evidence, e.payload, catalog))
    ensures RowsSay(evidence, ledger + [e], g, catalog)
  {
  }

  lemma ShownAre(t: Turn, catalog: Catalog)
    requires EvidenceNumbered(t) && t.status != Redacted
    ensures PublicEvidenceRefs(t) == t.evidence
    ensures ItemsShow(ItemsOf(t.evidence, catalog), t.evidence, catalog)
  {
    AllUnredacted(t.evidence);
    var at := ItemsPicked(t.evidence, catalog);
  }

  /** The row that a step of work appends says what the execution was told. */
  lemma WorkSays(t: Turn, x: Exec, h: Heard, io: Io)
    requires EvidenceNumbered(t) && t.status == Running
    requires x.pc.StartRetrieval? || x.pc.ReportFruitless? || x.pc.ReportEvidence? || x.pc.ReportFound? || x.pc.PersistToken?
    ensures RowSays(t.evidence, WorkOf(t, x, io), Hear(h, x.pc, io).catalog)
  {
    ShownAre(t, io.catalog);
  }

  lemma WorkTexts(t: Turn, x: Exec, h: Heard, io: Io, e: Event, g: nat)
    requires x.pc.StartRetrieval? || x.pc.ReportFruitless? || x.pc.ReportEvidence? || x.pc.ReportFound?
             || (x.pc.PersistToken? && !io.reply.DatabaseRaised?)
    requires Caught(x, h.texts, DeltasBy(t.ledger, g)) && e.writer == g && e.payload == WorkOf(t, x, io)
    ensures Caught(NextExec(t, x, io, true), Hear(h, x.pc, io).texts, DeltasBy(t.ledger + [e], g))
  {
    DeltasBySnoc(t.ledger, e, g);
    if x.pc.PersistToken? {
      var front := h.texts[..|h.texts| - 1];
      assert h.texts == front + [x.pc.token];
      NonEmptySnoc(front, x.pc.token);
    } else {
      NoTokenCaught(x, h.texts, io, t, DeltasBy(t.ledger, g), true);
    }
  }

  lemma DeltaStays(before: seq<Event>, after: seq<Event>)
    requires before <= after && HasAnswerDelta(before)
    ensures HasAnswerDelta(after)
  {
    var i :| 0 <= i < |before| && before[i].payload.AnswerDelta?;
    assert after[i] == before[i];
  }

  lemma WorkFlows(t: Turn, x: Exec, h: Heard, io: Io, e: Event, g: nat)
    requires x.pc.StartRetrieval? || x.pc.ReportFruitless? || x.pc.ReportEvidence? || x.pc.ReportFound?
             || (x.pc.PersistToken? && !io.reply.DatabaseRaised?)
    requires Flows(t.key.route, t.ledger, x, g, h) && e.writer == g && e.payload == WorkOf(t, x, io)
    ensures Flows(t.key.route, t.ledger + [e], NextExec(t, x, io, true), g, Hear(h, x.pc, io))
  {
    StreamAfter(x, h, io, t, true);
    DeltasBySnoc(t.ledger, e, g);
  }

  lemma WorkHeeds(t: Turn, x: Exec, io: Io, g: nat, h: Heard)
    requires EvidenceNumbered(t) && t.status == Running && t.generation == g && x.generation == g && Heeds(t, x, g, h)
    requires x.pc.StartRetrieval? || x.pc.ReportFruitless? || x.pc.ReportEvidence? || x.pc.ReportFound?
             || (x.pc.PersistToken? && !io.reply.DatabaseRaised?)
    ensures Heeds(Step(t, x, io).row, Step(t, x, io).exec, g, Hear(h, x.pc, io))
  {
    var e := NewEvent(t, WorkOf(t, x, io), Some(g), io.eventId, io.now);
    WorkAppends(t, x, io);
    WorkTexts(t, x, h, io, e, g);
    MindsAfter(x, h, io, t, true);
    WorkFlows(t, x, h, io, e, g);
    ReportsAfter(x, io, t, true);
    RowsSayAfter(t.evidence, t.ledger, g, h, x.pc, io);
    WorkSays(t, x, h, io);
    RowsSaySnoc(t.evidence, t.ledger, e, g, Hear(h, x.pc, io).catalog);
  }

  lemma {:induction false} OpeningShowsNothing(ledger: seq<Event>, i: nat)
    requires (Scan(ledger).Empty? || Scan(ledger).Opened?) && i < |ledger|
    ensures ledger[i].payload.TurnAccepted?
  {
    var front := ledger[..|ledger| - 1];
    if i < |front| {
      OpeningShowsNothing(front, i);
      assert front[i] == ledger[i];
    }
  }

  /** A live ledger in which Evidence was shown or announced has Evidence behind it. */
  lemma {:induction false} SeenInLedger(ledger: seq<Event>, i: nat)
    requires Live(Scan(ledger)) && i < |ledger|
    requires ledger[i].payload.EvidenceDelta? || (ledger[i].payload.RetrievalCompleted? && ledger[i].payload.result == EvidenceFound)
    ensures EvidenceSeen(Scan(ledger))
  {
    var front := ledger[..|ledger| - 1];
    if i < |front| {
      assert front[i] == ledger[i];
      if Live(Scan(front)) {
        SeenInLedger(front, i);
      } else {
        OpeningShowsNothing(front, i);
      }
    }
  }

  /** Before any Evidence is stored no row speaks of it. */
  lemma RowsSayBefore(t: Turn, evidence: seq<EvidenceRef>, g: nat, catalog: Catalog)
    requires LedgerSound(t) && t.status == Running && t.evidence == [] && RowsSay(t.evidence, t.ledger, g, catalog)
    ensures RowsSay(evidence, t.ledger, g, catalog)
  {
    forall i | 0 <= i < |t.ledger| && t.ledger[i].writer == g
      ensures RowSays(evidence, t.ledger[i].payload, catalog)
    {
      assert RowSays(t.evidence, t.ledger[i].payload, catalog);
      var p := t.ledger[i].payload;
      if p.EvidenceDelta? || (p.RetrievalCompleted? && p.result == EvidenceFound) {
        SeenInLedger(t.ledger, i);
      }
    }
  }

  lemma StoreHeeds(t: Turn, x: Exec, io: Io, g: nat, h: Heard)
    requires Current(t, x) && x.generation == g && Heeds(t, x, g, h) && x.pc.StoreEvidence?
    ensures Heeds(Step(t, x, io).row, Step(t, x, io).exec, g, Hear(h, x.pc, io))
  {
    if |io.refIds| != |x.pc.found| {
      QuietHeeds(t, x, io, true, g, h);
    } else {
      StoreStep(t, x, x.pc.found, io);
      if t.evidence != [] {
        QuietHeeds(t, x, io, false, g, h);
      } else {
        QuietHeeds(t, x, io, true, g, h);
        RowsSayBefore(t, Step(t, x, io).row.evidence, g, h.catalog);
      }
    }
  }

  /** The row that a finalizing transaction leaves, in terms of what it asks for. */
  predicate FinalOf(t: Turn, row: Turn, a: Action) {
    && row.evidence == t.evidence && row.key == t.key && row.generation == t.generation
    && |row.ledger| == |t.ledger| + 1 && row.ledger[..|t.ledger|] == t.ledger
    && (row.ledger[|t.ledger|].payload.TurnCompleted? || row.ledger[|t.ledger|].payload.TurnFailed?)
    && (a.CompleteAs? ==> row.status == Completed && row.stopReason == Some(a.stopReason) && row.budget == a.budget)
    && (a.FailAs? ==> row.status == Failed && row.errorCode == Some(a.code) && row.errorMessage == Some(a.message))
  }

  lemma FinalRow(t: Turn, a: Action, io: Io, g: nat)
    requires t.status == Running && t.generation == g && (a.CompleteAs? || a.FailAs?)
    ensures Perform(t, g, a, io).Success? && FinalOf(t, Perform(t, g, a, io).value.row, a)
  {
  }

  /** What a finalizing step may ask for, given what its execution was told. */
  predicate AsksAsTold(t: Turn, h: Heard, a: Action, ending: Option<StopReason>) {
    match a
    case CompleteAs(stopReason, _, budget) =>
      && ending == Some(stopReason)
      && budget == (if t.key.route == DirectLlm then Budget(0, 0, 0) else Budget(1, 1, 0))
      && (h.found.None? <==> t.key.route == DirectLlm)
      && (stopReason == StopDirectLlm || stopReason == StopGrounded ==> DeltaTexts(t.ledger) == NonEmpty(h.texts))
      && (stopReason == StopGrounded || stopReason == StopEvidenceOnly ==> h.found.Some? && h.found.value != [])
    case FailAs(code, message) =>
      && ending.None?
      && code == (if h.failure.Some? then h.failure.value.0 else "provider_failure")
      && message == (if h.failure.Some? then h.failure.value.1 else "The answer could not be completed.")
      && (h.failure.None? && h.end == StillOpen ==> HasAnswerDelta(t.ledger))
    case _ => false
  }

  lemma AnswerIsBlank(tokens: seq<string>, texts: seq<string>)
    requires tokens == NonEmpty(texts)
    ensures AnswerOf(tokens) == "" <==> Blank(Concat(texts))
  {
    NonEmptySpells(texts);
    BlankStripsToNothing(Concat(texts));
  }

  lemma ConcludesSo(t: Turn, x: Exec, io: Io, g: nat, h: Heard)
    requires Tracks(t, x) && Minds(t.key.route, x, h) && Caught(x, h.texts, DeltasBy(t.ledger, g))
    requires Flows(t.key.route, t.ledger, x, g, h) && x.pc.Conclude?
    ensures AsksAsTold(t, h, Decide(t, x, io), Ending(t.key.route, h, DeltasBy(t.ledger, g) != []))
  {
    AnswerIsBlank(x.tokens, h.texts);
  }

  lemma AsksSo(t: Turn, x: Exec, io: Io, g: nat, h: Heard)
    requires Tracks(t, x) && Minds(t.key.route, x, h) && Caught(x, h.texts, DeltasBy(t.ledger, g))
    requires Flows(t.key.route, t.ledger, x, g, h)
    requires x.pc.CompleteFruitless? || x.pc.Conclude? || x.pc.ProviderFailed? || x.pc.FailWith?
    ensures AsksAsTold(t, h, Decide(t, x, io), Ending(t.key.route, h, DeltasBy(t.ledger, g) != []))
  {
    if x.pc.Conclude? { ConcludesSo(t, x, io, g, h); }
  }

  lemma FinalLedger(t: Turn, row: Turn, a: Action, g: nat, catalog: Catalog)
    requires FinalOf(t, row, a) && RowsSay(t.evidence, t.ledger, g, catalog)
    ensures DeltasBy(row.ledger, g) == DeltasBy(t.ledger, g) && DeltaTexts(row.ledger) == DeltaTexts(t.ledger)
    ensures RowsSay(row.evidence, row.ledger, g, catalog)
  {
    var e := row.ledger[|t.ledger|];
    assert row.ledger == t.ledger + [e];
    AppendedDeltas(t, e, g);
    RowsSaySnoc(t.evidence, t.ledger, e, g, catalog);
    ScanSnoc(t.ledger, e);
  }

  lemma FinalEnds(t: Turn, row: Turn, a: Action, g: nat, h: Heard)
    requires FinalOf(t, row, a) && AsksAsTold(t, h, a, Ending(t.key.route, h, DeltasBy(t.ledger, g) != []))
    requires DeltaTexts(row.ledger) == DeltaTexts(t.ledger) && DeltasBy(row.ledger, g) == DeltasBy(t.ledger, g) && g == t.generation
    ensures EndsAs(row, h)
  {
    if HasAnswerDelta(t.ledger) { DeltaStays(t.ledger, row.ledger); }
  }

  lemma FinalRowHeeds(t: Turn, row: Turn, x: Exec, io: Io, a: Action, g: nat, h: Heard)
    requires FinalOf(t, row, a) && AsksAsTold(t, h, a, Ending(t.key.route, h, DeltasBy(t.ledger, g) != []))
    requires Heeds(t, x, g, h) && g == t.generation
    requires x.pc.CompleteFruitless? || x.pc.Conclude? || x.pc.ProviderFailed? || x.pc.FailWith?
    ensures Heeds(row, x.(pc := Stopped), g, h)
  {
    FinalLedger(t, row, a, g, h.catalog);
    FinalEnds(t, row, a, g, h);
  }

  lemma FinalStepIs(t: Turn, x: Exec, io: Io, a: Action)
    requires t.status == Running && t.generation == x.generation && a == Decide(t, x, io)
    requires x.pc.CompleteFruitless? || x.pc.Conclude? || x.pc.ProviderFailed? || x.pc.FailWith?
    ensures FinalOf(t, Step(t, x, io).row, a) && Step(t, x, io).exec == x.(pc := Stopped)
  {
    FinalActions(t, x, io);
    FinalRow(t, a, io, x.generation);
  }

  lemma FinalHeeds(t: Turn, x: Exec, io: Io, g: nat, h: Heard)
    requires t.status == Running && t.generation == g && Tracks(t, x) && x.generation == g && Heeds(t, x, g, h)
    requires x.pc.CompleteFruitless? || x.pc.Conclude? || x.pc.ProviderFailed? || x.pc.FailWith?
    ensures Heeds(Step(t, x, io).row, Step(t, x, io).exec, g, Hear(h, x.pc, io))
  {
    FinalStepIs(t, x, io, Decide(t, x, io));
    AsksSo(t, x, io, g, h);
    FinalRowHeeds(t, Step(t, x, io).row, x, io, Decide(t, x, io), g, h);
  }

  lemma OwnHeeds(t: Turn, x: Exec, io: Io, g: nat, h: Heard)
    requires Current(t, x) && x.generation == g && Heeds(t, x, g, h)
    ensures Heeds(Step(t, x, io).row, Step(t, x, io).exec, g, Hear(h, x.pc, io))
  {
    if x.pc.StartRetrieval? || x.pc.ReportFruitless? || x.pc.ReportEvidence? || x.pc.ReportFound?
       || (x.pc.PersistToken? && !io.reply.DatabaseRaised?) {
      WorkHeeds(t, x, io, g, h);
    } else if x.pc.StoreEvidence? {
      StoreHeeds(t, x, io, g, h);
    } else if x.pc.CompleteFruitless? || x.pc.Conclude? || x.pc.ProviderFailed? || x.pc.FailWith? {
      FinalHeeds(t, x, io, g, h);
    } else {
      assert Step(t, x, io) == StepResult(t, NextExec(t, x, io, true), false);
      QuietHeeds(t, x, io, true, g, h);
    }
  }

  // ------------------------------------------------------------- everybody else's steps

  lemma RowsSaySame(t: Turn, u: Turn, g: nat, catalog: Catalog)
    requires RowsSay(t.evidence, t.ledger, g, catalog)
    requires LedgerSound(t) && t.status == Running && (u.evidence == t.evidence || t.evidence == [])
    requires t.ledger <= u.ledger && forall i :: |t.ledger| <= i < |u.ledger| ==> u.ledger[i].writer != g
    ensures RowsSay(u.evidence, u.ledger, g, catalog)
  {
    if u.evidence != t.evidence { RowsSayBefore(t, u.evidence, g, catalog); }
    forall i | 0 <= i < |u.ledger| && u.ledger[i].writer == g
      ensures RowSays(u.evidence, u.ledger[i].payload, catalog)
    {
      assert u.ledger[i] == t.ledger[i];
    }
  }

  lemma {:induction false} DeltasBySame(before: seq<Event>, after: seq<Event>, g: nat)
    requires before <= after && forall i :: |before| <= i < |after| ==> after[i].writer != g
    ensures DeltasBy(after, g) == DeltasBy(before, g)
    decreases |after|
  {
    if |after| == |before| {
      assert after == before;
    } else {
      DeltasBySame(before, after[..|after| - 1], g);
    }
  }

  /** Rows of other writers leave what this generation was told in force, while the turn runs on or is cancelled. */
  lemma OthersHeed(t: Turn, u: Turn, x: Exec, g: nat, h: Heard)
    requires Heeds(t, x, g, h) && LedgerSound(t) && t.status == Running && u.key == t.key
    requires u.evidence == t.evidence || t.evidence == []
    requires t.ledger <= u.ledger && forall i :: |t.ledger| <= i < |u.ledger| ==> u.ledger[i].writer != g
    requires g == u.generation ==> u.status != Completed && u.status != Failed
    ensures Heeds(u, x, g, h)
  {
    DeltasBySame(t.ledger, u.ledger, g);
    RowsSaySame(t, u, g, h.catalog);
    if HasAnswerDelta(t.ledger) { DeltaStays(t.ledger, u.ledger); }
  }

  /** What the current generation's step does to a running row. */
  lemma PerformAdds(t: Turn, generation: nat, a: Action, io: Io)
    requires EvidenceNumbered(t) && t.status == Running && (a.StoreRefs? ==> a.found != [])
    ensures var r := Perform(t, generation, a, io);
      r.Success? ==>
        && r.value.row.key == t.key && r.value.row.generation == t.generation && t.ledger <= r.value.row.ledger
        && (r.value.row.evidence == t.evidence || t.evidence == [])
        && forall i :: |t.ledger| <= i < |r.value.row.ledger| ==> r.value.row.ledger[i].writer == generation
  {
    if a.StoreRefs? && |io.refIds| == |a.found| && t.evidence != [] && t.generation == generation {
      SecondStoreAborts(t, a.found, io.refIds, generation, io.now);
    }
  }

  lemma OtherExecutes(t: Turn, y: Exec, io: Io, x: Exec, g: nat, h: Heard)
    requires RowSound(t) && y.generation != g && (t.status == Running && y.generation == t.generation ==> Tracks(t, y))
    requires Heeds(t, x, g, h)
    ensures Heeds(Step(t, y, io).row, x, g, h)
  {
    if t.status != Running || y.generation != t.generation {
      StaleStepIsInert(t, y, io);
    } else {
      PerformAdds(t, y.generation, Decide(t, y, io), io);
      OthersHeed(t, Step(t, y, io).row, x, g, h);
    }
  }
}
