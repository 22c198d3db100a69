/** Every committed transaction on one turn row, as a function of the row.
    A transaction that raises is a Failure and leaves the row as it was. */
module TurnRow {
  import opened Basics
  import opened TurnTypes

  datatype TurnError = TerminalTurn | LeaseLost | UniqueViolation

  /** The row after a committed transaction, and whether the transaction bumped the conversation version. */
  datatype Commit = Commit(row: Turn, bumped: bool)

  // ---------------------------------------------------------------- ledger

  function MaxSequence(ledger: seq<Event>): (m: nat)
    ensures forall e :: e in ledger ==> e.sequence <= m
  {
    if ledger == [] then 0
    else
      var m := MaxSequence(ledger[..|ledger| - 1]);
      var last := ledger[|ledger| - 1].sequence;
      if last > m then last else m
  }

  /** The event types a turn that is no longer running still accepts. */
  predicate AllowedWhenClosed(status: Status, t: EventType) {
    match status
    case Running => true
    case Completed => t == CompletedEvent || t == RedactedEvent
    case Failed => t == FailedEvent || t == RedactedEvent
    case Cancelled => t == CancelledEvent || t == RedactedEvent
    case Redacted => t == RedactedEvent
  }

  function Fenced(t: Turn, generation: Option<nat>): bool {
    generation.Some? && t.generation != generation.value
  }

  function WriterOf(generation: Option<nat>): nat {
    if generation.Some? then generation.value else 0
  }

  function NewEvent(t: Turn, payload: Payload, generation: Option<nat>, id: string, now: int): Event {
    Event(id, MaxSequence(t.ledger) + 1, payload, Sha256(payload), now, WriterOf(generation))
  }

  function PersistEvent(t: Turn, payload: Payload, generation: Option<nat>, id: string, now: int): Result<Turn, TurnError> {
    if !AllowedWhenClosed(t.status, TypeOf(payload)) then Failure(TerminalTurn)
    else if Fenced(t, generation) then Failure(LeaseLost)
    else Success(t.(ledger := t.ledger + [NewEvent(t, payload, generation, id, now)]))
  }

  /** True while this executor may still append non-terminal work. */
  predicate FenceOpen(t: Turn, generation: Option<nat>) {
    t.status == Running && !Fenced(t, generation)
  }

  predicate HasAnswerDelta(ledger: seq<Event>) {
    exists i :: 0 <= i < |ledger| && ledger[i].payload.AnswerDelta?
  }

  // ------------------------------------------------------------ projections

  function Unredacted(refs: seq<EvidenceRef>): seq<EvidenceRef> {
    if refs == [] then []
    else Unredacted(refs[..|refs| - 1]) +
         (if refs[|refs| - 1].redactedAt.None? then [refs[|refs| - 1]] else [])
  }

  /** Evidence rows are kept in evidence_order, the order in which they are inserted. */
  function PublicEvidenceRefs(t: Turn): seq<EvidenceRef> {
    if t.status == Redacted then [] else Unredacted(t.evidence)
  }

  function UnredactedAccepted(refs: seq<AcceptedRef>): seq<AcceptedRef> {
    if refs == [] then []
    else UnredactedAccepted(refs[..|refs| - 1]) +
         (if refs[|refs| - 1].redactedAt.None? then [refs[|refs| - 1]] else [])
  }

  function PublicComposerRefs(t: Turn): seq<AcceptedRef> {
    if t.status == Redacted then [] else UnredactedAccepted(t.accepted)
  }

  function PublicAnswer(t: Turn): Option<string> {
    if t.status == Running || t.status == Failed || t.status == Redacted then None
    else if t.stopReason == Some(StopNoGroundedContext) || t.stopReason == Some(StopEvidenceOnly) then None
    else t.answer
  }

  function ItemOf(ref: EvidenceRef, catalog: Catalog): Option<EvidenceItem> {
    if ref.citationLabel.Some? && ref.sourceLabel.Some? && ref.excerpt.Some?
       && (ref.sourceId, ref.blockId) in catalog
    then Some(EvidenceItem(ref.publicRef, ref.citationLabel.value, ref.sourceLabel.value,
                           ref.excerpt.value, catalog[(ref.sourceId, ref.blockId)]))
    else None
  }

  function ItemsOf(refs: seq<EvidenceRef>, catalog: Catalog): seq<EvidenceItem> {
    if refs == [] then []
    else
      var item := ItemOf(refs[|refs| - 1], catalog);
      ItemsOf(refs[..|refs| - 1], catalog) + (if item.Some? then [item.value] else [])
  }

  function CitationsOf(refs: seq<EvidenceRef>): seq<Citation> {
    if refs == [] then []
    else
      var last := refs[|refs| - 1];
      CitationsOf(refs[..|refs| - 1]) +
      (if last.citationLabel.Some? then [Citation(last.publicRef, last.citationLabel.value)] else [])
  }

  function AcceptedItemsOf(refs: seq<AcceptedRef>): seq<AcceptedItem> {
    seq(|refs|, i requires 0 <= i < |refs| =>
      AcceptedItem(refs[i].publicRef, refs[i].kind, refs[i].order, refs[i].safeLabel, refs[i].safeDescription))
  }

  function CompletedPayload(t: Turn, replay: bool): Payload {
    TurnCompleted(t.key.route, t.stopReason, CitationsOf(PublicEvidenceRefs(t)),
                  AcceptedItemsOf(PublicComposerRefs(t)), t.budget, replay)
  }

  // ------------------------------------------------------ Evidence persistence

  function CitationLabel(order: nat): string { "[" + Decimal(order) + "]" }

  function NewEvidenceRefs(evidence: seq<Mapped>, publicRefs: seq<string>): seq<EvidenceRef>
    requires |publicRefs| == |evidence|
  {
    seq(|evidence|, i requires 0 <= i < |evidence| =>
      EvidenceRef(publicRefs[i], i + 1, evidence[i].sourceId, evidence[i].blockId,
                  Some(CitationLabel(i + 1)), Some(evidence[i].sourceLabel), Some(evidence[i].excerpt), None))
  }

  /** Stored Evidence, field by field, is what was found and the references drawn for it. */
  predicate EvidenceIs(evidence: seq<EvidenceRef>, found: seq<Mapped>, refIds: seq<string>) {
    && |evidence| == |found| == |refIds|
    && forall i :: 0 <= i < |evidence| ==>
         && evidence[i].publicRef == refIds[i]
         && evidence[i].order == i + 1
         && evidence[i].sourceId == found[i].sourceId
         && evidence[i].blockId == found[i].blockId
         && evidence[i].citationLabel == Some("[" + Decimal(i + 1) + "]")
         && evidence[i].sourceLabel == Some(found[i].sourceLabel)
         && evidence[i].excerpt == Some(found[i].excerpt)
         && evidence[i].redactedAt.None?
  }

  lemma NewRefsAre(found: seq<Mapped>, refIds: seq<string>)
    requires |refIds| == |found|
    ensures EvidenceIs(NewEvidenceRefs(found, refIds), found, refIds)
  {
  }

  /** The two unique indexes over (turn, order) and, while not redacted, (turn, citation label). */
  predicate EvidenceIndexHolds(refs: seq<EvidenceRef>) {
    && (forall i, j :: 0 <= i < j < |refs| ==> refs[i].order != refs[j].order)
    && (forall i, j :: 0 <= i < j < |refs| && refs[i].redactedAt.None? && refs[j].redactedAt.None?
                       && refs[i].citationLabel.Some? && refs[j].citationLabel.Some?
                       ==> refs[i].citationLabel != refs[j].citationLabel)
  }

  function PersistEvidenceRefs(t: Turn, evidence: seq<Mapped>, publicRefs: seq<string>, generation: Option<nat>, now: int)
    : Result<Commit, TurnError>
    requires |publicRefs| == |evidence|
  {
    if t.status != Running || Fenced(t, generation) then Success(Commit(t, false))
    else
      var refs := t.evidence + NewEvidenceRefs(evidence, publicRefs);
      if !EvidenceIndexHolds(refs) then Failure(UniqueViolation)
      else
        var operations := if t.budget.retrievalOperations > 1 then t.budget.retrievalOperations else 1;
        Success(Commit(t.(evidence := refs, budget := t.budget.(retrievalOperations := operations), updatedAt := now), true))
  }

  // -------------------------------------------------------------- finalization

  /** Compare-and-set: only a running turn of this generation is finalized. */
  predicate MayFinalize(t: Turn, generation: Option<nat>) {
    t.status == Running && !Fenced(t, generation)
  }

  function Finalized(t: Turn, status: Status, stopReason: StopReason, answer: Option<string>,
                     code: Option<string>, message: Option<string>, now: int): Turn {
    t.(status := status, stopReason := Some(stopReason), answer := answer,
       errorCode := code, errorMessage := message,
       completedAt := Some(now), updatedAt := now,
       leaseOwner := None, leaseExpiresAt := None, claimableAt := None)
  }

  /** Finalize and append the terminal event in one transaction; a lost compare-and-set commits nothing. */
  function FinalizeWith(t: Turn, after: Turn, payload: Payload, generation: Option<nat>, id: string, now: int): Commit {
    if !MayFinalize(t, generation) then Commit(t, false)
    else
      var appended := PersistEvent(after, payload, generation, id, now);
      if appended.Failure? then Commit(t, false) else Commit(appended.value, true)
  }

  function CompleteTurn(t: Turn, stopReason: StopReason, answer: Option<string>, budget: Budget,
                        generation: Option<nat>, id: string, now: int): Commit {
    var after := Finalized(t, Completed, stopReason, answer, None, None, now).(budget := budget);
    FinalizeWith(t, after, CompletedPayload(after, false), generation, id, now)
  }

  function FailTurn(t: Turn, code: string, message: string, generation: Option<nat>, id: string, now: int): Commit {
    var after := Finalized(t, Failed, StopProviderFailure, None, Some(code), Some(message), now);
    FinalizeWith(t, after, TurnFailed(code, message, false), generation, id, now)
  }

  function CancelRunningTurn(t: Turn, id: string, now: int): Commit {
    var after := Finalized(t, Cancelled, StopCancelled, None,
                           Some(TURN_CANCELLED_CODE), Some(SAFE_TURN_CANCELLED_MESSAGE), now);
    FinalizeWith(t, after, TurnCancelled(TURN_CANCELLED_CODE, SAFE_TURN_CANCELLED_MESSAGE, false), None, id, now)
  }

  // ----------------------------------------------------------------- redaction

  function OrElse(v: Option<int>, now: int): Option<int> {
    if v.Some? then v else Some(now)
  }

  function RedactedRef(ref: EvidenceRef, now: int): EvidenceRef {
    ref.(redactedAt := OrElse(ref.redactedAt, now), citationLabel := None, sourceLabel := None, excerpt := None)
  }

  function RedactedAccepted(ref: AcceptedRef, now: int): AcceptedRef {
    ref.(redactedAt := OrElse(ref.redactedAt, now), safeLabel := None, safeDescription := None)
  }

  function RedactedRefs(refs: seq<EvidenceRef>, now: int): seq<EvidenceRef> {
    seq(|refs|, i requires 0 <= i < |refs| => RedactedRef(refs[i], now))
  }

  function RedactedAcceptedRefs(refs: seq<AcceptedRef>, now: int): seq<AcceptedRef> {
    seq(|refs|, i requires 0 <= i < |refs| => RedactedAccepted(refs[i], now))
  }

  function Sanitized(p: Payload): Payload {
    match p
    case AnswerDelta(_) => AnswerDelta("")
    case EvidenceDelta(_) => EvidenceDelta([])
    case TurnCompleted(_, _, _, _, _, _) => p.(citations := [], acceptedRefs := [])
    case _ => p
  }

  function SanitizedEvent(e: Event): Event {
    if e.payload.AnswerDelta? || e.payload.EvidenceDelta? || e.payload.TurnCompleted? then
      e.(payload := Sanitized(e.payload), digest := Sha256(Sanitized(e.payload)))
    else e
  }

  function SanitizedLedger(ledger: seq<Event>): seq<Event> {
    seq(|ledger|, i requires 0 <= i < |ledger| => SanitizedEvent(ledger[i]))
  }

  function ErasedColumns(t: Turn, now: int): Turn {
    t.(status := Redacted, stopReason := Some(StopRedacted), answer := None,
       errorCode := None, errorMessage := None,
       completedAt := OrElse(t.completedAt, now), updatedAt := now)
  }

  /** The turn with every secret gone, before the redaction itself is recorded. */
  function ErasedTurn(t: Turn, now: int): Turn {
    ErasedColumns(t, now).(
      evidence := RedactedRefs(t.evidence, now), accepted := RedactedAcceptedRefs(t.accepted, now),
      ledger := SanitizedLedger(t.ledger))
  }

  function RedactTurn(t: Turn, id: string, now: int): Commit {
    if t.status == Redacted then Commit(t, false)
    else Commit(PersistEvent(ErasedTurn(t, now), TurnRedacted(now), None, id, now).value, true)
  }

  // --------------------------------------------------------------------- lease

  predicate Claimable(t: Turn, now: int) {
    && t.status == Running
    && t.claimableAt.Some? && t.claimableAt.value <= now
    && (t.leaseExpiresAt.None? || t.leaseExpiresAt.value < now)
  }

  function ClaimTurn(t: Turn, owner: string, leaseSeconds: nat, now: int): Turn
    requires Claimable(t, now)
  {
    t.(leaseOwner := Some(owner), leaseExpiresAt := Some(now + leaseSeconds),
       generation := t.generation + 1, updatedAt := now)
  }

  predicate LeaseCurrent(t: Turn, owner: string, generation: nat, now: int) {
    && t.status == Running
    && t.leaseOwner == Some(owner)
    && t.generation == generation
    && t.leaseExpiresAt.Some? && t.leaseExpiresAt.value >= now
  }

  function HeartbeatLease(t: Turn, owner: string, generation: nat, leaseSeconds: nat, now: int): Turn {
    if LeaseCurrent(t, owner, generation, now)
    then t.(leaseExpiresAt := Some(now + leaseSeconds), updatedAt := now)
    else t
  }

  // ----------------------------------------------------------------- insertion

  /** A freshly inserted turn: accepted refs and the accepted/route prefix are durable before it is claimable. */
  function InsertedTurn(key: TurnKey, refs: seq<AcceptedRef>, id0: string, id1: string, now: int): Turn {
    var bare := Turn(key, Running, None, None, None, None, Budget(0, 0, 0),
                     None, None, None, 0, None, now, [], refs, []);
    var accepted := bare.(ledger := [NewEvent(bare, TurnAccepted(key.conversationRef, key.clientRequestId, false), None, id0, now)]);
    var routed := accepted.(ledger := accepted.ledger +
      [NewEvent(accepted, RouteSelected(key.route, key.domainId), None, id1, now)]);
    routed.(claimableAt := Some(now))
  }

  // ---------------------------------------------------------------- public DTO

  datatype AcceptedDto = AcceptedDto(id: string, kind: RefKind, order: nat, refLabel: string, description: Option<string>)

  function AcceptedDtos(refs: seq<AcceptedRef>): seq<AcceptedDto> {
    if refs == [] then []
    else
      var last := refs[|refs| - 1];
      AcceptedDtos(refs[..|refs| - 1]) +
      (if last.safeLabel.Some? then [AcceptedDto(last.publicRef, last.kind, last.order, last.safeLabel.value, last.safeDescription)]
       else [])
  }

  /** What the conversation detail shows of a turn, apart from the joined source, block and domain rows. */
  datatype TurnDto = TurnDto(
    id: string, clientRequestId: string, route: Route, status: Status, domainId: Option<string>,
    userMessage: string, answer: Option<string>, evidence: seq<EvidenceRef>,
    acceptedRefs: seq<AcceptedDto>, error: Option<(string, string)>,
    createdAt: int, completedAt: Option<int>)

  function SafeError(t: Turn): Option<(string, string)> {
    if t.errorCode.Some? && t.errorMessage.Some? && t.errorCode.value != "" && t.errorMessage.value != ""
    then Some((t.errorCode.value, t.errorMessage.value))
    else None
  }

  function ProjectTurn(t: Turn): TurnDto {
    TurnDto(t.key.publicRef, t.key.clientRequestId, t.key.route, t.status, t.key.domainId,
            t.key.userMessage, PublicAnswer(t), PublicEvidenceRefs(t),
            if t.status == Redacted then [] else AcceptedDtos(PublicComposerRefs(t)),
            if t.status == Redacted then None else SafeError(t),
            t.key.createdAt, t.completedAt)
  }
}
