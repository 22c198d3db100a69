/** The rows of a conversation turn: the turn itself, its Evidence refs, its accepted composer refs and its event ledger. */
module TurnTypes {
  import opened Basics

  const SAFE_PROVIDER_FAILURE_CODE := "provider_failure"
  const SAFE_PROVIDER_FAILURE_MESSAGE := "The answer could not be completed."
  const TURN_CANCELLED_CODE := "turn_cancelled"
  const SAFE_TURN_CANCELLED_MESSAGE := "The answer was cancelled."

  datatype Status = Running | Completed | Failed | Cancelled | Redacted

  datatype Route = DirectLlm | DomainRag

  datatype StopReason =
    | StopDirectLlm | StopGrounded | StopNoGroundedContext | StopEvidenceOnly
    | StopProviderFailure | StopCancelled | StopRedacted

  datatype Budget = Budget(planSteps: nat, retrievalOperations: nat, repairAttempts: nat)

  /** A retrieved block before it is stored (InternalMappedEvidence). */
  datatype Mapped = Mapped(sourceId: string, blockId: string, sourceLabel: string, excerpt: string)

  datatype EvidenceRef = EvidenceRef(
    publicRef: string, order: nat, sourceId: string, blockId: string,
    citationLabel: Option<string>, sourceLabel: Option<string>, excerpt: Option<string>,
    redactedAt: Option<int>)

  datatype RefKind = SourceRef | EvidenceKindRef | TemplateRef

  datatype AcceptedRef = AcceptedRef(
    publicRef: string, order: nat, kind: RefKind, targetId: string,
    safeLabel: Option<string>, safeDescription: Option<string>,
    redactedAt: Option<int>)

  datatype EvidenceItem = EvidenceItem(
    id: string, citationLabel: string, sourceLabel: string, excerpt: string, anchor: string)

  datatype Citation = Citation(evidenceRefId: string, citationLabel: string)

  datatype AcceptedItem = AcceptedItem(
    id: string, kind: RefKind, order: nat, safeLabel: Option<string>, safeDescription: Option<string>)

  datatype RetrievalResult = EvidenceFound | NoGroundedContext

  /** What an event says. The constructor is the event type. */
  datatype Payload =
    | TurnAccepted(conversationId: string, clientRequestId: string, replay: bool)
    | RouteSelected(route: Route, domainId: Option<string>)
    | RetrievalStarted(attempt: nat, maxAttempts: nat)
    | EvidenceDelta(items: seq<EvidenceItem>)
    | RetrievalCompleted(result: RetrievalResult, evidenceCount: nat)
    | AnswerDelta(text: string)
    | TurnCompleted(completedRoute: Route, stopReason: Option<StopReason>, citations: seq<Citation>,
                    acceptedRefs: seq<AcceptedItem>, budget: Budget, replay: bool)
    | TurnFailed(code: string, message: string, replay: bool)
    | TurnCancelled(code: string, message: string, replay: bool)
    | TurnRedacted(redactedAt: int)

  datatype EventType =
    | Accepted | RouteChosen | SearchStarted | EvidenceShown | SearchFinished | Delta
    | CompletedEvent | FailedEvent | CancelledEvent | RedactedEvent

  function TypeOf(p: Payload): EventType {
    match p
    case TurnAccepted(_, _, _) => Accepted
    case RouteSelected(_, _) => RouteChosen
    case RetrievalStarted(_, _) => SearchStarted
    case EvidenceDelta(_) => EvidenceShown
    case RetrievalCompleted(_, _) => SearchFinished
    case AnswerDelta(_) => Delta
    case TurnCompleted(_, _, _, _, _, _) => CompletedEvent
    case TurnFailed(_, _, _) => FailedEvent
    case TurnCancelled(_, _, _) => CancelledEvent
    case TurnRedacted(_) => RedactedEvent
  }

  /** SHA-256 of the canonical JSON, as a free constructor: equal digests mean equal payloads. */
  datatype Digest = Sha256(payload: Payload)

  /** A ledger row. `writer` is a history annotation the database does not hold: the execution
      generation that appended the row, or 0 for a start, a cancellation or a redaction. */
  datatype Event = Event(
    id: string, sequence: nat, payload: Payload, digest: Digest, occurredAt: int, writer: nat)

  /** The columns of a turn that are written once, when it is inserted. */
  datatype TurnKey = TurnKey(
    publicRef: string, conversation: nat, conversationRef: string, clientRequestId: string,
    route: Route, domainId: Option<string>, userMessage: string,
    fingerprint: seq<string>, createdAt: int)

  datatype Turn = Turn(
    key: TurnKey,
    status: Status,
    stopReason: Option<StopReason>,
    answer: Option<string>,
    errorCode: Option<string>,
    errorMessage: Option<string>,
    budget: Budget,
    leaseOwner: Option<string>,
    leaseExpiresAt: Option<int>,
    claimableAt: Option<int>,
    generation: nat,
    completedAt: Option<int>,
    updatedAt: int,
    evidence: seq<EvidenceRef>,
    accepted: seq<AcceptedRef>,
    ledger: seq<Event>)

  /** For each (source, block) pair that still exists and projects to an anchor, that anchor. */
  type Catalog = map<(string, string), string>
}
