/** A redaction erases: what is left of a turn does not depend on its answer, its Evidence text or its
    accepted-ref labels, while every ledger row keeps its identity, position, type and a matching digest. */
module Redaction {
  import opened Basics
  import opened TurnTypes
  import opened TurnRow
  import opened Ledger
  import opened TurnInvariant

  /** Two payloads that may differ only in answer text, Evidence items, citations or accepted refs. */
  predicate PayloadsAgree(p: Payload, q: Payload) {
    match p
    case AnswerDelta(_) => q.AnswerDelta?
    case EvidenceDelta(_) => q.EvidenceDelta?
    case TurnCompleted(route, stopReason, _, _, budget, replay) =>
      q.TurnCompleted? && q.completedRoute == route && q.stopReason == stopReason && q.budget == budget && q.replay == replay
    case _ => p == q
  }

  predicate EventsAgree(e: Event, f: Event) {
    && e.id == f.id && e.sequence == f.sequence && e.occurredAt == f.occurredAt && e.writer == f.writer
    && PayloadsAgree(e.payload, f.payload)
  }

  predicate EvidenceAgrees(r: EvidenceRef, q: EvidenceRef) {
    r.publicRef == q.publicRef && r.order == q.order && r.sourceId == q.sourceId && r.blockId == q.blockId && r.redactedAt == q.redactedAt
  }

  predicate AcceptedAgrees(r: AcceptedRef, q: AcceptedRef) {
    r.publicRef == q.publicRef && r.order == q.order && r.kind == q.kind && r.targetId == q.targetId && r.redactedAt == q.redactedAt
  }

  /** Two turns that may differ only in answer text, Evidence text and accepted-ref labels (and, since a
      redaction blanks those too, in the errors and the stop reason they show). */
  predicate AgreeButSecrets(t: Turn, u: Turn) {
    && t.key == u.key && t.status == u.status && t.budget == u.budget
    && t.leaseOwner == u.leaseOwner && t.leaseExpiresAt == u.leaseExpiresAt && t.claimableAt == u.claimableAt
    && t.generation == u.generation && t.completedAt == u.completedAt
    && |t.evidence| == |u.evidence| && (forall i :: 0 <= i < |t.evidence| ==> EvidenceAgrees(t.evidence[i], u.evidence[i]))
    && |t.accepted| == |u.accepted| && (forall i :: 0 <= i < |t.accepted| ==> AcceptedAgrees(t.accepted[i], u.accepted[i]))
    && |t.ledger| == |u.ledger| && (forall i :: 0 <= i < |t.ledger| ==> EventsAgree(t.ledger[i], u.ledger[i]))
  }

  lemma SanitizedAgree(e: Event, f: Event)
    requires EventsAgree(e, f) && e.digest == Sha256(e.payload) && f.digest == Sha256(f.payload)
    ensures SanitizedEvent(e) == SanitizedEvent(f)
  {
  }

  lemma SanitizedLedgersAgree(ledger: seq<Event>, other: seq<Event>)
    requires DigestsMatch(ledger) && DigestsMatch(other)
    requires |ledger| == |other| && (forall i :: 0 <= i < |ledger| ==> EventsAgree(ledger[i], other[i]))
    ensures SanitizedLedger(ledger) == SanitizedLedger(other)
  {
    forall i | 0 <= i < |ledger|
      ensures SanitizedLedger(ledger)[i] == SanitizedLedger(other)[i]
    {
      SanitizedAgree(ledger[i], other[i]);
    }
  }

  /** Redaction erases: from two turns that agree on everything but the secrets it leaves one and the same
      row, so every projection, stored event and replay of it is the same. */
  lemma RedactionErasesSecrets(t: Turn, u: Turn, id: string, now: int)
    requires t.status != Redacted && AgreeButSecrets(t, u)
    requires DigestsMatch(t.ledger) && DigestsMatch(u.ledger)
    ensures RedactTurn(t, id, now).row == RedactTurn(u, id, now).row
  {
    SanitizedLedgersAgree(t.ledger, u.ledger);
    var a, b := RedactTurn(t, id, now).row, RedactTurn(u, id, now).row;
    assert a.ledger[..|t.ledger|] == SanitizedLedger(t.ledger) == b.ledger[..|t.ledger|];
    assert MaxSequence(SanitizedLedger(t.ledger)) == MaxSequence(SanitizedLedger(u.ledger));
    assert a.ledger == b.ledger;
    assert a.evidence == b.evidence;
    assert a.accepted == b.accepted;
  }

  /** The same row, holding none of the secrets and otherwise saying what it said. */
  predicate Blanked(e: Event, f: Event) {
    && f.id == e.id && f.sequence == e.sequence && f.occurredAt == e.occurredAt && f.writer == e.writer
    && match e.payload
       case AnswerDelta(_) => f.payload == AnswerDelta("")
       case EvidenceDelta(_) => f.payload == EvidenceDelta([])
       case TurnCompleted(route, stopReason, _, _, budget, replay) =>
         f.payload == TurnCompleted(route, stopReason, [], [], budget, replay)
       case _ => f == e
  }

  lemma SanitizingBlanks(ledger: seq<Event>)
    ensures forall k :: 0 <= k < |ledger| ==> Blanked(ledger[k], SanitizedLedger(ledger)[k])
  {
  }

  /** What a redaction leaves of the ledger: the same rows, sanitized in place with fresh digests, and one
      turn.redacted row after them. */
  lemma RedactionKeepsRows(t: Turn, id: string, now: int)
    requires t.status != Redacted && Dense(t.ledger) && DigestsMatch(t.ledger)
    ensures var ledger := RedactTurn(t, id, now).row.ledger;
      && |ledger| == |t.ledger| + 1 && Dense(ledger) && DigestsMatch(ledger)
      && ledger[|t.ledger|].payload == TurnRedacted(now) && ledger[|t.ledger|].id == id
      && forall k :: 0 <= k < |t.ledger| ==> Blanked(t.ledger[k], ledger[k])
  {
    RedactResult(t, id, now);
    SanitizedRows(t.ledger);
    SanitizingBlanks(t.ledger);
    DenseMax(SanitizedLedger(t.ledger));
  }

  /** A stamp that is set once. */
  predicate Stamped(before: Option<int>, after: Option<int>, now: int) {
    after == if before.Some? then before else Some(now)
  }

  /** What a redaction leaves of a turn: its key, route, budget, lease and generation, and of every ref its
      identity, order and target, stamped and without its texts. */
  lemma RedactionKeepsRefs(t: Turn, id: string, now: int)
    requires t.status != Redacted
    ensures var u := RedactTurn(t, id, now).row;
      && u.key == t.key && u.budget == t.budget && u.generation == t.generation && u.status == Redacted
      && u.stopReason == Some(StopRedacted) && u.answer.None? && u.errorCode.None? && u.errorMessage.None?
      && u.leaseOwner == t.leaseOwner && u.leaseExpiresAt == t.leaseExpiresAt && u.claimableAt == t.claimableAt
      && Stamped(t.completedAt, u.completedAt, now) && u.updatedAt == now
      && |u.evidence| == |t.evidence| && |u.accepted| == |t.accepted|
      && (forall i :: 0 <= i < |t.evidence| ==>
            && u.evidence[i].publicRef == t.evidence[i].publicRef && u.evidence[i].order == t.evidence[i].order
            && u.evidence[i].sourceId == t.evidence[i].sourceId && u.evidence[i].blockId == t.evidence[i].blockId
            && u.evidence[i].citationLabel.None? && u.evidence[i].sourceLabel.None? && u.evidence[i].excerpt.None?
            && Stamped(t.evidence[i].redactedAt, u.evidence[i].redactedAt, now))
      && (forall i :: 0 <= i < |t.accepted| ==>
            && u.accepted[i].publicRef == t.accepted[i].publicRef && u.accepted[i].order == t.accepted[i].order
            && u.accepted[i].kind == t.accepted[i].kind && u.accepted[i].targetId == t.accepted[i].targetId
            && u.accepted[i].safeLabel.None? && u.accepted[i].safeDescription.None?
            && Stamped(t.accepted[i].redactedAt, u.accepted[i].redactedAt, now))
  {
    RedactResult(t, id, now);
  }
}
