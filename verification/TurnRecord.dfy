/** The turn row as the service holds it: an object whose columns its transactions update in place.
    Each method is proved against the function of TurnRow that the protocol results are about. */
module TurnRecord {
  import opened Basics
  import opened TurnTypes
  import opened TurnRow
  import opened Ledger

  class ConversationTurn {
    const key: TurnKey
    var status: Status
    var stopReason: Option<StopReason>
    var answer: Option<string>
    var errorCode: Option<string>
    var errorMessage: Option<string>
    var budget: Budget
    var leaseOwner: Option<string>
    var leaseExpiresAt: Option<int>
    var claimableAt: Option<int>
    var generation: nat
    var completedAt: Option<int>
    var updatedAt: int
    var evidence: seq<EvidenceRef>
    var accepted: seq<AcceptedRef>
    var ledger: seq<Event>

    function Row(): Turn
      reads this
    {
      Turn(key, status, stopReason, answer, errorCode, errorMessage, budget,
           leaseOwner, leaseExpiresAt, claimableAt, generation, completedAt, updatedAt, evidence, accepted, ledger)
    }

    /** Insert a turn with its accepted refs, append the accepted/route prefix, and only then make it claimable. */
    constructor (key: TurnKey, refs: seq<AcceptedRef>, id0: string, id1: string, now: int)
      ensures Row() == InsertedTurn(key, refs, id0, id1, now)
    {
      this.key := key;
      status, stopReason, answer, errorCode, errorMessage := Running, None, None, None, None;
      budget := Budget(0, 0, 0);
      leaseOwner, leaseExpiresAt, claimableAt := None, None, None;
      generation, completedAt, updatedAt := 0, None, now;
      evidence, accepted, ledger := [], refs, [];
      new;
      var _ := PersistEvent(TurnAccepted(key.conversationRef, key.clientRequestId, false), None, id0, now);
      var _ := PersistEvent(RouteSelected(key.route, key.domainId), None, id1, now);
      claimableAt := Some(now);
    }

    /** max(sequence) over the ledger, or 0. */
    method LastSequence() returns (m: nat)
      ensures m == MaxSequence(ledger)
    {
      m := 0;
      for i := 0 to |ledger|
        invariant m == MaxSequence(ledger[..i])
      {
        assert ledger[..i + 1][..i] == ledger[..i];
        if ledger[i].sequence > m {
          m := ledger[i].sequence;
        }
      }
      assert ledger[..|ledger|] == ledger;
    }

    method PersistEvent(payload: Payload, executionGeneration: Option<nat>, id: string, now: int) returns (r: Option<TurnError>)
      modifies this`ledger
      ensures var specified := TurnRow.PersistEvent(old(Row()), payload, executionGeneration, id, now);
        if specified.Success? then r.None? && Row() == specified.value else r == Some(specified.error) && Row() == old(Row())
    {
      if status != Running && !AllowedWhenClosed(status, TypeOf(payload)) {
        return Some(TerminalTurn);
      }
      if executionGeneration.Some? && generation != executionGeneration.value {
        return Some(LeaseLost);
      }
      var last := LastSequence();
      var writer := if executionGeneration.Some? then executionGeneration.value else 0;
      ledger := ledger + [Event(id, last + 1, payload, Sha256(payload), now, writer)];
      return None;
    }

    /** Add one row per retrieved block, numbered from 1; the unique indexes are checked at commit. */
    method PersistEvidenceRefs(found: seq<Mapped>, publicRefs: seq<string>, executionGeneration: Option<nat>, now: int)
      returns (r: Result<bool, TurnError>)
      requires |publicRefs| == |found|
      modifies this`evidence, this`budget, this`updatedAt
      ensures var specified := TurnRow.PersistEvidenceRefs(old(Row()), found, publicRefs, executionGeneration, now);
        if specified.Success? then r == Success(specified.value.bumped) && Row() == specified.value.row
        else r == Failure(specified.error) && Row() == old(Row())
      ensures r == Success(true) ==> old(evidence) <= evidence && EvidenceIs(evidence[|old(evidence)|..], found, publicRefs)
    {
      if status != Running || (executionGeneration.Some? && generation != executionGeneration.value) {
        return Success(false);
      }
      var before := evidence;
      for index := 0 to |found|
        invariant evidence == before + NewEvidenceRefs(found, publicRefs)[..index]
        invariant Row() == old(Row()).(evidence := evidence)
      {
        evidence := evidence + [
          EvidenceRef(publicRefs[index], index + 1, found[index].sourceId, found[index].blockId,
                      Some("[" + Decimal(index + 1) + "]"), Some(found[index].sourceLabel), Some(found[index].excerpt), None)];
      }
      assert evidence == before + NewEvidenceRefs(found, publicRefs);
      assert evidence[|before|..] == NewEvidenceRefs(found, publicRefs);
      if !EvidenceIndexHolds(evidence) {
        evidence := before;
        return Failure(UniqueViolation);
      }
      if budget.retrievalOperations < 1 {
        budget := budget.(retrievalOperations := 1);
      }
      updatedAt := now;
      return Success(true);
    }

    /** The compare-and-set update of every finalization: false when the turn is closed or leased elsewhere. */
    method FinalizeIfRunning(newStatus: Status, newStopReason: StopReason, newAnswer: Option<string>,
                             code: Option<string>, message: Option<string>, executionGeneration: Option<nat>, now: int)
      returns (won: bool)
      modifies this
      ensures won == MayFinalize(old(Row()), executionGeneration)
      ensures Row() == if won then Finalized(old(Row()), newStatus, newStopReason, newAnswer, code, message, now) else old(Row())
    {
      if status != Running || (executionGeneration.Some? && generation != executionGeneration.value) {
        return false;
      }
      WriteFinal(newStatus, newStopReason, newAnswer, code, message, now);
      return true;
    }

    method SetOutcome(newStatus: Status, newStopReason: StopReason, newAnswer: Option<string>,
                      code: Option<string>, message: Option<string>)
      modifies this`status, this`stopReason, this`answer, this`errorCode, this`errorMessage
      ensures status == newStatus && stopReason == Some(newStopReason) && answer == newAnswer
      ensures errorCode == code && errorMessage == message
    {
      status, stopReason, answer := newStatus, Some(newStopReason), newAnswer;
      errorCode, errorMessage := code, message;
    }

    method WriteFinal(newStatus: Status, newStopReason: StopReason, newAnswer: Option<string>,
                      code: Option<string>, message: Option<string>, now: int)
      modifies this
      ensures Row() == Finalized(old(Row()), newStatus, newStopReason, newAnswer, code, message, now)
    {
      SetOutcome(newStatus, newStopReason, newAnswer, code, message);
      completedAt, updatedAt := Some(now), now;
      ClearLease();
    }

    method ClearLease()
      modifies this`leaseOwner, this`leaseExpiresAt, this`claimableAt
      ensures leaseOwner.None? && leaseExpiresAt.None? && claimableAt.None?
    {
      leaseOwner, leaseExpiresAt, claimableAt := None, None, None;
    }

    method CompleteTurn(reason: StopReason, text: Option<string>, counts: Budget, executionGeneration: Option<nat>, id: string, now: int)
      returns (bumped: bool)
      modifies this
      ensures Commit(Row(), bumped) == TurnRow.CompleteTurn(old(Row()), reason, text, counts, executionGeneration, id, now)
    {
      var won := FinalizeIfRunning(Completed, reason, text, None, None, executionGeneration, now);
      if !won {
        return false;
      }
      budget := counts;
      var failed := PersistEvent(CompletedPayload(Row(), false), executionGeneration, id, now);
      return true;
    }

    method FailTurn(code: string, message: string, executionGeneration: Option<nat>, id: string, now: int)
      returns (bumped: bool)
      modifies this
      ensures Commit(Row(), bumped) == TurnRow.FailTurn(old(Row()), code, message, executionGeneration, id, now)
    {
      var won := FinalizeIfRunning(Failed, StopProviderFailure, None, Some(code), Some(message), executionGeneration, now);
      if !won {
        return false;
      }
      var failed := PersistEvent(TurnFailed(code, message, false), executionGeneration, id, now);
      return true;
    }

    method CancelRunningTurn(id: string, now: int) returns (bumped: bool)
      modifies this
      ensures Commit(Row(), bumped) == TurnRow.CancelRunningTurn(old(Row()), id, now)
    {
      if status != Running {
        return false;
      }
      var won := FinalizeIfRunning(Cancelled, StopCancelled, None,
                                   Some(TURN_CANCELLED_CODE), Some(SAFE_TURN_CANCELLED_MESSAGE), None, now);
      var failed := PersistEvent(TurnCancelled(TURN_CANCELLED_CODE, SAFE_TURN_CANCELLED_MESSAGE, false), None, id, now);
      return true;
    }

    /** Rewrite the rows whose payloads carry answers or Evidence, one by one, with fresh digests. */
    method SanitizeEvents()
      modifies this`ledger
      ensures ledger == SanitizedLedger(old(ledger))
    {
      var before := ledger;
      for i := 0 to |before|
        invariant |ledger| == |before|
        invariant forall k :: 0 <= k < |before| ==> ledger[k] == if k < i then SanitizedEvent(before[k]) else before[k]
      {
        var row := ledger[i];
        if row.payload.AnswerDelta? {
          ledger := ledger[i := row.(payload := AnswerDelta(""), digest := Sha256(AnswerDelta("")))];
        } else if row.payload.EvidenceDelta? {
          ledger := ledger[i := row.(payload := EvidenceDelta([]), digest := Sha256(EvidenceDelta([])))];
        } else if row.payload.TurnCompleted? {
          var payload := row.payload.(citations := [], acceptedRefs := []);
          ledger := ledger[i := row.(payload := payload, digest := Sha256(payload))];
        }
      }
      assert ledger == SanitizedLedger(before);
    }

    method BlankEvidence(now: int)
      modifies this`evidence
      ensures evidence == RedactedRefs(old(evidence), now)
    {
      for i := 0 to |evidence|
        invariant |evidence| == |old(evidence)|
        invariant forall k :: 0 <= k < |evidence| ==> evidence[k] == if k < i then RedactedRef(old(evidence)[k], now) else old(evidence)[k]
      {
        var ref := evidence[i];
        evidence := evidence[i := ref.(redactedAt := if ref.redactedAt.Some? then ref.redactedAt else Some(now),
                                       citationLabel := None, sourceLabel := None, excerpt := None)];
      }
    }

    method BlankAccepted(now: int)
      modifies this`accepted
      ensures accepted == RedactedAcceptedRefs(old(accepted), now)
    {
      for i := 0 to |accepted|
        invariant |accepted| == |old(accepted)|
        invariant forall k :: 0 <= k < |accepted| ==> accepted[k] == if k < i then RedactedAccepted(old(accepted)[k], now) else old(accepted)[k]
      {
        var ref := accepted[i];
        accepted := accepted[i := ref.(redactedAt := if ref.redactedAt.Some? then ref.redactedAt else Some(now),
                                       safeLabel := None, safeDescription := None)];
      }
    }

    method EraseColumns(now: int)
      modifies this
      ensures Row() == ErasedColumns(old(Row()), now)
    {
      SetOutcome(Redacted, StopRedacted, None, None, None);
      completedAt, updatedAt := if completedAt.Some? then completedAt else Some(now), now;
    }

    method Erase(now: int)
      modifies this
      ensures Row() == ErasedTurn(old(Row()), now)
    {
      EraseColumns(now);
      BlankEvidence(now);
      BlankAccepted(now);
      SanitizeEvents();
    }

    method RedactTurn(id: string, now: int) returns (bumped: bool)
      modifies this
      ensures Row() == TurnRow.RedactTurn(old(Row()), id, now).row
      ensures bumped == (old(status) != Redacted)
    {
      if status == Redacted {
        return false;
      }
      Erase(now);
      var failed := PersistEvent(TurnRedacted(now), None, id, now);
      return true;
    }

    method ClaimTurn(owner: string, leaseSeconds: nat, now: int) returns (claimed: bool)
      modifies this`leaseOwner, this`leaseExpiresAt, this`generation, this`updatedAt
      ensures claimed == Claimable(old(Row()), now)
      ensures Row() == if Claimable(old(Row()), now) then TurnRow.ClaimTurn(old(Row()), owner, leaseSeconds, now) else old(Row())
    {
      if status != Running || claimableAt.None? || claimableAt.value > now
         || (leaseExpiresAt.Some? && leaseExpiresAt.value >= now) {
        return false;
      }
      leaseOwner := Some(owner);
      leaseExpiresAt := Some(now + leaseSeconds);
      generation := generation + 1;
      updatedAt := now;
      return true;
    }

    method HeartbeatTurnLease(owner: string, leaseSeconds: nat, executionGeneration: nat, now: int) returns (renewed: bool)
      modifies this`leaseExpiresAt, this`updatedAt
      ensures renewed == LeaseCurrent(old(Row()), owner, executionGeneration, now)
      ensures Row() == HeartbeatLease(old(Row()), owner, executionGeneration, leaseSeconds, now)
    {
      if status != Running || leaseOwner != Some(owner) || generation != executionGeneration
         || leaseExpiresAt.None? || leaseExpiresAt.value < now {
        return false;
      }
      leaseExpiresAt := Some(now + leaseSeconds);
      updatedAt := now;
      return true;
    }
  }

  /** How many of these turns a redaction changes. */
  function OpenCount(rows: seq<Turn>): nat {
    if rows == [] then 0
    else OpenCount(rows[..|rows| - 1]) + (if rows[|rows| - 1].status != Redacted then 1 else 0)
  }

  lemma OpenCountNext(rows: seq<Turn>, i: nat)
    requires i < |rows|
    ensures OpenCount(rows[..i + 1]) == OpenCount(rows[..i]) + (if rows[i].status != Redacted then 1 else 0)
  {
    assert rows[..i + 1][..i] == rows[..i];
  }

  function Rows(turns: seq<ConversationTurn>): (rows: seq<Turn>)
    reads turns
    ensures |rows| == |turns| && forall i :: 0 <= i < |turns| ==> rows[i] == turns[i].Row()
  {
    seq(|turns|, i requires 0 <= i < |turns| reads turns => turns[i].Row())
  }

  /** The rows that one redaction makes of others. */
  function RedactedRows(rows: seq<Turn>, ids: seq<string>, now: int): (redacted: seq<Turn>)
    requires |ids| == |rows|
    ensures |redacted| == |rows| && forall i :: 0 <= i < |rows| ==> redacted[i] == TurnRow.RedactTurn(rows[i], ids[i], now).row
  {
    seq(|rows|, i requires 0 <= i < |rows| => TurnRow.RedactTurn(rows[i], ids[i], now).row)
  }

  /** One turn of the batch; the others are other objects, so they stay as they are. */
  method RedactOne(turns: seq<ConversationTurn>, i: nat, id: string, now: int) returns (bumped: bool)
    requires i < |turns| && NoDuplicates(turns)
    modifies turns[i]
    ensures turns[i].Row() == TurnRow.RedactTurn(old(turns[i].Row()), id, now).row
    ensures bumped == (old(turns[i].Row()).status != Redacted)
    ensures forall k :: 0 <= k < |turns| && k != i ==> turns[k].Row() == old(turns[k].Row())
  {
    bumped := turns[i].RedactTurn(id, now);
    assert forall k :: 0 <= k < |turns| && k != i ==> turns[k] != turns[i];
  }

  /** _redact_turns: one transaction over a list of turns, already redacted ones skipped. */
  method RedactTurns(turns: seq<ConversationTurn>, ids: seq<string>, now: int) returns (changed: nat)
    requires |ids| == |turns| && NoDuplicates(turns)
    modifies turns
    ensures Rows(turns) == RedactedRows(old(Rows(turns)), ids, now)
    ensures changed == OpenCount(old(Rows(turns)))
  {
    changed := 0;
    ghost var before := Rows(turns);
    for i := 0 to |turns|
      invariant forall k :: 0 <= k < i ==> turns[k].Row() == RedactedRows(before, ids, now)[k]
      invariant forall k :: i <= k < |turns| ==> turns[k].Row() == before[k]
      invariant changed == OpenCount(before[..i])
    {
      var bumped := RedactOne(turns, i, ids[i], now);
      OpenCountNext(before, i);
      if bumped {
        changed := changed + 1;
      }
    }
    assert before[..|turns|] == before;
  }
}
