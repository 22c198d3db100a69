/** Starting a turn is exactly-once, and composer tokens are spent exactly once, over any run of
    concurrent starts, retries and everything else. */
module ChatStarts {
  import opened Basics
  import opened TurnTypes
  import opened TurnRow
  import opened ComposerRefs
  import opened ChatSystem
  import opened ChatInvariant
  import opened Evolution
  import opened ChatTheorems

  /** The turn was started by this request, or by one a client could not tell from it. */
  predicate Answers(s: State, turn: nat, request: Request) {
    && turn < |s.cells|
    && s.cells[turn].row.key.conversation == request.conversation
    && s.cells[turn].row.key.clientRequestId == request.clientRequestId
    && SameRequest(s.cells[turn].row.key, request) && !DomainMissing(request)
  }

  /** In every reachable store there is at most one turn per (conversation, client request) and at most one
      running turn per conversation; the consumed tokens are the disjoint union of the turns' token lists,
      so there are as many of them as accepted refs were ever persisted. */
  lemma {:induction false} StartedAtMostOnce(steps: seq<Move>, i: nat, j: nat)
    requires i < |Run(INITIAL, steps).cells| && j < |Run(INITIAL, steps).cells|
    requires Run(INITIAL, steps).cells[i].row.key.conversation == Run(INITIAL, steps).cells[j].row.key.conversation
    ensures var s := Run(INITIAL, steps); var t, u := s.cells[i].row, s.cells[j].row;
      && (t.key.clientRequestId == u.key.clientRequestId ==> i == j)
      && (t.status == Running && u.status == Running ==> i == j)
      && |Consumed(s.tokens)| == AcceptedTotal(s.cells)
  {
    ReachableSound(steps);
  }

  lemma {:induction false} SpenderOf(cells: seq<Cell>, token: string) returns (turn: nat, position: nat)
    requires token in SpentBy(cells)
    ensures turn < |cells| && position < |cells[turn].row.key.fingerprint|
    ensures cells[turn].row.key.fingerprint[position] == token
  {
    var last := cells[|cells| - 1].row.key.fingerprint;
    if token in last {
      turn := |cells| - 1;
      position :| 0 <= position < |last| && last[position] == token;
    } else {
      turn, position := SpenderOf(cells[..|cells| - 1], token);
    }
  }

  /** A token spent on two turns would be one turn: every consumed token belongs to exactly one of them,
      where it is the accepted ref of the same position. */
  lemma TokenHasOneTurn(steps: seq<Move>, token: string) returns (turn: nat, position: nat)
    requires token in Run(INITIAL, steps).tokens && Run(INITIAL, steps).tokens[token].consumedAt.Some?
    ensures var s := Run(INITIAL, steps);
      && turn < |s.cells| && position < |s.cells[turn].row.accepted| == |s.cells[turn].row.key.fingerprint|
      && s.cells[turn].row.key.fingerprint[position] == token
      && s.cells[turn].row.accepted[position].targetId == s.tokens[token].targetId
      && forall i :: 0 <= i < |s.cells| && token in s.cells[i].row.key.fingerprint ==> i == turn
  {
    ReachableSound(steps);
    var s := Run(INITIAL, steps);
    assert token in Consumed(s.tokens);
    turn, position := SpenderOf(s.cells, token);
    assert RefsMatchTokens(s.tokens, s.cells[turn].row);
    forall i | 0 <= i < |s.cells| && token in s.cells[i].row.key.fingerprint
      ensures i == turn
    {
      assert token in Elements(s.cells[i].row.key.fingerprint) && token in Elements(s.cells[turn].row.key.fingerprint);
    }
  }

  // ------------------------------------------------------- what a start is answered

  /** A turn of this conversation under this client request id. */
  predicate IsTurnOf(s: State, i: int, request: Request) {
    && 0 <= i < |s.cells| && s.cells[i].row.key.conversation == request.conversation
    && s.cells[i].row.key.clientRequestId == request.clientRequestId
  }

  /** That turn was asked for in the same words, for the same domain and with the same tokens. */
  predicate SameContent(key: TurnKey, request: Request) {
    key.userMessage == request.message && key.domainId == request.domainId && key.fingerprint == request.tokens
  }

  predicate IsRunningIn(s: State, i: int, conversation: nat) {
    0 <= i < |s.cells| && s.cells[i].row.key.conversation == conversation && s.cells[i].row.status == Running
  }

  /** In every reachable store a turn is direct exactly when it has no domain. */
  predicate RoutesFollowDomains(s: State) {
    forall i :: 0 <= i < |s.cells| ==> (s.cells[i].row.key.route == DirectLlm <==> s.cells[i].row.key.domainId.None?)
  }

  lemma FencesExact(s: State, request: Request)
    requires TurnsUnique(s.cells) && RoutesFollowDomains(s)
    ensures StartFences(s, request).None? <==>
      !(exists i :: IsTurnOf(s, i, request)) && !(exists i :: IsRunningIn(s, i, request.conversation))
    ensures forall i :: IsTurnOf(s, i, request) ==>
      StartFences(s, request) == Some(if SameContent(s.cells[i].row.key, request) then Replay(i) else Refused(RequestConflict))
    ensures (exists i :: IsRunningIn(s, i, request.conversation)) && !(exists i :: IsTurnOf(s, i, request)) ==>
      StartFences(s, request) == Some(Refused(TurnInProgress))
  {
    FindRequestExact(s.cells, request.conversation, request.clientRequestId);
    var found := FindRequest(s.cells, request.conversation, request.clientRequestId);
    if found.Some? {
      assert IsTurnOf(s, found.value, request);
      forall i | IsTurnOf(s, i, request)
        ensures i == found.value
      {
        if i < found.value { } else if found.value < i { }
      }
    }
    if RunningIn(s.cells, request.conversation) {
      var i :| 0 <= i < |s.cells| && s.cells[i].row.key.conversation == request.conversation && s.cells[i].row.status == Running;
      assert IsRunningIn(s, i, request.conversation);
    }
  }

  lemma {:induction false} RoutesAreDomains(steps: seq<Move>)
    ensures RoutesFollowDomains(Run(INITIAL, steps))
  {
    forall i | 0 <= i < |Run(INITIAL, steps).cells|
      ensures Run(INITIAL, steps).cells[i].row.key.route == DirectLlm <==> Run(INITIAL, steps).cells[i].row.key.domainId.None?
    {
      RouteRow(steps, i);
    }
  }

  lemma {:induction false} ReachableFences(steps: seq<Move>, s: State, request: Request)
    requires s == Run(INITIAL, steps)
    ensures StartFences(s, request).None? <==>
      !(exists i :: IsTurnOf(s, i, request)) && !(exists i :: IsRunningIn(s, i, request.conversation))
    ensures forall i :: IsTurnOf(s, i, request) ==>
      StartFences(s, request) == Some(if SameContent(s.cells[i].row.key, request) then Replay(i) else Refused(RequestConflict))
    ensures (exists i :: IsRunningIn(s, i, request.conversation)) && !(exists i :: IsTurnOf(s, i, request)) ==>
      StartFences(s, request) == Some(Refused(TurnInProgress))
  {
    ReachableSound(steps);
    RoutesAreDomains(steps);
    FencesExact(s, request);
  }

  /** The unlocked checks let a start through exactly when its conversation is the owner's, nothing about it
      is malformed, the request has no turn yet, no turn of the conversation is running, its domain is ready
      and its tokens are usable; a second request under a used client request id is a replay if it says
      the same and a conflict if not, and one beside a running turn is refused. */
  lemma {:induction false} StartAnswered(steps: seq<Move>, s: State, request: Request, domainReady: bool, eligible: set<string>)
    requires s == Run(INITIAL, steps)
    ensures var answer := Precheck(s, request, domainReady, eligible);
      && (answer.Ready? <==>
            && request.conversation < |s.conversations| && !s.conversations[request.conversation].deleted
            && s.conversations[request.conversation].owner == request.owner
            && !(request.domainId.None? && request.needsDomain)
            && !(exists i :: IsTurnOf(s, i, request)) && !(exists i :: IsRunningIn(s, i, request.conversation))
            && (request.domainId.Some? ==> domainReady)
            && ListUsable(s.tokens, request.owner, request.domainId, request.tokens, eligible, s.now))
      && (Owned(s, request.conversation, request.owner) && !DomainMissing(request) && Normalizable(request.tokens) ==>
            && (forall i :: IsTurnOf(s, i, request) ==>
                  answer == if SameContent(s.cells[i].row.key, request) then Replay(i) else Refused(RequestConflict))
            && ((exists i :: IsRunningIn(s, i, request.conversation)) && !(exists i :: IsTurnOf(s, i, request)) ==>
                  answer == Refused(TurnInProgress)))
  {
    ReachableFences(steps, s, request);
    ValidateExact(s.tokens, request.owner, request.domainId, request.tokens, eligible, s.now);
  }

  lemma FindsIt(s: State, turn: nat, request: Request)
    requires TurnsUnique(s.cells) && Answers(s, turn, request)
    ensures FindRequest(s.cells, request.conversation, request.clientRequestId) == Some(turn)
    ensures StartFences(s, request) == Some(Replay(turn))
  {
    FindRequestExact(s.cells, request.conversation, request.clientRequestId);
  }

  lemma RetryNow(s: State, turn: nat, request: Request, domainReady: bool, eligible: set<string>)
    requires TurnsUnique(s.cells) && RefsSound(s.tokens, s.cells) && Answers(s, turn, request)
    requires Owned(s, request.conversation, request.owner)
    ensures Precheck(s, request, domainReady, eligible) == Replay(turn)
    ensures Apply(s, StartBegins(request, domainReady, eligible)) == s
  {
    assert RefsMatchTokens(s.tokens, s.cells[turn].row);
    FindsIt(s, turn, request);
  }

  lemma AnswersForGood(s: State, later: seq<Move>, turn: nat, request: Request)
    requires Answers(s, turn, request)
    ensures Answers(Run(s, later), turn, request)
  {
    RunEvolves(s, later, turn);
  }

  /** An identical retry is answered with the same turn and changes nothing, at every later time: also
      after its tokens are consumed, expired or ineligible, and after its domain has gone. */
  lemma RetryIsReplay(s: State, later: seq<Move>, turn: nat, request: Request, domainReady: bool, eligible: set<string>)
    requires Sound(s) && Answers(s, turn, request)
    requires Owned(Run(s, later), request.conversation, request.owner)
    ensures Precheck(Run(s, later), request, domainReady, eligible) == Replay(turn)
    ensures Apply(Run(s, later), StartBegins(request, domainReady, eligible)) == Run(s, later)
  {
    RunKeepsSound(s, later);
    AnswersForGood(s, later, turn, request);
    RetryNow(Run(s, later), turn, request, domainReady, eligible);
  }

  /** With a turn for the request in place, an insertion is answered by the fences. */
  lemma FencedInsert(s: State, turn: nat, request: Request, refs: seq<ValidatedRef>, ids: FreshIds)
    requires TurnsUnique(s.cells) && Answers(s, turn, request) && |ids.refs| == |refs|
    ensures InsertTurn(s, request, refs, ids).Failure?
  {
    FindsIt(s, turn, request);
  }

  lemma LosingCommit(u: State, turn: nat, starter: nat, authenticated: bool, ids: FreshIds)
    requires TurnsUnique(u.cells) && starter < |u.starters| && Answers(u, turn, u.starters[starter].request)
    ensures var v := CommitStart(u, starter, authenticated, ids);
      && v.cells == u.cells && v.tokens == u.tokens && v.conversations == u.conversations && v.now == u.now
  {
    var st := u.starters[starter];
    var done := u.(starters := u.starters[starter := st.(finished := true)]);
    if |ids.refs| == |st.refs| {
      FencedInsert(done, turn, st.request, st.refs, ids);
    }
  }

  /** A starter that passed its unlocked checks before a racing start of the same request committed
      inserts nothing and spends nothing: its commit only marks it finished. */
  lemma {:induction false} LosingStarterChangesNothing(s: State, later: seq<Move>, u: State, turn: nat, starter: nat, authenticated: bool, ids: FreshIds)
    requires Sound(s) && u == Run(s, later)
    requires starter < |u.starters| && Answers(u, turn, u.starters[starter].request)
    ensures var v := CommitStart(u, starter, authenticated, ids);
      && v.cells == u.cells && v.tokens == u.tokens && v.conversations == u.conversations && v.now == u.now
  {
    RunKeepsSound(s, later);
    LosingCommit(u, turn, starter, authenticated, ids);
  }

  /** The row a request becomes: the request's own values under the identifiers drawn for it. A turn without
      a domain takes the direct route, and only such a turn does. */
  predicate StartedBy(t: Turn, request: Request, conversationRef: string, ids: FreshIds, now: int) {
    && (t.key.route == DirectLlm <==> request.domainId.None?) && t.key.domainId == request.domainId
    && t.key.publicRef == ids.turn && t.key.conversation == request.conversation && t.key.conversationRef == conversationRef
    && t.key.clientRequestId == request.clientRequestId && t.key.userMessage == request.message
    && t.key.fingerprint == request.tokens && t.key.createdAt == now
    && t.status == Running && t.generation == 0 && t.leaseExpiresAt.None? && t.claimableAt == Some(now)
    && t.answer.None? && t.stopReason.None? && t.completedAt.None? && t.evidence == []
    && |t.ledger| == 2 && t.ledger[0].sequence == 1 && t.ledger[1].sequence == 2
    && t.ledger[0].id == ids.accepted && t.ledger[0].payload == TurnAccepted(conversationRef, request.clientRequestId, false)
    && t.ledger[1].id == ids.routed && t.ledger[1].payload == RouteSelected(t.key.route, request.domainId)
  }

  lemma RowIsStarted(s: State, request: Request, refs: seq<ValidatedRef>, ids: FreshIds)
    requires |ids.refs| == |refs| && request.conversation < |s.conversations|
    ensures StartedBy(RowFor(s, request, refs, ids), request, s.conversations[request.conversation].publicRef, ids, s.now)
    ensures RowFor(s, request, refs, ids).accepted == AcceptedRows(refs, ids.refs)
  {
  }

  /** The accepted refs of a new turn: one per token, in order, with the token's target and label. */
  predicate RefsStand(accepted: seq<AcceptedRef>, tokens: TokenTable, request: Request, ids: FreshIds) {
    && |accepted| == |request.tokens| == |ids.refs|
    && forall k :: 0 <= k < |accepted| ==>
         && request.tokens[k] in tokens
         && accepted[k].publicRef == ids.refs[k] && accepted[k].order == k + 1
         && accepted[k].kind == tokens[request.tokens[k]].kind && accepted[k].targetId == tokens[request.tokens[k]].targetId
         && accepted[k].safeLabel == tokens[request.tokens[k]].safeLabel
         && accepted[k].safeDescription == tokens[request.tokens[k]].safeDescription
         && accepted[k].redactedAt.None?
  }

  lemma AcceptedStand(tokens: TokenTable, starter: Starter, ids: FreshIds)
    requires StarterSound(tokens, starter) && |ids.refs| == |starter.refs|
    ensures RefsStand(AcceptedRows(starter.refs, ids.refs), tokens, starter.request, ids)
  {
  }

  /** What a winning commit does: one more turn, which is what the request asked for, whose accepted refs are
      its tokens' targets and labels in order, and exactly those tokens newly consumed. */
  lemma {:induction false} WinningStart(s: State, starter: nat, ids: FreshIds)
    requires Sound(s) && starter < |s.starters|
    requires |CommitStart(s, starter, true, ids).cells| > |s.cells|
    ensures var u := CommitStart(s, starter, true, ids); var request := s.starters[starter].request;
      && |u.cells| == |s.cells| + 1 && s.cells <= u.cells
      && request.conversation < |s.conversations| == |u.conversations|
      && StartedBy(u.cells[|s.cells|].row, request, s.conversations[request.conversation].publicRef, ids, s.now)
      && RefsStand(u.cells[|s.cells|].row.accepted, s.tokens, request, ids)
      && u.conversations[request.conversation].version == s.conversations[request.conversation].version + 1
      && Answers(u, |s.cells|, request)
      && RefsMatchTokens(u.tokens, u.cells[|s.cells|].row)
      && Consumed(u.tokens) == Consumed(s.tokens) + Elements(request.tokens)
      && Consumed(s.tokens) !! Elements(request.tokens)
  {
    var st := s.starters[starter];
    var done := s.(starters := s.starters[starter := st.(finished := true)]);
    CommitKeeps(s, starter, true, ids);
    assert StarterSound(s.tokens, st);
    InsertEffect(done, st.request, st.refs, ids);
    InsertBumps(done, st.request, st.refs, ids);
    RowIsStarted(done, st.request, st.refs, ids);
    AcceptedStand(s.tokens, st, ids);
    ConsumeExact(s.tokens, st.request.owner, st.request.tokens, s.now);
    var u := CommitStart(s, starter, true, ids);
    assert RefsSound(u.tokens, u.cells);
  }

  lemma CommitCases(s: State, starter: nat, authenticated: bool, ids: FreshIds)
    requires starter < |s.starters| && |s.starters[starter].refs| == |s.starters[starter].request.tokens|
    ensures var u := CommitStart(s, starter, authenticated, ids); var st := s.starters[starter];
      && (|u.cells| == |s.cells| + 1 <==>
            && !st.finished && authenticated && |ids.refs| == |st.refs|
            && Owned(s, st.request.conversation, st.request.owner) && StartFences(s, st.request).None?
            && AllUsable(s.tokens, st.request.owner, st.request.tokens, s.now))
      && (|u.cells| != |s.cells| + 1 ==> u.cells == s.cells && u.tokens == s.tokens && u.conversations == s.conversations)
  {
    var st := s.starters[starter];
    var done := s.(starters := s.starters[starter := st.(finished := true)]);
    assert StartFences(done, st.request) == StartFences(s, st.request);
  }

  /** The locked part inserts a turn exactly when the actor is still authenticated and both fences, run again
      under the lock, and every token are still free; otherwise it leaves turns, tokens and conversations alone. */
  lemma {:induction false} CommitsExactly(steps: seq<Move>, s: State, starter: nat, authenticated: bool, ids: FreshIds)
    requires s == Run(INITIAL, steps) && starter < |s.starters|
    ensures var u := CommitStart(s, starter, authenticated, ids); var request := s.starters[starter].request;
      && (|u.cells| == |s.cells| + 1 <==>
            && !s.starters[starter].finished && authenticated && |ids.refs| == |request.tokens|
            && Owned(s, request.conversation, request.owner)
            && !(exists i :: IsTurnOf(s, i, request)) && !(exists i :: IsRunningIn(s, i, request.conversation))
            && forall k :: 0 <= k < |request.tokens| ==>
                 && request.tokens[k] in s.tokens && s.tokens[request.tokens[k]].owner == request.owner
                 && s.tokens[request.tokens[k]].expiresAt > s.now && s.tokens[request.tokens[k]].consumedAt.None?)
      && (|u.cells| != |s.cells| + 1 ==> u.cells == s.cells && u.tokens == s.tokens && u.conversations == s.conversations)
  {
    ReachableSound(steps);
    var st := s.starters[starter];
    assert StarterSound(s.tokens, st);
    CommitCases(s, starter, authenticated, ids);
    ReachableFences(steps, s, st.request);
  }

  lemma CommitWithoutTurn(s: State, starter: nat, authenticated: bool, ids: FreshIds)
    requires |CommitStart(s, starter, authenticated, ids).cells| == |s.cells|
    ensures CommitStart(s, starter, authenticated, ids).tokens == s.tokens
  {
  }

  lemma CommitKeepsSpent(s: State, starter: nat, authenticated: bool, ids: FreshIds)
    requires Sound(s)
    ensures Consumed(s.tokens) <= Consumed(CommitStart(s, starter, authenticated, ids).tokens)
  {
    if |CommitStart(s, starter, authenticated, ids).cells| > |s.cells| {
      WinningStart(s, starter, ids);
    } else {
      CommitWithoutTurn(s, starter, authenticated, ids);
    }
  }

  lemma TurnMoveKeepsTokens(s: State, step: Move)
    requires OnTurn(step)
    ensures ApplyToTurn(s, step).tokens == s.tokens
  {
  }

  lemma OtherMovesKeepSpent(s: State, step: Move)
    requires !OnTurn(step) && !step.StartCommits?
    ensures Consumed(s.tokens) <= Consumed(ApplyToStore(s, step).tokens)
  {
  }

  lemma StoreMoveKeepsSpent(s: State, step: Move)
    requires Sound(s) && !OnTurn(step)
    ensures Consumed(s.tokens) <= Consumed(ApplyToStore(s, step).tokens)
  {
    if step.StartCommits? {
      CommitKeepsSpent(s, step.starter, step.authenticated, step.ids);
    } else {
      OtherMovesKeepSpent(s, step);
    }
  }

  lemma {:induction false} StepKeepsSpent(s: State, step: Move)
    requires Sound(s)
    ensures Consumed(s.tokens) <= Consumed(Apply(s, step).tokens)
  {
    if OnTurn(step) { TurnMoveKeepsTokens(s, step); } else { StoreMoveKeepsSpent(s, step); }
  }

  /** Consumption is for good: nothing ever un-spends a token. */
  lemma {:induction false} SpentStaysSpent(s: State, later: seq<Move>)
    requires Sound(s)
    ensures Consumed(s.tokens) <= Consumed(Run(s, later).tokens)
  {
    if later != [] {
      var front := later[..|later| - 1];
      SpentStaysSpent(s, front);
      RunKeepsSound(s, front);
      StepKeepsSpent(Run(s, front), later[|later| - 1]);
    }
  }

  /** A token is issued once, unspent; expiring it moves its expiry to now, at which it is no longer usable.
      Neither touches another token, nor anything else. */
  lemma TokenMovesExact(s: State, hash: string, token: Token)
    ensures Apply(s, Issue(hash, token)) == if hash in s.tokens then s else s.(tokens := s.tokens[hash := token.(consumedAt := None)])
    ensures Apply(s, Expire(hash)) == if hash !in s.tokens then s else s.(tokens := s.tokens[hash := s.tokens[hash].(expiresAt := s.now)])
    ensures hash in s.tokens ==> ConsumeTokens(Apply(s, Expire(hash)).tokens, s.tokens[hash].owner, [hash], s.now).Failure?
  {
    assert !Usable(Apply(s, Expire(hash)).tokens, if hash in s.tokens then s.tokens[hash].owner else "", [hash][0], s.now);
  }
}
