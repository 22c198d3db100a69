/** Every reachable store is sound: each step keeps the invariant, hence so does every run. */
module ChatInvariant {
  import opened Basics
  import opened TurnTypes
  import opened TurnRow
  import opened Ledger
  import opened Executor
  import opened TurnInvariant
  import opened ComposerRefs
  import opened ChatSystem

  // ----------------------------------------------------- what no transaction touches

  /** The columns no transaction rewrites; a turn never returns to running. */
  predicate Continues(t: Turn, u: Turn) {
    && u.key == t.key && |u.accepted| == |t.accepted|
    && (forall k :: 0 <= k < |t.accepted| ==>
          u.accepted[k].order == t.accepted[k].order && u.accepted[k].kind == t.accepted[k].kind
          && u.accepted[k].targetId == t.accepted[k].targetId)
    && (u.status == Running ==> t.status == Running)
    && u.generation >= t.generation
  }

  lemma PerformContinues(t: Turn, generation: nat, a: Action, io: Io)
    ensures var r := Perform(t, generation, a, io);
      r.Success? ==> Continues(t, r.value.row) && r.value.row.generation == t.generation
  {
  }

  lemma StepContinues(t: Turn, x: Exec, io: Io)
    ensures Continues(t, Step(t, x, io).row)
    ensures Step(t, x, io).row.generation == t.generation
    ensures Step(t, x, io).exec.generation == x.generation
  {
    PerformContinues(t, x.generation, Decide(t, x, io), io);
  }

  lemma RedactContinues(t: Turn, id: string, now: int)
    ensures Continues(t, RedactTurn(t, id, now).row) && RedactTurn(t, id, now).row.generation == t.generation
  {
  }

  lemma CancelContinues(t: Turn, id: string, now: int)
    ensures Continues(t, CancelRunningTurn(t, id, now).row) && CancelRunningTurn(t, id, now).row.generation == t.generation
  {
  }

  // ----------------------------------------------------------------- cells

  lemma UpdateKeepsUnique(cells: seq<Cell>, i: nat, cell: Cell)
    requires i < |cells| && TurnsUnique(cells) && Continues(cells[i].row, cell.row)
    ensures TurnsUnique(cells[i := cell])
  {
  }

  lemma {:induction false} SpentByUpdate(cells: seq<Cell>, i: nat, cell: Cell)
    requires i < |cells| && cell.row.key == cells[i].row.key
    ensures SpentBy(cells[i := cell]) == SpentBy(cells)
  {
    var updated := cells[i := cell];
    if i < |cells| - 1 {
      SpentByUpdate(cells[..|cells| - 1], i, cell);
      assert updated[..|cells| - 1] == cells[..|cells| - 1][i := cell];
    } else {
      assert updated[..|cells| - 1] == cells[..|cells| - 1];
    }
  }

  lemma {:induction false} AcceptedTotalUpdate(cells: seq<Cell>, i: nat, cell: Cell)
    requires i < |cells| && |cell.row.accepted| == |cells[i].row.accepted|
    ensures AcceptedTotal(cells[i := cell]) == AcceptedTotal(cells)
  {
    var updated := cells[i := cell];
    if i < |cells| - 1 {
      AcceptedTotalUpdate(cells[..|cells| - 1], i, cell);
      assert updated[..|cells| - 1] == cells[..|cells| - 1][i := cell];
    } else {
      assert updated[..|cells| - 1] == cells[..|cells| - 1];
    }
  }

  lemma UpdateKeepsTokens(tokens: TokenTable, cells: seq<Cell>, i: nat, cell: Cell)
    requires i < |cells| && TokensSpentOnce(tokens, cells) && RefsSound(tokens, cells) && Continues(cells[i].row, cell.row)
    ensures TokensSpentOnce(tokens, cells[i := cell]) && RefsSound(tokens, cells[i := cell])
  {
    AcceptedTotalUpdate(cells, i, cell);
    SpentByUpdate(cells, i, cell);
    assert RefsMatchTokens(tokens, cells[i].row);
    assert RefsMatchTokens(tokens, cell.row);
  }

  lemma {:induction false} UpdateKeepsSound(s: State, turn: nat, cell: Cell, bumped: bool)
    requires Sound(s) && Stored(s, turn)
    requires CellSound(cell) && Continues(s.cells[turn].row, cell.row)
    ensures Sound(Update(s, turn, cell, bumped))
  {
    UpdateKeepsUnique(s.cells, turn, cell);
    UpdateKeepsTokens(s.tokens, s.cells, turn, cell);
  }

  lemma {:induction false} ClaimKeeps(s: State, turn: nat, owner: string, leaseSeconds: nat)
    requires Sound(s)
    ensures Sound(ClaimStep(s, turn, owner, leaseSeconds))
  {
    if Stored(s, turn) && Claimable(s.cells[turn].row, s.now) {
      var cell := s.cells[turn];
      var row := ClaimTurn(cell.row, owner, leaseSeconds, s.now);
      ClaimKeepsSound(cell.row, owner, leaseSeconds, s.now);
      UpdateKeepsSound(s, turn, Cell(row, cell.execs + [Launch(row.generation, owner)]), false);
    }
  }

  lemma HeartbeatCellSound(cell: Cell, owner: string, generation: nat, leaseSeconds: nat, now: int)
    requires CellSound(cell)
    ensures CellSound(cell.(row := HeartbeatLease(cell.row, owner, generation, leaseSeconds, now)))
    ensures Continues(cell.row, HeartbeatLease(cell.row, owner, generation, leaseSeconds, now))
  {
    HeartbeatKeepsSound(cell.row, owner, generation, leaseSeconds, now);
  }

  lemma {:induction false} HeartbeatKeeps(s: State, turn: nat, generation: nat, leaseSeconds: nat)
    requires Sound(s)
    ensures Sound(HeartbeatStep(s, turn, generation, leaseSeconds))
  {
    if Stored(s, turn) && 0 < generation <= |s.cells[turn].execs| {
      var cell := s.cells[turn];
      var row := HeartbeatLease(cell.row, cell.execs[generation - 1].owner, generation, leaseSeconds, s.now);
      HeartbeatCellSound(cell, cell.execs[generation - 1].owner, generation, leaseSeconds, s.now);
      UpdateKeepsSound(s, turn, cell.(row := row), false);
    }
  }

  lemma SoundLaunched(c: Cell, generation: nat)
    requires CellSound(c) && 0 < generation <= |c.execs|
    ensures Launched(c, generation)
  {
  }

  lemma ExecutedRow(t: Turn, x: Exec, io: Io)
    requires RowSound(t) && (t.status == Running && x.generation == t.generation ==> Tracks(t, x))
    ensures var r := Step(t, x, io);
      && RowSound(r.row) && r.row.generation == t.generation && r.exec.generation == x.generation
      && (if x.generation == t.generation then r.row.status == Running ==> Tracks(r.row, r.exec) else r.row == t)
  {
    if x.generation != t.generation || t.status != Running {
      StaleStepIsInert(t, x, io);
    } else {
      StepKept(t, x, io);
    }
  }

  lemma ExecuteCellSound(cell: Cell, generation: nat, io: Io)
    requires CellSound(cell) && 0 < generation <= |cell.execs|
    ensures var r := Step(cell.row, cell.execs[generation - 1], io);
      CellSound(Cell(r.row, cell.execs[generation - 1 := r.exec]))
  {
    SoundLaunched(cell, generation);
    StepWritten(cell.row, cell.execs[generation - 1], io);
    ExecutedRow(cell.row, cell.execs[generation - 1], io);
  }

  lemma {:induction false} ExecuteKeeps(s: State, turn: nat, generation: nat, io: Io)
    requires Sound(s)
    ensures Sound(ExecuteStep(s, turn, generation, io))
  {
    if Stored(s, turn) && 0 < generation <= |s.cells[turn].execs| {
      var cell := s.cells[turn];
      var r := Step(cell.row, cell.execs[generation - 1], io.(now := s.now));
      ExecuteCellSound(cell, generation, io.(now := s.now));
      StepContinues(cell.row, cell.execs[generation - 1], io.(now := s.now));
      UpdateKeepsSound(s, turn, Cell(r.row, cell.execs[generation - 1 := r.exec]), r.bumped);
    }
  }

  function Crashed(cell: Cell, generation: nat): Cell
    requires 0 < generation <= |cell.execs|
  {
    cell.(execs := cell.execs[generation - 1 := cell.execs[generation - 1].(pc := Stopped)])
  }

  lemma CrashedCellSound(cell: Cell, generation: nat)
    requires CellSound(cell) && 0 < generation <= |cell.execs|
    ensures CellSound(Crashed(cell, generation)) && Continues(cell.row, Crashed(cell, generation).row)
  {
  }

  lemma {:induction false} CrashKeeps(s: State, turn: nat, generation: nat)
    requires Sound(s)
    ensures Sound(CrashStep(s, turn, generation))
  {
    if Stored(s, turn) && 0 < generation <= |s.cells[turn].execs| {
      CrashedCellSound(s.cells[turn], generation);
      UpdateKeepsSound(s, turn, Crashed(s.cells[turn], generation), false);
    }
  }

  lemma {:induction false} CancelKeeps(s: State, turn: nat, eventId: string)
    requires Sound(s)
    ensures Sound(CancelStep(s, turn, eventId))
  {
    if Stored(s, turn) {
      var c := CancelRunningTurn(s.cells[turn].row, eventId, s.now);
      CancelKeepsSound(s.cells[turn].row, eventId, s.now);
      CloseWritten(s.cells[turn].row, eventId, s.now);
      CancelContinues(s.cells[turn].row, eventId, s.now);
      UpdateKeepsSound(s, turn, s.cells[turn].(row := c.row), c.bumped);
    }
  }

  lemma {:induction false} RedactKeeps(s: State, turn: nat, eventId: string)
    requires Sound(s)
    ensures Sound(RedactStep(s, turn, eventId))
  {
    if Stored(s, turn) {
      var c := RedactTurn(s.cells[turn].row, eventId, s.now);
      RedactKeepsSound(s.cells[turn].row, eventId, s.now);
      CloseWritten(s.cells[turn].row, eventId, s.now);
      RedactContinues(s.cells[turn].row, eventId, s.now);
      UpdateKeepsSound(s, turn, s.cells[turn].(row := c.row), c.bumped);
    }
  }

  // -------------------------------------------------------------- starting

  /** The replay fence finds the turn of a request exactly when there is one. */
  lemma {:induction false} FindRequestExact(cells: seq<Cell>, conversation: nat, clientRequestId: string)
    ensures var found := FindRequest(cells, conversation, clientRequestId);
      && (found.Some? ==>
            && found.value < |cells|
            && cells[found.value].row.key.conversation == conversation
            && cells[found.value].row.key.clientRequestId == clientRequestId)
      && (found.None? ==> forall i :: 0 <= i < |cells| && cells[i].row.key.conversation == conversation ==>
            cells[i].row.key.clientRequestId != clientRequestId)
  {
    if cells != [] {
      var front := cells[..|cells| - 1];
      FindRequestExact(front, conversation, clientRequestId);
      if FindRequest(cells, conversation, clientRequestId).None? {
        forall i | 0 <= i < |cells| && cells[i].row.key.conversation == conversation
          ensures cells[i].row.key.clientRequestId != clientRequestId
        {
          if i < |front| { assert front[i] == cells[i]; }
        }
      }
    }
  }

  lemma FencesNeverReady(s: State, request: Request)
    ensures StartFences(s, request).Some? ==> !StartFences(s, request).value.Ready?
  {
  }

  /** Refs handed to a starter describe its tokens, one by one. */
  lemma ReadyStarterSound(s: State, request: Request, domainReady: bool, eligible: set<string>)
    requires Precheck(s, request, domainReady, eligible).Ready?
    ensures StarterSound(s.tokens, Starter(request, Precheck(s, request, domainReady, eligible).refs, false))
  {
    FencesNeverReady(s, request);
  }

  lemma StartersSoundSnoc(tokens: TokenTable, starters: seq<Starter>, starter: Starter)
    requires StartersSound(tokens, starters) && StarterSound(tokens, starter)
    ensures StartersSound(tokens, starters + [starter])
  {
  }

  lemma BeginKeeps(s: State, request: Request, domainReady: bool, eligible: set<string>)
    requires Sound(s)
    ensures Sound(BeginStart(s, request, domainReady, eligible))
  {
    var answer := Precheck(s, request, domainReady, eligible);
    if answer.Ready? {
      ReadyStarterSound(s, request, domainReady, eligible);
      StartersSoundSnoc(s.tokens, s.starters, Starter(request, answer.refs, false));
    }
  }

  lemma AppendKeepsUnique(cells: seq<Cell>, cell: Cell)
    requires TurnsUnique(cells)
    requires FindRequest(cells, cell.row.key.conversation, cell.row.key.clientRequestId).None?
    requires !RunningIn(cells, cell.row.key.conversation)
    ensures TurnsUnique(cells + [cell])
  {
    FindRequestExact(cells, cell.row.key.conversation, cell.row.key.clientRequestId);
  }

  lemma InsertedCell(key: TurnKey, refs: seq<AcceptedRef>, id0: string, id1: string, now: int)
    requires forall i :: 0 <= i < |refs| ==> refs[i].redactedAt.None?
    ensures CellSound(Cell(InsertedTurn(key, refs, id0, id1, now), []))
    ensures InsertedTurn(key, refs, id0, id1, now).key == key && InsertedTurn(key, refs, id0, id1, now).accepted == refs
  {
    InsertedIsSound(key, refs, id0, id1, now);
  }

  lemma {:induction false} SpentByMember(cells: seq<Cell>, i: nat, k: string)
    requires i < |cells| && k in cells[i].row.key.fingerprint
    ensures k in SpentBy(cells)
  {
    if i < |cells| - 1 {
      SpentByMember(cells[..|cells| - 1], i, k);
    }
  }

  /** A new turn spends exactly its own tokens, none of which any earlier turn had spent. */
  lemma InsertSpends(s: State, tokens: TokenTable, cell: Cell, owner: string)
    requires TokensSpentOnce(s.tokens, s.cells)
    requires Normalizable(cell.row.key.fingerprint) && |cell.row.accepted| == |cell.row.key.fingerprint|
    requires ConsumeTokens(s.tokens, owner, cell.row.key.fingerprint, s.now) == Success(tokens)
    ensures TokensSpentOnce(tokens, s.cells + [cell])
  {
    ConsumeExact(s.tokens, owner, cell.row.key.fingerprint, s.now);
    assert (s.cells + [cell])[..|s.cells|] == s.cells;
    forall i, k | 0 <= i < |s.cells| && k in s.cells[i].row.key.fingerprint
      ensures k !in cell.row.key.fingerprint
    {
      SpentByMember(s.cells, i, k);
    }
  }

  /** Tokens keep their target for good, so refs validated earlier still describe them. */
  predicate TokensRetained(before: TokenTable, after: TokenTable) {
    forall k :: k in before ==>
      && k in after && after[k].kind == before[k].kind && after[k].targetId == before[k].targetId
      && after[k].safeLabel == before[k].safeLabel && after[k].safeDescription == before[k].safeDescription
  }

  lemma RetainedKeepsMatches(before: TokenTable, after: TokenTable, cells: seq<Cell>, starters: seq<Starter>)
    requires TokensRetained(before, after) && RefsSound(before, cells) && StartersSound(before, starters)
    ensures RefsSound(after, cells) && StartersSound(after, starters)
  {
    forall i | 0 <= i < |cells|
      ensures RefsMatchTokens(after, cells[i].row)
    {
      assert RefsMatchTokens(before, cells[i].row);
    }
    forall i | 0 <= i < |starters|
      ensures StarterSound(after, starters[i])
    {
      assert StarterSound(before, starters[i]);
    }
  }

  /** With no tokens there is nothing to consume. */
  lemma NothingToConsume(table: TokenTable, owner: string, now: int)
    ensures ConsumeTokens(table, owner, [], now) == Success(table)
  {
    assert (map k | k in table :: if k in [] then Spend(table[k], now) else table[k]) == table;
  }

  lemma InsertedRefsMatch(s: State, starter: Starter, ids: FreshIds, row: Turn, tokens: TokenTable)
    requires StarterSound(s.tokens, starter) && |ids.refs| == |starter.refs| && TokensRetained(s.tokens, tokens)
    requires row.key.fingerprint == starter.request.tokens && row.accepted == AcceptedRows(starter.refs, ids.refs)
    ensures RefsMatchTokens(tokens, row)
  {
  }

  lemma InsertEffect(s: State, request: Request, refs: seq<ValidatedRef>, ids: FreshIds)
    requires |ids.refs| == |refs| == |request.tokens|
    requires InsertTurn(s, request, refs, ids).Success?
    ensures Owned(s, request.conversation, request.owner)
    ensures FindRequest(s.cells, request.conversation, request.clientRequestId).None? && !RunningIn(s.cells, request.conversation)
    ensures var after := InsertTurn(s, request, refs, ids).value;
      && after.cells == s.cells + [Cell(RowFor(s, request, refs, ids), [])]
      && ConsumeTokens(s.tokens, request.owner, request.tokens, s.now) == Success(after.tokens)
      && after.starters == s.starters && |after.conversations| == |s.conversations|
  {
    NothingToConsume(s.tokens, request.owner, s.now);
  }

  lemma InsertBumps(s: State, request: Request, refs: seq<ValidatedRef>, ids: FreshIds)
    requires |ids.refs| == |refs| && InsertTurn(s, request, refs, ids).Success?
    ensures Owned(s, request.conversation, request.owner)
    ensures InsertTurn(s, request, refs, ids).value.conversations == Bumped(s.conversations, request.conversation)
  {
  }

  lemma CellsSoundSnoc(cells: seq<Cell>, cell: Cell, conversations: nat)
    requires CellsSound(cells) && CellSound(cell)
    requires CellsHoused(cells, conversations) && cell.row.key.conversation < conversations
    ensures CellsSound(cells + [cell]) && CellsHoused(cells + [cell], conversations)
  {
  }

  lemma RefsSoundSnoc(tokens: TokenTable, cells: seq<Cell>, cell: Cell)
    requires RefsSound(tokens, cells) && RefsMatchTokens(tokens, cell.row)
    ensures RefsSound(tokens, cells + [cell])
  {
  }

  /** Consumption touches nothing of a token but its consumption stamp. */
  lemma ConsumeRetains(table: TokenTable, owner: string, tokens: seq<string>, now: int)
    requires ConsumeTokens(table, owner, tokens, now).Success?
    ensures TokensRetained(table, ConsumeTokens(table, owner, tokens, now).value)
  {
  }

  lemma InsertKeepsCells(s: State, starter: Starter, ids: FreshIds, row: Turn, conversations: nat)
    requires Sound(s) && |ids.refs| == |starter.refs|
    requires starter.request.conversation < |s.conversations| == conversations
    requires row == RowFor(s, starter.request, starter.refs, ids)
    ensures CellsSound(s.cells + [Cell(row, [])]) && CellsHoused(s.cells + [Cell(row, [])], conversations)
  {
    InsertedCell(row.key, AcceptedRows(starter.refs, ids.refs), ids.accepted, ids.routed, s.now);
    CellsSoundSnoc(s.cells, Cell(row, []), conversations);
  }

  lemma InsertKeepsTokens(s: State, starter: Starter, ids: FreshIds, row: Turn, tokens: TokenTable)
    requires Sound(s) && StarterSound(s.tokens, starter) && |ids.refs| == |starter.refs|
    requires starter.request.conversation < |s.conversations|
    requires row == RowFor(s, starter.request, starter.refs, ids)
    requires ConsumeTokens(s.tokens, starter.request.owner, starter.request.tokens, s.now) == Success(tokens)
    ensures TokensSpentOnce(tokens, s.cells + [Cell(row, [])]) && RefsSound(tokens, s.cells + [Cell(row, [])])
    ensures StartersSound(tokens, s.starters)
  {
    InsertSpends(s, tokens, Cell(row, []), starter.request.owner);
    ConsumeRetains(s.tokens, starter.request.owner, starter.request.tokens, s.now);
    RetainedKeepsMatches(s.tokens, tokens, s.cells, s.starters);
    InsertedRefsMatch(s, starter, ids, row, tokens);
    RefsSoundSnoc(tokens, s.cells, Cell(row, []));
  }

  lemma {:induction false} InsertedStateSound(s: State, starter: Starter, ids: FreshIds, after: State)
    requires Sound(s) && StarterSound(s.tokens, starter) && |ids.refs| == |starter.refs|
    requires starter.request.conversation < |s.conversations| == |after.conversations|
    requires FindRequest(s.cells, starter.request.conversation, starter.request.clientRequestId).None?
    requires !RunningIn(s.cells, starter.request.conversation)
    requires after.cells == s.cells + [Cell(RowFor(s, starter.request, starter.refs, ids), [])]
    requires ConsumeTokens(s.tokens, starter.request.owner, starter.request.tokens, s.now) == Success(after.tokens)
    requires after.starters == s.starters
    ensures Sound(after)
  {
    var row := RowFor(s, starter.request, starter.refs, ids);
    InsertKeepsCells(s, starter, ids, row, |after.conversations|);
    AppendKeepsUnique(s.cells, Cell(row, []));
    InsertKeepsTokens(s, starter, ids, row, after.tokens);
  }

  lemma {:induction false} InsertKeeps(s: State, starter: Starter, ids: FreshIds)
    requires Sound(s) && StarterSound(s.tokens, starter) && |ids.refs| == |starter.refs|
    requires InsertTurn(s, starter.request, starter.refs, ids).Success?
    ensures Sound(InsertTurn(s, starter.request, starter.refs, ids).value)
  {
    InsertEffect(s, starter.request, starter.refs, ids);
    InsertedStateSound(s, starter, ids, InsertTurn(s, starter.request, starter.refs, ids).value);
  }

  lemma {:induction false} CommitKeeps(s: State, starter: nat, authenticated: bool, ids: FreshIds)
    requires Sound(s)
    ensures Sound(CommitStart(s, starter, authenticated, ids))
  {
    if starter < |s.starters| && !s.starters[starter].finished {
      var st := s.starters[starter];
      var done := s.(starters := s.starters[starter := st.(finished := true)]);
      assert Sound(done);
      if authenticated && |ids.refs| == |st.refs| && InsertTurn(done, st.request, st.refs, ids).Success? {
        InsertKeeps(done, st, ids);
      }
    }
  }

  lemma {:induction false} IssueKeeps(s: State, hash: string, token: Token)
    requires Sound(s)
    ensures Sound(IssueStep(s, hash, token))
  {
    assert Consumed(IssueStep(s, hash, token).tokens) == Consumed(s.tokens);
    RetainedKeepsMatches(s.tokens, IssueStep(s, hash, token).tokens, s.cells, s.starters);
  }

  lemma ExpireKeeps(s: State, hash: string)
    requires Sound(s)
    ensures Sound(ExpireStep(s, hash))
  {
    assert Consumed(ExpireStep(s, hash).tokens) == Consumed(s.tokens);
    RetainedKeepsMatches(s.tokens, ExpireStep(s, hash).tokens, s.cells, s.starters);
  }

  // ------------------------------------------------------------------ runs

  /** Steps that touch the clock and the conversations alone keep everything else as it was. */
  lemma ConversationMoveKeepsSound(s: State, step: Move)
    requires step.Tick? || step.CreateConversation? || step.Rename? || step.Delete?
    requires Sound(s)
    ensures Sound(ApplyToStore(s, step))
  {
    var u := ApplyToStore(s, step);
    assert u.cells == s.cells && u.tokens == s.tokens && u.starters == s.starters && |s.conversations| <= |u.conversations|;
  }

  lemma {:induction false} StoreMoveKeepsSound(s: State, step: Move)
    requires Sound(s) && !OnTurn(step)
    ensures Sound(ApplyToStore(s, step))
  {
    if step.Issue? {
      IssueKeeps(s, step.hash, step.token);
    } else if step.Expire? {
      ExpireKeeps(s, step.hash);
    } else if step.StartBegins? {
      BeginKeeps(s, step.request, step.domainReady, step.eligible);
    } else if step.StartCommits? {
      CommitKeeps(s, step.starter, step.authenticated, step.ids);
    } else {
      ConversationMoveKeepsSound(s, step);
    }
  }

  lemma {:induction false} TurnMoveKeepsSound(s: State, step: Move)
    requires Sound(s) && OnTurn(step)
    ensures Sound(ApplyToTurn(s, step))
  {
    match step
    case Claim(turn, owner, leaseSeconds) => ClaimKeeps(s, turn, owner, leaseSeconds);
    case Heartbeat(turn, generation, leaseSeconds) => HeartbeatKeeps(s, turn, generation, leaseSeconds);
    case Execute(turn, generation, io) => ExecuteKeeps(s, turn, generation, io);
    case Crash(turn, generation) => CrashKeeps(s, turn, generation);
    case Cancel(turn, eventId) => CancelKeeps(s, turn, eventId);
    case Redact(turn, eventId) => RedactKeeps(s, turn, eventId);
  }

  lemma {:induction false} ApplyKeepsSound(s: State, step: Move)
    requires Sound(s)
    ensures Sound(Apply(s, step))
  {
    if OnTurn(step) { TurnMoveKeepsSound(s, step); } else { StoreMoveKeepsSound(s, step); }
  }

  lemma {:induction false} RunKeepsSound(s: State, steps: seq<Move>)
    requires Sound(s)
    ensures Sound(Run(s, steps))
  {
    if steps != [] {
      RunKeepsSound(s, steps[..|steps| - 1]);
      ApplyKeepsSound(Run(s, steps[..|steps| - 1]), steps[|steps| - 1]);
    }
  }

  /** Every store any run can reach is sound. */
  lemma {:induction false} ReachableSound(steps: seq<Move>)
    ensures Sound(Run(INITIAL, steps))
  {
    assert Consumed(INITIAL.tokens) == {};
    RunKeepsSound(INITIAL, steps);
  }

  /** So is every turn of it. */
  lemma {:induction false} ReachableCell(steps: seq<Move>, turn: nat)
    requires turn < |Run(INITIAL, steps).cells|
    ensures CellSound(Run(INITIAL, steps).cells[turn])
  {
    ReachableSound(steps);
  }
}
