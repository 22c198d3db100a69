/** The conversation version is a sound validator for the conversation detail. */
module ChatVersions {
  import opened Basics
  import opened TurnTypes
  import opened TurnRow
  import opened Executor
  import opened TurnInvariant
  import opened ComposerRefs
  import opened ChatSystem
  import opened ChatInvariant
  import opened Evolution
  import opened Ledger
  import opened ChatTheorems
  import opened Replay

  function DetailTurns(cells: seq<Cell>, conversation: nat): seq<TurnDto> {
    if cells == [] then []
    else
      var last := cells[|cells| - 1].row;
      DetailTurns(cells[..|cells| - 1], conversation) +
      (if last.key.conversation == conversation then [ProjectTurn(last)] else [])
  }

  datatype Detail = Detail(title: Option<string>, turns: seq<TurnDto>)

  function DetailOf(s: State, conversation: nat): Detail
    requires conversation < |s.conversations|
  {
    Detail(s.conversations[conversation].title, DetailTurns(s.cells, conversation))
  }

  /** A transaction on a turn that does not bump leaves everything the detail shows of it. */
  lemma PerformProjects(t: Turn, generation: nat, a: Action, io: Io)
    requires a.AppendEvent? ==> WorkEvent(a.payload)
    ensures var r := Perform(t, generation, a, io);
      r.Success? && !r.value.bumped ==> ProjectTurn(r.value.row) == ProjectTurn(t)
  {
  }

  lemma LeaseProjects(t: Turn, owner: string, generation: nat, leaseSeconds: nat, now: int)
    ensures ProjectTurn(HeartbeatLease(t, owner, generation, leaseSeconds, now)) == ProjectTurn(t)
    ensures Claimable(t, now) ==> ProjectTurn(ClaimTurn(t, owner, leaseSeconds, now)) == ProjectTurn(t)
  {
  }

  lemma {:induction false} DetailUpdate(cells: seq<Cell>, i: nat, cell: Cell, conversation: nat)
    requires i < |cells| && cell.row.key == cells[i].row.key
    requires cell.row.key.conversation == conversation ==> ProjectTurn(cell.row) == ProjectTurn(cells[i].row)
    ensures DetailTurns(cells[i := cell], conversation) == DetailTurns(cells, conversation)
  {
    var updated := cells[i := cell];
    if i < |cells| - 1 {
      DetailUpdate(cells[..|cells| - 1], i, cell, conversation);
      assert updated[..|cells| - 1] == cells[..|cells| - 1][i := cell];
    } else {
      assert updated[..|cells| - 1] == cells[..|cells| - 1];
    }
  }

  lemma DetailSnoc(cells: seq<Cell>, cell: Cell, conversation: nat)
    ensures DetailTurns(cells + [cell], conversation) ==
            DetailTurns(cells, conversation) + (if cell.row.key.conversation == conversation then [ProjectTurn(cell.row)] else [])
  {
    assert (cells + [cell])[..|cells|] == cells;
  }

  /** Between two stores, one conversation's version never falls, and while it stands still so does the detail. */
  predicate Validates(s: State, u: State, conversation: nat) {
    && conversation < |s.conversations| <= |u.conversations|
    && s.conversations[conversation].version <= u.conversations[conversation].version
    && (s.conversations[conversation].version == u.conversations[conversation].version ==>
          DetailOf(s, conversation) == DetailOf(u, conversation))
  }

  lemma UpdateValidates(s: State, turn: nat, cell: Cell, bumped: bool, conversation: nat)
    requires Stored(s, turn) && conversation < |s.conversations|
    requires cell.row.key == s.cells[turn].row.key
    requires !bumped ==> ProjectTurn(cell.row) == ProjectTurn(s.cells[turn].row)
    ensures Validates(s, Update(s, turn, cell, bumped), conversation)
  {
    if !(bumped && cell.row.key.conversation == conversation) {
      DetailUpdate(s.cells, turn, cell, conversation);
    }
  }

  lemma ExecuteValidates(s: State, turn: nat, generation: nat, io: Io, conversation: nat)
    requires conversation < |s.conversations|
    ensures Validates(s, ExecuteStep(s, turn, generation, io), conversation)
  {
    if Stored(s, turn) && 0 < generation <= |s.cells[turn].execs| {
      var cell := s.cells[turn];
      var x := cell.execs[generation - 1];
      var at := io.(now := s.now);
      PerformProjects(cell.row, x.generation, Decide(cell.row, x, at), at);
      PerformContinues(cell.row, x.generation, Decide(cell.row, x, at), at);
      var r := Step(cell.row, x, at);
      UpdateValidates(s, turn, Cell(r.row, cell.execs[generation - 1 := r.exec]), r.bumped, conversation);
    }
  }

  lemma LeaseValidates(s: State, turn: nat, owner: string, generation: nat, leaseSeconds: nat, conversation: nat)
    requires conversation < |s.conversations|
    ensures Validates(s, ClaimStep(s, turn, owner, leaseSeconds), conversation)
    ensures Validates(s, HeartbeatStep(s, turn, generation, leaseSeconds), conversation)
    ensures Validates(s, CrashStep(s, turn, generation), conversation)
  {
    if Stored(s, turn) {
      var cell := s.cells[turn];
      LeaseProjects(cell.row, owner, generation, leaseSeconds, s.now);
      if Claimable(cell.row, s.now) {
        var row := ClaimTurn(cell.row, owner, leaseSeconds, s.now);
        UpdateValidates(s, turn, Cell(row, cell.execs + [Launch(row.generation, owner)]), false, conversation);
      }
      if 0 < generation <= |cell.execs| {
        var x := cell.execs[generation - 1];
        LeaseProjects(cell.row, x.owner, generation, leaseSeconds, s.now);
        UpdateValidates(s, turn, cell.(row := HeartbeatLease(cell.row, x.owner, generation, leaseSeconds, s.now)), false, conversation);
        UpdateValidates(s, turn, cell.(execs := cell.execs[generation - 1 := x.(pc := Stopped)]), false, conversation);
      }
    }
  }

  lemma CloseValidates(s: State, turn: nat, eventId: string, conversation: nat)
    requires conversation < |s.conversations|
    ensures Validates(s, CancelStep(s, turn, eventId), conversation)
    ensures Validates(s, RedactStep(s, turn, eventId), conversation)
  {
    if Stored(s, turn) {
      var cell := s.cells[turn];
      var c, d := CancelRunningTurn(cell.row, eventId, s.now), RedactTurn(cell.row, eventId, s.now);
      UpdateValidates(s, turn, cell.(row := c.row), c.bumped, conversation);
      UpdateValidates(s, turn, cell.(row := d.row), d.bumped, conversation);
    }
  }

  /** An insertion gives its conversation a new version, and other conversations no turn. */
  lemma InsertValidates(s: State, request: Request, refs: seq<ValidatedRef>, ids: FreshIds, conversation: nat)
    requires |ids.refs| == |refs| == |request.tokens| && conversation < |s.conversations|
    requires InsertTurn(s, request, refs, ids).Success?
    ensures Validates(s, InsertTurn(s, request, refs, ids).value, conversation)
  {
    InsertEffect(s, request, refs, ids);
    DetailSnoc(s.cells, Cell(RowFor(s, request, refs, ids), []), conversation);
    InsertBumps(s, request, refs, ids);
  }

  lemma CommitValidates(s: State, starter: nat, authenticated: bool, ids: FreshIds, conversation: nat)
    requires StartersSound(s.tokens, s.starters) && conversation < |s.conversations|
    ensures Validates(s, CommitStart(s, starter, authenticated, ids), conversation)
  {
    if starter < |s.starters| && !s.starters[starter].finished {
      var st := s.starters[starter];
      var done := s.(starters := s.starters[starter := st.(finished := true)]);
      if authenticated && |ids.refs| == |st.refs| && InsertTurn(done, st.request, st.refs, ids).Success? {
        assert StarterSound(s.tokens, st);
        InsertValidates(done, st.request, st.refs, ids, conversation);
      }
    }
  }

  lemma TurnMoveValidates(s: State, step: Move, conversation: nat)
    requires OnTurn(step) && conversation < |s.conversations|
    ensures Validates(s, ApplyToTurn(s, step), conversation)
  {
    match step
    case Claim(turn, owner, leaseSeconds) => LeaseValidates(s, turn, owner, 0, leaseSeconds, conversation);
    case Heartbeat(turn, generation, leaseSeconds) => LeaseValidates(s, turn, "", generation, leaseSeconds, conversation);
    case Crash(turn, generation) => LeaseValidates(s, turn, "", generation, 0, conversation);
    case Execute(turn, generation, io) => ExecuteValidates(s, turn, generation, io, conversation);
    case Cancel(turn, eventId) => CloseValidates(s, turn, eventId, conversation);
    case Redact(turn, eventId) => CloseValidates(s, turn, eventId, conversation);
  }

  lemma OtherMovesValidate(s: State, step: Move, conversation: nat)
    requires !OnTurn(step) && !step.StartCommits? && conversation < |s.conversations|
    ensures Validates(s, ApplyToStore(s, step), conversation)
  {
  }

  lemma {:induction false} StoreMoveValidates(s: State, step: Move, conversation: nat)
    requires StartersSound(s.tokens, s.starters) && !OnTurn(step) && conversation < |s.conversations|
    ensures Validates(s, ApplyToStore(s, step), conversation)
  {
    if step.StartCommits? {
      CommitValidates(s, step.starter, step.authenticated, step.ids, conversation);
    } else {
      OtherMovesValidate(s, step, conversation);
    }
  }

  lemma {:induction false} StepValidates(s: State, step: Move, conversation: nat)
    requires Sound(s) && conversation < |s.conversations|
    ensures Validates(s, Apply(s, step), conversation)
  {
    if OnTurn(step) { TurnMoveValidates(s, step, conversation); } else { StoreMoveValidates(s, step, conversation); }
  }

  /** In any run, two stores in which a conversation has one version show one detail, although claims,
      heartbeats and event appends happen without a bump. */
  lemma {:induction false} VersionIsValidator(s: State, later: seq<Move>, conversation: nat)
    requires Sound(s) && conversation < |s.conversations|
    ensures Validates(s, Run(s, later), conversation)
  {
    if later != [] {
      var front := later[..|later| - 1];
      VersionIsValidator(s, front, conversation);
      RunKeepsSound(s, front);
      StepValidates(Run(s, front), later[|later| - 1], conversation);
    }
  }

  /** Of two renames that expect one version, at most one is admitted; the second is refused as stale
      whatever happened in between. */
  lemma {:induction false} OneRenamePerVersion(s: State, between: seq<Move>, conversation: nat, owner: string, other: string,
                            title: Option<string>, expectedVersion: nat)
    requires Sound(s) && RenameAdmitted(s, conversation, owner, expectedVersion)
    ensures var u := Run(Apply(s, Rename(conversation, owner, title, expectedVersion)), between);
      && !RenameAdmitted(u, conversation, other, expectedVersion)
      && conversation < |u.conversations| && u.conversations[conversation].version > expectedVersion
  {
    var renamed := Apply(s, Rename(conversation, owner, title, expectedVersion));
    ApplyKeepsSound(s, Rename(conversation, owner, title, expectedVersion));
    VersionIsValidator(renamed, between, conversation);
  }

  // -------------------------------------------------------- what the detail shows

  /** Accepted refs are shown under their label, if they have one. */
  predicate ShowsRef(dto: AcceptedDto, ref: AcceptedRef) {
    && dto.id == ref.publicRef && dto.kind == ref.kind && dto.order == ref.order
    && Some(dto.refLabel) == ref.safeLabel && dto.description == ref.safeDescription
  }

  predicate HasLabel(ref: AcceptedRef) { ref.safeLabel.Some? }

  /** The positions of the refs that are shown: in order, exactly those with a label. */
  ghost predicate RefsShown(dtos: seq<AcceptedDto>, refs: seq<AcceptedRef>) {
    exists at :: Filters(at, dtos, refs, ShowsRef, HasLabel)
  }

  lemma {:induction false} AcceptedShown(refs: seq<AcceptedRef>) returns (at: seq<nat>)
    ensures Filters(at, AcceptedDtos(refs), refs, ShowsRef, HasLabel)
  {
    if refs == [] {
      at := [];
    } else {
      var front, last := refs[..|refs| - 1], refs[|refs| - 1];
      assert refs == front + [last];
      at := AcceptedShown(front);
      if last.safeLabel.Some? {
        var dto := AcceptedDto(last.publicRef, last.kind, last.order, last.safeLabel.value, last.safeDescription);
        KeptToo(at, AcceptedDtos(front), front, ShowsRef, HasLabel, dto, last);
        at := at + [|front|];
      } else {
        NotKept(at, AcceptedDtos(front), front, ShowsRef, HasLabel, last);
      }
    }
  }

  /** What one entry of the conversation detail says of its turn. */
  ghost predicate TurnShown(dto: TurnDto, t: Turn) {
    && dto.id == t.key.publicRef && dto.clientRequestId == t.key.clientRequestId && dto.userMessage == t.key.userMessage
    && dto.route == t.key.route && dto.domainId == t.key.domainId && dto.createdAt == t.key.createdAt
    && dto.status == t.status && dto.completedAt == t.completedAt && (dto.completedAt.None? <==> t.status == Running)
    && dto.answer == (if t.status == Completed && (t.stopReason == Some(StopDirectLlm) || t.stopReason == Some(StopGrounded))
                      then Some(Strip(Concat(DeltaTexts(t.ledger)))) else None)
    && dto.evidence == (if t.status == Redacted then [] else t.evidence)
    && (if t.status == Redacted then dto.acceptedRefs == [] else RefsShown(dto.acceptedRefs, t.accepted))
    && dto.error == (if t.status == Cancelled then Some(("turn_cancelled", "The answer was cancelled."))
                     else if t.status == Failed && t.errorCode.Some? && t.errorMessage.Some? && t.errorCode.value != "" && t.errorMessage.value != ""
                     then Some((t.errorCode.value, t.errorMessage.value))
                     else None)
  }

  lemma ErrorShown(t: Turn)
    requires OutcomeSound(t)
    ensures t.status == Failed ==> t.errorCode.Some? && t.errorMessage.Some?
    ensures ProjectTurn(t).error ==
      if t.status == Cancelled then Some(("turn_cancelled", "The answer was cancelled."))
      else if t.status == Failed && t.errorCode.value != "" && t.errorMessage.value != "" then Some((t.errorCode.value, t.errorMessage.value))
      else None
  {
  }

  lemma RefsAreShown(t: Turn)
    requires EvidenceNumbered(t) && AcceptedUnredacted(t)
    ensures ProjectTurn(t).evidence == if t.status == Redacted then [] else t.evidence
    ensures if t.status == Redacted then ProjectTurn(t).acceptedRefs == [] else RefsShown(ProjectTurn(t).acceptedRefs, t.accepted)
  {
    if t.status != Redacted {
      AllUnredacted(t.evidence);
      AllUnredactedAccepted(t.accepted);
      var at := AcceptedShown(t.accepted);
    }
  }

  lemma RowShown(t: Turn)
    requires LedgerSound(t) && OutcomeSound(t) && EvidenceNumbered(t) && AcceptedUnredacted(t)
    ensures TurnShown(ProjectTurn(t), t)
  {
    ShownAnswer(t);
    ErrorShown(t);
    RefsAreShown(t);
  }

  function IsIn(conversation: nat): Cell -> bool {
    (cell: Cell) => cell.row.key.conversation == conversation
  }

  predicate IsEntry(dto: TurnDto, cell: Cell) { dto == ProjectTurn(cell.row) }

  lemma {:induction false} DetailLists(cells: seq<Cell>, conversation: nat) returns (at: seq<nat>)
    ensures Filters(at, DetailTurns(cells, conversation), cells, IsEntry, IsIn(conversation))
  {
    if cells == [] {
      at := [];
    } else {
      var front, last := cells[..|cells| - 1], cells[|cells| - 1];
      assert cells == front + [last];
      at := DetailLists(front, conversation);
      if IsIn(conversation)(last) {
        KeptToo(at, DetailTurns(front, conversation), front, IsEntry, IsIn(conversation), ProjectTurn(last.row), last);
        at := at + [|front|];
      } else {
        NotKept(at, DetailTurns(front, conversation), front, IsEntry, IsIn(conversation), last);
      }
    }
  }

  /** The detail of a conversation in any reachable store: all its turns and no others, in the order in which
      they were started, each shown as what it is. */
  lemma {:induction false} DetailShows(steps: seq<Move>, s: State, conversation: nat) returns (at: seq<nat>)
    requires s == Run(INITIAL, steps) && conversation < |s.conversations|
    ensures DetailOf(s, conversation).title == s.conversations[conversation].title
    ensures Filters(at, DetailOf(s, conversation).turns, s.cells, IsEntry, IsIn(conversation))
    ensures forall k :: 0 <= k < |at| ==> RowSound(s.cells[at[k]].row) && TurnShown(DetailOf(s, conversation).turns[k], s.cells[at[k]].row)
  {
    ReachableSound(steps);
    at := DetailLists(s.cells, conversation);
    forall k | 0 <= k < |at|
      ensures RowSound(s.cells[at[k]].row) && TurnShown(DetailOf(s, conversation).turns[k], s.cells[at[k]].row)
    {
      assert CellSound(s.cells[at[k]]);
      RowShown(s.cells[at[k]].row);
    }
  }

  /** A rename takes effect exactly when the conversation is the owner's, not deleted, and at the expected
      version; then it changes the title and raises the version by one, and nothing else. */
  lemma RenameExact(s: State, conversation: nat, owner: string, title: Option<string>, expectedVersion: nat)
    ensures var u := Apply(s, Rename(conversation, owner, title, expectedVersion));
      if conversation < |s.conversations| && !s.conversations[conversation].deleted
         && s.conversations[conversation].owner == owner && s.conversations[conversation].version == expectedVersion
      then
        && |u.conversations| == |s.conversations|
        && u.conversations[conversation] ==
             Conversation(owner, s.conversations[conversation].publicRef, title, expectedVersion + 1, false)
        && (forall c :: 0 <= c < |s.conversations| && c != conversation ==> u.conversations[c] == s.conversations[c])
        && u.cells == s.cells && u.tokens == s.tokens && u.starters == s.starters && u.now == s.now
      else u == s
  {
  }

  lemma {:induction false} DeletedForGood(s: State, later: seq<Move>, conversation: nat)
    requires conversation < |s.conversations| && s.conversations[conversation].deleted
    ensures conversation < |Run(s, later).conversations| && Run(s, later).conversations[conversation].deleted
  {
    if later != [] {
      var front, last := later[..|later| - 1], later[|later| - 1];
      DeletedForGood(s, front, conversation);
      DeletionIsFinal(Run(s, front), last, conversation);
    }
  }

  /** A deletion takes effect on the same conditions, and does nothing but mark the conversation. */
  lemma DeleteExact(s: State, conversation: nat, owner: string, expectedVersion: nat)
    ensures var u := Apply(s, Delete(conversation, owner, expectedVersion));
      if conversation < |s.conversations| && !s.conversations[conversation].deleted
         && s.conversations[conversation].owner == owner && s.conversations[conversation].version == expectedVersion
      then u == s.(conversations := s.conversations[conversation := s.conversations[conversation].(deleted := true)])
      else u == s
  {
  }

  /** No request finds a deleted conversation again, whatever happens later. */
  lemma {:induction false} DeletedIsGone(s: State, later: seq<Move>, request: Request, domainReady: bool, eligible: set<string>)
    requires request.conversation < |s.conversations| && s.conversations[request.conversation].deleted
    ensures Precheck(Run(s, later), request, domainReady, eligible) == Refused(NotFound)
  {
    DeletedForGood(s, later, request.conversation);
  }
}
