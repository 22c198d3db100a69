/** The whole conversation store under every interleaving of starters, leased workers, heartbeats,
    cancellers, redactors, renames and deletions. A run is any list of steps; a step that its guard does
    not admit leaves the store as it is. */
module ChatSystem {
  import opened Basics
  import opened TurnTypes
  import opened TurnRow
  import opened Ledger
  import opened Executor
  import opened TurnInvariant
  import opened ComposerRefs

  /** A turn row and every execution its claims ever launched: generation g is execs[g - 1]. */
  datatype Cell = Cell(row: Turn, execs: seq<Exec>)

  datatype Conversation = Conversation(owner: string, publicRef: string, title: Option<string>, version: nat, deleted: bool)

  /** `needsDomain` is what the search for domain-required patterns in the message answers. */
  datatype Request = Request(
    owner: string, conversation: nat, clientRequestId: string, message: string, needsDomain: bool,
    domainId: Option<string>, tokens: seq<string>)

  /** A start between its unlocked checks and its locked insertion. */
  datatype Starter = Starter(request: Request, refs: seq<ValidatedRef>, finished: bool)

  /** Rows of a deleted conversation stay in `cells` as history; no step reads or writes them again. */
  datatype State = State(
    now: int, conversations: seq<Conversation>, cells: seq<Cell>, tokens: TokenTable, starters: seq<Starter>)

  datatype StartError =
    | NotFound | Invalid | DomainRequired | RequestConflict | TurnInProgress | DomainUnavailable | TokensUnavailable | Unauthenticated

  datatype StartAnswer = Replay(turn: nat) | Refused(error: StartError) | Ready(refs: seq<ValidatedRef>)

  const INITIAL := State(0, [], [], map[], [])

  // ------------------------------------------------------------------- lookups

  predicate Owned(s: State, conversation: nat, owner: string) {
    && conversation < |s.conversations| && !s.conversations[conversation].deleted
    && s.conversations[conversation].owner == owner
  }

  predicate Stored(s: State, turn: nat) {
    && turn < |s.cells|
    && s.cells[turn].row.key.conversation < |s.conversations|
    && !s.conversations[s.cells[turn].row.key.conversation].deleted
  }

  function FindRequest(cells: seq<Cell>, conversation: nat, clientRequestId: string): Option<nat> {
    if cells == [] then None
    else
      var key := cells[|cells| - 1].row.key;
      if key.conversation == conversation && key.clientRequestId == clientRequestId then Some(|cells| - 1)
      else FindRequest(cells[..|cells| - 1], conversation, clientRequestId)
  }

  predicate RunningIn(cells: seq<Cell>, conversation: nat) {
    exists i :: 0 <= i < |cells| && cells[i].row.key.conversation == conversation && cells[i].row.status == Running
  }

  function RouteOf(request: Request): Route {
    if request.domainId.Some? then DomainRag else DirectLlm
  }

  predicate SameRequest(key: TurnKey, request: Request) {
    && key.userMessage == request.message && key.domainId == request.domainId
    && key.route == RouteOf(request) && key.fingerprint == request.tokens
  }

  /** Such a request names no domain although its message asks for one. */
  predicate DomainMissing(request: Request) {
    request.domainId.None? && request.needsDomain
  }

  // ------------------------------------------------------------------ starting

  /** The replay fence, then the one-running fence: run once before the conversation lock and once after it. */
  function StartFences(s: State, request: Request): Option<StartAnswer> {
    var existing := FindRequest(s.cells, request.conversation, request.clientRequestId);
    if existing.Some? then
      if existing.value < |s.cells| && SameRequest(s.cells[existing.value].row.key, request)
      then Some(Replay(existing.value)) else Some(Refused(RequestConflict))
    else if RunningIn(s.cells, request.conversation) then Some(Refused(TurnInProgress))
    else None
  }

  /** The unlocked part of start_or_replay_turn. */
  function Precheck(s: State, request: Request, domainReady: bool, eligible: set<string>): StartAnswer {
    if !Owned(s, request.conversation, request.owner) then Refused(NotFound)
    else if DomainMissing(request) then Refused(DomainRequired)
    else if !Normalizable(request.tokens) then Refused(Invalid)
    else
      var fenced := StartFences(s, request);
      if fenced.Some? then fenced.value
      else if request.domainId.Some? && !domainReady then Refused(DomainUnavailable)
      else
        var refs := ValidateTokens(s.tokens, request.owner, request.domainId, request.tokens, eligible, s.now);
        if refs.Failure? then Refused(if refs.error.ValidationError? then Invalid else TokensUnavailable)
        else Ready(refs.value)
  }

  function BeginStart(s: State, request: Request, domainReady: bool, eligible: set<string>): State {
    var answer := Precheck(s, request, domainReady, eligible);
    if answer.Ready? then s.(starters := s.starters + [Starter(request, answer.refs, false)]) else s
  }

  /** Identifiers the insertion draws: the turn's, its two events', and one per accepted ref. */
  datatype FreshIds = FreshIds(turn: string, accepted: string, routed: string, refs: seq<string>)

  function AcceptedRows(refs: seq<ValidatedRef>, ids: seq<string>): (rows: seq<AcceptedRef>)
    requires |ids| == |refs|
    ensures |rows| == |refs| && forall i :: 0 <= i < |rows| ==> rows[i].redactedAt.None?
  {
    seq(|refs|, i requires 0 <= i < |refs| =>
      AcceptedRef(ids[i], refs[i].order, refs[i].kind, refs[i].targetId, refs[i].safeLabel, refs[i].safeDescription, None))
  }

  /** The row an accepted request becomes. */
  function RowFor(s: State, request: Request, refs: seq<ValidatedRef>, ids: FreshIds): Turn
    requires |ids.refs| == |refs| && request.conversation < |s.conversations|
  {
    var key := TurnKey(ids.turn, request.conversation, s.conversations[request.conversation].publicRef,
                       request.clientRequestId, RouteOf(request), request.domainId, request.message, request.tokens, s.now);
    InsertedTurn(key, AcceptedRows(refs, ids.refs), ids.accepted, ids.routed, s.now)
  }

  function Bumped(conversations: seq<Conversation>, c: nat): seq<Conversation>
    requires c < |conversations|
  {
    conversations[c := conversations[c].(version := conversations[c].version + 1)]
  }

  /** The locked part: both fences again, insert, consume, persist. Any error rolls everything back. */
  function InsertTurn(s: State, request: Request, refs: seq<ValidatedRef>, ids: FreshIds): Result<State, StartAnswer>
    requires |ids.refs| == |refs|
  {
    if !Owned(s, request.conversation, request.owner) then Failure(Refused(NotFound))
    else
      var fenced := StartFences(s, request);
      if fenced.Some? then Failure(fenced.value)
      else
        var spent := if refs == [] then Success(s.tokens) else ConsumeTokens(s.tokens, request.owner, request.tokens, s.now);
        if spent.Failure? then Failure(Refused(TokensUnavailable))
        else
          Success(s.(tokens := spent.value,
                     cells := s.cells + [Cell(RowFor(s, request, refs, ids), [])],
                     conversations := Bumped(s.conversations, request.conversation)))
  }

  function CommitStart(s: State, starter: nat, authenticated: bool, ids: FreshIds): State {
    if starter >= |s.starters| || s.starters[starter].finished then s
    else
      var st := s.starters[starter];
      var done := s.(starters := s.starters[starter := st.(finished := true)]);
      if !authenticated || |ids.refs| != |st.refs| then done
      else
        var inserted := InsertTurn(done, st.request, st.refs, ids);
        if inserted.Success? then inserted.value else done
  }

  // ----------------------------------------------------------- steps on one turn

  function Update(s: State, turn: nat, cell: Cell, bumped: bool): State
    requires Stored(s, turn)
  {
    s.(cells := s.cells[turn := cell],
       conversations := if bumped then Bumped(s.conversations, s.cells[turn].row.key.conversation) else s.conversations)
  }

  function ClaimStep(s: State, turn: nat, owner: string, leaseSeconds: nat): State {
    if Stored(s, turn) && Claimable(s.cells[turn].row, s.now) then
      var row := ClaimTurn(s.cells[turn].row, owner, leaseSeconds, s.now);
      Update(s, turn, Cell(row, s.cells[turn].execs + [Launch(row.generation, owner)]), false)
    else s
  }

  function HeartbeatStep(s: State, turn: nat, generation: nat, leaseSeconds: nat): State {
    if Stored(s, turn) && 0 < generation <= |s.cells[turn].execs| then
      var cell := s.cells[turn];
      var row := HeartbeatLease(cell.row, cell.execs[generation - 1].owner, generation, leaseSeconds, s.now);
      Update(s, turn, cell.(row := row), false)
    else s
  }

  function ExecuteStep(s: State, turn: nat, generation: nat, io: Io): State {
    if Stored(s, turn) && 0 < generation <= |s.cells[turn].execs| then
      var cell := s.cells[turn];
      var r := Step(cell.row, cell.execs[generation - 1], io.(now := s.now));
      Update(s, turn, Cell(r.row, cell.execs[generation - 1 := r.exec]), r.bumped)
    else s
  }

  /** A process dies, or its heartbeat thread tells it that the lease is lost. */
  function CrashStep(s: State, turn: nat, generation: nat): State {
    if Stored(s, turn) && 0 < generation <= |s.cells[turn].execs| then
      var cell := s.cells[turn];
      Update(s, turn, cell.(execs := cell.execs[generation - 1 := cell.execs[generation - 1].(pc := Stopped)]), false)
    else s
  }

  function CancelStep(s: State, turn: nat, eventId: string): State {
    if Stored(s, turn) then
      var c := CancelRunningTurn(s.cells[turn].row, eventId, s.now);
      Update(s, turn, s.cells[turn].(row := c.row), c.bumped)
    else s
  }

  function RedactStep(s: State, turn: nat, eventId: string): State {
    if Stored(s, turn) then
      var c := RedactTurn(s.cells[turn].row, eventId, s.now);
      Update(s, turn, s.cells[turn].(row := c.row), c.bumped)
    else s
  }

  // -------------------------------------------------------- conversations, tokens

  predicate RenameAdmitted(s: State, conversation: nat, owner: string, expectedVersion: nat) {
    Owned(s, conversation, owner) && s.conversations[conversation].version == expectedVersion
  }

  function RenameStep(s: State, conversation: nat, owner: string, title: Option<string>, expectedVersion: nat): State {
    if RenameAdmitted(s, conversation, owner, expectedVersion) then
      var renamed := s.conversations[conversation := s.conversations[conversation].(title := title)];
      s.(conversations := Bumped(renamed, conversation))
    else s
  }

  function DeleteStep(s: State, conversation: nat, owner: string, expectedVersion: nat): State {
    if Owned(s, conversation, owner) && s.conversations[conversation].version == expectedVersion then
      s.(conversations := s.conversations[conversation := s.conversations[conversation].(deleted := true)])
    else s
  }

  function IssueStep(s: State, hash: string, token: Token): State {
    if hash !in s.tokens then s.(tokens := s.tokens[hash := token.(consumedAt := None)]) else s
  }

  /** Deleting a source expires the unspent tokens that point at it. */
  function ExpireStep(s: State, hash: string): State {
    if hash in s.tokens then s.(tokens := s.tokens[hash := s.tokens[hash].(expiresAt := s.now)]) else s
  }

  // ---------------------------------------------------------------------- runs

  datatype Move =
    | Tick(seconds: nat)
    | CreateConversation(owner: string, publicRef: string, title: Option<string>)
    | Rename(conversation: nat, owner: string, title: Option<string>, expectedVersion: nat)
    | Delete(conversation: nat, owner: string, expectedVersion: nat)
    | Issue(hash: string, token: Token)
    | Expire(hash: string)
    | StartBegins(request: Request, domainReady: bool, eligible: set<string>)
    | StartCommits(starter: nat, authenticated: bool, ids: FreshIds)
    | Claim(turn: nat, owner: string, leaseSeconds: nat)
    | Heartbeat(turn: nat, generation: nat, leaseSeconds: nat)
    | Execute(turn: nat, generation: nat, io: Io)
    | Crash(turn: nat, generation: nat)
    | Cancel(turn: nat, eventId: string)
    | Redact(turn: nat, eventId: string)

  /** The step is a transaction on one stored turn, or a step of one of its executors. */
  predicate OnTurn(step: Move) {
    step.Claim? || step.Heartbeat? || step.Execute? || step.Crash? || step.Cancel? || step.Redact?
  }

  function ApplyToTurn(s: State, step: Move): State
    requires OnTurn(step)
  {
    match step
    case Claim(turn, owner, leaseSeconds) => ClaimStep(s, turn, owner, leaseSeconds)
    case Heartbeat(turn, generation, leaseSeconds) => HeartbeatStep(s, turn, generation, leaseSeconds)
    case Execute(turn, generation, io) => ExecuteStep(s, turn, generation, io)
    case Crash(turn, generation) => CrashStep(s, turn, generation)
    case Cancel(turn, eventId) => CancelStep(s, turn, eventId)
    case Redact(turn, eventId) => RedactStep(s, turn, eventId)
  }

  function ApplyToStore(s: State, step: Move): State
    requires !OnTurn(step)
  {
    match step
    case Tick(seconds) => s.(now := s.now + seconds)
    case CreateConversation(owner, publicRef, title) =>
      s.(conversations := s.conversations + [Conversation(owner, publicRef, title, 1, false)])
    case Rename(conversation, owner, title, expectedVersion) => RenameStep(s, conversation, owner, title, expectedVersion)
    case Delete(conversation, owner, expectedVersion) => DeleteStep(s, conversation, owner, expectedVersion)
    case Issue(hash, token) => IssueStep(s, hash, token)
    case Expire(hash) => ExpireStep(s, hash)
    case StartBegins(request, domainReady, eligible) => BeginStart(s, request, domainReady, eligible)
    case StartCommits(starter, authenticated, ids) => CommitStart(s, starter, authenticated, ids)
  }

  function Apply(s: State, step: Move): State {
    if OnTurn(step) then ApplyToTurn(s, step) else ApplyToStore(s, step)
  }

  function Run(s: State, steps: seq<Move>): State {
    if steps == [] then s else Apply(Run(s, steps[..|steps| - 1]), steps[|steps| - 1])
  }

  lemma {:induction false} RunSplit(s: State, first: seq<Move>, second: seq<Move>)
    ensures Run(s, first + second) == Run(Run(s, first), second)
  {
    if second == [] {
      assert first + second == first;
    } else {
      var front := second[..|second| - 1];
      RunSplit(s, first, front);
      assert (first + second)[..|first + second| - 1] == first + front;
    }
  }

  // ----------------------------------------------------------------- invariant

  predicate CellSound(c: Cell) {
    && RowSound(c.row) && Written(c.row)
    && |c.execs| == c.row.generation
    && (forall k :: 0 <= k < |c.execs| ==> c.execs[k].generation == k + 1)
    && (c.row.status == Running && c.row.generation > 0 ==> Tracks(c.row, c.execs[c.row.generation - 1]))
  }

  /** What a sound cell says of one of its executions. */
  predicate Launched(c: Cell, generation: nat) {
    && 0 < generation <= |c.execs| && RowSound(c.row) && c.execs[generation - 1].generation == generation
    && (c.row.status == Running && generation == c.row.generation ==> Tracks(c.row, c.execs[generation - 1]))
  }

  /** The unique indexes of the turn table: one turn per (conversation, client request), one running turn per conversation. */
  predicate TurnsUnique(cells: seq<Cell>) {
    && (forall i, j :: 0 <= i < j < |cells| && cells[i].row.key.conversation == cells[j].row.key.conversation ==>
          cells[i].row.key.clientRequestId != cells[j].row.key.clientRequestId)
    && (forall i, j :: 0 <= i < j < |cells| && cells[i].row.key.conversation == cells[j].row.key.conversation ==>
          cells[i].row.status != Running || cells[j].row.status != Running)
  }

  function AcceptedTotal(cells: seq<Cell>): nat {
    if cells == [] then 0 else AcceptedTotal(cells[..|cells| - 1]) + |cells[|cells| - 1].row.accepted|
  }

  /** The tokens that accepted turns were started with. */
  function SpentBy(cells: seq<Cell>): set<string> {
    if cells == [] then {} else SpentBy(cells[..|cells| - 1]) + Elements(cells[|cells| - 1].row.key.fingerprint)
  }

  /** The accepted refs of a turn are its tokens' targets, in order. */
  predicate RefsMatchTokens(tokens: TokenTable, row: Turn) {
    && Normalizable(row.key.fingerprint) && |row.accepted| == |row.key.fingerprint|
    && forall k :: 0 <= k < |row.accepted| ==>
         && row.key.fingerprint[k] in tokens
         && row.accepted[k].order == k + 1
         && row.accepted[k].kind == tokens[row.key.fingerprint[k]].kind
         && row.accepted[k].targetId == tokens[row.key.fingerprint[k]].targetId
  }

  /** Every consumed token was consumed by exactly one turn, and every accepted ref stands for one of them. */
  predicate TokensSpentOnce(tokens: TokenTable, cells: seq<Cell>) {
    && Consumed(tokens) == SpentBy(cells)
    && |Consumed(tokens)| == AcceptedTotal(cells)
    && (forall i, j :: 0 <= i < j < |cells| ==>
          Elements(cells[i].row.key.fingerprint) !! Elements(cells[j].row.key.fingerprint))
  }

  predicate RefsSound(tokens: TokenTable, cells: seq<Cell>) {
    forall i :: 0 <= i < |cells| ==> RefsMatchTokens(tokens, cells[i].row)
  }

  predicate StarterSound(tokens: TokenTable, starter: Starter) {
    && Normalizable(starter.request.tokens) && !DomainMissing(starter.request)
    && (forall k :: 0 <= k < |starter.request.tokens| ==> starter.request.tokens[k] in tokens)
    && starter.refs == RefsOf(tokens, starter.request.tokens)
  }

  predicate StartersSound(tokens: TokenTable, starters: seq<Starter>) {
    forall i :: 0 <= i < |starters| ==> StarterSound(tokens, starters[i])
  }

  predicate CellsSound(cells: seq<Cell>) {
    forall i :: 0 <= i < |cells| ==> CellSound(cells[i])
  }

  predicate CellsHoused(cells: seq<Cell>, conversations: nat) {
    forall i :: 0 <= i < |cells| ==> cells[i].row.key.conversation < conversations
  }

  predicate Sound(s: State) {
    && CellsSound(s.cells)
    && CellsHoused(s.cells, |s.conversations|)
    && TurnsUnique(s.cells)
    && StartersSound(s.tokens, s.starters)
    && RefsSound(s.tokens, s.cells)
    && TokensSpentOnce(s.tokens, s.cells)
  }
}
