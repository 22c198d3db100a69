/** Runs from the empty store that reach a reclaimed turn with stored Evidence, and both ways it can go on. */
module ReclaimRuns {
  import opened Basics
  import opened TurnTypes
  import opened TurnRow
  import opened Ledger
  import opened Executor
  import opened TurnInvariant
  import opened ComposerRefs
  import opened ChatSystem
  import opened ChatInvariant
  import opened ChatTheorems
  import opened Reclaim

  // ------------------------------------------------------------- driving a generation

  predicate HoldsLease(t: Turn, now: int) {
    t.leaseExpiresAt.Some? && t.claimableAt.Some? && t.claimableAt.value <= now
  }

  /** A running domain-route turn without deltas whose generation `g` stands at `pc` and which holds `held`. */
  predicate At(s: State, turn: nat, g: nat, pc: Pc, held: seq<EvidenceRef>) {
    && Standing(s, turn, pc) && s.cells[turn].row.generation == g && s.cells[turn].execs[g - 1].generation == g
    && s.cells[turn].row.key.route == DomainRag && s.cells[turn].row.evidence == held
    && !HasAnswerDelta(s.cells[turn].row.ledger) && EvidenceNumbered(s.cells[turn].row)
    && HoldsLease(s.cells[turn].row, s.now) && |s.cells[turn].execs| == g
  }

  /** Where a step leads on the way through retrieval, if this reply leads on. */
  function Onward(pc: Pc, io: Io): Option<Pc> {
    match pc
    case Boot => Some(ResolveRuntime)
    case ResolveRuntime => if io.reply.RuntimeReady? then Some(StartFence) else None
    case StartFence => Some(StartRetrieval)
    case StartRetrieval => Some(AwaitRetrieval)
    case AwaitRetrieval => if io.reply.Retrieved? then Some(RetrievalFence(io.reply.evidence)) else None
    case RetrievalFence(found) => Some(if found == [] then ReportFruitless else StoreEvidence(found))
    case ReportFruitless => Some(CompleteFruitless)
    case _ => None
  }

  lemma OnwardStep(t: Turn, x: Exec, io: Io)
    requires t.status == Running && t.generation == x.generation && t.key.route == DomainRag && !HasAnswerDelta(t.ledger)
    requires Onward(x.pc, io).Some?
    ensures var r := Step(t, x, io);
      && r.exec == x.(pc := Onward(x.pc, io).value) && r.row == t.(ledger := r.row.ledger) && !HasAnswerDelta(r.row.ledger)
  {
    if x.pc.StartRetrieval? || x.pc.ReportFruitless? {
      WorkAppends(t, x, io);
    }
  }

  lemma OnwardApply(s: State, turn: nat, g: nat, pc: Pc, held: seq<EvidenceRef>, io: Io)
    requires At(s, turn, g, pc, held) && Onward(pc, io).Some?
    ensures At(Apply(s, Execute(turn, g, io)), turn, g, Onward(pc, io).value, held)
  {
    CurrentExecutes(s, turn, pc, io);
    OnwardStep(s.cells[turn].row, s.cells[turn].execs[g - 1], io.(now := s.now));
  }

  function Executes(turn: nat, g: nat, ios: seq<Io>): (moves: seq<Move>)
    ensures |moves| == |ios| && forall k :: 0 <= k < |ios| ==> moves[k] == Execute(turn, g, ios[k])
  {
    if ios == [] then [] else Executes(turn, g, ios[..|ios| - 1]) + [Execute(turn, g, ios[|ios| - 1])]
  }

  function Along(pc: Pc, ios: seq<Io>): Option<Pc> {
    if ios == [] then Some(pc)
    else
      var before := Along(pc, ios[..|ios| - 1]);
      if before.None? then None else Onward(before.value, ios[|ios| - 1])
  }

  lemma {:induction false} AlongRun(s: State, turn: nat, g: nat, pc: Pc, held: seq<EvidenceRef>, ios: seq<Io>)
    requires At(s, turn, g, pc, held) && Along(pc, ios).Some?
    ensures At(Run(s, Executes(turn, g, ios)), turn, g, Along(pc, ios).value, held)
  {
    if ios != [] {
      var front := ios[..|ios| - 1];
      AlongRun(s, turn, g, pc, held, front);
      OnwardApply(Run(s, Executes(turn, g, front)), turn, g, Along(pc, front).value, held, ios[|ios| - 1]);
      assert Executes(turn, g, ios)[..|ios| - 1] == Executes(turn, g, front);
    }
  }

  /** A search from the start, answered with `found`: six steps lead to the decision on it. */
  function Search(found: seq<Mapped>): (ios: seq<Io>)
    ensures |ios| == 6
  {
    [Io(RuntimeReady, "", [], map[], 0), Io(RuntimeReady, "", [], map[], 0), Io(RuntimeReady, "", [], map[], 0),
     Io(RuntimeReady, "e", [], map[], 0), Io(Retrieved(found), "", [], map[], 0), Io(Proceed, "", [], map[], 0)]
  }

  lemma SearchLeads(found: seq<Mapped>)
    ensures Along(Boot, Search(found)) == Some(if found == [] then ReportFruitless else StoreEvidence(found))
  {
    var ios := Search(found);
    assert ios[..5][..4] == ios[..4] && ios[..4][..3] == ios[..3] && ios[..3][..2] == ios[..2] && ios[..2][..1] == ios[..1] && ios[..1][..0] == ios[..0];
    assert Along(Boot, ios[..0]) == Some(Boot);
    assert Along(Boot, ios[..1]) == Some(ResolveRuntime);
    assert Along(Boot, ios[..2]) == Some(StartFence);
    assert Along(Boot, ios[..3]) == Some(StartRetrieval);
    assert Along(Boot, ios[..4]) == Some(AwaitRetrieval);
    assert Along(Boot, ios[..5]) == Some(RetrievalFence(found));
  }

  lemma Searched(s: State, turn: nat, g: nat, held: seq<EvidenceRef>, found: seq<Mapped>)
    requires At(s, turn, g, Boot, held)
    ensures At(Run(s, Executes(turn, g, Search(found))), turn, g, if found == [] then ReportFruitless else StoreEvidence(found), held)
  {
    SearchLeads(found);
    AlongRun(s, turn, g, Boot, held, Search(found));
  }

  lemma RunSnoc(s: State, steps: seq<Move>, step: Move)
    ensures Run(s, steps + [step]) == Apply(Run(s, steps), step)
  {
    assert (steps + [step])[..|steps|] == steps;
  }

  // ------------------------------------------------------------- both ways to go on

  /** From any claim of a turn that holds Evidence: if the search finds something, the generation stops and
      the turn is still running, with the Evidence it had. */
  lemma FoundAgainStops(s: State, turn: nat, g: nat, held: seq<EvidenceRef>, found: Mapped, id: string) returns (steps: seq<Move>)
    requires At(s, turn, g, Boot, held) && held != []
    ensures var end := Run(s, steps);
      && HasExec(end, turn, g) && end.cells[turn].execs[g - 1].pc == Stopped
      && end.cells[turn].row.generation == g
      && end.cells[turn].row.status == Running && end.cells[turn].row.evidence == held
  {
    var searching := Executes(turn, g, Search([found]));
    var store := Io(Proceed, "", [id], map[], 0);
    Searched(s, turn, g, held, [found]);
    steps := searching + [Execute(turn, g, store)];
    RunSnoc(s, searching, Execute(turn, g, store));
    var at := Run(s, searching);
    CurrentExecutes(at, turn, StoreEvidence([found]), store);
    StoreStep(at.cells[turn].row, at.cells[turn].execs[g - 1], [found], store.(now := at.now));
  }

  lemma CompletesFruitless(s: State, turn: nat, g: nat, held: seq<EvidenceRef>, io: Io)
    requires At(s, turn, g, CompleteFruitless, held)
    ensures var end := Apply(s, Execute(turn, g, io));
      && turn < |end.cells| && end.cells[turn].row.status == Completed
      && end.cells[turn].row.stopReason == Some(StopNoGroundedContext) && end.cells[turn].row.evidence == held
  {
    CurrentExecutes(s, turn, CompleteFruitless, io);
    FinalEffect(s.cells[turn].row, g, CompleteAs(StopNoGroundedContext, None, RETRIEVAL_BUDGET), io.(now := s.now));
  }

  /** If it finds nothing, the turn completes as no_grounded_context, with the Evidence it had. */
  lemma FoundNothingCompletes(s: State, turn: nat, g: nat, held: seq<EvidenceRef>) returns (steps: seq<Move>)
    requires At(s, turn, g, Boot, held)
    ensures var end := Run(s, steps);
      && turn < |end.cells| && end.cells[turn].row.status == Completed
      && end.cells[turn].row.stopReason == Some(StopNoGroundedContext) && end.cells[turn].row.evidence == held
  {
    var searching := Executes(turn, g, Search([]));
    var io := Io(Proceed, "c", [], map[], 0);
    Searched(s, turn, g, held, []);
    RunSnoc(s, searching, Execute(turn, g, io));
    OnwardApply(Run(s, searching), turn, g, ReportFruitless, held, io);
    var reported := searching + [Execute(turn, g, io)];
    RunSnoc(s, reported, Execute(turn, g, io));
    steps := reported + [Execute(turn, g, io)];
    CompletesFruitless(Run(s, reported), turn, g, held, io);
  }

  // ------------------------------------------------------------- from the empty store

  lemma Claimed(s: State, turn: nat, g: nat, held: seq<EvidenceRef>)
    requires Stored(s, turn) && Claimable(s.cells[turn].row, s.now) && s.cells[turn].row.generation == g == |s.cells[turn].execs|
    requires s.cells[turn].row.key.route == DomainRag && s.cells[turn].row.evidence == held
    requires !HasAnswerDelta(s.cells[turn].row.ledger) && EvidenceNumbered(s.cells[turn].row)
    ensures At(Apply(s, Claim(turn, "worker", 0)), turn, g + 1, Boot, held)
  {
  }

  /** Wherever a generation stands, letting its lease run out and claiming the turn again starts the next one. */
  lemma Reclaimed(s: State, turn: nat, g: nat, pc: Pc, held: seq<EvidenceRef>) returns (steps: seq<Move>)
    requires At(s, turn, g, pc, held)
    ensures At(Run(s, steps), turn, g + 1, Boot, held)
  {
    var lease := s.cells[turn].row.leaseExpiresAt.value;
    var wait := Tick(if lease < s.now then 0 else lease - s.now + 1);
    var claim := Claim(turn, "worker", 0);
    RunSnoc(s, [], wait);
    RunSnoc(s, [wait], claim);
    steps := [wait] + [claim];
    assert [] + [wait] == [wait];
    assert Run(s, []) == s;
    Claimed(Apply(s, wait), turn, g, held);
  }

  /** The first storing, as a step of a generation that found something. */
  lemma Stores(s: State, turn: nat, g: nat, found: Mapped, io: Io)
    requires At(s, turn, g, StoreEvidence([found]), []) && |io.refIds| == 1
    ensures At(Apply(s, Execute(turn, g, io)), turn, g, EvidenceFence, NewEvidenceRefs([found], io.refIds))
  {
    CurrentExecutes(s, turn, StoreEvidence([found]), io);
    StoreStep(s.cells[turn].row, s.cells[turn].execs[g - 1], [found], io.(now := s.now));
  }

  lemma RunConcat(s: State, first: seq<Move>, second: seq<Move>, turn: nat, g: nat, pc: Pc, held: seq<EvidenceRef>)
    requires At(Run(Run(s, first), second), turn, g, pc, held)
    ensures At(Run(s, first + second), turn, g, pc, held)
  {
    RunSplit(s, first, second);
  }

  const ASKED := Request("owner", 0, "request", "question", false, Some("domain"), [])
  const NEW_IDS := FreshIds("turn", "accepted", "routed", [])

  lemma Begins(s: State)
    requires s == State(0, [Conversation("owner", "conv", None, 1, false)], [], map[], [])
    ensures Apply(s, StartBegins(ASKED, true, {})) == s.(starters := [Starter(ASKED, [], false)])
  {
    assert RefsOf(s.tokens, []) == [];
  }

  lemma Commits(s: State)
    requires s == State(0, [Conversation("owner", "conv", None, 1, false)], [], map[], [Starter(ASKED, [], false)])
    ensures var u := Apply(s, StartCommits(0, true, NEW_IDS));
      && Stored(u, 0) && Claimable(u.cells[0].row, u.now) && u.cells[0].row.generation == 0 == |u.cells[0].execs|
      && u.cells[0].row.key.route == DomainRag && u.cells[0].row.evidence == []
      && !HasAnswerDelta(u.cells[0].row.ledger) && EvidenceNumbered(u.cells[0].row)
  {
  }

  /** A conversation, a start of a domain-route turn, and its insertion. */
  lemma Inserts() returns (steps: seq<Move>)
    ensures var s := Run(INITIAL, steps);
      && Stored(s, 0) && Claimable(s.cells[0].row, s.now) && s.cells[0].row.generation == 0 == |s.cells[0].execs|
      && s.cells[0].row.key.route == DomainRag && s.cells[0].row.evidence == []
      && !HasAnswerDelta(s.cells[0].row.ledger) && EvidenceNumbered(s.cells[0].row)
  {
    var create, begin, commit := CreateConversation("owner", "conv", None), StartBegins(ASKED, true, {}), StartCommits(0, true, NEW_IDS);
    steps := [create] + [begin] + [commit];
    assert [] + [create] == [create] && Run(INITIAL, []) == INITIAL;
    RunSnoc(INITIAL, [], create);
    RunSnoc(INITIAL, [create], begin);
    RunSnoc(INITIAL, [create] + [begin], commit);
    var s := Apply(INITIAL, create);
    Begins(s);
    Commits(Apply(s, begin));
  }

  /** A run after which a second generation has just claimed a turn for which the first one stored Evidence. */
  lemma ReclaimedWithEvidence(found: Mapped) returns (steps: seq<Move>, held: seq<EvidenceRef>)
    ensures held != [] && At(Run(INITIAL, steps), 0, 2, Boot, held)
  {
    var inserted := Inserts();
    var claim := Claim(0, "worker", 0);
    var claimed := inserted + [claim];
    Claimed(Run(INITIAL, inserted), 0, 0, []);
    RunSnoc(INITIAL, inserted, claim);
    var searching := Executes(0, 1, Search([found]));
    Searched(Run(INITIAL, claimed), 0, 1, [], [found]);
    RunConcat(INITIAL, claimed, searching, 0, 1, StoreEvidence([found]), []);
    var searched := claimed + searching;
    var store := Io(Proceed, "", ["ref"], map[], 0);
    held := NewEvidenceRefs([found], store.refIds);
    Stores(Run(INITIAL, searched), 0, 1, found, store);
    RunSnoc(INITIAL, searched, Execute(0, 1, store));
    var stored := searched + [Execute(0, 1, store)];
    var more := Reclaimed(Run(INITIAL, stored), 0, 1, EvidenceFence, held);
    RunConcat(INITIAL, stored, more, 0, 2, Boot, held);
    steps := stored + more;
  }

  /** The promise that a reclaimed turn finishes is false: a run from the empty store after which the second
      generation has stopped and the turn is still running. */
  lemma ReclaimNeedNotFinish(found: Mapped) returns (steps: seq<Move>)
    ensures var end := Run(INITIAL, steps);
      && HasExec(end, 0, 2) && end.cells[0].row.generation == 2 && end.cells[0].execs[1].pc == Stopped
      && end.cells[0].row.status == Running && end.cells[0].row.evidence != []
  {
    var first, held := ReclaimedWithEvidence(found);
    var more := FoundAgainStops(Run(INITIAL, first), 0, 2, held, found, "ref");
    RunSplit(INITIAL, first, more);
    steps := first + more;
  }

  /** And a run after which a turn that holds Evidence has completed as no_grounded_context. */
  lemma FruitlessWithEvidence(found: Mapped) returns (steps: seq<Move>)
    ensures var end := Run(INITIAL, steps);
      && |end.cells| > 0 && end.cells[0].row.status == Completed
      && end.cells[0].row.stopReason == Some(StopNoGroundedContext) && end.cells[0].row.evidence != []
  {
    var first, held := ReclaimedWithEvidence(found);
    var more := FoundNothingCompletes(Run(INITIAL, first), 0, 2, held);
    RunSplit(INITIAL, first, more);
    steps := first + more;
  }
}
