/** Leases over any run: when a turn may be claimed, and by whom its lease may be renewed. */
module Leases {
  import opened Basics
  import opened TurnTypes
  import opened TurnRow
  import opened Executor
  import opened TurnInvariant
  import opened ChatSystem
  import opened ChatInvariant
  import opened Evolution

  /** The step grants or renews this turn's lease. */
  predicate Grants(s: State, step: Move, turn: nat) {
    && turn < |s.cells|
    && ((step.Claim? && step.turn == turn && Stored(s, turn) && Claimable(s.cells[turn].row, s.now))
        || (step.Heartbeat? && step.turn == turn && Stored(s, turn) && 0 < step.generation <= |s.cells[turn].execs|
            && LeaseCurrent(s.cells[turn].row, s.cells[turn].execs[step.generation - 1].owner, step.generation, s.now)))
  }

  function GrantedSeconds(step: Move): nat
    requires step.Claim? || step.Heartbeat?
  {
    step.leaseSeconds
  }

  predicate NoGrant(s: State, steps: seq<Move>, turn: nat) {
    forall k :: 0 <= k < |steps| ==> !Grants(Run(s, steps[..k]), steps[k], turn)
  }

  lemma GrantSetsLease(s: State, step: Move, turn: nat)
    requires Grants(s, step, turn)
    ensures var t := Apply(s, step).cells[turn].row;
      t.status == Running && t.leaseExpiresAt == Some(s.now + GrantedSeconds(step))
  {
  }

  /** The lease as it was, or no lease to speak of. */
  predicate LeaseKept(t: Turn, u: Turn) {
    u.status != Running || (t.status == Running && u.leaseExpiresAt == t.leaseExpiresAt)
  }

  lemma PerformKeepsLease(t: Turn, generation: nat, a: Action, io: Io)
    ensures var r := Perform(t, generation, a, io);
      r.Success? ==> LeaseKept(t, r.value.row)
  {
  }

  lemma ExecuteKeepsLease(s: State, turn: nat, generation: nat, io: Io, i: nat)
    requires i < |s.cells|
    ensures i < |ExecuteStep(s, turn, generation, io).cells|
    ensures LeaseKept(s.cells[i].row, ExecuteStep(s, turn, generation, io).cells[i].row)
  {
    if i == turn && Stored(s, i) && 0 < generation <= |s.cells[i].execs| {
      var x := s.cells[i].execs[generation - 1];
      PerformKeepsLease(s.cells[i].row, x.generation, Decide(s.cells[i].row, x, io.(now := s.now)), io.(now := s.now));
    }
  }

  lemma CloseKeepsLease(t: Turn, id: string, now: int)
    ensures LeaseKept(t, CancelRunningTurn(t, id, now).row) && LeaseKept(t, RedactTurn(t, id, now).row)
  {
  }

  lemma NonGrantKeepsLease(s: State, step: Move, turn: nat)
    requires turn < |s.cells| && !Grants(s, step, turn)
    ensures turn < |Apply(s, step).cells|
    ensures LeaseKept(s.cells[turn].row, Apply(s, step).cells[turn].row)
  {
    if step.Execute? {
      ExecuteKeepsLease(s, step.turn, step.generation, step.io, turn);
    } else if step.Cancel? || step.Redact? {
      CloseKeepsLease(s.cells[turn].row, step.eventId, s.now);
    } else if !OnTurn(step) {
      StoreMoveAppends(s, step);
    }
  }

  lemma {:induction false} NoGrantPrefix(s: State, steps: seq<Move>, turn: nat)
    requires steps != [] && NoGrant(s, steps, turn)
    ensures NoGrant(s, steps[..|steps| - 1], turn)
    ensures !Grants(Run(s, steps[..|steps| - 1]), steps[|steps| - 1], turn)
  {
    var front := steps[..|steps| - 1];
    forall k | 0 <= k < |front|
      ensures !Grants(Run(s, front[..k]), front[k], turn)
    {
      assert front[..k] == steps[..k] && front[k] == steps[k];
    }
  }

  lemma {:induction false} LeaseHeld(s: State, steps: seq<Move>, turn: nat)
    requires turn < |s.cells| && NoGrant(s, steps, turn)
    ensures turn < |Run(s, steps).cells|
    ensures LeaseKept(s.cells[turn].row, Run(s, steps).cells[turn].row)
  {
    if steps != [] {
      var front := steps[..|steps| - 1];
      NoGrantPrefix(s, steps, turn);
      LeaseHeld(s, front, turn);
      NonGrantKeepsLease(Run(s, front), steps[|steps| - 1], turn);
    }
  }

  /** Mutual exclusion in time: a claim that follows a grant (a claim or a successful heartbeat), with no
      grant in between, succeeds only when the clock has passed the granted expiry. */
  lemma {:induction false} NoEarlyReclaim(s: State, grant: Move, between: seq<Move>, turn: nat, owner: string, leaseSeconds: nat)
    requires Grants(s, grant, turn)
    requires NoGrant(Apply(s, grant), between, turn)
    requires Grants(Run(Apply(s, grant), between), Claim(turn, owner, leaseSeconds), turn)
    ensures Run(Apply(s, grant), between).now > s.now + GrantedSeconds(grant)
  {
    GrantSetsLease(s, grant, turn);
    LeaseHeld(Apply(s, grant), between, turn);
  }

  // ------------------------------------------------------------- no gap, no overlap

  /** A running turn has been claimable since it was inserted, and once claimed its lease is that of the
      execution which its last claim launched. */
  predicate CellLeased(c: Cell, now: int) {
    c.row.status == Running ==>
      && c.row.claimableAt.Some? && c.row.claimableAt.value <= now
      && c.row.generation <= |c.execs|
      && (c.row.leaseExpiresAt.Some? <==> c.row.generation > 0)
      && (c.row.generation > 0 ==> c.row.leaseOwner == Some(c.execs[c.row.generation - 1].owner))
  }

  predicate AllLeased(s: State) {
    forall i :: 0 <= i < |s.cells| ==> CellLeased(s.cells[i], s.now)
  }

  /** The lease columns of a turn that is still running are left alone by its executors. */
  predicate SameLease(t: Turn, u: Turn) {
    u.status == Running ==>
      && t.status == Running && u.generation == t.generation
      && u.leaseOwner == t.leaseOwner && u.leaseExpiresAt == t.leaseExpiresAt && u.claimableAt == t.claimableAt
  }

  lemma PerformSameLease(t: Turn, generation: nat, a: Action, io: Io)
    ensures var r := Perform(t, generation, a, io); r.Success? ==> SameLease(t, r.value.row)
  {
  }

  lemma StepSameLease(t: Turn, x: Exec, io: Io)
    ensures SameLease(t, Step(t, x, io).row) && Step(t, x, io).exec.owner == x.owner
  {
    PerformSameLease(t, x.generation, Decide(t, x, io), io);
  }

  lemma ExecuteLeased(c: Cell, generation: nat, io: Io, now: int)
    requires CellLeased(c, now) && 0 < generation <= |c.execs|
    ensures var r := Step(c.row, c.execs[generation - 1], io);
      CellLeased(Cell(r.row, c.execs[generation - 1 := r.exec]), now)
  {
    StepSameLease(c.row, c.execs[generation - 1], io);
  }

  lemma ClaimLeased(c: Cell, owner: string, leaseSeconds: nat, now: int)
    requires CellLeased(c, now) && Claimable(c.row, now) && |c.execs| == c.row.generation
    ensures var row := ClaimTurn(c.row, owner, leaseSeconds, now);
      CellLeased(Cell(row, c.execs + [Launch(row.generation, owner)]), now)
  {
  }

  lemma CloseLeased(c: Cell, id: string, now: int)
    requires CellLeased(c, now)
    ensures CellLeased(c.(row := CancelRunningTurn(c.row, id, now).row), now)
    ensures CellLeased(c.(row := RedactTurn(c.row, id, now).row), now)
  {
  }

  lemma CrashLeased(c: Cell, generation: nat, now: int)
    requires CellLeased(c, now) && 0 < generation <= |c.execs|
    ensures CellLeased(Crashed(c, generation), now)
  {
  }

  lemma HeartbeatLeased(c: Cell, owner: string, generation: nat, leaseSeconds: nat, now: int)
    requires CellLeased(c, now)
    ensures CellLeased(c.(row := HeartbeatLease(c.row, owner, generation, leaseSeconds, now)), now)
  {
  }

  lemma TurnCellLeased(s: State, step: Move, turn: nat)
    requires CellsSound(s.cells) && Stored(s, turn) && CellLeased(s.cells[turn], s.now) && OnTurn(step) && step.turn == turn
    ensures CellLeased(ApplyToTurn(s, step).cells[turn], s.now)
  {
    var c := s.cells[turn];
    assert CellSound(c);
    match step
    case Claim(_, owner, leaseSeconds) => if Claimable(c.row, s.now) { ClaimLeased(c, owner, leaseSeconds, s.now); }
    case Heartbeat(_, generation, leaseSeconds) =>
      if 0 < generation <= |c.execs| { HeartbeatLeased(c, c.execs[generation - 1].owner, generation, leaseSeconds, s.now); }
    case Execute(_, generation, io) => if 0 < generation <= |c.execs| { ExecuteLeased(c, generation, io.(now := s.now), s.now); }
    case Crash(_, generation) => if 0 < generation <= |c.execs| { CrashLeased(c, generation, s.now); }
    case Cancel(_, eventId) => CloseLeased(c, eventId, s.now);
    case Redact(_, eventId) => CloseLeased(c, eventId, s.now);
  }

  lemma OtherCellsSame(s: State, step: Move, i: nat)
    requires OnTurn(step) && i < |s.cells| && (i != step.turn || !Stored(s, step.turn))
    ensures |ApplyToTurn(s, step).cells| == |s.cells| && ApplyToTurn(s, step).cells[i] == s.cells[i]
  {
  }

  lemma TurnMoveShape(s: State, step: Move)
    requires OnTurn(step)
    ensures |ApplyToTurn(s, step).cells| == |s.cells| && ApplyToTurn(s, step).now == s.now
  {
  }

  lemma TurnMoveLeased(s: State, step: Move)
    requires CellsSound(s.cells) && AllLeased(s) && OnTurn(step)
    ensures AllLeased(ApplyToTurn(s, step))
  {
    TurnMoveShape(s, step);
    forall i | 0 <= i < |s.cells|
      ensures CellLeased(ApplyToTurn(s, step).cells[i], s.now)
    {
      if i == step.turn && Stored(s, i) { TurnCellLeased(s, step, i); } else { OtherCellsSame(s, step, i); }
    }
  }

  lemma CommitLeased(s: State, starter: nat, authenticated: bool, ids: FreshIds)
    requires AllLeased(s)
    ensures AllLeased(CommitStart(s, starter, authenticated, ids))
  {
  }

  lemma StoreMoveLeased(s: State, step: Move)
    requires AllLeased(s) && !OnTurn(step)
    ensures AllLeased(ApplyToStore(s, step))
  {
    if step.StartCommits? { CommitLeased(s, step.starter, step.authenticated, step.ids); }
  }

  lemma {:induction false} RunLeased(steps: seq<Move>)
    ensures AllLeased(Run(INITIAL, steps))
  {
    if steps != [] {
      var front := steps[..|steps| - 1];
      RunLeased(front);
      ReachableSound(front);
      if OnTurn(steps[|steps| - 1]) {
        TurnMoveLeased(Run(INITIAL, front), steps[|steps| - 1]);
      } else {
        StoreMoveLeased(Run(INITIAL, front), steps[|steps| - 1]);
      }
    }
  }

  /** At every moment exactly one of two things is possible for a stored running turn: its last claimer's
      heartbeat renews the lease, or anybody may claim it. No other generation's heartbeat does anything. */
  lemma {:induction false} RenewOrReclaim(steps: seq<Move>, s: State, turn: nat, owner: string, leaseSeconds: nat, generation: nat)
    requires s == Run(INITIAL, steps) && Stored(s, turn) && s.cells[turn].row.status == Running
    ensures var g := s.cells[turn].row.generation;
      && (Grants(s, Claim(turn, owner, leaseSeconds), turn) <==> !Grants(s, Heartbeat(turn, g, leaseSeconds), turn))
      && (generation != g ==> !Grants(s, Heartbeat(turn, generation, leaseSeconds), turn))
      && (Grants(s, Claim(turn, owner, leaseSeconds), turn) <==>
            g == 0 || (s.cells[turn].row.leaseExpiresAt.Some? && s.cells[turn].row.leaseExpiresAt.value < s.now))
      && (s.cells[turn].row.leaseExpiresAt.Some? <==> g > 0)
  {
    RunLeased(steps);
    assert CellLeased(s.cells[turn], s.now);
  }

  /** With no grant in between, a turn that is still stored and running can be claimed again exactly once the
      clock has passed the expiry that the last claim or heartbeat granted. */
  lemma {:induction false} ReclaimedAfterExpiry(steps: seq<Move>, grant: Move, between: seq<Move>, end: State, turn: nat, owner: string, leaseSeconds: nat)
    requires Grants(Run(INITIAL, steps), grant, turn)
    requires NoGrant(Apply(Run(INITIAL, steps), grant), between, turn)
    requires end == Run(Apply(Run(INITIAL, steps), grant), between) && Stored(end, turn) && end.cells[turn].row.status == Running
    ensures Grants(end, Claim(turn, owner, leaseSeconds), turn) <==> end.now > Run(INITIAL, steps).now + GrantedSeconds(grant)
  {
    var s := Run(INITIAL, steps);
    GrantSetsLease(s, grant, turn);
    LeaseHeld(Apply(s, grant), between, turn);
    RunSplit(INITIAL, steps, [grant]);
    assert [grant][..0] == [];
    RunSplit(INITIAL, steps + [grant], between);
    RenewOrReclaim(steps + [grant] + between, end, turn, owner, leaseSeconds, 0);
  }
}
