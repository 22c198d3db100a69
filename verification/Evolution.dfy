/** How one turn may change over any run: the relation between an earlier and a later row. */
module Evolution {
  import opened Basics
  import opened TurnTypes
  import opened TurnRow
  import opened Ledger
  import opened Executor
  import opened TurnInvariant
  import opened ChatSystem
  import opened ChatInvariant

  /** The same ledger row later on: identity, position, type and author are fixed for good, and the
      payload is either untouched or sanitized. */
  predicate SameEvent(e: Event, f: Event) {
    && f.id == e.id && f.sequence == e.sequence && TypeOf(f.payload) == TypeOf(e.payload)
    && f.occurredAt == e.occurredAt && f.writer == e.writer
    && (f == e || f == SanitizedEvent(e))
  }

  predicate Extends(earlier: seq<Event>, later: seq<Event>) {
    && |earlier| <= |later|
    && forall k :: 0 <= k < |earlier| ==> SameEvent(earlier[k], later[k])
  }

  /** Running rows only grow; closed rows are frozen except by a redaction; redacted rows are frozen. */
  predicate Evolves(t: Turn, u: Turn) {
    && u.key == t.key
    && u.generation >= t.generation
    && Extends(t.ledger, u.ledger)
    && (t.status != Running ==> u == t || (u.status == Redacted && u.generation == t.generation))
    && (t.status == Redacted ==> u == t)
    && (u.status != Redacted ==> t.ledger <= u.ledger && u.accepted == t.accepted && t.evidence <= u.evidence)
  }

  lemma ExtendsTransitive(a: seq<Event>, b: seq<Event>, c: seq<Event>)
    requires Extends(a, b) && Extends(b, c)
    ensures Extends(a, c)
  {
    forall k | 0 <= k < |a|
      ensures SameEvent(a[k], c[k])
    {
      assert SameEvent(a[k], b[k]) && SameEvent(b[k], c[k]);
      assert SanitizedEvent(SanitizedEvent(a[k])) == SanitizedEvent(a[k]);
    }
  }

  lemma EvolvesTransitive(t: Turn, u: Turn, v: Turn)
    requires Evolves(t, u) && Evolves(u, v)
    ensures Evolves(t, v)
  {
    ExtendsTransitive(t.ledger, u.ledger, v.ledger);
  }

  lemma PerformEvolves(t: Turn, generation: nat, a: Action, io: Io)
    requires a.AppendEvent? ==> WorkEvent(a.payload)
    ensures var r := Perform(t, generation, a, io);
      r.Success? ==> Evolves(t, r.value.row)
  {
  }

  lemma CancelEvolves(t: Turn, id: string, now: int)
    ensures Evolves(t, CancelRunningTurn(t, id, now).row)
  {
  }

  lemma RedactEvolves(t: Turn, id: string, now: int)
    ensures Evolves(t, RedactTurn(t, id, now).row)
  {
    if t.status != Redacted {
      var u := RedactTurn(t, id, now).row;
      forall k | 0 <= k < |t.ledger|
        ensures SameEvent(t.ledger[k], u.ledger[k])
      {
        assert u.ledger[k] == SanitizedEvent(t.ledger[k]);
      }
    }
  }

  lemma {:induction false} ExecuteEvolves(s: State, turn: nat, generation: nat, io: Io, i: nat)
    requires i < |s.cells|
    ensures i < |ExecuteStep(s, turn, generation, io).cells|
    ensures Evolves(s.cells[i].row, ExecuteStep(s, turn, generation, io).cells[i].row)
  {
    if i == turn && Stored(s, i) && 0 < generation <= |s.cells[i].execs| {
      var x := s.cells[i].execs[generation - 1];
      PerformEvolves(s.cells[i].row, x.generation, Decide(s.cells[i].row, x, io.(now := s.now)), io.(now := s.now));
    }
  }

  lemma LeaseMoveEvolves(s: State, step: Move, turn: nat)
    requires step.Claim? || step.Heartbeat? || step.Crash?
    requires turn < |s.cells|
    ensures turn < |ApplyToTurn(s, step).cells|
    ensures Evolves(s.cells[turn].row, ApplyToTurn(s, step).cells[turn].row)
  {
  }

  lemma CloseEvolves(s: State, step: Move, turn: nat)
    requires (step.Cancel? || step.Redact?) && turn < |s.cells|
    ensures turn < |ApplyToTurn(s, step).cells|
    ensures Evolves(s.cells[turn].row, ApplyToTurn(s, step).cells[turn].row)
  {
    if step.Cancel? {
      CancelEvolves(s.cells[turn].row, step.eventId, s.now);
    } else {
      RedactEvolves(s.cells[turn].row, step.eventId, s.now);
    }
  }

  lemma {:induction false} TurnMoveEvolves(s: State, step: Move, turn: nat)
    requires OnTurn(step) && turn < |s.cells|
    ensures turn < |ApplyToTurn(s, step).cells|
    ensures Evolves(s.cells[turn].row, ApplyToTurn(s, step).cells[turn].row)
  {
    if step.Execute? {
      ExecuteEvolves(s, step.turn, step.generation, step.io, turn);
    } else if step.Cancel? || step.Redact? {
      CloseEvolves(s, step, turn);
    } else {
      LeaseMoveEvolves(s, step, turn);
    }
  }

  /** A start only adds a turn. */
  lemma CommitAppends(s: State, starter: nat, authenticated: bool, ids: FreshIds)
    ensures s.cells <= CommitStart(s, starter, authenticated, ids).cells
  {
  }

  /** Every other step leaves the turns there are as they are. */
  lemma StoreMoveAppends(s: State, step: Move)
    requires !OnTurn(step)
    ensures s.cells <= ApplyToStore(s, step).cells
  {
    if step.StartCommits? {
      CommitAppends(s, step.starter, step.authenticated, step.ids);
    }
  }

  lemma {:induction false} StepEvolves(s: State, step: Move, turn: nat)
    requires turn < |s.cells|
    ensures turn < |Apply(s, step).cells|
    ensures Evolves(s.cells[turn].row, Apply(s, step).cells[turn].row)
  {
    if OnTurn(step) { TurnMoveEvolves(s, step, turn); } else { StoreMoveAppends(s, step); }
  }

  /** Over any run, a turn's later row is an evolution of its earlier one. */
  lemma {:induction false} RunEvolves(s: State, steps: seq<Move>, turn: nat)
    requires turn < |s.cells|
    ensures turn < |Run(s, steps).cells|
    ensures Evolves(s.cells[turn].row, Run(s, steps).cells[turn].row)
  {
    if steps != [] {
      var front := steps[..|steps| - 1];
      RunEvolves(s, front, turn);
      StepEvolves(Run(s, front), steps[|steps| - 1], turn);
      EvolvesTransitive(s.cells[turn].row, Run(s, front).cells[turn].row, Run(s, steps).cells[turn].row);
    }
  }

  lemma CommitKeepsDeleted(s: State, starter: nat, authenticated: bool, ids: FreshIds, conversation: nat)
    requires conversation < |s.conversations|
    ensures conversation < |CommitStart(s, starter, authenticated, ids).conversations|
    ensures s.conversations[conversation].deleted ==> CommitStart(s, starter, authenticated, ids).conversations[conversation].deleted
  {
  }

  lemma DeletionIsFinal(s: State, step: Move, conversation: nat)
    requires conversation < |s.conversations|
    ensures conversation < |Apply(s, step).conversations|
    ensures s.conversations[conversation].deleted ==> Apply(s, step).conversations[conversation].deleted
  {
    if step.StartCommits? { CommitKeepsDeleted(s, step.starter, step.authenticated, step.ids, conversation); }
  }

  lemma CommitKeepsClock(s: State, starter: nat, authenticated: bool, ids: FreshIds)
    ensures CommitStart(s, starter, authenticated, ids).now == s.now
  {
  }

  lemma ClockStep(s: State, step: Move)
    ensures s.now <= Apply(s, step).now
  {
    if step.StartCommits? { CommitKeepsClock(s, step.starter, step.authenticated, step.ids); }
  }

  lemma {:induction false} ClockMonotone(s: State, steps: seq<Move>)
    ensures s.now <= Run(s, steps).now
  {
    if steps != [] {
      ClockMonotone(s, steps[..|steps| - 1]);
      ClockStep(Run(s, steps[..|steps| - 1]), steps[|steps| - 1]);
    }
  }
}
