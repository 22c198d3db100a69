/** The language of turn ledgers: one automaton that every ledger of a started turn is accepted by,
    and the facts about a ledger that can be read off the state the automaton ends in. */
module Ledger {
  import opened Basics
  import opened TurnTypes
  import opened TurnRow

  /** Where a ledger stands. `writer` is the generation whose attempt is under way. */
  datatype Phase =
    | Empty
    | Opened                                       // turn.accepted
    | Routed(route: Route)                         // route.selected, no attempt has written yet
    | Searching(writer: nat, shown: bool)          // retrieval.started; shown: an evidence.delta is in the ledger
    | Shown(writer: nat)                           // evidence.delta
    | Found(writer: nat)                           // retrieval.completed(evidence_found)
    | Fruitless(writer: nat, shown: bool)          // retrieval.completed(no_grounded_context)
    | Answering(route: Route, writer: nat)         // at least one answer.delta
    | Closed(status: Status, stop: Option<StopReason>)
    | Erased
    | Rejected

  /** Between route.selected and the first terminal event. */
  predicate Live(p: Phase) {
    p.Routed? || p.Searching? || p.Shown? || p.Found? || p.Fruitless? || p.Answering?
  }

  function WriterIn(p: Phase): nat {
    match p
    case Searching(g, _) => g
    case Shown(g) => g
    case Found(g) => g
    case Fruitless(g, _) => g
    case Answering(_, g) => g
    case _ => 0
  }

  predicate EvidenceSeen(p: Phase) {
    match p
    case Searching(_, shown) => shown
    case Shown(_) => true
    case Found(_) => true
    case Fruitless(_, shown) => shown
    case Answering(route, _) => route == DomainRag
    case _ => false
  }

  function RouteIn(p: Phase): Option<Route> {
    match p
    case Routed(r) => Some(r)
    case Searching(_, _) => Some(DomainRag)
    case Shown(_) => Some(DomainRag)
    case Found(_) => Some(DomainRag)
    case Fruitless(_, _) => Some(DomainRag)
    case Answering(r, _) => Some(r)
    case _ => None
  }

  /** The stop reason a completion may carry in this phase. */
  function CompletionIn(p: Phase): Option<StopReason> {
    match p
    case Answering(DirectLlm, _) => Some(StopDirectLlm)
    case Answering(DomainRag, _) => Some(StopGrounded)
    case Found(_) => Some(StopEvidenceOnly)
    case Fruitless(_, _) => Some(StopNoGroundedContext)
    case _ => None
  }

  function Next(p: Phase, e: Event): Phase {
    match e.payload
    case TurnAccepted(_, _, _) => if p.Empty? && e.writer == 0 then Opened else Rejected
    case RouteSelected(route, _) => if p.Opened? && e.writer == 0 then Routed(route) else Rejected
    case RetrievalStarted(_, _) =>
      if Live(p) && RouteIn(p) == Some(DomainRag) && !p.Answering? && e.writer > WriterIn(p)
      then Searching(e.writer, EvidenceSeen(p)) else Rejected
    case EvidenceDelta(_) =>
      if p == Searching(e.writer, false) then Shown(e.writer) else Rejected
    case RetrievalCompleted(EvidenceFound, _) =>
      if p == Shown(e.writer) then Found(e.writer) else Rejected
    case RetrievalCompleted(NoGroundedContext, _) =>
      if p.Searching? && p.writer == e.writer then Fruitless(e.writer, p.shown) else Rejected
    case AnswerDelta(_) =>
      if p == Routed(DirectLlm) && e.writer > 0 then Answering(DirectLlm, e.writer)
      else if p == Found(e.writer) then Answering(DomainRag, e.writer)
      else if p.Answering? && p.writer == e.writer then p
      else Rejected
    case TurnCompleted(_, stop, _, _, _, _) =>
      if stop.Some? && CompletionIn(p) == stop && e.writer == WriterIn(p) then Closed(Completed, stop) else Rejected
    case TurnFailed(_, _, _) =>
      if Live(p) && e.writer >= WriterIn(p) && e.writer > 0 then Closed(Failed, Some(StopProviderFailure)) else Rejected
    case TurnCancelled(_, _, _) =>
      if Live(p) && e.writer == 0 then Closed(Cancelled, Some(StopCancelled)) else Rejected
    case TurnRedacted(_) =>
      if (Live(p) || p.Closed?) && e.writer == 0 then Erased else Rejected
  }

  function Scan(ledger: seq<Event>): Phase {
    if ledger == [] then Empty
    else Next(Scan(ledger[..|ledger| - 1]), ledger[|ledger| - 1])
  }

  /** The status a turn must have when its ledger stands in this phase. */
  function StatusIn(p: Phase): Status {
    match p
    case Closed(status, _) => status
    case Erased => Redacted
    case _ => Running
  }

  /** The status a turn must have, from the type of its last event alone. */
  function StatusAfter(t: EventType): Status {
    match t
    case CompletedEvent => Completed
    case FailedEvent => Failed
    case CancelledEvent => Cancelled
    case RedactedEvent => Redacted
    case _ => Running
  }

  predicate InLanguage(ledger: seq<Event>) { !Scan(ledger).Rejected? }

  predicate Dense(ledger: seq<Event>) {
    forall i :: 0 <= i < |ledger| ==> ledger[i].sequence == i + 1
  }

  predicate DigestsMatch(ledger: seq<Event>) {
    forall i :: 0 <= i < |ledger| ==> ledger[i].digest == Sha256(ledger[i].payload)
  }

  predicate Terminal(t: EventType) {
    t == CompletedEvent || t == FailedEvent || t == CancelledEvent
  }

  function DeltaTexts(ledger: seq<Event>): seq<string> {
    if ledger == [] then []
    else
      var last := ledger[|ledger| - 1].payload;
      DeltaTexts(ledger[..|ledger| - 1]) + (if last.AnswerDelta? then [last.text] else [])
  }

  /** How many rows of each interesting kind a ledger holds. */
  datatype Tally = Tally(deltas: nat, shown: nat, terminals: nat, redactions: nat)

  function Count(tally: Tally, t: EventType): Tally {
    match t
    case Delta => tally.(deltas := tally.deltas + 1)
    case EvidenceShown => tally.(shown := tally.shown + 1)
    case CompletedEvent => tally.(terminals := tally.terminals + 1)
    case FailedEvent => tally.(terminals := tally.terminals + 1)
    case CancelledEvent => tally.(terminals := tally.terminals + 1)
    case RedactedEvent => tally.(redactions := tally.redactions + 1)
    case _ => tally
  }

  function TallyOf(ledger: seq<Event>): Tally {
    if ledger == [] then Tally(0, 0, 0, 0)
    else Count(TallyOf(ledger[..|ledger| - 1]), TypeOf(ledger[|ledger| - 1].payload))
  }

  lemma ScanSnoc(ledger: seq<Event>, e: Event)
    ensures Scan(ledger + [e]) == Next(Scan(ledger), e)
    ensures DeltaTexts(ledger + [e]) == if e.payload.AnswerDelta? then DeltaTexts(ledger) + [e.payload.text] else DeltaTexts(ledger)
    ensures TallyOf(ledger + [e]) == Count(TallyOf(ledger), TypeOf(e.payload))
  {
    assert (ledger + [e])[..|ledger|] == ledger;
  }

  /** In a dense ledger the next sequence is one more than the number of rows. */
  lemma {:induction false} DenseMax(ledger: seq<Event>)
    requires Dense(ledger)
    ensures MaxSequence(ledger) == |ledger|
  {
    if ledger != [] {
      DenseMax(ledger[..|ledger| - 1]);
      assert ledger[|ledger| - 1].sequence == |ledger|;
    }
  }

  lemma ClosedThenErased(ledger: seq<Event>, n: nat)
    requires InLanguage(ledger) && n == |ledger| - 1
    requires Scan(ledger[..n]).Closed?
    ensures Scan(ledger).Erased?
  {
  }

  /** Once a prefix is rejected, no extension is accepted; nothing but a redaction extends a closed
      ledger and nothing at all extends an erased one. */
  lemma {:induction false} PrefixesAccepted(ledger: seq<Event>, n: nat)
    requires InLanguage(ledger) && n <= |ledger|
    ensures InLanguage(ledger[..n])
    ensures Scan(ledger[..n]).Erased? ==> n == |ledger|
    ensures Scan(ledger[..n]).Closed? ==> n >= |ledger| - 1
    decreases |ledger|
  {
    if n < |ledger| {
      var front := ledger[..|ledger| - 1];
      PrefixesAccepted(front, n);
      assert front[..n] == ledger[..n];
      if n < |front| && Scan(ledger[..n]).Closed? {
        PrefixesAccepted(front, |front|);
        assert front[..|front|] == front;
        ClosedThenErased(front, n);
      }
    } else {
      assert ledger[..n] == ledger;
    }
  }

  /** What the phase says about the rows written so far. */
  predicate Agrees(p: Phase, tally: Tally) {
    && tally.shown <= 1
    && tally.redactions == (if p.Erased? then 1 else 0)
    && match p
       case Closed(_, stop) =>
         && tally.terminals == 1
         && (stop == Some(StopEvidenceOnly) ==> tally.deltas == 0 && tally.shown == 1)
         && (stop == Some(StopNoGroundedContext) ==> tally.deltas == 0)
         && (stop == Some(StopGrounded) ==> tally.deltas > 0 && tally.shown == 1)
         && (stop == Some(StopDirectLlm) ==> tally.deltas > 0 && tally.shown == 0)
       case Erased => tally.terminals <= 1
       case Rejected => true
       case _ =>
         && tally.terminals == 0
         && (tally.deltas > 0 <==> p.Answering?)
         && tally.shown == (if EvidenceSeen(p) then 1 else 0)
  }

  lemma AgreesStep(p: Phase, tally: Tally, e: Event)
    requires !Next(p, e).Rejected? && Agrees(p, tally)
    ensures Agrees(Next(p, e), Count(tally, TypeOf(e.payload)))
    ensures StatusIn(Next(p, e)) == StatusAfter(TypeOf(e.payload))
  {
  }

  /** The state the automaton ends in fixes the status (which is that of the last row's type alone)
      and how many rows of each kind there are: never a second evidence.delta, terminal or redaction. */
  lemma {:induction false} ShapeOf(ledger: seq<Event>)
    requires InLanguage(ledger)
    ensures ledger != [] ==> StatusIn(Scan(ledger)) == StatusAfter(TypeOf(ledger[|ledger| - 1].payload))
    ensures Agrees(Scan(ledger), TallyOf(ledger))
  {
    if ledger != [] {
      var front := ledger[..|ledger| - 1];
      ShapeOf(front);
      AgreesStep(Scan(front), TallyOf(front), ledger[|ledger| - 1]);
    }
  }

  /** The generation of the deltas, read off the ledger's last delta. */
  function LastDeltaWriter(ledger: seq<Event>): nat {
    if ledger == [] then 0
    else if ledger[|ledger| - 1].payload.AnswerDelta? then ledger[|ledger| - 1].writer
    else LastDeltaWriter(ledger[..|ledger| - 1])
  }

  lemma {:induction false} DeltaWriter(ledger: seq<Event>, i: nat)
    requires InLanguage(ledger)
    requires i < |ledger| && ledger[i].payload.AnswerDelta?
    ensures ledger[i].writer == LastDeltaWriter(ledger)
    ensures Scan(ledger).Answering? || Scan(ledger).Closed? || Scan(ledger).Erased?
    ensures Scan(ledger).Answering? ==> ledger[i].writer == Scan(ledger).writer
  {
    var front := ledger[..|ledger| - 1];
    if i < |front| {
      assert front[i] == ledger[i];
      DeltaWriter(front, i);
    }
  }

  /** All answer.delta rows carry one generation, and it is the one the phase records. */
  lemma {:induction false} DeltasOfOneWriter(ledger: seq<Event>, i: nat, j: nat)
    requires InLanguage(ledger)
    requires i < |ledger| && j < |ledger|
    requires ledger[i].payload.AnswerDelta? && ledger[j].payload.AnswerDelta?
    ensures ledger[i].writer == ledger[j].writer
  {
    DeltaWriter(ledger, i);
    DeltaWriter(ledger, j);
  }

  lemma {:induction false} OpeningHasNoWriter(ledger: seq<Event>, i: nat)
    requires (Scan(ledger).Empty? || Scan(ledger).Opened?) && i < |ledger|
    ensures ledger[i].writer == 0
  {
    var front := ledger[..|ledger| - 1];
    if i < |front| {
      OpeningHasNoWriter(front, i);
      assert front[i] == ledger[i];
    }
  }

  /** While the ledger is live, no row was written by a later generation than the phase records. */
  lemma {:induction false} WriterBounded(ledger: seq<Event>, i: nat)
    requires Live(Scan(ledger)) && i < |ledger|
    ensures ledger[i].writer <= WriterIn(Scan(ledger))
  {
    var front := ledger[..|ledger| - 1];
    if Live(Scan(front)) {
      if i < |front| {
        WriterBounded(front, i);
        assert front[i] == ledger[i];
      }
    } else if i < |front| {
      OpeningHasNoWriter(front, i);
      assert front[i] == ledger[i];
    }
  }

  /** Executors' rows appear in the order of their generations. */
  lemma {:induction false} WritersOrdered(ledger: seq<Event>, i: nat, j: nat)
    requires InLanguage(ledger)
    requires i <= j < |ledger| && ledger[j].writer > 0
    ensures ledger[i].writer <= ledger[j].writer
    decreases |ledger|
  {
    if j < |ledger| - 1 {
      var front := ledger[..|ledger| - 1];
      assert front[i] == ledger[i] && front[j] == ledger[j];
      WritersOrdered(front, i, j);
    } else if i < j {
      WriterBounded(ledger[..|ledger| - 1], i);
    }
  }

  /** The second row names the route, and every live phase agrees with it. */
  lemma {:induction false} RouteFixed(ledger: seq<Event>)
    requires InLanguage(ledger) && |ledger| > 1
    ensures ledger[0].payload.TurnAccepted? && ledger[1].payload.RouteSelected?
    ensures Live(Scan(ledger)) ==> RouteIn(Scan(ledger)) == Some(ledger[1].payload.route)
  {
    var front := ledger[..|ledger| - 1];
    if |front| > 1 {
      RouteFixed(front);
      assert front[0] == ledger[0] && front[1] == ledger[1];
    } else {
      assert front[..0] == [];
      assert Scan(front) == Next(Empty, front[0]);
    }
  }

  lemma {:induction false} AnsweringHistory(ledger: seq<Event>) returns (i: nat, j: nat)
    requires Scan(ledger).Answering?
    requires |ledger| > 1 && ledger[1].payload.RouteSelected? && ledger[1].payload.route == DomainRag
    ensures i < j < |ledger| - 1
    ensures ledger[i].payload.EvidenceDelta? && ledger[i].writer == Scan(ledger).writer
    ensures ledger[j].payload.RetrievalCompleted? && ledger[j].payload.result == EvidenceFound && ledger[j].writer == Scan(ledger).writer
  {
    var front := ledger[..|ledger| - 1];
    RouteFixed(front);
    if Scan(front).Answering? {
      i, j := AnsweringHistory(front);
    } else {
      j := |front| - 1;
      var before := front[..|front| - 1];
      assert Scan(before).Shown?;
      i := |before| - 1;
    }
  }

  /** On the domain route, deltas come only after an evidence.delta and a retrieval.completed(evidence_found)
      of the same generation. */
  lemma {:induction false} DeltaFollowsEvidence(ledger: seq<Event>, k: nat) returns (i: nat, j: nat)
    requires InLanguage(ledger) && k < |ledger| && ledger[k].payload.AnswerDelta?
    requires |ledger| > 1 && ledger[1].payload.RouteSelected? && ledger[1].payload.route == DomainRag
    ensures i < j < k
    ensures ledger[i].payload.EvidenceDelta? && ledger[i].writer == ledger[k].writer
    ensures ledger[j].payload.RetrievalCompleted? && ledger[j].payload.result == EvidenceFound && ledger[j].writer == ledger[k].writer
  {
    PrefixesAccepted(ledger, k + 1);
    var upTo := ledger[..k + 1];
    assert upTo[..k] == ledger[..k] && upTo[k] == ledger[k];
    i, j := AnsweringHistory(upTo);
  }

  predicate Searches(p: Payload) {
    p.RetrievalStarted? || p.EvidenceDelta? || p.RetrievalCompleted?
  }

  /** The direct route never searches. */
  lemma {:induction false} DirectNeverSearches(ledger: seq<Event>, i: nat)
    requires InLanguage(ledger) && |ledger| > 1 && i < |ledger|
    requires ledger[1].payload.RouteSelected? && ledger[1].payload.route == DirectLlm
    ensures !Searches(ledger[i].payload)
  {
    var front := ledger[..|ledger| - 1];
    if |front| > 1 {
      if i < |front| {
        assert front[i] == ledger[i];
        DirectNeverSearches(front, i);
      } else {
        RouteFixed(front);
      }
    } else {
      RouteFixed(ledger);
    }
  }
}
