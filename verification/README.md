# Verified model of the conversation service

This project models, in Dafny, the parts of the service whose correctness depends on more than one function,
and proves what they promise.

* **The conversation-turn protocol.** A turn is a row with a status, a lease, an execution generation, Evidence
  refs, accepted composer refs and an append-only event ledger. Starters, leased workers that crash and are
  reclaimed, heartbeats, cancellers, redactors, renames and deletions act on it in any order, and readers tail
  its ledger meanwhile. `TurnRow` holds every committed transaction as a function of the row; `TurnRecord`
  holds the same transactions as methods of an object with mutable columns, each proved equal to its function;
  `Executor` is a worker as a program counter with locals, one transaction or one external reply per step;
  `ChatSystem` is the shared store under any list of moves. `Ledger` is the language of event ledgers,
  `TurnInvariant` and `ChatInvariant` the invariant that every move keeps, `Evolution` how one row may change
  over a run. Main results: `ChatTheorems`, `Leases`, `Hearing` with `Transcript` (a turn says what its generations were
  told), `Reclaim` with `ReclaimRuns`, `ChatStarts`, `ChatVersions`, `Redaction`, `Replay`, `Tail`.
* **Composer tokens** (`ComposerRefs`): normalization, caps, validation and single-use consumption.
* **Keyset pagination** of conversations (`Keyset`), over stores that change between pages.
* **Server-sent events** (`Sse`): the printer and its incremental and batch readers.
* **The text preview** (`PreviewPager`, `PdfText`, `PdfFile`, `PdfReader`, `MarkerCount`, `Preview`, `PreviewRefusal`):
  the pager, the hand-written PDF, a reader for it by ISO 32000-1, with keywords of its own, that gives every page and
  every shown line back, and the count of page markers that decides which texts are refused.
* **Backup** (`Census`, `Backup`, `BackupRoundTrip`, `TreeDigest`, with `Ordering`): census, capture, restore, verification.
* **Session lifetime** (`Sessions`).

`Basics`, `Numbers` and `TurnTypes` hold shared vocabulary. `dafny verify dfyconfig.toml` checks everything.

## Conventions

* A call that raises is a transaction that changes nothing. Unique indexes are guards that abort.
* An `Event` carries `writer`, the generation that appended it (0 for starts, cancellations and redactions). It is a
  history annotation that the database does not hold; no transaction reads it.
* Time is an integer in one unit and never runs backwards; identifiers, provider tokens, retrieval answers,
  raised errors and crashes are chosen by the environment, step by step.
* SHA-256 is a free constructor for ledger digests and composer fingerprints, and an injective function where content
  is hashed; JSON text is one line of printable characters; a cursor's JSON and base64 layers are the identity.
* Rows of a deleted conversation stay in the model as history that no move reads or writes.

## Where code and documentation differ, or a promise is conditional

* Replay of a terminal event is a pure relabelling only while the row still holds what was stored:
  `Replay.ReplayIsRelabelling` gives the exact condition. It fails once a completed turn has been redacted.
* Reclaiming a turn need not finish it: `ReclaimRuns.ReclaimNeedNotFinish` is a run from the empty store after which
  the second generation has stopped and the turn still runs. `Reclaim.UndisturbedGeneration` gives the exact condition:
  a generation left to itself closes its turn if and only if its provider's stream does not end in a RuntimeError
  and it does not find Evidence for a turn that held some at its claim.
* `no_grounded_context` can end a turn that holds Evidence: `ReclaimRuns.FruitlessWithEvidence` is such a run. It
  happens exactly when the turn held Evidence at the claim of the generation that found nothing
  (`Reclaim.FruitlessKeepsEvidence`).
* A restored backup verifies if and only if no ETag, once trimmed and unquoted, is empty or has a blank at an end
  (`BackupRoundTrip.RoundTrip`). `BackupRoundTrip.BlankInsideQuotes` covers every ETag that fails for a blank and
  `BackupRoundTrip.OneFailingBackup` is one whole backup.
* Equal tree digests mean equal manifests for keys without newlines (`TreeDigest.EqualDigests`). With newlines, exactly
  the keys that split into a line of their own and the beginning of a later one are ambiguous (`TreeDigest.NewlineHidesEntry`).
* A text is rendered if and only if it has at most 500 pages and these, together with what looks like a page in the
  lines they show, are at most 500 (`Preview.RenderTextLike`). `PreviewRefusal.ShortTextRefused` is a text of 5082
  characters on three pages that is refused.
* The idle bound is tight only while it is shorter than the lifetime (`Sessions.BoundIsTight`, `Sessions.IdleNeverBinds`).
* A page shows at most 60 lines of 120 characters: `Preview.Displays` says so.

## Model

| member | source | states |
|---|---|---|
| ChatTheorems.AnswerIsItsDeltas | app/context_engine/services/chat_turns.py:1712-1988 | after any run, all answer.delta rows of a turn come from one execution generation, and a direct_llm or grounded answer is non-blank and is the stripped concatenation of the ledger's deltas |
| ChatTheorems.PublicAnswerIsDeltas | app/context_engine/services/chat_turns.py:722-727 | in every reachable store the public answer is the stripped concatenation of the deltas for exactly the completed direct_llm and grounded turns, and absent for all others |
| ChatTheorems.LedgerLanguage | app/context_engine/services/chat_turns.py:1169-1214 | every reachable ledger has sequences 1..n, digests that match, lies in the automaton's language, begins with accepted and the turn's own route, shows Evidence, ends and is redacted at most once, and its last row determines the status |
| ChatTheorems.LedgerOrder | app/context_engine/services/chat_turns.py:1788-1988 | in every reachable ledger executor rows appear in generation order, a redaction is last, and only a redaction follows a terminal row |
| ChatTheorems.OneRowPerMove | app/context_engine/services/chat_turns.py:1447-1478 | over any run every move appends at most one row to a turn, with the next sequence and the time of the move; the move that closes a turn stamps it, appends its terminal row, shows its literal cancellation or its own failure, and gives up the lease unless it redacts |
| ChatTheorems.ClosingMoves | app/context_engine/services/chat_turns.py:1633-1662 | a cancellation cancels exactly the running turns and leaves others alone; a redaction redacts every stored turn |
| ChatTheorems.OutcomeMatchesLedger | app/context_engine/services/chat_turns.py:1712-1988 | a completed turn has deltas exactly for direct_llm and grounded and none for evidence_only and no_grounded_context; evidence_only and grounded imply one evidence.delta and refs numbered 1..k labelled [i]; an answer exists exactly with deltas |
| ChatTheorems.StaleExecutorsAreInert | app/context_engine/services/chat_turns.py:1340-1351 | once a claim has raised the generation, no later step or heartbeat of an older generation changes any row, conversation or token |
| Transcript.DeltasAreStreamed | app/context_engine/services/chat_turns.py:1725-1737 | over any run, the deltas that a generation wrote are the non-empty texts that its provider streamed to it, unchanged and in order, apart perhaps from a last one that was fenced out or not persisted |
| Transcript.AllDeltasAreStreamed | app/context_engine/services/chat_turns.py:1883-1896 | over any run all deltas of a turn together are those of one generation, and so what was streamed to it |
| Transcript.AnswerIsStreamed | app/context_engine/services/chat_turns.py:1760-1784 | after any run a direct_llm or grounded answer is the stripped join of everything the provider streamed to the generation that completed the turn, is not blank, and is what is shown |
| Transcript.EndedAsTold | app/context_engine/services/chat_turns.py:1712-1988 | after any run how a turn ended is decided by what its last generation was told and by whether it had shown a delta: the stop reason, or that it failed; without a reported failure and before the end of the stream it failed only because an earlier generation had begun to answer |
| Transcript.CompletedAsTold | app/context_engine/services/chat_turns.py:1833-1854 | after any run a completed turn is direct_llm exactly if nothing was searched, no_grounded_context exactly if the search found nothing, grounded or evidence_only exactly if it found something; its budget is 0/0/0 or 1/1/0 by its route |
| Transcript.FailedAsTold | app/context_engine/services/chat_turns.py:1817-1829 | after any run a failed turn carries the code and message of the failure its generation was told of, or else provider_failure with the safe message |
| Transcript.RowsSayWhatWasTold | app/context_engine/services/chat_turns.py:1261-1301 | after any run an evidence.delta row shows, in order, exactly the turn's Evidence refs whose source and block were joined when it was written, field by field; retrieval.started says 1 of 1 and retrieval.completed counts the Evidence |
| Transcript.EvidenceIsFound | app/context_engine/services/chat_turns.py:1414-1444 | after any run the Evidence of a turn that is not redacted is, field by field and in order, what the search told one of its generations, under the references drawn for it |
| Transcript.NoSearchWithoutDomain | app/context_engine/services/chat_turns.py:304-309 | after any run a turn without a domain has no retrieval.started, evidence.delta or retrieval.completed row and holds no Evidence |
| Hearing.OwnHeeds | app/context_engine/services/chat_turns.py:1712-1988 | every step of the current generation, with any reply, keeps its turn in line with what it was told |
| Hearing.OtherExecutes | app/context_engine/services/chat_turns.py:1340-1351 | every step of another generation keeps the turn in line with what this one was told |
| Leases.NoEarlyReclaim | app/context_engine/services/chat_turns.py:2143-2168 | with no grant in between, a claim after a claim or successful heartbeat succeeds only once the clock has passed the granted expiry |
| Leases.ReclaimedAfterExpiry | app/context_engine/services/chat_turns.py:2143-2168 | of any run: with no grant in between, a stored running turn can be claimed again if and only if the clock has passed the expiry that the last claim or heartbeat granted |
| Leases.RenewOrReclaim | app/context_engine/services/chat_turns.py:1386-1411 | of any run and at every moment: for a stored running turn either the heartbeat of its last claimer renews the lease or anybody may claim it, never both and never neither; no other generation's heartbeat does anything |
| Reclaim.UndisturbedGeneration | app/context_engine/services/chat_turns.py:1788-1988 | from its claim until it has stopped, with any replies and while older generations and heartbeats go on, a generation that nobody claims over, cancels, redacts or kills has closed its turn if and only if its provider's stream did not end in a RuntimeError and it is not so that the turn held Evidence at the claim and its own search found some |
| Reclaim.StepProgress | app/context_engine/services/chat_turns.py:1788-1988 | every step of such a generation, with any reply, keeps where it stands in step with what it held and was told |
| Reclaim.SecondRetrievalAborts | app/context_engine/models.py:924 | at the step that stores what was found the execution stops if and only if the turn holds Evidence already; then no row changes, otherwise the turn holds, field by field, what was found under the references drawn for it |
| Reclaim.FruitlessKeepsEvidence | app/context_engine/services/chat_turns.py:1788-1854 | a generation that ends its turn as no_grounded_context found nothing and leaves Evidence refs as they were at its claim, so the two coexist if and only if some were held then |
| ReclaimRuns.ReclaimNeedNotFinish | app/context_engine/models.py:924 | a run from the empty store after which the second generation has stopped and the turn is still running |
| ReclaimRuns.FruitlessWithEvidence | app/context_engine/services/chat_turns.py:1788-1854 | a run from the empty store after which a turn with Evidence refs has completed as no_grounded_context |
| ChatTheorems.RedactionIsFinal | app/context_engine/services/chat_turns.py:2342-2395 | over any run a closed turn changes only by redaction and a redacted one never; a redacted turn is erased, its digests match its payloads and every old row keeps id, position and type |
| ChatTheorems.RedactionLast | app/context_engine/services/chat_turns.py:1188-1189 | nothing follows a turn.redacted row |
| ChatTheorems.TerminalThenRedaction | app/context_engine/services/chat_turns.py:1188-1189 | nothing but one redaction follows a terminal row |
| ChatTheorems.RouteRow | app/context_engine/services/chat_turns.py:590-600 | over any run the first two ledger rows name the conversation, the client's request, the turn's own route and its domain; the route is direct_llm exactly for turns without a domain |
| Ledger.DeltaFollowsEvidence | app/context_engine/services/chat_turns.py:1855-1896 | on the domain route every delta is preceded by the same generation's evidence.delta and then its retrieval.completed |
| Ledger.DirectNeverSearches | app/context_engine/services/chat_turns.py:1712-1786 | a ledger in the language whose second row names the direct route has no row about a search |
| Ledger.ShapeOf | app/context_engine/services/chat_turns.py:1788-1988 | for every accepted ledger the phase agrees with the counts of its rows |
| Ledger.DeltasOfOneWriter | app/context_engine/services/chat_turns.py:2009-2021 | in an accepted ledger two deltas have one writer |
| Ledger.WritersOrdered | app/context_engine/services/chat_turns.py:1195-1214 | in an accepted ledger executor rows are ordered by writer |
| Ledger.DenseMax | app/context_engine/services/chat_turns.py:1193-1201 | in a dense ledger max(sequence) is the row count, so max + 1 keeps it dense |
| Executor.StaleStepIsInert | app/context_engine/services/chat_turns.py:1447-1478 | no step of an execution of another generation, or of a closed turn, changes the row, whatever the environment answers |
| Executor.StaleStops | app/context_engine/services/chat_turns.py:1340-1351 | an execution of another generation, or of a closed turn, is stopped by the first fence or write it comes to |
| TurnInvariant.StepKept | app/context_engine/services/chat_turns.py:1712-1988 | every step of the current execution, on either route and with any reply, keeps the row sound and the execution in step with the ledger |
| TurnInvariant.CompleteKeepsSound | app/context_engine/services/chat_turns.py:1489-1548 | a completion supported by the ledger leaves a sound completed row |
| TurnInvariant.CancelKeepsSound | app/context_engine/services/chat_turns.py:1633-1662 | cancelling any sound row leaves a sound row |
| TurnInvariant.RedactKeepsSound | app/context_engine/services/chat_turns.py:2342-2395 | redacting any sound row leaves a sound, erased row whose sanitized ledger is still in the language |
| TurnInvariant.StoreKeepsSound | app/context_engine/services/chat_turns.py:1414-1444 | storing Evidence succeeds if and only if the turn holds none yet; then every ref has its own item's source, block, label and excerpt under its own reference, numbered and labelled in order, one retrieval operation is counted, and the row is sound |
| TurnInvariant.SecondStoreAborts | app/context_engine/models.py:924 | storing Evidence twice violates the unique order index |
| TurnInvariant.InsertedIsSound | app/context_engine/services/chat_turns.py:549-604 | a freshly started turn is sound and stands right behind its route row |
| ChatInvariant.ReachableSound | app/context_engine/services/chat_turns.py:463-623 | every store that any run reaches is sound: rows, executions, unique indexes, starters and tokens |
| ChatInvariant.RunKeepsSound | app/context_engine/services/chat_turns.py:2037-2140 | every run from a sound store ends in a sound store |
| ChatInvariant.FindRequestExact | app/context_engine/services/chat_turns.py:343-350 | the request lookup finds a turn of this conversation and request id exactly when there is one |
| ChatInvariant.InsertSpends | app/context_engine/services/composer_refs.py:408-435 | a new turn spends exactly its own tokens, none spent before, so consumed tokens and accepted refs keep equal counts |
| ChatInvariant.InsertEffect | app/context_engine/services/chat_turns.py:531-604 | an insertion that commits appended one turn, consumed its tokens, and met neither a duplicate request nor a running turn |
| Evolution.RunEvolves | app/context_engine/services/chat_turns.py:1169-1214 | over any run a row's ledger only extends, with sanitization as the sole rewrite, closed rows are frozen but for redaction, keys never change |
| ChatStarts.StartedAtMostOnce | app/context_engine/services/chat_turns.py:531-604 | in every reachable store there is one turn per (conversation, request id), one running turn per conversation, and as many consumed tokens as accepted refs |
| ChatStarts.TokenHasOneTurn | app/context_engine/services/composer_refs.py:551-571 | every consumed token belongs to exactly one turn, as the accepted ref of the same position |
| ChatStarts.RetryIsReplay | app/context_engine/services/chat_turns.py:489-499 | at every later time an identical retry is answered with the same turn and changes nothing, also after its tokens are consumed or expired |
| ChatStarts.LosingStarterChangesNothing | app/context_engine/services/chat_turns.py:536-546 | a starter that lost the race between its unlocked checks and the lock inserts and consumes nothing |
| ChatStarts.WinningStart | app/context_engine/services/chat_turns.py:549-604 | a committed start adds one running, claimable turn that says what the request says: direct_llm exactly without a domain, its domain, message, request id and conversation reference, in the row and in its two ledger rows; its accepted refs are its tokens' targets, labels and descriptions in order; exactly those tokens are newly consumed and the version rises by one |
| ChatStarts.CommitsExactly | app/context_engine/services/chat_turns.py:522-604 | of any run: the locked part inserts a turn if and only if the actor is still authenticated, the conversation is the owner's, the request has no turn, none is running, and every token is the owner's, unexpired and unspent; otherwise turns, tokens and conversations stay as they were |
| ChatStarts.StartAnswered | app/context_engine/services/chat_turns.py:463-520 | of any run: the unlocked checks let a start through if and only if its conversation is the owner's, its message does not need a missing domain, it has no turn yet and none is running, its domain is ready and its tokens are usable; a used request id is a replay if the request says the same and a conflict if not, and a start beside a running turn is refused |
| ChatStarts.TokenMovesExact | app/context_engine/services/composer_refs.py:88-111 | issuing and expiring change one token only; an expired one cannot be consumed |
| ChatStarts.SpentStaysSpent | app/context_engine/services/composer_refs.py:431-435 | over any run a consumed token stays consumed |
| ChatVersions.VersionIsValidator | app/context_engine/services/chat_turns.py:1328-1332 | over any run the version never falls, and two stores with one version show one conversation detail |
| ChatVersions.OneRenamePerVersion | app/context_engine/services/conversations.py:252-272 | after one rename at an expected version, every later rename expecting it is refused |
| ChatVersions.RenameExact | app/context_engine/services/conversations.py:242-283 | a rename takes effect if and only if the conversation is the owner's and at the expected version; then it sets the title and raises the version by one and changes nothing else |
| ChatVersions.DeleteExact | app/context_engine/services/conversations.py:286-313 | a deletion takes effect on the same conditions and does nothing else |
| ChatVersions.DetailShows | app/context_engine/services/chat_turns.py:902-932 | in every reachable store the conversation detail lists exactly its turns, in the order of their starts; each shows its own ids, route, message, clocks and status, its answer exactly if it has one, its Evidence and its labelled refs in order unless redacted, and the error of exactly the failed and cancelled turns |
| Redaction.RedactionErasesSecrets | app/context_engine/services/chat_turns.py:2342-2395 | two turns that differ only in answer, Evidence text, labels and shown errors become one and the same row, so every projection, stored payload and replay is equal |
| Redaction.RedactionKeepsRows | app/context_engine/services/chat_turns.py:2320-2339 | redaction keeps every row's id, sequence, time and everything it says but its secrets, which are blanked under a matching digest, and appends one turn.redacted |
| Redaction.RedactionKeepsRefs | app/context_engine/services/chat_turns.py:2342-2395 | redaction keeps key, budget, lease and generation, and of every ref its reference, order and target, stamped once and without its texts |
| Replay.ReplayIsRelabelling | app/context_engine/services/chat_turns.py:1091-1123 | in every reachable store the replayed event equals the stored one with the replay flag on, if and only if the row still holds what was stored |
| Tail.PolledReplay | app/context_engine/services/chat_turns.py:2205-2215 | after any run, what a poll replays from a status row read earlier equals the stored row relabelled if and only if that status row held what is stored (for a completion: its status was already completed), when no redaction falls between the two reads |
| Replay.CitationsNameEvidence | app/context_engine/services/chat_turns.py:1248-1258 | in every reachable store the terminal row of a completed turn names its route, stop reason and budget, cites exactly the turn's Evidence refs, in order and labelled [1]..[k], and lists exactly its accepted refs |
| Replay.RunFaithful | app/context_engine/services/chat_turns.py:1248-1258 | over any run the terminal row tells what the closed turn row says |
| Tail.RunsGiveHistories | app/context_engine/services/chat_turns.py:2188-2223 | reads of a turn at rising times of any run form a history: each sound, each an evolution of the one before |
| Tail.StoredEventsDense | app/context_engine/services/chat_turns.py:1217-1233 | the rows beyond a cursor are exactly the tail of the ledger from that position |
| Tail.PollStep | app/context_engine/services/chat_turns.py:2200-2215 | one poll, with appends and redactions between its two reads, yields the segment behind the cursor; if the status read was closed, the terminal or redacted row is in it |
| Tail.TailTurnEvents | app/context_engine/services/chat_turns.py:2188-2223 | a tail sends a gap-free, duplicate-free segment of this turn's ledger from its cursor, with each row's own payload unless it is terminal or has been blanked since, reports closed exactly when a status read was not running, and then has sent the terminal or redacted row |
| Tail.Connect | app/context_engine/services/chat_turns.py:2271-2293 | a connection dropped anywhere leaves a segment and a cursor right behind it; if the tail closed and all of it was kept, the cursor is past the terminal or redacted row |
| Tail.FollowWithReconnects | app/context_engine/services/chat_turns.py:2271-2293 | however often a client drops and resumes, it receives one contiguous segment of the ledger; if its last connection ended with the turn, the terminal or redacted row is in it or behind its start |
| Tail.WholeReplay | app/context_engine/services/chat_turns.py:1091-1123 | over a whole replay of a closed, unredacted row every event is the stored one and the terminal one is relabelled, if and only if the row still holds what is stored |
| Tail.CompletedReplay | app/context_engine/services/chat_turns.py:2286-2293 | after any run, attaching to a completed turn that is not redacted meanwhile yields the stored ledger with one flag changed, that of its terminal event |
| TurnRecord.ConversationTurn.constructor | app/context_engine/services/chat_turns.py:549-604 | the inserted row: accepted refs, the accepted and route rows, claimable last |
| TurnRecord.ConversationTurn.PersistEvent | app/context_engine/services/chat_turns.py:1169-1214 | appends one row at max + 1 with its digest, or raises on a closed turn or another generation and changes nothing |
| TurnRecord.ConversationTurn.PersistEvidenceRefs | app/context_engine/services/chat_turns.py:1414-1444 | adds one ref per item found, numbered from 1, field by field the item's own under its own reference, or nothing when closed or stale, or aborts on the unique index |
| TurnRecord.ConversationTurn.FinalizeIfRunning | app/context_engine/services/chat_turns.py:1447-1478 | wins exactly when running and of this generation, and then writes outcome, clock and lease columns |
| TurnRecord.ConversationTurn.CompleteTurn | app/context_engine/services/chat_turns.py:1489-1548 | the new row and version bump of a completion, terminal row included, or nothing |
| TurnRecord.ConversationTurn.FailTurn | app/context_engine/services/chat_turns.py:1551-1603 | the new row and bump of a failure, or nothing |
| TurnRecord.ConversationTurn.CancelRunningTurn | app/context_engine/services/chat_turns.py:1633-1662 | the new row and bump of a cancellation, or nothing on a closed turn |
| TurnRecord.ConversationTurn.SanitizeEvents | app/context_engine/services/chat_turns.py:2320-2339 | the loop rewrites answer, Evidence and completion payloads in place with fresh digests and nothing else |
| TurnRecord.ConversationTurn.RedactTurn | app/context_engine/services/chat_turns.py:2342-2395 | the new row of a redaction, lease columns untouched, or nothing when already redacted |
| TurnRecord.ConversationTurn.ClaimTurn | app/context_engine/services/chat_turns.py:2143-2168 | claims exactly a claimable row whose lease is absent or past, raising the generation |
| TurnRecord.ConversationTurn.HeartbeatTurnLease | app/context_engine/services/chat_turns.py:1386-1411 | renews exactly the current owner's unexpired lease |
| TurnRecord.RedactTurns | app/context_engine/services/chat_turns.py:2342-2395 | a batch redacts every listed turn once and counts those that were open |
| ComposerRefs.NormalizeTokens | app/context_engine/services/composer_refs.py:352-369 | accepts exactly lists of at most 25 distinct, trimmed, printable tokens of at most 256 characters |
| ComposerRefs.EnforceRefCaps | app/context_engine/services/composer_refs.py:382-389 | accepts exactly lists within the overall cap and the cap of every kind |
| ComposerRefs.ValidateExact | app/context_engine/services/composer_refs.py:514-548 | validation accepts if and only if there are at most 25 distinct tokens, at most 4 of a kind, each printable, of at most 256 characters, the owner's, unexpired, unspent, eligible and, unless a template, of the turn's domain; it hands over every token's target and label in order |
| ComposerRefs.ConsumeExact | app/context_engine/services/composer_refs.py:408-435 | a consumption stamps exactly the tokens named, each unspent before, and changes nothing else of any token |
| ComposerRefs.NeverTwice | app/context_engine/services/composer_refs.py:431-435 | after a consumption every request naming one of its tokens is refused |
| ComposerRefs.TokenRows.Consume | app/context_engine/services/composer_refs.py:408-435 | the row loop spends all tokens, or raises and leaves the table as it was |
| Keyset.PageExact | app/context_engine/services/conversations.py:134-163 | a page is the top, in strictly descending order, of the owner's rows below the anchor, as many as asked for unless nothing is left; the next cursor names its last row |
| Keyset.CursorReadsBack | app/context_engine/services/conversations.py:116-138 | the cursor of a row reads back as its public reference |
| Keyset.CursorFollows | app/context_engine/services/conversations.py:141-179 | in every store that still holds its row, and for every limit from 1 to 100, following a next cursor succeeds and gives the top of what lies below that row |
| Keyset.RefusedExactly | app/context_engine/services/conversations.py:148-163 | a listing is refused for its limit exactly outside 1 to 100, and with such a limit as cursor_expired exactly when its cursor is unreadable or the conversation it names is gone |
| Keyset.WalkEnds | app/context_engine/services/conversations.py:141-179 | over changing stores that keep the conversation each page ended with, more visits than the owner's conversations have keys reach a page without a next cursor |
| Keyset.CompletedWalk | app/context_engine/services/conversations.py:116-163 | a walk to the end over changing stores lists only the owner's conversations, strictly descending, none twice, and every one that was there throughout |
| Sse.ReadStream | app/scripts/stack_ingress_sse_proof.py:175-213 | for any bytes in any chunks, frames are those of the completed blocks of the whole text, up to the first terminal event or the delta limit |
| Sse.ParseSse | app/scripts/stack_smoke_core.py:89-99 | the batch reader returns the data lines of all non-blank blocks |
| Sse.ReadersAgree | app/context_engine/services/chat_turns.py:1060-1071 | for any events and any split into reads, the incremental reader recovers exactly the events up to the first terminal one, a prefix of what the batch reader recovers |
| Sse.KeptUpToDrop | app/scripts/stack_ingress_sse_proof.py:200-212 | a reader told to drop the connection after n deltas keeps everything up to the first frame that is terminal or the n-th delta |
| Sse.BatchReadsBack | app/scripts/stack_smoke_core.py:89-99 | the batch reader recovers every printed event |
| Sse.PrintedReadsBack | app/context_engine/services/chat_turns.py:1060-1071 | a printed stream, whatever follows, splits back into its events' data |
| Sse.FramesOfPrefix | app/scripts/stack_ingress_sse_proof.py:188-196 | text cut off anywhere yields a prefix of the frames |
| Sse.CutStream | app/scripts/stack_ingress_sse_proof.py:175-213 | a printed stream cut off anywhere gives a prefix of the events |
| PreviewPager.ChunkTextToPages | app/context_engine/adapters/preview_renderer.py:181-209 | pages tile the normalized text, 1 to 500 of them; up to 500*1601 characters are never rejected, above 500*1800 always |
| PreviewPager.NormalizedIs | app/context_engine/adapters/preview_renderer.py:182-184 | normalizing makes every line ending, of one or two characters, one line feed and changes nothing else, except that a blank text becomes one space |
| PreviewPager.PagesSpellText | app/context_engine/adapters/preview_renderer.py:189-206 | the pages of a tiling spell the text up to its end |
| PreviewPager.PageSizes | app/context_engine/adapters/preview_renderer.py:190-205 | entries are numbered and contiguous; a page that is not the text's last has 1601 to 1800 characters, the last 1 to 1800 |
| PreviewPager.Coverage | app/context_engine/adapters/preview_renderer.py:189-208 | n pages cover more than 1601(n-1) and at most 1800n characters |
| PreviewPager.BreakUnique | app/context_engine/adapters/preview_renderer.py:190-196 | there is one right place for each page break |
| PreviewPager.TilingUnique | app/context_engine/adapters/preview_renderer.py:189-206 | the tiling of a text is determined |
| PreviewPager.ValidatePageMap | app/context_engine/adapters/preview_renderer.py:90-102 | accepts exactly maps of the version, renderer and count whose pages are numbered from 1 |
| PreviewPager.TilingMapHolds | app/context_engine/adapters/preview_renderer.py:242-262 | the map of every tiling is accepted |
| PdfText.ReplacesAreOnePass | app/context_engine/adapters/preview_renderer.py:105-107 | the three sequential replaces are one pass that puts a backslash before every delimiter |
| PdfText.EscapedScansBack | app/context_engine/adapters/preview_renderer.py:120-126 | a literal-string scanner by section 7.3.4.2 of ISO 32000-1, started behind the writer's parenthesis, stops at the writer's own closing one whatever follows and reads the cleaned text |
| PdfText.StreamReadsBack | app/context_engine/adapters/preview_renderer.py:116-128 | read operator by operator (section 9.4 of ISO 32000-1), a content stream is one text object that shows the page's first 60 lines, each cut to 120 characters and cleaned, on successive lines |
| PdfText.ShownAt | app/context_engine/adapters/preview_renderer.py:121-122 | a shown line is the first 120 characters of its text with a blank for everything but printable ASCII |
| Basics.LinesSpell | app/context_engine/adapters/preview_renderer.py:117 | splitting lines keeps every character that does not end a line, in order |
| PdfText.RenderContent | app/context_engine/adapters/preview_renderer.py:116-128 | the page loop with its first-line flag writes that content stream |
| Numbers.PaddedReadsBack | app/context_engine/adapters/preview_renderer.py:172 | zero padding reads back, and takes exactly ten digits for exactly the numbers below 10^10 |
| PdfFile.AssemblePdf | app/context_engine/adapters/preview_renderer.py:110-178 | the file is header, objects in id order, table of their offsets, and trailer |
| PdfFile.Output.WriteObj | app/context_engine/adapters/preview_renderer.py:145-149 | appends one object and records where it begins |
| PdfReader.ObjectReads | app/context_engine/adapters/preview_renderer.py:167-172 | for a reader with the standard's own keywords, the 20-byte in-use entry of every id leads to the bytes "id 0 obj" and that object's body (section 7.5.4) |
| PdfReader.TableBytes | app/context_engine/adapters/preview_renderer.py:167-172 | byte by byte: entry 0 of the table is the free one and every other entry is in use with generation 00000; its ten digits are an offset at which the file says the object's number, body and end |
| PdfReader.IndexReads | app/context_engine/adapters/preview_renderer.py:167-177 | startxref, found from the end of the file, points at xref and the table (section 7.5.5) |
| PdfReader.StreamReads | app/context_engine/adapters/preview_renderer.py:128-131 | /Length is the exact length of its stream (section 7.3.8) |
| PdfReader.KidsRead | app/context_engine/adapters/preview_renderer.py:152-153 | /Kids reads back and /Count is their number (section 7.7.3) |
| PdfReader.FileReadsBack | app/context_engine/adapters/preview_renderer.py:110-178 | a reader with the standard's own keywords that starts at the end of the file, goes through trailer, catalog and page tree, and checks every page's parent and font, gets back every page's content stream |
| Preview.PagesStayBounded | app/context_engine/adapters/preview_renderer.py:37-39 | whatever is on them, up to 500 pages stay under 25 MiB and every offset fits ten digits |
| Preview.ValidatePdfBytes | app/context_engine/adapters/preview_renderer.py:74-87 | accepts exactly files with the magic, of 8 to 26214400 bytes and with at most 500 page markers, and names the reason for each refusal |
| MarkerCount.FoundAreAll | app/context_engine/adapters/preview_renderer.py:43-44 | scanning for the expression finds as many matches as there are positions at which it matches |
| MarkerCount.MarkersOfFile | app/context_engine/adapters/preview_renderer.py:81 | the count over a written file is its number of pages plus the matches in the lines it shows, cut and cleaned: no match spans two lines or a line and the operators around it |
| PreviewRefusal.ShortTextRefused | app/context_engine/adapters/preview_renderer.py:85-86 | a text of 5082 characters on three pages is refused as too many pages |
| Preview.RenderTextLike | app/context_engine/adapters/preview_renderer.py:242-262 | succeeds if and only if the text has at most 500 pages and these plus the matches in their shown lines are at most 500; what is rendered displays the text's pages and has a valid map; the only failure is too many pages |
| Census.BuildCensusRefs | app/scripts/stack_pg_object_refs_census.py:68-96 | the dictionary loops give the sorted first-wins census |
| Census.CensusExact | app/scripts/stack_pg_object_refs_census.py:48-96 | keys rise strictly, every referenced key is there, each with the first reference any row gave it |
| BackupRoundTrip.CensusFromRows | app/scripts/stack_pg_object_refs_census.py:48-96 | every reference of the census is one that some document or image row makes, with the key, hash and size given there |
| Backup.CaptureObjectBytes | app/scripts/stack_backup_capture.py:147-181 | succeeds exactly when every object is there with its hash and size, else reports the first that is not |
| Backup.RestoreObjects | app/scripts/stack_restore_recon.py:126-153 | puts every entry whose archived bytes match and reports each other one |
| Backup.VerifyRestoredObjects | app/scripts/stack_restore_recon.py:84-123 | reports every missing object and every hash, size and ETag mismatch, in order |
| BackupRoundTrip.CapturableIs | app/scripts/stack_backup_capture.py:147-181 | a capture succeeds if and only if every referenced object is there, hashes to what its row says and has the size its row says, if it says one |
| BackupRoundTrip.RestoredOrReported | app/scripts/stack_restore_recon.py:126-153 | whatever the archive holds and the target refuses, every recorded key gets its original bytes or is reported for the reason that holds and left as it was |
| BackupRoundTrip.OthersLeftAlone | app/scripts/stack_restore_recon.py:126-153 | a restore leaves alone every key that no entry records |
| BackupRoundTrip.VerifyReports | app/scripts/stack_restore_recon.py:84-110 | what verification reports of a recorded object is decided by the bytes the target holds: missing, or another hash exactly for other bytes, and another size exactly for another size |
| BackupRoundTrip.RoundTrip | app/scripts/stack_restore_recon.py:84-153 | a successful capture restores without failures to exactly the census keys with their original bytes, the recorded tree digest verifies, every row's key reads back, and verification of the objects is clean if and only if every ETag, trimmed and unquoted, is non-empty without a blank at an end |
| BackupRoundTrip.ManifestDigestVerifies | app/scripts/stack_restore_recon.py:203-210 | the tree digest recorded for a captured census verifies in any order of the manifest's objects |
| BackupRoundTrip.PlainSurvives | app/scripts/stack_restore_recon.py:77-81 | normalizing an ETag twice gives what normalizing it once gives, if and only if what is left is non-empty without a blank at an end |
| BackupRoundTrip.VerifiedMeansOriginal | app/scripts/stack_restore_recon.py:84-123 | whatever happened to archive and target, a clean verification means that every census key holds its original bytes |
| BackupRoundTrip.BlankInsideQuotes | app/scripts/stack_restore_recon.py:111-122 | after a restore with intact bytes every object whose ETag has a blank at an end inside its quotes is reported |
| BackupRoundTrip.OneFailingBackup | app/scripts/stack_restore_recon.py:111-122 | one document under such an ETag is captured and restored, and its verification fails |
| TreeDigest.ManifestObjectTreeDigest | app/scripts/stack_object_store_recon.py:99-106 | the loop hashes the sorted key and hash lines |
| TreeDigest.VerifyObjectTreeDigest | app/scripts/stack_restore_recon.py:203-210 | passes exactly when the recorded digest is that of the entries |
| TreeDigest.BuildConsistencyManifest | app/scripts/stack_backup_capture.py:119-144 | the manifest holds the sorted entries, their number and the digest over them |
| TreeDigest.RecordedDigestVerifies | app/scripts/stack_restore_recon.py:203-210 | the digest a manifest records verifies, in any order of its objects |
| TreeDigest.TamperingIsFound | app/scripts/stack_restore_recon.py:203-210 | for keys without newlines, other entries verify against a recorded digest if and only if they name the same keys with the same hashes; otherwise the mismatch is reported |
| TreeDigest.OrderForgotten | app/scripts/stack_object_store_recon.py:99-106 | the digest does not depend on the order of the entries |
| TreeDigest.EqualDigests | app/scripts/stack_object_store_recon.py:99-106 | equal digests mean the same keys with the same hashes, for keys without newlines |
| TreeDigest.NewlineHidesEntry | app/scripts/stack_object_store_recon.py:99-106 | the text of one entry also lists several others if and only if its key splits at a newline into key, colon, hash and the beginning of a later key |
| Ordering.SortCanonical | app/scripts/stack_backup_capture.py:180 | sorting by distinct keys gives one result for every order of the same elements |
| Sessions.IdleBounds | app/context_engine/api/dependencies.py:45-63 | after any trace, a client admitted at most idle - touch ago is admitted until absolute expiry unless revoked or disabled, and one silent for idle is refused |
| Sessions.DiligentNeverRefused | app/context_engine/api/dependencies.py:45-63 | a client whose requests are never more than idle - touch apart is admitted every time before absolute expiry, unless revoked or disabled |
| Sessions.BoundIsTight | app/context_engine/config.py:156-161 | for all settings whose idle bound is shorter than the lifetime, one second more of silence can be refused before the expiry |
| Sessions.IdleNeverBinds | app/context_engine/config.py:156-161 | with an idle bound as long as the lifetime, idleness never refuses anyone before the expiry |
| Sessions.DeadForGood | app/context_engine/services/auth.py:110-153 | a session dead by idleness, expiry or revocation is refused at every later time |
| Sessions.LogoutIsFinal | app/context_engine/api/routes.py:560-575 | an admitted logout makes its session refused for good; one that is not admitted changes nothing; no other session is touched |
| Sessions.LoginReplaces | app/context_engine/services/auth.py:79-107 | a login starts a session of its user, admitted at once unless the user is disabled; the session it was presented with is refused for good and no other one is touched |
| Sessions.DisablingExact | app/context_engine/api/dependencies.py:54-56 | disabling refuses exactly that user's sessions, and enabling gives back those that live |
| Sessions.AuthSession.RequireCurrent | app/context_engine/api/dependencies.py:45-63 | admits exactly live sessions of enabled users and then moves the last use only after the touch interval |
| Sessions.AuthSession.Revoke | app/context_engine/services/auth.py:110-116 | stamps the first revocation only |
| Sessions.AuthSession.Revalidate | app/context_engine/services/auth.py:119-153 | admits exactly the owner's own live session and writes nothing |
| Sessions.AuthSession.constructor | app/context_engine/services/auth.py:97-103 | a new session expires after the configured lifetime and was last used now |

## Left out

- Reclaim.UndisturbedGeneration: says what a generation has done once it has stopped; that its environment goes on answering it is not part of this model.
- Executor: a worker is a program counter over committed transactions, not the source's nested loops and generators, because other actors run between any two of its commits; the order of its commits, fences and external answers is the source's.
- ChatSystem: requests, conversations and the turn table are values; aliasing of database rows is captured only for single rows, in TurnRecord.
- ChatSystem.RedactStep: a batch over a source or domain is a sequence of single redactions in runs; TurnRecord.RedactTurns models the batch itself. Which turns a source or domain deletion selects is not part of this model.
- ChatSystem.ClaimStep: the claim query's order and row skipping choose among claimable turns; any claimable turn may be claimed.
- ChatSystem.DeleteStep: rows of a deleted conversation are kept as history instead of being removed.
- Tail.TailTurnEvents: the idle deadline and sleeping are the end of the list of reads; the snapshot taken for an expired cursor is not part of this model, nor is a turn deleted while it is tailed, which ends the tail.
- ComposerRefs.ValidateTokens: eligibility of the referenced template, source or Evidence row is one answer of the environment per token.
- Tail.PolledReplay: says nothing of a poll whose two reads have a redaction between them; Tail.PollStep then still gives identity, order and type.
- Keyset.ListConversations: a cursor's JSON and base64 text is the decoded cursor or unreadable.
- Sse.ReadStream: bytes are ASCII text, so decoding never splits a character; the wall-clock deadline is a shorter list of reads.
- Sessions.World: whole time units; fractions of a second and the cookie are not part of this model.
- Preview.RenderTextLike: begins at the decoded text; decoding of the source bytes, the child process and pass-through of given PDFs are not part of this model.
- PdfFile.AssemblePdf: an offset of 10^10 or more gets an entry of more than 20 bytes; reading back is stated for files whose offsets fit (PdfReader.OffsetsFit), as those of up to 500 pages do.
- Backup.VerifyRestoredObjects: a store without a HEAD operation, the manifest's capture time and its entries about database, keys and images, the PG dump, the encryption key proof and the volume refusals are not part of this model.
- Backup.CaptureObjectBytes: SHA-256 is injective on content and archive names are injective on keys.
- claim_turn creates a turn that no worker can claim, with an empty ledger; it is not among the moves.
- ChatVersions.DetailShows: turns of one conversation are listed in the order of their starts; the source breaks ties of equal start times by id.
- Transcript.DeltasAreStreamed: says nothing of redacted turns, whose deltas are blank.
- Normalization of request ids, messages, domain ids and conversation titles: requests carry normalized values, and what the search for domain-required patterns in the message answers.
- Object listing, orphan warnings, the archive directory test and the refs export are not part of this model.
- Event retention: nothing advances the retention mark.
- Public projections join sources, blocks and domains; the joined rows are an input, and a deleted domain's name in the route row is reduced to its id.
- HTTP routing, error projection, audit records, metrics, logging, tracing, prompts, model runtime resolution and the retrieval engine: what they answer is an input, or they are not part of this model.
- SQL, isolation levels and row locks below one committed transaction.
