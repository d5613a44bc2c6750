# A model of the claim ledger and its adjudication queue

mempill keeps claims in append-only logs. There is no row that holds a claim's current state: whether
it is live, queued, bound or denied is recomputed from the logs by every operation that asks. This
project models those logs, the use cases that append to them, the two stores below them and the locks
around them, and proves that the different readings agree over whole runs, crashes and interleavings.
Where a promise of the code's own comments does not hold on all inputs, the exact condition under which
it does is a theorem here.

`dafny verify dfyconfig.toml` checks everything.

## Layout

| module | models |
|---|---|
| `Ledger`, `LedgerReadings`, `StableSort` | ledger entries; the three readings of "latest disposition"; the denied set and its one-pass automaton; the standard library's stable sort |
| `Validity`, `AssertValidity` | Bound/Reopen walks, the window of a claim, gates 1 to 5, receipts and the agreement of the two logs over runs of host calls |
| `Store`, `SqliteStore` | the tables with the schema's constraints; the SQLite connection hand-off and its transactions |
| `IngestClaim`, `SubmitAdjudication`, `SweepAdjudications`, `EngineHandle` | the use cases as classes over the SQLite store, each proved against a function on tables, and what each answer means in terms of the rows before and after |
| `Refinement` | what the use cases commit is what the steps of `Denial` and `Lifecycle` do, and interleaved runs are runs of such steps |
| `Reconcile` | what one reconcile pass may record for a claim |
| `Denial`, `Agreement`, `RunWitnesses` | what "denied by adjudication" means over whole runs of all write paths, the agreement of the two logs over the same runs, and runs on which a promise fails |
| `Lifecycle`, `LifecycleRuns`, `LifecycleWitnesses` | ingests, sweepers, submitters, host calls, reconcile passes and crashes interleaved, with stale lists and stale clocks: the invariant, the theorems on runs, and concrete runs |
| `ChunkedLedger`, `Lineage`, `StreamSeq` | chunked loading, the recursive lineage query, `MAX + 1` numbering under an advisory lock |
| `Calendar`, `DigitText`, `Rfc3339Text`, `ValidDates` | the Gregorian calendar, timestamps compared as texts, the date parser and printer |
| `WriteLocks` | the store lock, the per-agent mutex map, exclusion and progress |

## Assumptions

- Agents: where the caller names an agent, `Tables` is that agent's partition, since every query filters by
  agent. The sweep's two lists span all agents; there, and in `Lifecycle`, `Tables` is the whole store. Since
  `claim_id` is the claims' primary key (mempill-sqlite/src/schema/v1_initial.sql:43) and entries and rows
  carry the agent of their claim, the filter by agent beside a claim's id selects no fewer rows.
- Minted identifiers are fresh: a claim reference is new to the store (`InsertClaim` refuses others), a
  row handle is not in use, a transaction identifier is used once.
- Rows are loaded in the order they were inserted when a sort key ties, except in `ChunkedLedger` and
  `Lineage`, where ORDER BY may leave ties in any order.
- The stages before the commit (firewall, extraction, fold, gate) may choose any outcome they can emit:
  the gate emits `CommittedCheap`, `CommittedInferred`, `Quarantined`, `Contested` and
  `QueuedForAdjudication`.
- Clock readings are arguments. Every theorem that needs them ordered says so in its `requires`:
  `TimesIncrease`, `Later`, `InTimeOrder`, `OnTime`, `Quiet`. In `Lifecycle` a row's deadline is not before
  the reading it was queued at, because the configured time to live is an unsigned duration
  (mempill-core/src/application/ingest_claim.rs:304-306).
- In `Denial`, `Agreement` and `Lifecycle` a reconcile pass is one step per entry. Its reads all come before
  its writes; the entries are about different claims as long as the request names no subject line twice.
- The DependsOn cascade is modelled, but no write path of the engine creates a DependsOn edge, so it
  adds no entries on the runs of `Denial` and `Lifecycle`.
- Store failures are nondeterministic and can happen at every statement. A failed COMMIT or ROLLBACK
  loses the connection, as in the code. The store counts its failures, and a use case reports a store
  failure only if one happened during the call or the connection was not in its slot.

## Where the code and its comments differ

The model follows the code.

- A later Bound is said never to win (mempill-core/src/application/assert_validity.rs:10-20), on the
  ground that every stored assertion is visible to a later call (lines 382-390). The walk counts a Bound
  only once its instant has come, and an assertion only up to the caller's clock reading
  (mempill-core/src/engine/truth_engine.rs:164-202). Bounds at future instants, or asserted by a call
  whose clock was ahead, are therefore written beside each other
  (`AssertValidity.UnseenBoundsAreNotCounted`). Over runs of host calls, receipts and logs are right exactly
  when no such Bound is written (`AssertValidity.ReceiptsHonestExactly`, `AssertValidity.LogsAgreeExactly`);
  `RunWitnesses.FutureBoundSplitsTheLogs` is a run on which both fail.
- Gate 4 answers a repeated Bound with the active bound's own instant
  (mempill-core/src/application/assert_validity.rs:172-190) where gate 5 would answer with the claim's own
  end. Host calls never store a Bound outside the claim's window (`AssertValidity.BoundsInsideOverRun`), but
  an Affirm closes the incumbent at the challenger's start, which may lie after the incumbent's own end
  (mempill-core/src/application/submit_adjudication.rs:203-215);
  a repetition of that Bound is then answered with an instant outside the window
  (`RunWitnesses.ReceiptBeyondWindow`). `AssertValidity.ReceiptHonestExactly` gives the condition for every
  store.
- The denied set rests on an incumbent never being in adjudication itself
  (mempill-core/src/application/ingest_claim.rs:491-497). Nothing enforces that: an Affirm against an
  incumbent that is queued or denied, or an Unknown against one that is denied, breaks the set's meaning
  (`Denial.VerdictSafeExactly`). In the run of `RunWitnesses.AffirmUndoesDenial` a claim that was denied is
  no longer in the set after an Affirm of its own challenger, though nobody reopened it.
- The two logs also part when a verdict writes to an incumbent that is bound already, or closes one at an
  instant still to come (`Agreement.RunAgreesExactly`).
- `now` is read before the locks are taken, so the order of writes and of times differ. An exit from the
  queue written with a reading before the claim's latest entry leaves the claim queued
  (`LifecycleRuns.ExitTakesEffectExactly`), and so it can be taken out over and over
  (`LifecycleWitnesses.StaleClocksLeaveTwice`).
- The orphan sweep is to revert claims with no pending row
  (mempill-core/src/application/sweep_adjudications.rs:138-141). Its re-check reads the disposition
  only, so it can revert a claim whose row was inserted after the listing (`LifecycleRuns.RaceReverts`;
  from the empty store, `LifecycleWitnesses.RaceFromStart`).
- A reconcile pass with an oracle may queue a claim that has left the queue, without a row of its own
  (mempill-core/src/application/reconcile.rs:200-223, mempill-core/src/engine/gate.rs:174-185). The claim
  then leaves the queue once more (`LifecycleWitnesses.RequeuedLeavesTwice`) and, until then, is queued
  with a row that is marked already (`LifecycleWitnesses.RequeuedHasMarkedRow`).
- After a crash between the Contested commit and `mark_expired` the row keeps the status `pending`: later
  sweeps find that its challenger has left the queue and return before they mark it. It stays so, whatever
  runs, until reconcile queues the challenger again (`LifecycleRuns.CanBeMarkedExactly`,
  `LifecycleWitnesses.CrashLeavesRowPending`, `LifecycleWitnesses.RequeueFreesRow`).
- An orphan without an incumbent is to be skipped (mempill-core/src/ports/pending_adjudication.rs:87-107,
  mempill-sqlite/src/store.rs:1618-1622). The code lists and reverts it like any other
  (`EngineHandle.OrphanWithoutIncumbentIsListed`, `RunWitnesses.OrphanHasNoIncumbent`;
  `SweepAdjudications.SweepAdjudicationsUseCase.RevertOrphan` does the same with an incumbent and without).

## Model

| member | source | states |
|---|---|---|
| `LedgerReadings.BuildLatestDispositionMap` | mempill-core/src/application/ingest_claim.rs:447-462 | the one-pass map holds, for every claim of the slice and no other, the disposition of its latest entry, the first one on ties |
| `LedgerReadings.FirstLatestIsFirst` | mempill-core/src/application/ingest_claim.rs:447-462 | the fold's reading is an entry at the claim's maximal time, and the first such in the slice |
| `LedgerReadings.LastLatestIsLast` | mempill-core/src/application/sweep_adjudications.rs:212-221 | the `max_by_key` reading is an entry at the claim's maximal time, and the last such |
| `LedgerReadings.ReadingsAgreeExactly` | mempill-sqlite/src/store.rs:1492-1550 | the fold, `max_by_key` and SQL `MAX` readings agree if and only if entries that tie for the latest time carry one disposition |
| `LedgerReadings.DistinctTimesAreUnambiguous` | mempill-core/src/application/sweep_adjudications.rs:212-221 | distinct times per claim meet that condition |
| `LedgerReadings.ReadingsIgnoreInputOrder` | mempill-core/src/application/ingest_claim.rs:447-462 | reordering a slice changes none of the readings when the latest entry is unambiguous |
| `LedgerReadings.BuildDeniedViaAdjudicationSet` | mempill-core/src/application/ingest_claim.rs:503-554 | group, sort, marker and windowed scan give exactly the claims at which the one-pass automaton ends denied |
| `LedgerReadings.ScanIsAutomaton` | mempill-core/src/application/ingest_claim.rs:517-551 | marker read plus scan after the last Reinstated equals the left-to-right automaton, on every entry sequence |
| `LedgerReadings.DeniedIgnoresInputOrder` | mempill-core/src/application/ingest_claim.rs:503-554 | with distinct times the answer for a claim depends on that claim's entries only, in whatever order they come |
| `Denial.DeniedMeansDenied` | mempill-core/src/application/ingest_claim.rs:464-554 | on every admissible run of ingest, verdict, expiry, host and reconcile steps a claim is denied exactly when its last Deny was not followed by an effective Reopen, and erasing any Superseded entries' markers changes no answer |
| `Denial.VerdictSafeExactly` | mempill-core/src/application/submit_adjudication.rs:284-410 | an Affirm or Unknown that is carried out keeps the incumbent's meaning if and only if the incumbent is not denied and, for an Affirm, not queued |
| `Denial.StepKeepsState` | mempill-core/src/application/ingest_claim.rs:464-502 | every step takes a claim's history from the state the meaning asks for to the next one |
| `Denial.TameExactly` | mempill-core/src/application/ingest_claim.rs:524-551 | which entry may follow which history so that the markers stay redundant, both directions |
| `Denial.StepOnEntries` | mempill-core/src/application/submit_adjudication.rs:284-410 | what each write path appends to each claim's history |
| `Agreement.RunAgreesExactly` | mempill-core/src/application/submit_adjudication.rs:284-410 | over every run of ingests, host calls, verdicts, expiries and reconcile entries from the empty store, a claim's assertion log and ledger agree after every step if and only if every step fits: no host Bound at a future instant, and an Affirm or Unknown finds its incumbent open and an Affirm closes it at an instant that has come |
| `Agreement.StepAgreesExactly` | mempill-core/src/application/submit_adjudication.rs:284-500 | the same of one step |
| `Agreement.AgreesFromThenOn` | mempill-core/src/engine/truth_engine.rs:164-202 | after such a run the logs agree at every later reading too |
| `Agreement.StepOnAssertions` | mempill-core/src/application/submit_adjudication.rs:418-500 | what each write path appends to each claim's assertions |
| `RunWitnesses.AffirmUndoesDenial` | mempill-core/src/application/ingest_claim.rs:491-554 | a run of safe verdicts and one Affirm against a denied incumbent, after which the incumbent is not in the denied set although its Deny was not followed by a Reopen |
| `RunWitnesses.ReceiptBeyondWindow` | mempill-core/src/application/assert_validity.rs:172-190 | a run with a safe Affirm, after which a repeated Bound is answered with an instant after the end of the window |
| `RunWitnesses.FutureBoundSplitsTheLogs` | mempill-core/src/application/assert_validity.rs:225-280 | a Bound at a later instant of a fresh claim makes the logs disagree and its receipt wrong |
| `RunWitnesses.OrphanHasNoIncumbent` | mempill-sqlite/src/store.rs:1618-1660 | a run that leaves an orphan without an incumbent, which is on the list and due for reversion |
| `Validity.ComputeActiveBoundAt` | mempill-core/src/engine/truth_engine.rs:164-202 | the loop computes the walk over the sorted assertions |
| `Validity.WalkFindsLastEffective` | mempill-core/src/engine/truth_engine.rs:129-202 | the active bound is the last assertion effective at the reading, if that is a Bound |
| `AssertValidity.AssertValidityUseCase.Execute` | mempill-core/src/application/assert_validity.rs:96-346 | the store fails and neither log changes, or both logs and the answer are those of the gates; it is reported to fail only if it did |
| `AssertValidity.BoundSucceedsExactly` | mempill-core/src/application/assert_validity.rs:96-280 | a Bound succeeds if and only if it is external, the claim is stored and neither queued nor denied, `at` is not before the start, and no other instant is active; it answers with the active Bound, with the own end where that comes first, both without a write, or with the one assertion and one entry it appends |
| `AssertValidity.BoundErrors` | mempill-core/src/application/assert_validity.rs:96-206 | which error a failing Bound gets, with the stored start or the instant of a stored, effective Bound |
| `AssertValidity.ReopenSucceedsExactly` | mempill-core/src/application/assert_validity.rs:282-346 | a Reopen succeeds if and only if it is external and the claim is stored; of an open claim it is a no-op |
| `AssertValidity.AssertValidityUseCase.ExecuteBound` | mempill-core/src/application/assert_validity.rs:140-280 | the Bound arm: gates 2.5 to 5 and the write |
| `AssertValidity.AssertValidityUseCase.WriteUnit` | mempill-core/src/application/assert_validity.rs:350-379 | assertion and ledger entry are committed together or not at all |
| `AssertValidity.GatesPassed` | mempill-core/src/application/assert_validity.rs:123-280 | what every written request has passed: provenance, target, adjudication, window, active bound |
| `AssertValidity.BoundsStayInside` | mempill-core/src/application/assert_validity.rs:185-206 | one host call keeps it true that every stored Bound of a claim satisfies start <= at < own end |
| `AssertValidity.BoundsInsideOverRun` | mempill-core/src/application/assert_validity.rs:185-206 | so it is true after every run of host calls on a freshly committed claim |
| `AssertValidity.ReceiptHonestExactly` | mempill-core/src/application/assert_validity.rs:172-280 | on every store, a Bound that succeeds reports the end of the window as it is after the call if and only if, before the call: with a bound active, `at` is not after the claim's own end; with none, `at` is not before that end, or `at` is not after the clock reading and no assertion of that very instant overtakes it. A no-op changes nothing |
| `AssertValidity.ReceiptsHonestExactly` | mempill-core/src/application/assert_validity.rs:172-280 | over every run at increasing times, on any targets, every successful Bound of a claim reports its window as it is after that call if and only if no call writes the claim a Bound at a future instant, a condition read off the store before each call |
| `AssertValidity.WrittenBoundTakesHold` | mempill-core/src/engine/truth_engine.rs:164-202 | a written Bound ends the window from its instant on, if nothing more is asserted |
| `AssertValidity.FutureBoundIsWritten` | mempill-core/src/application/assert_validity.rs:123-280 | that condition holds of a call if and only if the call writes such a Bound |
| `Validity.BoundOnOpenClaim` | mempill-core/src/engine/truth_engine.rs:164-202 | in every log, in order or not, an effective Bound on an open claim closes it, unless an assertion of the same instant with a greater reference overtakes it |
| `Validity.NarrowedIsEarlier` | mempill-core/src/engine/truth_engine.rs:378-391 | the window ends at the earlier of its own end and the Bound, the own end on a tie, with the precision of the one that is taken |
| `AssertValidity.OneCall` | mempill-core/src/application/assert_validity.rs:225-379 | one call keeps the two logs in agreement if and only if it writes no Bound at a future instant |
| `AssertValidity.LogsAgreeExactly` | mempill-core/src/application/assert_validity.rs:225-379 | over every run at increasing times: assertions alternate Bound and Reopen, match the validity entries one for one, and the claim reads Superseded exactly while it is bound, after every call, if and only if no call writes a future Bound |
| `AssertValidity.ActiveBoundMovesOnlyByReopen` | mempill-core/src/application/assert_validity.rs:123-346 | with nothing pending, one call moves an active bound if and only if it is an external Reopen of that claim |
| `AssertValidity.ActiveBoundMovesOverRun` | mempill-core/src/application/assert_validity.rs:123-346 | the same of every call of a run in which no Bound at a future instant was written before it |
| `AssertValidity.ActiveBoundSettledExactly` | mempill-core/src/engine/truth_engine.rs:164-202 | the active bound is the same at every later reading if and only if the last assertion is about an instant that has come |
| `AssertValidity.UnseenBoundsAreNotCounted` | mempill-core/src/application/assert_validity.rs:208-223 | Bounds not yet effective on the caller's clock do not stop another Bound |
| `SqliteStore.SqlitePersistenceStore.BeginAtomic` | mempill-sqlite/src/store.rs:472-478 | takes the connection out of the slot, or fails because it is out, or loses it when BEGIN fails |
| `SqliteStore.SqlitePersistenceStore.Commit` | mempill-sqlite/src/store.rs:479-487 | success makes the transaction's rows the committed ones and refills the slot; failure loses the connection |
| `SqliteStore.SqlitePersistenceStore.Rollback` | mempill-sqlite/src/store.rs:488-493 | the committed rows stay as they were |
| `SqliteStore.SqliteTxn.CommitAndReturn` | mempill-sqlite/src/txn.rs:62-68 | the connection is moved out, and comes back only if COMMIT succeeds |
| `SqliteStore.SqliteTxn.RollbackAndReturn` | mempill-sqlite/src/txn.rs:69-76 | the same for ROLLBACK |
| `SqliteStore.CommittedIsWholeTransactions` | mempill-sqlite/src/store.rs:472-493 | on every run, with any failures, a query is answered exactly when no transaction is open and the connection is there, with committed rows only, and the committed tables are those of whole committed transactions, replayed in commit order |
| `SqliteStore.LostExactly` | mempill-sqlite/src/txn.rs:36-76 | the connection is lost by a failed BEGIN, COMMIT or ROLLBACK or a dropped transaction and by nothing else, and only a successful COMMIT changes what is committed |
| `SqliteStore.LostForGood` | mempill-sqlite/src/store.rs:472-493 | a lost connection stays lost: no query is answered any more and nothing is committed |
| `IngestClaim.IngestClaimUseCase.ExecuteWithTime` | mempill-core/src/application/ingest_claim.rs:82-334 | a corroborated claim is answered by the existing one, a parked one is quarantined, neither is written; otherwise claim, entry and lineage edges appear together or never, after success the pending rows grow by the row of this claim, its incumbent, its clock reading and its deadline if and only if it was queued with an oracle, a pending store and an incumbent, and a store failure is reported only if there was one |
| `IngestClaim.CommitWrites` | mempill-core/src/application/ingest_claim.rs:355-440 | the commit adds the claim, one ClaimCommitted entry and one DerivedFrom edge to each parent, in order |
| `IngestClaim.IngestClaimUseCase.AppendWithinTxn` | mempill-core/src/application/ingest_claim.rs:355-440 | the statements of one ingest |
| `SubmitAdjudication.SubmitAdjudicationUseCase.Execute` | mempill-core/src/application/submit_adjudication.rs:84-280 | without a store failure tables and answer are those of `Submit`; with one, nothing is committed or the mark is missing, and the answer says which |
| `SubmitAdjudication.TooLate` | mempill-core/src/application/submit_adjudication.rs:98-165 | past the row's deadline no verdict is applied: no such handle, one Contested entry for the queued challenger, the row set to expired, nothing asserted |
| `SubmitAdjudication.InTimeAnswer` | mempill-core/src/application/submit_adjudication.rs:167-282 | otherwise the challenger is reported with the verdict's disposition, the row is resolved, and entries, assertion and flags are appended; an Affirm closes the incumbent at the challenger's start only if that is to be trusted |
| `SubmitAdjudication.NothingToAnswer` | mempill-core/src/application/submit_adjudication.rs:90-195 | a handle without a row, or whose challenger is not queued, is refused and nothing changes |
| `SubmitAdjudication.ClaimIsMissing` | mempill-core/src/application/submit_adjudication.rs:192-198 | a verdict on a challenger whose claim is not stored is refused and nothing changes |
| `SubmitAdjudication.ReportedIsRead` | mempill-core/src/application/submit_adjudication.rs:246-275 | the disposition reported is what the challenger then reads, if and only if the clock reading was not before its latest entry |
| `SubmitAdjudication.SubmitAdjudicationUseCase.ApplyVerdictWithinTxn` | mempill-core/src/application/submit_adjudication.rs:284-410 | the entries and Bound of each verdict |
| `SubmitAdjudication.SubmitAdjudicationUseCase.BoundClaimWithinTxn` | mempill-core/src/application/submit_adjudication.rs:418-500 | Bound, Superseded entry and the cascade |
| `SubmitAdjudication.Cascade` | mempill-core/src/application/submit_adjudication.rs:466-498 | one PendingReview entry for each direct dependent, none twice and no others |
| `SubmitAdjudication.PlanFor` | mempill-core/src/application/submit_adjudication.rs:84-180 | a plan to write names a stored row of the handle whose challenger is queued |
| `SweepAdjudications.SweepAdjudicationsUseCase.RevertExpiredRow` | mempill-core/src/application/sweep_adjudications.rs:69-136 | appends one Contested entry and sets the row to expired exactly when the challenger's latest loaded entry is a Queued one; only a failing store prevents it or leaves the row unmarked |
| `SweepAdjudications.OnlyRowIsFirst` | mempill-core/src/application/sweep_adjudications.rs:69-136 | with one row for each challenger the rows a sweep marks are the due ones of queued challengers |
| `SweepAdjudications.SecondRowIsNotFirst` | mempill-core/src/application/sweep_adjudications.rs:77-92 | with two rows of one challenger the second is due but not marked |
| `SweepAdjudications.LeadsExactly` | mempill-sqlite/src/store.rs:1441-1460 | the first listed row of a challenger is the due one with the earliest deadline, by table order on a tie |
| `SweepAdjudications.SweepAdjudicationsUseCase.RevertOrphan` | mempill-core/src/application/sweep_adjudications.rs:142-205 | the same for an orphan, which has no row to mark, with an incumbent or without |
| `SweepAdjudications.ReadingsAfterRevert` | mempill-core/src/application/sweep_adjudications.rs:69-205 | after any number of reversions at a later time the reverted claims read Contested and all others as before |
| `EngineHandle.EngineHandle.SweepExpiredAdjudications` | mempill-core/src/engine_handle.rs:546-634 | over the whole store, all agents' claims and rows: without another writer and at a later clock reading no stranded claim is left, the old ledger is a prefix, the count is the number of stranded claims, nothing else changes its reading, and a repetition returns 0; the first due row of each queued challenger is set to expired and no other row changes |
| `EngineHandle.SweepComplete` | mempill-core/src/engine_handle.rs:546-634 | working off both lists reverts each stranded claim once and no other |
| `EngineHandle.QueuedOrphanIsListed` | mempill-sqlite/src/store.rs:1492-1550 | every queued claim without a pending row is on the orphan list |
| `EngineHandle.OrphanWithoutIncumbentIsListed` | mempill-sqlite/src/store.rs:1529-1660 | also when its line has no claim that reads CommittedCheap, and a sweep is there to revert it |
| `Store.FindCommittedCheap` | mempill-sqlite/src/store.rs:1624-1660 | an orphan's incumbent is the most recent claim of its line that reads CommittedCheap, and there is none only when no claim of the line does |
| `Store.QueuedInLog` | mempill-core/src/application/sweep_adjudications.rs:207-221 | the state guard on the loaded slice reads the log as it stands |
| `Store.ClaimInserted` | mempill-sqlite/src/schema/v1_initial.sql:8-43 | a claim is stored unless its reference is taken |
| `Store.EntryInserted` | mempill-sqlite/src/schema/v1_initial.sql:69-80 | a ledger entry is appended exactly when the schema allows it |
| `Store.AssertionInserted` | mempill-sqlite/src/schema/v1_initial.sql:51-65 | so is an assertion |
| `Store.EdgeInserted` | mempill-sqlite/src/schema/v1_initial.sql:85-100 | and an edge, whose two claims and kind are a key |
| `Store.RowInserted` | mempill-sqlite/src/schema/v2_pending_adjudications.sql:1-2 | and a pending row, whose handle is a key |
| `Store.StatusUpdated` | mempill-sqlite/src/schema/v2_pending_adjudications.sql:1-15 | setting a status is always allowed and keeps the schema |
| `Reconcile.ReconcileSpares` | mempill-core/src/engine/truth_engine.rs:232-262 | a pass writes to no claim that is bound, quarantined, superseded, invalidated or rejected, and only what the gate decides |
| `Refinement.InterleavedIsSerial` | mempill-core/src/engine_handle.rs:250-271 | however tasks interleave, wait and crash, the tables are those of their steps taken one after the other |
| `Refinement.DeniedUnderConcurrency` | mempill-core/src/application/ingest_claim.rs:464-554 | so under concurrency a claim is denied exactly when its last Deny was not followed by an effective Reopen |
| `Refinement.AgreementUnderConcurrency` | mempill-core/src/application/submit_adjudication.rs:284-410 | and a claim's two logs agree as long as every step fits |
| `Refinement.SubmitIsWorker` | mempill-core/src/application/submit_adjudication.rs:84-280 | for a row of a queued challenger, a submission does what a worker of `Lifecycle` commits and marks |
| `Refinement.SubmitIsSteps` | mempill-core/src/application/submit_adjudication.rs:84-280 | and what the verdict's step and the mark of `Denial` do |
| `Refinement.SweepIsWorker` | mempill-core/src/application/sweep_adjudications.rs:69-136 | the same of a row a sweep reverts |
| `Refinement.OrphanIsWorker` | mempill-core/src/application/sweep_adjudications.rs:142-205 | and of an orphan |
| `Refinement.IngestIsSteps` | mempill-core/src/application/ingest_claim.rs:228-334 | an ingest's two writes are the ingest's step and the enqueueing of its row |
| `Refinement.IngestIsTask` | mempill-core/src/application/ingest_claim.rs:228-334 | and what an ingest of `Lifecycle` commits and finishes with |
| `LifecycleRuns.LeavesOncePerQueuing` | mempill-core/src/application/sweep_adjudications.rs:69-205 | under every interleaving of ingests, sweepers, submitters, host calls, reconcile passes and crashes, with stale lists, a claim leaves the queue at most once per Queued entry, once fewer while it is queued; and its Queued entries are that of its ingest and those of reconcile |
| `LifecycleRuns.EachLeavesAtMostOnce` | mempill-core/src/application/sweep_adjudications.rs:69-205 | so a claim that reconcile has not queued again leaves at most once, and reads as queued no more once it has left |
| `LifecycleRuns.CanLeaveExactly` | mempill-core/src/application/reconcile.rs:200-223 | from every state, a committed claim can be taken out of the queue, again or for the first time, without being queued anew if and only if it is queued; after an earlier exit that takes a Queued entry of reconcile |
| `LifecycleRuns.StaysOut` | mempill-core/src/application/sweep_adjudications.rs:69-205 | a claim that is out of the queue stays out and is not taken out again, until reconcile queues it |
| `LifecycleRuns.RowsMatchTheQueue` | mempill-core/src/application/ingest_claim.rs:233-334 | at every crash point: rows name committed, once-queued challengers, one row each; a queued claim that reconcile has not queued again is no marked row's challenger, and has a pending row or none |
| `LifecycleRuns.UnclaimedOrphanHasNoPendingRow` | mempill-sqlite/src/store.rs:1492-1550 | an orphan listed while no ingest of it was running has no pending row when it is reverted, whatever ran in between |
| `LifecycleRuns.RowCanAppearExactly` | mempill-core/src/application/ingest_claim.rs:233-334 | a committed claim can come to have a row if and only if it has one or its ingest is between commit and insert |
| `LifecycleRuns.RaceReverts` | mempill-core/src/application/sweep_adjudications.rs:142-163 | from every state in which a claim is listed as an orphan and its ingest is about to insert, the continuation that reverts the claim while its row is pending |
| `LifecycleRuns.ExitTakesEffectExactly` | mempill-core/src/application/sweep_adjudications.rs:69-136 | an exit takes its claim out of the queue if and only if the clock reading is not before the claim's latest entry |
| `LifecycleRuns.CanBeMarkedExactly` | mempill-core/src/application/sweep_adjudications.rs:69-136 | a pending row can still be marked, without its challenger being queued anew, if and only if the challenger is queued or a worker is about to mark the row |
| `LifecycleRuns.VerdictCanBeDelivered` | mempill-core/src/application/submit_adjudication.rs:84-280 | from every state, a queued claim with a row can be taken out and its row be marked |
| `Lifecycle.ListedExactly` | mempill-core/src/engine_handle.rs:554-601 | a sweep's lists hold the due pending rows, and the queued claims without a pending row |
| `Lifecycle.OverdueInTime` | mempill-core/src/engine_handle.rs:546-600 | for an overdue row whose challenger reconcile has not queued again, the clock condition follows from queued_at <= expires_at <= now |
| `Lifecycle.StepKeepsInv` | mempill-core/src/engine_handle.rs:478-634 | the invariant behind these results is kept by every step |
| `LifecycleWitnesses.RequeuedLeavesTwice` | mempill-core/src/application/reconcile.rs:200-223 | a run from the empty store, on time, on which reconcile queues a reverted claim and it leaves the queue twice |
| `LifecycleWitnesses.RequeuedHasMarkedRow` | mempill-core/src/engine/gate.rs:174-185 | on it a queued claim has a marked row and no pending one |
| `LifecycleWitnesses.StaleClocksLeaveTwice` | mempill-core/src/application/submit_adjudication.rs:84-280 | a run with stale clocks on which a claim with one Queued entry is taken out twice and is still queued |
| `LifecycleWitnesses.RaceFromStart` | mempill-core/src/application/sweep_adjudications.rs:142-163 | a run from the empty store on which an orphan sweep reverts a claim whose row is pending |
| `LifecycleWitnesses.CrashLeavesRowPending` | mempill-core/src/application/sweep_adjudications.rs:69-136 | a run with a crash after which a row can no longer be marked |
| `LifecycleWitnesses.RequeueFreesRow` | mempill-core/src/application/reconcile.rs:200-223 | after reconcile has queued its challenger that row can be marked |
| `ChunkedLedger.LoadLedgerForClaims` | mempill-sqlite/src/store.rs:1043-1094 | the loop returns the answers to the blocks of 900, one after the other |
| `ChunkedLedger.StatementSelectsWanted` | mempill-sqlite/src/store.rs:1050-1087 | placeholder numbers name the parameters that are bound, all of them, at most 902, and select exactly the wanted entries |
| `ChunkedLedger.ChunkingIsInvisible` | mempill-sqlite/src/store.rs:1043-1094 | a claim in one block at most keeps the subsequence of the single unbounded query, so latest map and denied set are the same |
| `ChunkedLedger.DistinctRefsHeldOnce` | mempill-sqlite/src/store.rs:1050-1050 | distinct references stand in one block at most |
| `ChunkedLedger.OneBlockIsSorted` | mempill-sqlite/src/store.rs:1043-1094 | the result for up to 900 claims is in time order |
| `ChunkedLedger.WholeResultIsNotSorted` | mempill-sqlite/src/store.rs:1043-1094 | the result for more is out of time order as soon as a claim behind the first 900 has an older entry |
| `Lineage.Traverse` | mempill-sqlite/src/store.rs:1193-1210 | the queue ends on every edge set, cyclic ones included, with one row per walk of length 1 to 64, shortest first |
| `Lineage.LoadLineage` | mempill-sqlite/src/store.rs:1178-1263 | the rows by depth, then creation time, and their edges |
| `Lineage.AllWalksAreAll` | mempill-sqlite/src/store.rs:1193-1210 | the walks found are all DerivedFrom walks up to the bound, each once |
| `Lineage.LineageIsWalks` | mempill-sqlite/src/store.rs:1211-1216 | the result corresponds one-to-one to the walks of length 1 to 64 and comes by depth, at one depth by creation time |
| `Lineage.ReturnedLeaves` | mempill-sqlite/src/store.rs:1193-1210 | every edge returned is a DerivedFrom edge from the start or from where another returned edge leads |
| `Lineage.CompleteExactly` | mempill-sqlite/src/store.rs:1172-1177 | the bound loses no ancestor edge if and only if each is within 64 steps |
| `Lineage.AcyclicExactly` | mempill-core/src/application/ingest_claim.rs:384-397 | stores built by ingest have no cycle if and only if no claim is its own parent |
| `Lineage.ShortChainsAreComplete` | mempill-core/src/application/ingest_claim.rs:384-397 | on them, chains no longer than 64, and the first 65 claims, have their complete lineage returned |
| `StreamSeq.NumbersAreGapless` | mempill-postgres/src/store.rs:559-607 | over every interleaving of transactions, commits and rollbacks, and every hash, each agent's committed entries carry exactly 1 to n in append order |
| `StreamSeq.StepKeepsInv` | mempill-postgres/src/txn.rs:55-92 | the invariant behind it |
| `StreamSeq.WithoutLockNumbersRepeat` | mempill-postgres/src/store.rs:559-567 | when nobody waits for the lock, a run of two overlapping transactions of one agent commits two entries numbered 1 |
| `StreamSeq.PostgresTxn.Begin` | mempill-postgres/src/txn.rs:55-66 | BEGIN, then the advisory lock |
| `StreamSeq.PostgresTxn.SelectNextSeq` | mempill-postgres/src/store.rs:582-587 | one more than the largest number of the agent's visible rows |
| `StreamSeq.PostgresTxn.AppendLedgerEntry` | mempill-postgres/src/store.rs:568-607 | one append, as a step of the transition system |
| `StreamSeq.PostgresTxn.CommitAndDrop` | mempill-postgres/src/txn.rs:79-84 | commits and releases the lock, or is rolled back |
| `Rfc3339Text.TextOrderIsTimeOrder` | mempill-postgres/src/store.rs:655-660 | for four-digit years and fractions of 0, 3, 6 or 9 digits the texts compare as the instants do |
| `Rfc3339Text.TextFields` | mempill-sqlite/src/store.rs:523-526 | the text of a four-digit year is YYYY-MM-DDTHH:MM:SS with the moment's fields, a fraction and +00:00 |
| `Rfc3339Text.FractionIsShortest` | mempill-sqlite/src/store.rs:523-526 | the fraction has 0, 3, 6 or 9 digits worth the nanoseconds, as few as lose nothing |
| `Rfc3339Text.OtherYears` | mempill-sqlite/src/store.rs:523-526 | any other year has its sign and at least four digits |
| `Rfc3339Text.FractionsInOrder` | mempill-sqlite/src/store.rs:1444-1451 | fractions of different lengths compare like their values; section 5.1 of RFC 3339 asks for equal lengths |
| `Rfc3339Text.CutoffExactly` | mempill-sqlite/src/store.rs:735-750 | a cutoff on texts is the cutoff on instants if and only if the year has no more than four digits |
| `Calendar.InstantsOrderMoments` | mempill-types/src/time.rs:110-160 | instants order moments as their fields do, over leap years and all years |
| `Calendar.ValidExactly` | mempill-types/src/time.rs:122-128 | a date is valid if and only if its month and day exist, months being as long as the closed form `(153 * k + 2) / 5` for the days since March says |
| `Calendar.InstantIsCivil` | mempill-types/src/time.rs:110-160 | an instant is the number of nanoseconds since 1970 that the count by eras of 400 years from March gives |
| `ValidDates.PrintThenParse` | mempill-types/src/time.rs:110-196 | printing at a precision and parsing back gives the start of the period and that precision; an instant comes back as its day |
| `ValidDates.StartIsLatest` | mempill-types/src/time.rs:87-95 | that start is the latest start of a period not after the moment |
| `ValidDates.ParseThenPrint` | mempill-types/src/time.rs:110-196 | every text accepted as a date is printed back unchanged |
| `ValidDates.AcceptedExactly` | mempill-types/src/time.rs:110-160 | a text is accepted if and only if it is an instant, which is returned as it is at instant precision, or the printed form of a date |
| `ValidDates.DateTextsExactly` | mempill-types/src/time.rs:121-157 | what is returned for every text that is no instant, character by character: YYYY, YYYY-MM and YYYY-MM-DD of existing months and days, and nothing else |
| `ValidDates.TextOrderIsPeriodOrder` | mempill-types/src/time.rs:178-196 | within one precision text order is time order, for years 0000 to 9999 |
| `ValidDates.ParsedInOrder` | mempill-types/src/time.rs:110-160 | the same of two accepted texts of one precision |
| `WriteLocks.WritersExclude` | mempill-core/src/engine_handle.rs:250-271 | no two tasks write for one agent, at most one writes at all under the store lock, and no task holds two agents' mutexes |
| `WriteLocks.NoDeadlock` | mempill-core/src/engine_handle.rs:255-262 | while a task is unfinished some task can take a step |
| `WriteLocks.RunsEnd` | mempill-core/src/engine_handle.rs:566-627 | every run is finite, and all tasks are finished exactly when it cannot go on |
| `WriteLocks.MutexesAreForever` | mempill-core/src/concurrency/agent_lock.rs:45-69 | an agent keeps the mutex it was first given |
| `WriteLocks.AgentWriteLockMap.GetOrInsert` | mempill-core/src/concurrency/agent_lock.rs:53-64 | the re-check under the write lock: no mutex is replaced, and no two agents share one |

## Left out

- Extraction, firewall rules, the fold's ranking, gate scoring and the reconciler's choices: their outcomes are arguments, restricted to what they can emit.
- `query_history`, `query_memory` and `resolve_live_claim_for_line`: read paths over the same readings.
- Confidence, currency decay and every other float.
- SQL texts beyond what the tables need, PRAGMAs, pools, retries, migrations, row decoding, enum and UUID strings, JSON.
- The Python, MCP and TypeScript bindings, the facade, display enrichment and error mapping.
- Cancelling a write's future from outside: a dropped future releases its guards while the blocking closure runs on.
- `LifecycleRuns.LeavesOncePerQueuing`: of orphans, verdicts and claims that reconcile has queued it asks for a clock reading not before the claim's latest entry, since without that an exit has no effect and can be repeated (`LifecycleRuns.ExitTakesEffectExactly`).
- `Lifecycle.StepKeepsInv`: an ingest that queues nothing, a host call and each entry of a reconcile pass are single critical sections.
- `SweepAdjudications.SweepAdjudicationsUseCase.RevertOrphan`: the rationale, in which the incumbent is named or called unknown, is not part of an `Entry`.
- `Agreement.RunAgreesExactly`: asks for clock readings later than what is recorded for the claims written to.
- `Denial.DeniedMeansDenied`: asks for clock readings later than what is recorded for the claims written to, and for verdicts that are safe in the sense of `Denial.VerdictSafeExactly`.
- `StreamSeq.NumbersAreGapless`: entries are of their transaction's agent, as every use case writes them.
- `ChunkedLedger.ChunkingIsInvisible`: compares instants; that the stores compare their texts is `Rfc3339Text`.
- `ValidDates.ParseThenPrint`: whitespace, signs and other leniency of the underlying parser; the instant parser is an argument that accepts nothing as short as a date.
- `Rfc3339Text.TextOrderIsTimeOrder`: leap seconds, and collations other than byte order.
- `Lineage.AcyclicExactly`: that no ingest names its own new reference follows from the reference being minted after the request is made.
