# Verified model of the stateful memory kernel

This project models, in Dafny 4.11, the six components of the memory package that keep invariants over arbitrary runs,
and proves those invariants. Nothing here executes the original program; `dafny verify dfyconfig.toml` checks every proof.

- **Canonical record store.** `MemoryModel`, `Ledger`, `StoreSpec` and `StoreRuns` give the store as a value with one function per
  operation, raising being a result. `InMemoryRecordStore` is the object with its dictionaries and logs; each method
  changes them in place and is proved equal to its store step. `StoreAtomicity`, `StoreReplay`, `StoreGuards`,
  `StoreSnapshots`, `StoreSelectors`, `StoreLookups`, `StoreAudit`, `StoreLinks`, `StoreRelease`, `StoreSearch`,
  `StoreConflicts`, `Outbox`, `OutboxSchedule`, `OutboxRuns` and `StoreOutbox` hold the theorems about one step and about
  runs of all operations in any order.
- **Active-memory session.** `Session` is a transition system with a program counter at every await; store outcomes,
  lapses and `drain()` are events that may come at any point. `Lifecycle` is the transition table, `ActiveAgentSession`
  the object whose methods are the stretches of code between awaits. `SessionOutages` says what lost renewals and drains
  lead to. `SessionOverStore` puts the session in front of an
  actual store and a clock; `SessionOnMemory` does so for the reference store, `SessionOnRedis` for Redis.
- **Active store, reference and Redis.** `ReferenceSpec` and `RedisSpec` are the two stores as values, the second made of
  single Redis commands over keys with deadlines. `InMemoryActiveStore` and `RedisActiveStore` are the objects.
  `ActiveSimulation` relates the two, `ReferenceLaws` says what callers can rely on, `RedisInterleaving` lets the commands
  of many clients interleave, `Renewal` and `Paging` hold the theorems on heartbeats and on listing.
- **Circuit breaker, rate limiter, projection merge.** `CircuitBreaker`, `RateLimiter` and `Projection` each pair a
  specification with the imperative form proved against it (the last in `ProjectionSearch`); `ProjectionCitations` says
  where a returned hit comes from.

`Prelude`, `OrderedDict` and `Sorting` supply optional values, dictionaries that remember insertion order, and a stable sort.

## Reading the hypotheses

Clock readings are parameters: microseconds for UTC instants, reals for monotonic clocks. A fresh identifier is a
parameter required not to be in the set of identifiers used so far. Where a promise of the source fails for some inputs,
the model keeps the code as it is and the result is an if-and-only-if on a condition a caller could check:

- A commit checks all its events against the state before it and then applies them one by one, so events on one record can
  tear it (`StoreAtomicity.WriteAtomicIff`, `StoreAtomicity.DuplicateTargetsCanTearACommit`). The roll-back of a refused write
  deletes outright, so writing a stored record again under its own key can lose it (`StoreAtomicity.RollbackUndoesIffFresh`,
  `StoreAtomicity.RefusedRewriteLosesTheRecord`).
- The reference adapter states that it matches Redis exactly. It does on traces where leases are registered when issued, last
  whole seconds and no longer than a presence, incarnations are spelled by different tokens, no valid lease writes
  over a lapsed context and nobody unregisters with a foreign lease after the stored one lapsed while something can be
  read. Each of these is shown to be needed: `ActiveSimulation.ExpiryMustMatchRegistration`, `LeaseMustNotOutlastPresence`,
  `TokensMustDiffer`, `PutAgreesIff` and `UnregisterAgreesIff`; `LapsedContextIsReachable` and `LateStrangerIsReachable`
  reach the last two failures from empty stores.
  Answers are compared up to the presence number, which the two stores count differently.
- A page cursor covers a listing exactly under the condition of `Paging.CoversIff`; `Paging.PagingCanLoop` registers three
  incarnations whose listing never ends.
- `close()` reaches CLOSED exactly under the condition of `SessionProtocol.CloseReachesClosedIff`.

## Model

| member | source | states |
|---|---|---|
| `Ledgers.CheckedApplyFailsIffSelfContradictory` | src/l9_graphite_memory/adapters/in_memory_store.py:311-330 | once every event passed its check, applying them in order fails if and only if the events contradict each other: one expects a state an earlier one of the list replaced |
| `Ledgers.ApplyAllSucceedsIffChained` | src/l9_graphite_memory/adapters/in_memory_store.py:322-330 | applying events in order succeeds if and only if each names a known record and, where it states one, the state left by the events before it |
| `Ledgers.ApplyAllReplays` | src/l9_graphite_memory/adapters/in_memory_store.py:322-337 | whatever part was applied, a record is in the state its share of the log replays to |
| `Ledgers.ApplyAllLogs` | src/l9_graphite_memory/adapters/in_memory_store.py:322-330 | a successful apply logs every event in order; a failed one has logged a proper prefix |
| `Ledgers.DistinctTargetsAreSelfConsistent` | src/l9_graphite_memory/adapters/in_memory_store.py:339-358 | events on pairwise different records never contradict each other |
| `Ledgers.TransitionRefusedIff` | src/l9_graphite_memory/adapters/in_memory_store.py:311-330 | one transition is refused exactly for an unknown record or a stated previous state the record is not in; otherwise it is logged and changes nothing of the record but its state and the date of its supersession |
| `Ledgers.ApplyAllDatesSupersession` | src/l9_graphite_memory/adapters/in_memory_store.py:322-330 | after any list of transitions a record is dated by the last event that superseded it |
| `StoreAtomicity.WriteAtomicIff` | src/l9_graphite_memory/adapters/in_memory_store.py:99-149 | a governed write takes effect or leaves the whole store unchanged if and only if its guards refuse it, or its failed check rolls back a record and key that were both new, or its checked events do not contradict each other |
| `StoreAtomicity.RollbackUndoesIffFresh` | src/l9_graphite_memory/adapters/in_memory_store.py:134-140 | deleting the inserted id and key restores the store if and only if both were absent before |
| `StoreAtomicity.RefusedRewriteLosesTheRecord` | src/l9_graphite_memory/adapters/in_memory_store.py:112-140 | from an empty store: a record is written, then written again under its own key with an event on an unknown record; the second call is refused and record and key are gone |
| `StoreAtomicity.LifecycleAtomicIff` | src/l9_graphite_memory/adapters/in_memory_store.py:339-358 | a lifecycle commit is all-or-nothing if and only if its targets or checks refuse it or its events do not contradict each other |
| `StoreAtomicity.ArchiveAtomicIff` | src/l9_graphite_memory/adapters/in_memory_store.py:680-702 | the same for an archive commit, with its extra refusal of an unapplied receipt |
| `StoreAtomicity.InvalidationAtomicIff` | src/l9_graphite_memory/adapters/in_memory_store.py:196-233 | the same for a source invalidation, with its replay guard |
| `StoreAtomicity.EveryOperationIsAtomic` | src/l9_graphite_memory/adapters/in_memory_store.py:99-769 | with distinct target records, and new record and key where the guards let a write through, every operation changes nothing or succeeds; a success logs every event it brings, leaves each record where its event says and queues everything handed over |
| `StoreAtomicity.EventsTakeEffect` | src/l9_graphite_memory/adapters/in_memory_store.py:322-358 | what a successful operation has done with its events and outbox events |
| `StoreAtomicity.ReleaseIsAllOrNothing` | src/l9_graphite_memory/adapters/in_memory_store.py:588-618 | a legacy projection release that fails at any step, part way through the completions included, leaves the whole store as it was although only five of its parts are put back; otherwise every effect has been applied |
| `StoreAtomicity.CompletionsAreRestorable` | src/l9_graphite_memory/adapters/in_memory_store.py:588-618 | however many deletions complete before one fails, they touch nothing but the five remembered parts |
| `StoreAtomicity.WriteTakesFullEffect` | src/l9_graphite_memory/adapters/in_memory_store.py:99-149 | an accepted write holds its record, key, receipt and selectors, logs every event, leaves every record where the events put it and enqueues every outbox event |
| `StoreAtomicity.TransitionAllTakesFullEffect` | src/l9_graphite_memory/adapters/in_memory_store.py:339-358 | an accepted transition commit logs every event and moves every record exactly where the events say |
| `StoreAtomicity.DuplicateTargetsCanTearACommit` | src/l9_graphite_memory/adapters/in_memory_store.py:339-358 | two events on one ACTIVE record can both pass the checks; the commit then raises with the first one applied |
| `StoreReplay.StepKeepsReplay` | src/l9_graphite_memory/adapters/in_memory_store.py:322-337 | every operation keeps the invariant that folding the log over insertion states gives the stored states, every stated previous state being right |
| `StoreReplay.LogReplaysAlways` | src/l9_graphite_memory/adapters/in_memory_store.py:322-337 | the log replays to the records in every state any run reaches |
| `StoreReplay.LogReplaysFromEmpty` | src/l9_graphite_memory/adapters/in_memory_store.py:63-84 | the same from the constructed store |
| `StoreGuards.IndexAgreesAlways` | src/l9_graphite_memory/adapters/in_memory_store.py:112-130 | over every run the idempotency index and the records agree one-to-one |
| `StoreGuards.EveryOperationIsAtomicAlways` | src/l9_graphite_memory/adapters/in_memory_store.py:99-769 | the same after every history from the empty store whose writes bring new record ids, whatever their operation keys |
| `StoreGuards.OneRecordPerOperationKey` | src/l9_graphite_memory/adapters/in_memory_store.py:254-258 | no run gives one operation key two records, and looking a key up finds exactly the record that carries it |
| `StoreGuards.OneGovernedWritePerSnapshot` | src/l9_graphite_memory/adapters/in_memory_store.py:235-249 | of two writes authorized against one snapshot, the second is refused in every state where the record the first added is still ACTIVE |
| `StoreSnapshots.SnapshotRefusesIff` | src/l9_graphite_memory/adapters/in_memory_store.py:235-249 | a write authorized at one store is refused for its snapshot at another if and only if some record is live in that tenant's namespace at one of the two and not, or with another text, validity or recording time, at the other |
| `StoreSnapshots.OtherNamespacesDoNotRefuse` | src/l9_graphite_memory/adapters/in_memory_store.py:235-249 | the guard answers alike at any two stores with the same ACTIVE records of the tenant and namespace: records of other tenants, other namespaces and other states never refuse a write |
| `StoreSnapshots.KeyRefusesIff` | src/l9_graphite_memory/adapters/in_memory_store.py:112-123 | a write that passes its snapshot is refused for its operation key if and only if another record of the same tenant and namespace carries it |
| `StoreGuards.DeletionKeepsAgreement` | src/l9_graphite_memory/services/memory_service.py:1570-1613 | a tombstone that keeps the operation key keeps index and records in agreement |
| `StoreSelectors.InvalidationWithdraws` | src/l9_graphite_memory/adapters/in_memory_store.py:196-233 | an accepted invalidation leaves no active selector on any record it transitioned |
| `StoreSelectors.StepKeepsWithdrawn` | src/l9_graphite_memory/adapters/in_memory_store.py:142-149 | no operation, moving the record back to ACTIVE included, reactivates a withdrawn record's selectors |
| `StoreSelectors.WithdrawnForever` | src/l9_graphite_memory/adapters/in_memory_store.py:142-149 | the same over whole runs |
| `StoreSelectors.InvalidationIsPermanent` | src/l9_graphite_memory/adapters/in_memory_store.py:151-173 | after an accepted invalidation no lookup in any later state returns a record it transitioned |
| `StoreLookups.SelectorsFiledAlways` | src/l9_graphite_memory/adapters/in_memory_store.py:142-149 | over every run each selector is filed under the known record and the condition it indexes |
| `StoreLookups.WrittenRecordIsFoundIff` | src/l9_graphite_memory/adapters/in_memory_store.py:142-173 | after any history, a record just written and left ACTIVE is found by a lookup if and only if the lookup asks its tenant, its repository or any, and one of its conditions |
| `StoreLookups.WritesKeepSelectors` | src/l9_graphite_memory/adapters/in_memory_store.py:142-145 | a write leaves every selector there was as it was, so writing a record again never reactivates withdrawn ones |
| `StoreLookups.InvalidationTouchesOnlyItsRecords` | src/l9_graphite_memory/adapters/in_memory_store.py:229-233 | an accepted invalidation deactivates the selectors of the records it transitioned, dating those that were active by the event, and leaves all others as they were |
| `StoreLookups.InvalidationWithdrawsExactly` | src/l9_graphite_memory/adapters/in_memory_store.py:196-233 | it takes exactly the records it transitioned from every lookup, and no other |
| `StoreLookups.DeletionWithdrawsExactly` | src/l9_graphite_memory/adapters/in_memory_store.py:704-734 | a tombstone removes exactly its record's selectors: the record leaves every lookup, no other does |
| `StoreAudit.TrailOnlyGrows` | src/l9_graphite_memory/adapters/in_memory_store.py:99-769 | over every history the status log, the releases and the rebuilds only grow at their end, no receipt or requirement is taken off record, and an invalidation stands as it was committed |
| `StoreAudit.WriteTrail` | src/l9_graphite_memory/adapters/in_memory_store.py:99-149 | an accepted write logs its events and keeps its receipt, and puts nothing else on record; one refused by a check leaves the trail alone |
| `StoreAudit.InvalidationTrail` | src/l9_graphite_memory/adapters/in_memory_store.py:196-228 | an accepted invalidation was new, and is on record with its receipts, requirements and events |
| `StoreAudit.LastReceiptIsFound` | src/l9_graphite_memory/adapters/in_memory_store.py:221-222 | of receipts with one id the last is found |
| `StoreAudit.LastRequirementIsFound` | src/l9_graphite_memory/adapters/in_memory_store.py:227-228 | of requirements with one id the last is found |
| `StoreAudit.InvalidationCommitsOnce` | src/l9_graphite_memory/adapters/in_memory_store.py:196-217 | an event id of a tenant invalidates once: whatever happens afterwards and whatever it then targets, it is refused without a change |
| `StoreAudit.InvalidationIsReplayIff` | src/l9_graphite_memory/adapters/in_memory_store.py:213-217 | it is refused as a replay if and only if that tenant has committed that event id |
| `StoreAudit.DeletionTrail` | src/l9_graphite_memory/adapters/in_memory_store.py:704-734 | an accepted deletion is one whose receipt, tombstone and event agree, and logs the event and keeps the receipt |
| `StoreAudit.CompletionTrail` | src/l9_graphite_memory/adapters/in_memory_store.py:736-769 | a completed deletion is COMPLETE and dated, and unless the record was DELETED the log says who deleted it, when, from what state and under which receipt |
| `StoreAudit.ReleaseLogs` | src/l9_graphite_memory/adapters/in_memory_store.py:603-609 | every entry an accepted release adds to the log is a deletion it completes, by its own actor, at its own time, under the receipt of that completion |
| `StoreLinks.CompletionRefusedIff` | src/l9_graphite_memory/adapters/in_memory_store.py:744-756 | completing a deletion is refused exactly for an unknown record or receipt, or while some link of that record remains |
| `StoreAudit.LinkingTrail` | src/l9_graphite_memory/adapters/in_memory_store.py:360-375 | conflict links are accepted if and only if both ends of each are known, and are then on record |
| `StoreLinks.GuardedSaveIff` | src/l9_graphite_memory/adapters/in_memory_store.py:479-490 | a guarded save is declined exactly for a record that is not ACTIVE, refused exactly when another link than the one last seen is there, and changes nothing unless it saves |
| `StoreLinks.OneWriterPerSeenLink` | src/l9_graphite_memory/adapters/in_memory_store.py:479-490 | of two writers who saw the same link the later is refused, unless the first put back what both had seen |
| `StoreLinks.ReleasedLinkIsFound` | src/l9_graphite_memory/adapters/in_memory_store.py:599-602 | after the link changes of a release a link it removes is gone, even one it also updates, and one it does not mention is as it was |
| `StoreLinks.ReleasedUpdateIsFound` | src/l9_graphite_memory/adapters/in_memory_store.py:599-602 | of a link it updates and does not remove the last update is found |
| `StoreLinks.PlanIsCurrentIff` | src/l9_graphite_memory/adapters/in_memory_store.py:581-584 | a release plan is current if and only if every link it expects is the one found |
| `StoreRelease.ReleaseSucceedsIff` | src/l9_graphite_memory/adapters/in_memory_store.py:565-618 | a release succeeds if and only if its receipt is applied, its expected links are current, its completions are known and none keeps a link; then every completed record is DELETED, its receipt COMPLETE and linkless, and the links are exactly the planned ones |
| `StoreRelease.CompletionEffect` | src/l9_graphite_memory/adapters/in_memory_store.py:736-769 | completing a deletion deletes the record, completes the receipt and touches no link |
| `StoreSearch.PastAnswersAreStable` | src/l9_graphite_memory/adapters/in_memory_store.py:260-290 | a search with both include flags returns the same ids in the same order after any run of conflict links, moves of old records among ACTIVE, SUPERSEDED and ARCHIVED or among the hidden states, later-recorded writes in whatever state with whatever happens to them afterwards, deletions of hidden records, and projection or outbox work, the ten-times-limit cut included |
| `StoreSearch.SearchReturnsOnce` | src/l9_graphite_memory/adapters/in_memory_store.py:260-290 | after any history of the store a search returns each record at most once |
| `StoreSearch.SearchIsExact` | src/l9_graphite_memory/adapters/in_memory_store.py:260-290 | a search returns only records of the tenant and the given namespaces, in a state, of a confidence and of a class asked for, valid at the instant asked about and recorded by the cutoff, newest first; it leaves such a record out only when it is full and everything returned is at least as new |
| `StoreOutbox.OutboxFollows` | src/l9_graphite_memory/adapters/in_memory_store.py:404-456 | every operation of the store acts on the outbox as one enqueue, claim or leased update of the outbox protocol; an update that states no lease settles without the check |
| `StoreOutbox.WholeStoreOutboxLaws` | src/l9_graphite_memory/adapters/in_memory_store.py:404-463 | over every history of the whole store: one settlement per lease, closed events frozen, backlog conserved |
| `StoreConflicts.LinksJoinBothEnds` | src/l9_graphite_memory/adapters/in_memory_store.py:360-382 | after conflict links are added a record conflicts with another if and only if it did before or a link of the receipt joins the two, in either direction; the old entries keep their order and nothing is entered twice |
| `StoreConflicts.CommittingLinksTwiceIsOnce` | src/l9_graphite_memory/adapters/in_memory_store.py:360-382 | after an accepted commit every link is on record at both its ends, and committing the same receipt again leaves the store as it is |
| `OutboxSpec.ClaimTakesTheOldest` | src/l9_graphite_memory/adapters/in_memory_store.py:404-425 | a claim takes exactly min(limit, claimable) events, none newer than a claimable one left behind |
| `OutboxSpec.CandidatesAreTheClaimable` | src/l9_graphite_memory/adapters/in_memory_store.py:395-402 | the candidates of a claim are the claimable events and nothing else |
| `OutboxSpec.ClaimEffect` | src/l9_graphite_memory/adapters/in_memory_store.py:404-425 | a claim leaves each event alone or leases a claimable one under its own fresh identifier until the stated instant |
| `OutboxSpec.ClaimKeepsDiscipline` | src/l9_graphite_memory/adapters/in_memory_store.py:404-425 | after a claim no two events share a lease, and leases are held only by events in processing |
| `OutboxSpec.UpdateKeepsDiscipline` | src/l9_graphite_memory/adapters/in_memory_store.py:427-456 | the same after settling an event |
| `OutboxSchedule.ClaimableFromDue` | src/l9_graphite_memory/adapters/in_memory_store.py:395-402 | an event can be claimed exactly from the instant its attempt falls due or its lease runs out; a closed one never |
| `OutboxSchedule.ClaimedEventIsHeld` | src/l9_graphite_memory/adapters/in_memory_store.py:404-425 | a claim leaves an event alone, or it was due and is now held by this owner until the stated instant, before which nobody can claim it; nothing else of it changes |
| `OutboxSchedule.SettledEventIsAsReported` | src/l9_graphite_memory/adapters/in_memory_store.py:427-456 | a settlement keeps status, attempts, next attempt, error and delivery time as reported, gives up the lease, and touches nothing else; a retry can be claimed again exactly from its next attempt on |
| `OutboxSchedule.SettlementIsRefusedIff` | src/l9_graphite_memory/adapters/in_memory_store.py:427-444 | an update is refused if and only if the event is unknown or a stated lease is not the one it is held under |
| `OutboxSchedule.NothingIsTakenEarly` | src/l9_graphite_memory/adapters/in_memory_store.py:395-456 | over any run in which no claim comes at or after the instant an event falls due, and its holder does not settle it, the event stays exactly as it is |
| `OutboxSchedule.DueEventIsTaken` | src/l9_graphite_memory/adapters/in_memory_store.py:404-425 | a claim with room for every due event takes each of them |
| `OutboxRuns.StepKeepsGood` | src/l9_graphite_memory/services/outbox_worker.py:110-150 | every worker action keeps the lease discipline |
| `OutboxRuns.OneSettlementPerLease` | src/l9_graphite_memory/adapters/in_memory_store.py:427-456 | over any run each issued lease settles at most one update |
| `OutboxRuns.SpentForever` | src/l9_graphite_memory/adapters/in_memory_store.py:427-456 | a lease that was given up is never held again |
| `OutboxRuns.ReclaimedLeaseIsPowerless` | src/l9_graphite_memory/adapters/in_memory_store.py:404-456 | once an event is reclaimed its former lease is refused on every event, for ever |
| `OutboxRuns.ClosedEventsAreFrozen` | src/l9_graphite_memory/adapters/in_memory_store.py:395-402 | DELIVERED and DEAD are absorbing: a closed event is never changed again |
| `OutboxRuns.BacklogIsConserved` | src/l9_graphite_memory/adapters/in_memory_store.py:458-463 | over any run the backlog is what was enqueued minus what was settled as DELIVERED or DEAD |
| `RecordStores.InMemoryRecordStore.constructor` | src/l9_graphite_memory/adapters/in_memory_store.py:63-84 | the store starts empty |
| `RecordStores.InMemoryRecordStore.CheckTransitions` | src/l9_graphite_memory/adapters/in_memory_store.py:131-140 | the loop reports the first failing check of the list, if any |
| `RecordStores.InMemoryRecordStore.ApplyTransition` | src/l9_graphite_memory/adapters/in_memory_store.py:322-330 | an event moves its record and is logged, or nothing changes |
| `RecordStores.InMemoryRecordStore.ApplyTransitions` | src/l9_graphite_memory/adapters/in_memory_store.py:145-147 | the loop stops at the first failure and keeps what it applied |
| `RecordStores.InMemoryRecordStore.TransitionRecord` | src/l9_graphite_memory/adapters/in_memory_store.py:332-337 | one transition, in place |
| `RecordStores.InMemoryRecordStore.AddSourceSelectors` | src/l9_graphite_memory/contracts/generated_data.py:478-524 | a record's conditions are indexed under its own id; selectors already present stay |
| `RecordStores.InMemoryRecordStore.CommitWriteRecord` | src/l9_graphite_memory/adapters/in_memory_store.py:99-149 | the write in place, guards, insert, roll-back and apply, is the store step the theorems are about |
| `RecordStores.InMemoryRecordStore.FindByKey` | src/l9_graphite_memory/adapters/in_memory_store.py:254-258 | while index and records agree, a lookup by operation key returns the only record that carries it, and nothing if none does |
| `RecordStores.InMemoryRecordStore.CommitLifecycleTransitions` | src/l9_graphite_memory/adapters/in_memory_store.py:339-358 | the lifecycle commit in place is its store step |
| `RecordStores.InMemoryRecordStore.CommitArchiveRecords` | src/l9_graphite_memory/adapters/in_memory_store.py:680-702 | the archive commit in place is its store step |
| `RecordStores.InMemoryRecordStore.CommitInvalidation` | src/l9_graphite_memory/adapters/in_memory_store.py:196-233 | the source invalidation in place is its store step |
| `RecordStores.InMemoryRecordStore.LinkConflicts` | src/l9_graphite_memory/adapters/in_memory_store.py:360-382 | conflict links are added both ways, once each, only when every end is known |
| `RecordStores.InMemoryRecordStore.CommitTombstone` | src/l9_graphite_memory/adapters/in_memory_store.py:704-734 | the tombstone replaces the record, its selectors go, the event is logged |
| `RecordStores.InMemoryRecordStore.FinishDeletion` | src/l9_graphite_memory/adapters/in_memory_store.py:736-769 | completing a deletion in place is its store step |
| `RecordStores.InMemoryRecordStore.SaveProjectionLink` | src/l9_graphite_memory/adapters/in_memory_store.py:465-470 | a link is stored under its record and target |
| `RecordStores.InMemoryRecordStore.SaveProjectionLinkIfActive` | src/l9_graphite_memory/adapters/in_memory_store.py:479-490 | declined unless the record is ACTIVE, refused unless the link is the one last seen |
| `RecordStores.InMemoryRecordStore.DeleteProjectionLink` | src/l9_graphite_memory/adapters/in_memory_store.py:508-510 | a link is removed, the others stay |
| `RecordStores.InMemoryRecordStore.CommitLegacyRelease` | src/l9_graphite_memory/adapters/in_memory_store.py:565-618 | snapshot, change and restore in place is the release step |
| `RecordStores.InMemoryRecordStore.AttemptRelease` | src/l9_graphite_memory/adapters/in_memory_store.py:588-618 | what a failing release touched is restored exactly |
| `RecordStores.InMemoryRecordStore.CommitProjectionRebuild` | src/l9_graphite_memory/adapters/in_memory_store.py:551-563 | a rebuild records its receipt and enqueues its events |
| `RecordStores.InMemoryRecordStore.ClaimEvents` | src/l9_graphite_memory/adapters/in_memory_store.py:404-425 | filter, sort, cut and lease in place is the claim step |
| `RecordStores.InMemoryRecordStore.SettleEvent` | src/l9_graphite_memory/adapters/in_memory_store.py:427-456 | settling in place is the update step: an unknown event and a lost lease are refused |
| `RecordStores.InMemoryRecordStore.OutboxBacklog` | src/l9_graphite_memory/adapters/in_memory_store.py:458-463 | the loop counts exactly the open events |
| `RecordStores.InMemoryRecordStore.Search` | src/l9_graphite_memory/adapters/in_memory_store.py:260-290 | the filtering loop returns the specified answer |
| `RecordStores.InMemoryRecordStore.FindSourceSelectorMatches` | src/l9_graphite_memory/adapters/in_memory_store.py:151-173 | exactly the ACTIVE records of the tenant with an active matching selector, each once, in identifier order |
| `SessionProtocol.SessionIsSafe` | src/l9_graphite_memory/active/client.py:342-495 | over every interleaving of heartbeats, drains, lapses and store outcomes no edge outside the table is attempted, and an ACTIVE session holds a store-confirmed lease naming its current instance |
| `SessionProtocol.StepKeepsGood` | src/l9_graphite_memory/active/client.py:414-495 | every reply, drain or lapse keeps the invariant, which also says that a lease of a past incarnation can no longer be renewed |
| `SessionProtocol.GoodAlways` | src/l9_graphite_memory/active/client.py:414-495 | the invariant holds after every run |
| `SessionProtocol.OneHeartbeatRecovers` | src/l9_graphite_memory/active/client.py:435-495 | from ACTIVE or DEGRADED, a heartbeat that reaches the store always comes back to sleep in ACTIVE, whatever lapses meanwhile |
| `SessionProtocol.HeartbeatsEnd` | src/l9_graphite_memory/active/client.py:435-495 | every reply brings a heartbeat closer to its end, nothing takes it back |
| `SessionProtocol.InstanceChangesOnlyOnLoss` | src/l9_graphite_memory/active/client.py:467-478 | the instance id changes only when the store answers that the lease or the presence is gone, never on an outage or a drain |
| `SessionProtocol.InstanceIsStableWithoutLapses` | src/l9_graphite_memory/active/client.py:414-495 | while the store loses nothing, no number of heartbeats, outages and drains ever changes the instance id |
| `SessionOutages.FailuresAreCounted` | src/l9_graphite_memory/active/client.py:377-454 | over every run the failure count is the number of renewals lost since the store last granted one or confirmed a registration |
| `SessionOutages.ActiveMeansInContact` | src/l9_graphite_memory/active/client.py:435-454 | over every run an ACTIVE session has lost fewer renewals in a row than its threshold |
| `SessionOutages.OutageDegradesIff` | src/l9_graphite_memory/active/client.py:448-454 | through an outage an ACTIVE session stays ACTIVE if and only if the renewals lost in a row are fewer than the threshold, and is DEGRADED from then on |
| `SessionOutages.LongOutageStopsWrites` | src/l9_graphite_memory/active/client.py:448-454 | with drains in between too, losses that reach the threshold leave the session DEGRADED or DRAINING |
| `SessionOutages.DrainedNeverWritesAgain` | src/l9_graphite_memory/active/client.py:582-589 | a drain reaches an ACTIVE or DEGRADED session at once, and every later run leaves it DRAINING under the same instance id |
| `SessionOutages.DrainElsewhereIsInert` | src/l9_graphite_memory/active/client.py:582-589 | a drain at any other moment changes nothing |
| `SessionOutages.FailedHeartbeatStopsWrites` | src/l9_graphite_memory/active/client.py:414-433 | an error in the heartbeat ends it and never leaves a session ACTIVE |
| `SessionProtocol.CloseReachesClosedIff` | src/l9_graphite_memory/active/client.py:603-645 | closing ends CLOSED if and only if the session was not cut off in REGISTERING, RESYNCHRONIZING or RE_REGISTERING; there it stays where it was |
| `SessionProtocol.IdleCloseReachesClosed` | src/l9_graphite_memory/active/client.py:631-645 | with the heartbeat asleep or waiting for a renewal, closing always reaches CLOSED |
| `SessionProtocol.CloseCanMissClosed` | src/l9_graphite_memory/active/client.py:603-629 | a reachable run after which closing leaves the session in RE_REGISTERING |
| `AgentSessions.ActiveAgentSession.BeginStart` | src/l9_graphite_memory/active/client.py:342-351 | the first stretch of start |
| `AgentSessions.ActiveAgentSession.RefuseStart` | src/l9_graphite_memory/active/client.py:352-354 | an unreachable store fails the session |
| `AgentSessions.ActiveAgentSession.AdoptLease` | src/l9_graphite_memory/active/client.py:377-379 | a confirmed lease replaces the old one and clears the failure count |
| `AgentSessions.ActiveAgentSession.FinishStart` | src/l9_graphite_memory/active/client.py:355-356 | the session becomes ACTIVE and the heartbeat sleeps |
| `AgentSessions.ActiveAgentSession.BeginReRegistration` | src/l9_graphite_memory/active/client.py:467-481 | a DEGRADED session passes through RESYNCHRONIZING, then a new instance id is minted |
| `AgentSessions.ActiveAgentSession.OnRenewed` | src/l9_graphite_memory/active/client.py:437-441 | a renewal clears the failures and resynchronizes a DEGRADED session |
| `AgentSessions.ActiveAgentSession.OnLeaseExpired` | src/l9_graphite_memory/active/client.py:442-447 | a lapsed lease registers again unless the session drains |
| `AgentSessions.ActiveAgentSession.OnRenewUnavailable` | src/l9_graphite_memory/active/client.py:448-454 | at the failure threshold an ACTIVE session degrades |
| `AgentSessions.ActiveAgentSession.OnPresence` | src/l9_graphite_memory/active/client.py:456-463 | a listed presence restores ACTIVE, a missing one registers again |
| `AgentSessions.ActiveAgentSession.OnStoreUnavailable` | src/l9_graphite_memory/active/client.py:464-465 | recovery falls back to DEGRADED |
| `AgentSessions.ActiveAgentSession.FinishReRegistration` | src/l9_graphite_memory/active/client.py:494-495 | through RESYNCHRONIZING to ACTIVE |
| `AgentSessions.ActiveAgentSession.BeginDrain` | src/l9_graphite_memory/active/client.py:582-589 | only ACTIVE and DEGRADED sessions start draining |
| `AgentSessions.ActiveAgentSession.WriterLease` | src/l9_graphite_memory/active/client.py:516-527 | in every world a session can reach there is a lease to write with if and only if the session is ACTIVE; it names the current instance and the store confirmed it |
| `AgentSessions.ActiveAgentSession.Finish` | src/l9_graphite_memory/active/client.py:603-645 | closing with swallowed illegal edges ends where the specification says |
| `Lifecycle.SessionLifecycle.TransitionTo` | src/l9_graphite_memory/active/lifecycle.py:94-107 | a target outside the table is refused and changes nothing |
| `Lifecycle.ShutdownIsFinal` | src/l9_graphite_memory/active/lifecycle.py:42-74 | after DRAINING or FAILED the only state that can follow is CLOSED, and nothing follows that |
| `Lifecycle.EnteredOnlyFrom` | src/l9_graphite_memory/active/lifecycle.py:42-74 | the states from which each state is entered |
| `Lifecycle.WritesAgainOnlyAfterResynchronizing` | src/l9_graphite_memory/active/lifecycle.py:42-74 | a session that degraded or registers again becomes ACTIVE only straight from RESYNCHRONIZING |
| `ActiveSimulation.StoresAnswerAlike` | src/l9_graphite_memory/active/inmemory.py:136-292 | on every sequential trace from empty stores whose calls meet the conditions named above, whatever lapsed keys Redis collects and when, both stores give the same answers up to presence numbers |
| `ActiveSimulation.StepAgrees` | src/l9_graphite_memory/active/redis_adapters.py:278-446 | one call that meets them gets the same answer from both stores and leaves them in agreement |
| `ActiveSimulation.CollectingIsInvisible` | src/l9_graphite_memory/active/redis_adapters.py:226-240 | time passing and keys being collected past their deadline never break the agreement |
| `ActiveSimulation.RegisterAgrees` | src/l9_graphite_memory/active/redis_adapters.py:278-315 | both stores answer and store a registration alike |
| `ActiveSimulation.RenewAgrees` | src/l9_graphite_memory/active/redis_adapters.py:317-352 | both stores grant and refuse the same renewals and extend to the same instant |
| `ActiveSimulation.UnregisterAgrees` | src/l9_graphite_memory/active/redis_adapters.py:354-365 | both stores clear, or stay inert, alike |
| `ActiveSimulation.PutAnswersAgree` | src/l9_graphite_memory/active/redis_adapters.py:367-421 | both stores give the same context, the same conflict or the same lease error |
| `ActiveSimulation.PutStatesAgree` | src/l9_graphite_memory/active/redis_adapters.py:367-421 | and hold the same context and version afterwards |
| `ActiveSimulation.PutAgreesIff` | src/l9_graphite_memory/active/inmemory.py:213-252 | a write is answered alike under every collection if and only if a valid lease does not write after its last context lapsed |
| `ActiveSimulation.UnregisterAgreesIff` | src/l9_graphite_memory/active/inmemory.py:196-211 | unregistering leaves the stores in agreement, and every following read answered alike, under every collection if and only if no foreign lease arrives after the stored one lapsed while something can still be read |
| `ActiveSimulation.LapsedContextIsReachable` | src/l9_graphite_memory/active/inmemory.py:213-252 | from empty stores with the default lifetimes: register, write, renew twice, write after the context lapsed; the two stores answer that trace differently |
| `ActiveSimulation.LateStrangerIsReachable` | src/l9_graphite_memory/active/redis_adapters.py:354-365 | from empty stores with the default lifetimes: register one incarnation twice, let the first holder unregister late, read the presence; the two stores answer that trace differently |
| `ActiveSimulation.LeaseMustNotOutlastPresence` | src/l9_graphite_memory/active/inmemory.py:223-227 | for a whole-second lease both stores agree on writes at every delay if and only if the lease is no longer than a presence |
| `ActiveSimulation.ExpiryMustMatchRegistration` | src/l9_graphite_memory/active/redis_adapters.py:222-240 | renewals agree at every delay if and only if the lease's own expiry is the registration instant plus its whole seconds |
| `ActiveSimulation.TokensMustDiffer` | src/l9_graphite_memory/active/redis_adapters.py:210-217 | another incarnation's presence shows through in Redis if and only if the two tokens are equal |
| `ActiveSimulation.TokensCanCollide` | src/l9_graphite_memory/active/models.py:34-34 | different ids containing a colon can spell the same token |
| `ActiveStores.InMemoryActiveStore.Register` | src/l9_graphite_memory/active/inmemory.py:136-153 | registration in place is its step |
| `ActiveStores.InMemoryActiveStore.Renew` | src/l9_graphite_memory/active/inmemory.py:169-194 | renewal in place is its step |
| `ActiveStores.InMemoryActiveStore.Unregister` | src/l9_graphite_memory/active/inmemory.py:196-211 | unregistering in place is its step |
| `ActiveStores.InMemoryActiveStore.PutContext` | src/l9_graphite_memory/active/inmemory.py:213-252 | the versioned write in place is its step |
| `ActiveStores.InMemoryActiveStore.GetContext` | src/l9_graphite_memory/active/inmemory.py:254-272 | one incarnation's live context, or the most recently updated live one of the agent |
| `ActiveStores.InMemoryActiveStore.GetPresence` | src/l9_graphite_memory/active/inmemory.py:274-292 | one incarnation's live presence, or the agent's with the latest heartbeat |
| `ActiveStores.InMemoryActiveStore.CursorStartIndex` | src/l9_graphite_memory/active/inmemory.py:126-134 | the place after the first match spelling the cursor, the start for an unknown one |
| `ActiveStores.InMemoryActiveStore.ListActive` | src/l9_graphite_memory/active/inmemory.py:294-315 | filter, sort and cut in place is the page; a limit below one is refused |
| `RedisStores.RedisServer.EvalCas` | src/l9_graphite_memory/active/redis_adapters.py:188-188 | the Lua script: refuses without a presence key or on a version mismatch, else writes the next version |
| `RedisStores.RedisActiveStore.Register` | src/l9_graphite_memory/active/redis_adapters.py:278-315 | registration command by command |
| `RedisStores.RedisActiveStore.Renew` | src/l9_graphite_memory/active/redis_adapters.py:317-352 | renewal command by command |
| `RedisStores.RedisActiveStore.Unregister` | src/l9_graphite_memory/active/redis_adapters.py:354-365 | unregistering command by command |
| `RedisStores.RedisActiveStore.PutContext` | src/l9_graphite_memory/active/redis_adapters.py:367-421 | the write command by command, script last |
| `RedisInterleaving.VersionsRiseByOne` | src/l9_graphite_memory/active/redis_adapters.py:188-188 | however the commands of any number of clients interleave, while a context key survives the i-th won script writes version v + i + 1 and had asked for v + i if it asked at all |
| `RedisInterleaving.EachExpectedVersionWinsOnce` | src/l9_graphite_memory/active/redis_adapters.py:367-421 | no expected version wins twice in the life of a context key |
| `RedisInterleaving.StepMovesVersion` | src/l9_graphite_memory/active/redis_adapters.py:188-188 | only a won script moves a version, and answers its own caller with the context it wrote |
| `RedisInterleaving.VersionFallsIff` | src/l9_graphite_memory/active/redis_adapters.py:354-365 | a stored version falls if and only if the key is lost |
| `RedisInterleaving.AloneIsServe` | src/l9_graphite_memory/active/redis_adapters.py:278-446 | a client left alone gets, command by command, what the one-step operation gives |
| `RedisInterleaving.CallsEnd` | src/l9_graphite_memory/active/redis_adapters.py:278-446 | every command brings a call closer to its answer |
| `RedisInterleaving.GrantsAreStampedAtTheStart` | src/l9_graphite_memory/active/redis_adapters.py:278-352 | however long the later commands of a registration or renewal take, its presence and lease are dated by the clock it read first |
| `RedisInterleaving.ScriptsRunForHeldLeases` | src/l9_graphite_memory/active/redis_adapters.py:367-374 | no script runs for a lease that Redis did not hold at some moment of the same run |
| `RedisInterleaving.UntakenLeaseIsHeld` | src/l9_graphite_memory/active/redis_adapters.py:367-421 | once its check has passed, a lease is still held when the script runs if it has not expired by then and no command in between wrote another lease over its key, unlinked it, or collected it |
| `RedisInterleaving.LeaseLostIff` | src/l9_graphite_memory/active/redis_adapters.py:278-446 | one event loses a held lease if and only if it is one of these |
| `RedisInterleaving.ReplacedHolderCanStillWin` | src/l9_graphite_memory/active/redis_adapters.py:367-421 | from empty keys: a holder passes its check, another client registers the same incarnation, the first lease is held at no instant any more, and its script still wins |
| `ReferenceLaws.WriteThenRead` | src/l9_graphite_memory/active/inmemory.py:213-263 | a granted write is versioned one up, carries the writer's role and first group, and is read back unchanged exactly until it lapses |
| `ReferenceLaws.RedisWriteThenRead` | src/l9_graphite_memory/active/redis_adapters.py:367-435 | the same of Redis |
| `ReferenceLaws.RenewThenRead` | src/l9_graphite_memory/active/inmemory.py:169-194 | a renewal keeps identity, status and start, moves the heartbeat, extends lease and presence, and is read back until it lapses |
| `ReferenceLaws.RegisterThenRead` | src/l9_graphite_memory/active/inmemory.py:136-167 | a registration is read back until its presence lapses, and exactly its own lease is valid until it expires |
| `ReferenceLaws.UnregisterForgets` | src/l9_graphite_memory/active/inmemory.py:196-211 | the holder's unregister leaves nothing to read, no valid lease, and a version history that starts over |
| `ReferenceLaws.RedisGrantThenRead` | src/l9_graphite_memory/active/redis_adapters.py:278-352 | a grant of Redis is numbered one up, beats now, is read back until the presence lapses and held under its lease for whole seconds; a renewal keeps who, since when and in what status |
| `ReferenceLaws.LeasesLastWholeSeconds` | src/l9_graphite_memory/active/redis_adapters.py:222-224 | a lease lasts its interval in whole seconds, fractions cut off, and never less than one |
| `ReferenceLaws.FormerHolderIsPowerless` | src/l9_graphite_memory/active/inmemory.py:155-167 | once its registration is replaced or ended a lease never renews or writes again, and cannot unregister its successor, whatever other calls are made |
| `ReferenceLaws.PresenceNumbersRise` | src/l9_graphite_memory/active/inmemory.py:136-194 | over any run the presences handed out are numbered consecutively, above every presence still stored |
| `Renewal.RenewalsNeverFailIff` | src/l9_graphite_memory/active/inmemory.py:155-194 | over any run of other calls every renewal is granted if and only if every gap between renewals stays below the lease's and the presence's lifetime |
| `Renewal.RedisRenewalsNeverFailIff` | src/l9_graphite_memory/active/redis_adapters.py:317-352 | the same of Redis on admissible traces |
| `Renewal.HeartbeatServedIff` | src/l9_graphite_memory/active/inmemory.py:169-194 | one renewal is granted exactly within both lifetimes and leaves the lease as renewed |
| `Renewal.OthersLeaveItHeld` | src/l9_graphite_memory/active/inmemory.py:136-252 | no other call, short of registering or unregistering this incarnation, touches its lease or presence |
| `Renewal.RegistrationHolds` | src/l9_graphite_memory/active/inmemory.py:136-153 | a registration at the instant its lease was issued counts as a granted renewal |
| `Renewal.NothingRevives` | src/l9_graphite_memory/active/inmemory.py:136-292 | a lease or presence that lapsed, was replaced or was cleared is revived by no call but a registration of its key |
| `Renewal.NothingRevivesInRedis` | src/l9_graphite_memory/active/redis_adapters.py:278-446 | the same of Redis, for calls whose registrations spell another token |
| `Renewal.CollectingRevivesNothing` | src/l9_graphite_memory/active/redis_adapters.py:226-240 | nor does collecting lapsed keys |
| `Renewal.LapsedForGood` | src/l9_graphite_memory/active/inmemory.py:155-194 | once a renewal would be refused none is granted over any run under a forward clock until the incarnation is registered anew |
| `SessionOverStore.RunIsProtocolRun` | src/l9_graphite_memory/active/client.py:342-495 | every run of a session in front of a store that revives none of its own incarnations is a run of the session protocol, half-served calls included |
| `SessionOverStore.StepIsProtocolSteps` | src/l9_graphite_memory/active/client.py:342-495 | one event at the store is a lapse, the session's own event and another lapse of the protocol |
| `SessionOverStore.SessionIsSafeOverStore` | src/l9_graphite_memory/active/client.py:342-495 | in front of such a store no illegal edge is attempted, and an ACTIVE session holds a lease in the name of its current instance whose registration the store served |
| `SessionOverStore.PromptHeartbeatsKeepInstance` | src/l9_graphite_memory/active/client.py:414-495 | renewals and presence reads that reach the store in time never let the instance id change, whatever outages, drains and other calls come between |
| `SessionOverStore.RegisteredSessionKeepsInstance` | src/l9_graphite_memory/active/client.py:342-495 | the same from the session's first call |
| `SessionOverStore.InstanceChangesIff` | src/l9_graphite_memory/active/client.py:435-478 | the instance id changes if and only if the store refuses a renewal of a session that does not drain, or shows no presence to one that resynchronizes |
| `SessionOnMemory.MemoryIsLawful` | src/l9_graphite_memory/active/inmemory.py:136-292 | the reference store revives none of the given incarnations and admits none but what is registered, as long as nobody else registers one of them |
| `SessionOnMemory.OtherSessionsArePolite` | src/l9_graphite_memory/active/client.py:226-264 | other sessions, of the same agent included, never do: they are given other instance ids |
| `SessionOnMemory.SessionIsSafeOnMemory` | src/l9_graphite_memory/active/inmemory.py:136-292 | session safety in front of the reference store, any number of other sessions of the same agent beside it |
| `SessionOnMemory.InstanceSurvivesOnMemory` | src/l9_graphite_memory/active/inmemory.py:136-194 | once registered with the reference store, a session whose served renewals come within the lease's and the presence's lifetime of the last granted one, and whose presence reads come within the presence's, keeps its instance id over any number of heartbeats |
| `SessionOnMemory.MemoryLasts` | src/l9_graphite_memory/active/inmemory.py:169-194 | what a grant gives the reference store keeps for both lifetimes |
| `SessionOnRedis.RedisIsLawful` | src/l9_graphite_memory/active/redis_adapters.py:278-446 | the same of Redis, whatever it collects and wherever an operation breaks off, as long as nobody else registers an incarnation spelled like one of the given ones |
| `SessionOnRedis.OtherSessionsArePolite` | src/l9_graphite_memory/active/client.py:226-264 | other sessions of the same agent never do, nor those of other agents whose instance ids have the same length |
| `SessionOnRedis.SessionIsSafeOnRedis` | src/l9_graphite_memory/active/redis_adapters.py:278-446 | session safety in front of Redis, any number of other sessions of the same agent beside it |
| `SessionOnRedis.InstanceSurvivesOnRedis` | src/l9_graphite_memory/active/redis_adapters.py:317-352 | the instance id survives in front of Redis while served renewals come within both lifetimes of the last granted one and presence reads within the presence's; within both, if strangers unregister under the session's own token |
| `SessionOnRedis.RedisLasts` | src/l9_graphite_memory/active/redis_adapters.py:226-352 | what a grant gives Redis keeps: the lease until the first of the two lifetimes is over, the presence for its own unless strangers unregister, half-served renewals and collections included |
| `Paging.MatchesAreExact` | src/l9_graphite_memory/active/inmemory.py:294-306 | a listing holds exactly the unexpired presences of the deployment, role and group asked for, each once, by agent and then by instance, texts compared character by character |
| `Paging.CoversIff` | src/l9_graphite_memory/active/inmemory.py:126-134 | following the cursor ends with exactly the listing if and only if no page ends on an item whose token an earlier item spells too |
| `Paging.CoversAtEveryLimitIff` | src/l9_graphite_memory/active/inmemory.py:294-315 | it does so at every page size if and only if the tokens of all items but the last are pairwise distinct |
| `Paging.PagesListTheStore` | src/l9_graphite_memory/active/inmemory.py:294-315 | over an unchanged store whose listed presences have distinct tokens the pages together are exactly the live presences in scope |
| `Paging.CollidingTokensLoop` | src/l9_graphite_memory/active/inmemory.py:126-134 | two items spelled alike make a page size of one circle for ever |
| `Paging.PagingCanLoop` | src/l9_graphite_memory/active/inmemory.py:126-134 | three registrations give a store whose listing no number of one-item pages ever finishes |
| `Paging.ServingKeepsFiled` | src/l9_graphite_memory/active/inmemory.py:136-252 | every call keeps each presence stored once, under its own incarnation |
| `BreakerSpec.ProbeSpacing` | src/l9_graphite_memory/circuit_breaker.py:71-92 | with a monotone clock and no success in between, n admissions while not CLOSED span at least n - 1 recovery timeouts, late failures included |
| `BreakerSpec.NeverWedged` | src/l9_graphite_memory/circuit_breaker.py:71-92 | a call at least one timeout after every failure and every probe is admitted |
| `BreakerSpec.OpenExactlyAtThreshold` | src/l9_graphite_memory/circuit_breaker.py:56-69 | the breaker is not CLOSED if and only if the failures since the last success reach the threshold |
| `BreakerSpec.AdmittedIff` | src/l9_graphite_memory/circuit_breaker.py:71-92 | after any history a call is admitted if and only if the failures since the last success are below the threshold or a timeout has passed since the last failure and since the probe admitted after it |
| `BreakerSpec.OneProbeAtATime` | src/l9_graphite_memory/circuit_breaker.py:84-92 | after an admitted probe the next is admitted if and only if a timeout has passed |
| `BreakerSpec.RunKeepsValid` | src/l9_graphite_memory/circuit_breaker.py:56-92 | the invariant behind these holds over every run |
| `CircuitBreakers.CircuitBreaker.Create` | src/l9_graphite_memory/circuit_breaker.py:36-54 | a threshold below one or a timeout not above zero is refused |
| `CircuitBreakers.CircuitBreaker.RecordSuccess` | src/l9_graphite_memory/circuit_breaker.py:56-61 | a success closes and clears |
| `CircuitBreakers.CircuitBreaker.RecordFailure` | src/l9_graphite_memory/circuit_breaker.py:63-69 | a failure counts, ends a probe and opens at the threshold |
| `CircuitBreakers.CircuitBreaker.CanExecute` | src/l9_graphite_memory/circuit_breaker.py:71-92 | admission and its new state are those of the specification |
| `LimiterSpec.EveryWindowIsBounded` | src/l9_graphite_memory/rate_limiter.py:40-65 | with a monotone clock every 60-unit window of the full history holds at most per_minute calls and every 3600-unit window at most per_hour |
| `LimiterSpec.WindowsAreNaiveFilters` | src/l9_graphite_memory/rate_limiter.py:40-65 | both deques always equal the naive filter of the full history |
| `LimiterSpec.MinuteIsSuffixOfHour` | src/l9_graphite_memory/rate_limiter.py:40-65 | the minute deque is always a suffix of the hour deque |
| `LimiterSpec.AcceptedExactlyWithRoom` | src/l9_graphite_memory/rate_limiter.py:46-65 | a call is accepted if and only if the full history has room in both windows |
| `RateLimiters.RateLimiter.Create` | src/l9_graphite_memory/rate_limiter.py:22-38 | limits below one or out of order are refused |
| `RateLimiters.RateLimiter.PruneWindows` | src/l9_graphite_memory/rate_limiter.py:40-44 | the two popping loops drop exactly the stale front |
| `RateLimiters.RateLimiter.Allow` | src/l9_graphite_memory/rate_limiter.py:46-53 | asking prunes and reports room |
| `RateLimiters.RateLimiter.RecordCall` | src/l9_graphite_memory/rate_limiter.py:55-65 | recording appends to both windows or raises with both pruned |
| `ProjectionSpec.EarlyTruncationLosesNothing` | src/l9_graphite_memory/adapters/graphiti_projection.py:493-540 | the scores search returns equal the first limit scores of the untruncated max-merge of all strategies that answered |
| `ProjectionSpec.ReturnedScoresAreBest` | src/l9_graphite_memory/adapters/graphiti_projection.py:622-644 | every returned hit carries its record's best score over all strategies |
| `ProjectionSpec.FailsOnlyWhenEmptyHanded` | src/l9_graphite_memory/adapters/graphiti_projection.py:622-644 | a search fails if and only if some strategy refused and no strategy found anything, or nothing may be returned at all |
| `ProjectionSpec.MergeIsUnionAtEveryScore` | src/l9_graphite_memory/adapters/graphiti_projection.py:525-540 | at every score the max-merge holds exactly the records some hit reaches that score for |
| `ProjectionSpec.RankOrdersUnscoredHits` | src/l9_graphite_memory/adapters/graphiti_projection.py:542-562 | among unscored results a better rank means a strictly better score |
| `ProjectionSpec.ReportedRelevanceIsTheScore` | src/l9_graphite_memory/adapters/graphiti_projection.py:559-562 | a relevance within the unit interval is kept as reported, one outside is moved to the nearer end, a higher report never scores less, and an unreadable one scores nothing |
| `ProjectionSpec.UnreportedScoreIsTheRank` | src/l9_graphite_memory/adapters/graphiti_projection.py:556-558 | without a report the first result scores 1, the second 1/2, the n-th 1/n |
| `ProjectionCitations.HitsAreExactlyTheCitations` | src/l9_graphite_memory/adapters/graphiti_projection.py:503-540 | the candidates are exactly the cited records, each with score, excerpt, namespace and strategy of the result that cites it |
| `ProjectionCitations.ReturnedHitsAreTheBestCitations` | src/l9_graphite_memory/adapters/graphiti_projection.py:622-644 | a returned hit is what some result says of its record, and no result of any strategy that answered reports a relevance in the unit interval for that record above its score |
| `ProjectionCitations.ReturnsAsManyAsAsked` | src/l9_graphite_memory/adapters/graphiti_projection.py:622-644 | a search returns as many hits as asked for, or one for every record cited if those are fewer, never two for one record, best first |
| `ProjectionCitations.MergeKeepsTheFirstBest` | src/l9_graphite_memory/adapters/graphiti_projection.py:537-540 | a merge keeps of each record the first of its hits to reach its best score, and lists records in the order they were first seen |
| `ProjectionCitations.FailuresAreTheRefusals` | src/l9_graphite_memory/adapters/graphiti_projection.py:632-643 | a failed search reports exactly the refusals, each under the name of its strategy |
| `Sorting.SortIsStable` | src/l9_graphite_memory/adapters/graphiti_projection.py:540-540 | ranking keeps hits of equal score in the order they came |
| `Projections.KeepBest` | src/l9_graphite_memory/adapters/graphiti_projection.py:525-540 | the step of the merge: still one hit a record, and at every score exactly the records either side lifts above it |
| `Projections.SearchStrategy` | src/l9_graphite_memory/adapters/graphiti_projection.py:472-540 | the loops over answers, items and cited records return the cut ranking of the merge |
| `Projections.SearchAll` | src/l9_graphite_memory/adapters/graphiti_projection.py:622-644 | the loop over strategies returns the cut ranking of the merged rankings, or the failures |

## Left out

- ActiveSimulation.StoresAnswerAlike: does not compare presence numbers, nor reads without an instance id, which Redis always answers with nothing and the reference store with the latest incarnation.
- RedisInterleaving.ScriptsRunForHeldLeases: does not say the lease is still held when the script runs, which fails (`RedisInterleaving.ReplacedHolderCanStillWin`); `RedisInterleaving.UntakenLeaseIsHeld` says when it is.
- SessionOnRedis.InstanceSurvivesOnRedis: where strangers unregister under the session's own token, asks presence reads within both lifetimes, because once the lease has lapsed in Redis such a call clears the presence (`ActiveSimulation.LateStrangerIsReachable`).
- ProjectionSpec.EarlyTruncationLosesNothing: stated for limits of zero or more; a negative bound slices from the end, which the methods model.
- OutboxSpec.ClaimTakesTheOldest: stated for limits of zero or more, for the same reason.
- StoreSearch.SearchIsExact: stated for limits of one or more, which is what a search request admits.
- Service capability tokens: every store method that asks for one is modelled as called with it.
- `snapshot_digest` and selector identifiers: a digest is modelled as the set, or the triple, it is taken over, so it is injective by construction.
- The order of a record's selectors: they are indexed in the order of the conditions, not sorted by identifier, which no lookup can observe.
- `reason` and event identifiers of status events, trace identifiers, and the fields a record carries without the store reading them.
- Reading helpers of the store (`list_records`, `list_expired`, `stats`, watermarks, cutovers, retirements, maintenance runs, phase locks by id): plain filters and maps without an invariant.
- StoreOutbox.WholeStoreOutboxLaws: excludes `update_outbox` without a lease, which settles whatever holds the event; workers always pass the lease they were given.
- Thread locks: each store method is one atomic step.
- The awareness bus and `_announce`: lossy by contract, present only as points where a session waits.
- Cancelling a heartbeat inside a stretch of code: cancellation is modelled at awaits only.
- Another session registering under an instance id this session is given: the session theorems exclude it, as identifiers are minted fresh; any other session of the same agent is allowed.
- A lease value written to Redis without an expiry by an older version, and the JSON codecs: keys hold values, not text.
- Redis `list_active` and its sorted-set index, script loading, health probes and connection errors.
- Expected versions beyond what a Lua number holds exactly.
- `simulate_unavailable` of the reference store: a test switch that refuses every call.
- Agent capabilities, principal, session id and metadata of an identity: carried, never read by the stores.
- Provider calls, locators and entity lookup of the projection adapter: a strategy is modelled as the answers it got, or the reason it refused.
- Command line, servers, remote clients, other backends, deployment and release scripts.
