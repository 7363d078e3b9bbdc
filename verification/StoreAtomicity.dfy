/** When a commit is all-or-nothing: exactly, and for every operation of the store. */
module StoreAtomicity {
  import opened Prelude
  import opened OrderedDict
  import opened MemoryModel
  import opened Ledgers
  import opened OutboxSpec
  import opened StoreSpec
  import opened StoreRuns

  ghost predicate AllOrNothing(s: Store, r: Step) {
    r.outcome.Ok? || r.store == s
  }

  /** A write whose guards pass: its snapshot still holds and its operation key is not another record's. */
  predicate Guarded(s: Store, record: Option<MemoryRecord>, expected: Option<Precondition>) {
    && (expected.Some? ==> SnapshotHolds(s, expected.value))
    && (record.Some? ==> !KeyTaken(s, record.value))
  }

  /** The records a write's events are checked against: its own record is already in. */
  function Target(s: Store, record: Option<MemoryRecord>): Dict<Uuid, MemoryRecord> {
    if record.Some? then s.records.Put(record.value.recordId, record.value) else s.records
  }

  predicate FreshRecord(s: Store, record: Option<MemoryRecord>) {
    record.Some? ==> record.value.recordId !in s.records.at && KeyOf(record.value) !in s.idempotency
  }

  /** A commit that fails while applying has applied its first event, so it has changed the log. */
  lemma {:induction false} FailedApplyLeavesATrace(l: Ledger, events: seq<StatusEvent>)
    requires l.records.Valid()
    requires CheckAll(l.records, events).Ok? && ApplyAll(l, events).outcome.Raised?
    ensures |ApplyAll(l, events).ledger.log| > |l.log|
  {
    var n := |events| - 1;
    CheckAllMeansEach(l.records, events);
    ApplyAllLogs(l, events[..n]);
    if ApplyAll(l, events[..n]).outcome.Raised? {
      FailedApplyLeavesATrace(l, events[..n]);
    } else {
      ApplyAllKeepsRecords(l, events[..n]);
      assert Check(l.records, events[n]).Ok?;
    }
  }

  lemma FinishFailsIffContradictory(s: Store, events: seq<StatusEvent>, outboxEvents: seq<OutboxEvent>)
    requires s.records.Valid() && CheckAll(s.records, events).Ok?
    ensures var r := Finish(s, events, outboxEvents);
            && (r.outcome.Ok? <==> SelfConsistent(events))
            && (r.outcome.Ok? || |r.store.statusEvents| > |s.statusEvents|)
  {
    var l := LedgerOf(s);
    CheckedApplyFailsIffSelfContradictory(l, events);
    ApplyAllKeepsRecords(l, events);
    if ApplyAll(l, events).outcome.Raised? {
      FailedApplyLeavesATrace(l, events);
    }
  }

  lemma FinishTakesFullEffect(s: Store, events: seq<StatusEvent>, outboxEvents: seq<OutboxEvent>, id: Uuid)
    requires s.records.Valid() && Finish(s, events, outboxEvents).outcome.Ok?
    ensures var r := Finish(s, events, outboxEvents).store;
            && r == s.(records := r.records, statusEvents := s.statusEvents + events,
                       outbox := Enqueue(s.outbox, outboxEvents))
            && SameRecords(s.records, r.records)
            && (id in s.records.at ==> r.records.at[id].state == Replay(s.records.at[id].state, events, id))
  {
    var l := LedgerOf(s);
    ApplyAllKeepsRecords(l, events);
    ApplyAllLogs(l, events);
    assert events[..|events|] == events && (l.log + events)[|l.log|..] == events;
    if id in s.records.at {
      ApplyAllReplays(l, events, id);
    }
  }

  /** The transition commits: state changes without success exactly when checked events contradict each other. */
  lemma TransitionAllAtomicIff(s: Store, noted: Store, events: seq<StatusEvent>, outboxEvents: seq<OutboxEvent>)
    requires s.records.Valid() && LedgerOf(noted) == LedgerOf(s)
    ensures AllOrNothing(s, TransitionAll(s, noted, events, outboxEvents)) <==>
              CheckAll(s.records, events).Raised? || SelfConsistent(events)
  {
    CheckAllMeansEach(s.records, events);
    if CheckAll(s.records, events).Ok? {
      FinishFailsIffContradictory(noted, events, outboxEvents);
    }
  }

  lemma LifecycleAtomicIff(s: Store, receipt: LifecycleReceipt, events: seq<StatusEvent>,
                           outboxEvents: seq<OutboxEvent>)
    requires s.records.Valid()
    ensures AllOrNothing(s, CommitLifecycle(s, receipt, events, outboxEvents)) <==>
              || Targets(events) != AsSet(receipt.transitions)
              || CheckAll(s.records, events).Raised?
              || SelfConsistent(events)
  {
    TransitionAllAtomicIff(s, s.(lifecycleReceipts := s.lifecycleReceipts[receipt.receiptId := receipt]), events,
                           outboxEvents);
  }

  lemma ArchiveAtomicIff(s: Store, receipt: ArchiveReceipt, events: seq<StatusEvent>, outboxEvents: seq<OutboxEvent>)
    requires s.records.Valid()
    ensures AllOrNothing(s, CommitArchive(s, receipt, events, outboxEvents)) <==>
              || !receipt.applied
              || Targets(events) != AsSet(receipt.archivedRecordIds)
              || CheckAll(s.records, events).Raised?
              || SelfConsistent(events)
  {
    TransitionAllAtomicIff(s, s.(archiveReceipts := s.archiveReceipts[receipt.receiptId := receipt]), events,
                           outboxEvents);
  }

  lemma InvalidationAtomicIff(s: Store, event: InvalidationEvent, receipts: seq<LifecycleReceipt>,
                              events: seq<StatusEvent>, outboxEvents: seq<OutboxEvent>, requirements: seq<Requirement>)
    requires s.records.Valid()
    ensures AllOrNothing(s, CommitSourceInvalidation(s, event, receipts, events, outboxEvents, requirements)) <==>
              || Targets(events) != Transitioned(receipts)
              || (event.tenantId, event.eventId) in s.invalidations
              || CheckAll(s.records, events).Raised?
              || SelfConsistent(events)
  {
    TransitionAllAtomicIff(s, NoteInvalidation(s, event, receipts), events, outboxEvents);
  }

  /** Rolling an insert back restores the store exactly when the record and its operation key were new. */
  lemma RollbackUndoesIffFresh(s: Store, r: MemoryRecord)
    requires s.records.Valid()
    ensures Rollback(InsertRecord(s, r), r) == s <==> r.recordId !in s.records.at && KeyOf(r) !in s.idempotency
  {
    var back := Rollback(InsertRecord(s, r), r);
    assert r.recordId !in back.records.at && KeyOf(r) !in back.idempotency;
    if r.recordId !in s.records.at && KeyOf(r) !in s.idempotency {
      DeleteUndoesFreshPut(s.records, r.recordId, r);
      assert back.idempotency == s.idempotency;
    }
  }

  /** The loss is real: from an empty store a record is written, then written again with an event on a record nobody
      stored. The second call is refused, and the first call's record is gone. */
  lemma RefusedRewriteLosesTheRecord(r: MemoryRecord, receipt: WriteReceipt, unknown: Uuid, actor: string, at: Time)
    requires unknown != r.recordId
    ensures var event := StatusEvent(unknown, None, Archived, actor, at, None);
            var s := CommitWrite(EmptyStore(), Some(r), receipt, [], [], None).store;
            var t := CommitWrite(s, Some(r), receipt, [], [event], None);
            && r.recordId in s.records.at && s.records.at[r.recordId] == r
            && t.outcome.Raised? && r.recordId !in t.store.records.at && KeyOf(r) !in t.store.idempotency
  {
    var s := CommitWrite(EmptyStore(), Some(r), receipt, [], [], None).store;
    var inserted := InsertRecord(s, r);
    CheckAllMeansEach(InsertRecord(EmptyStore(), r).records, []);
    assert s.records.at == map[r.recordId := r] && s.idempotency == map[KeyOf(r) := r.recordId];
    CheckAllMeansEach(inserted.records, [StatusEvent(unknown, None, Archived, actor, at, None)]);
  }

  /** Main result: a write is all-or-nothing unless a refused one rolls back a record that was not new,
      or an accepted one carries events that contradict each other. */
  lemma WriteAtomicIff(s: Store, record: Option<MemoryRecord>, receipt: WriteReceipt, outboxEvents: seq<OutboxEvent>,
                       events: seq<StatusEvent>, expected: Option<Precondition>)
    requires s.records.Valid()
    ensures AllOrNothing(s, CommitWrite(s, record, receipt, outboxEvents, events, expected)) <==>
              || !Guarded(s, record, expected)
              || (CheckAll(Target(s, record), events).Raised? && FreshRecord(s, record))
              || (CheckAll(Target(s, record), events).Ok? && SelfConsistent(events))
  {
    var inserted := Inserted(s, record);
    CheckAllMeansEach(inserted.records, events);
    if Guarded(s, record, expected) {
      if record.Some? {
        RollbackUndoesIffFresh(s, record.value);
        PutKeepsValid(s.records, record.value.recordId, record.value);
      }
      if CheckAll(inserted.records, events).Ok? {
        FinishFailsIffContradictory(NoteWrite(inserted, record, receipt), events, outboxEvents);
      }
    }
  }

  /** The events an operation brings, if it brings any. */
  function EventsOf(op: Op): seq<StatusEvent> {
    match op
    case Write(_, _, _, events, _) => events
    case Transition(event) => [event]
    case Lifecycle(_, events, _) => events
    case Archive(_, events, _) => events
    case Invalidate(_, _, events, _, _) => events
    case Deletion(_, _, _, event) => [event]
    case _ => []
  }

  /** The events an accepted operation hands to the outbox. */
  function Handed(op: Op): seq<OutboxEvent> {
    match op
    case Write(_, _, outboxEvents, _, _) => outboxEvents
    case Lifecycle(_, _, outboxEvents) => outboxEvents
    case Archive(_, _, outboxEvents) => outboxEvents
    case Invalidate(_, _, _, outboxEvents, _) => outboxEvents
    case Deletion(_, _, outboxEvents, _) => outboxEvents
    case Rebuild(_, outboxEvents) => outboxEvents
    case _ => []
  }

  lemma RestoringOverwrites(s: Store, l: Ledger, receipts: map<Uuid, DeletionReceipt>, was: Store)
    ensures Restored(s.(deletionReceipts := receipts), was) == Restored(s, was)
    ensures Restored(WithLedger(s, l).(deletionReceipts := receipts), was) == Restored(s, was)
  {
  }

  /** Completing a deletion touches nothing a release does not remember. */
  lemma CompletionIsRestorable(s: Store, recordId: Uuid, receiptId: Uuid, at: Time, actor: string, was: Store)
    ensures Restored(CompleteDeletion(s, recordId, receiptId, at, actor).store, was) == Restored(s, was)
  {
    var r := CompleteDeletion(s, recordId, receiptId, at, actor);
    if r.outcome.Ok? {
      var record := s.records.at[recordId];
      var event := StatusEvent(recordId, Some(record.state), Deleted, actor, at, Some(receiptId));
      RestoringOverwrites(s, Apply(LedgerOf(s), event).ledger, r.store.deletionReceipts, was);
    } else {
      assert r.store == s;
    }
  }

  lemma {:induction false} CompletionsAreRestorable(s: Store, completions: seq<(Uuid, Uuid)>, at: Time, actor: string,
                                                    was: Store)
    ensures var r := CompleteAll(s, completions, at, actor);
            Restored(r.store, was) == Restored(s, was) && (r.outcome.Ok? || r.outcome.Raised?)
  {
    if completions != [] {
      var n := |completions| - 1;
      CompletionsAreRestorable(s, completions[..n], at, actor, was);
      CompletionIsRestorable(CompleteAll(s, completions[..n], at, actor).store, completions[n].0, completions[n].1, at,
                             actor, was);
    }
  }

  /** Main result: whatever step of a release fails, even a completion part way through, putting back the five
      remembered parts gives back the whole store; otherwise every effect has been applied. */
  lemma ReleaseIsAllOrNothing(s: Store, receipt: ReleaseReceipt, plan: ReleasePlan)
    ensures AllOrNothing(s, CommitRelease(s, receipt, plan))
    ensures var r := CommitRelease(s, receipt, plan);
            || (r.outcome.Raised? && r.store == s)
            || r == Step(CompleteAll(BeginRelease(s, receipt, plan), plan.completions, receipt.createdAt,
                                     ReleaseActor(receipt)).store, Ok)
  {
    CompletionsAreRestorable(BeginRelease(s, receipt, plan), plan.completions, receipt.createdAt, ReleaseActor(receipt),
                             s);
    assert Restored(BeginRelease(s, receipt, plan), s) == s;
  }

  lemma SimpleOperationsAreAtomic(s: Store, op: Op)
    requires s.records.Valid()
    requires !op.Write? && !op.Lifecycle? && !op.Archive? && !op.Invalidate?
    ensures AllOrNothing(s, Do(s, op))
  {
    if op.Release? {
      ReleaseIsAllOrNothing(s, op.release, op.plan);
    }
  }

  /** What an accepted transition commit has done: every event logged, every record where the events leave it. */
  lemma TransitionAllTakesFullEffect(s: Store, noted: Store, events: seq<StatusEvent>, outboxEvents: seq<OutboxEvent>,
                                     id: Uuid)
    requires s.records.Valid() && LedgerOf(noted) == LedgerOf(s) && noted.outbox == s.outbox
    requires TransitionAll(s, noted, events, outboxEvents).outcome.Ok?
    ensures var r := TransitionAll(s, noted, events, outboxEvents).store;
            && r == noted.(records := r.records, statusEvents := s.statusEvents + events,
                           outbox := Enqueue(s.outbox, outboxEvents))
            && SameRecords(s.records, r.records)
            && (id in s.records.at ==> r.records.at[id].state == Replay(s.records.at[id].state, events, id))
  {
    CheckAllMeansEach(s.records, events);
    FinishTakesFullEffect(noted, events, outboxEvents, id);
  }

  /** What an accepted write has done: record, key, receipt, selectors, log, states and outbox, all of it. */
  lemma WriteTakesFullEffect(s: Store, record: MemoryRecord, receipt: WriteReceipt, outboxEvents: seq<OutboxEvent>,
                             events: seq<StatusEvent>, expected: Option<Precondition>, id: Uuid)
    requires s.records.Valid()
    requires CommitWrite(s, Some(record), receipt, outboxEvents, events, expected).outcome.Ok?
    ensures var r := CommitWrite(s, Some(record), receipt, outboxEvents, events, expected).store;
            && r == InsertRecord(s, record).(
                      records := r.records,
                      statusEvents := s.statusEvents + events,
                      receipts := s.receipts[receipt.receiptId := receipt],
                      selectors := IndexSelectors(s.selectors, record),
                      outbox := Enqueue(s.outbox, outboxEvents))
            && SameRecords(Target(s, Some(record)), r.records)
            && (id in Target(s, Some(record)).at ==>
                  r.records.at[id].state == Replay(Target(s, Some(record)).at[id].state, events, id))
  {
    var inserted := InsertRecord(s, record);
    PutKeepsValid(s.records, record.recordId, record);
    CheckAllMeansEach(inserted.records, events);
    FinishTakesFullEffect(NoteWrite(inserted, Some(record), receipt), events, outboxEvents, id);
  }

  predicate BringsEvents(op: Op) {
    op.Write? || op.Transition? || op.Lifecycle? || op.Archive? || op.Invalidate? || op.Deletion?
  }

  /** Every event of the operation is logged, its record is where it says, and everything handed over is queued. */
  ghost predicate TakesEffect(s: Store, op: Op, r: Store) {
    && r.statusEvents == s.statusEvents + EventsOf(op)
    && r.outbox == Enqueue(s.outbox, Handed(op))
    && (forall e :: e in EventsOf(op) ==> e.recordId in r.records.at && r.records.at[e.recordId].state == e.newState)
  }

  lemma {:induction false} ReplayReachesTarget(start: MemoryState, events: seq<StatusEvent>, i: nat)
    requires DistinctTargets(events) && i < |events|
    ensures Replay(start, events, events[i].recordId) == events[i].newState
  {
    var n := |events| - 1;
    if i < n {
      ReplayReachesTarget(start, events[..n], i);
    }
  }

  lemma FinishTakesEvents(s: Store, events: seq<StatusEvent>, outboxEvents: seq<OutboxEvent>)
    requires s.records.Valid() && DistinctTargets(events) && CheckAll(s.records, events).Ok?
    requires Finish(s, events, outboxEvents).outcome.Ok?
    ensures var r := Finish(s, events, outboxEvents).store;
            && r.statusEvents == s.statusEvents + events && r.outbox == Enqueue(s.outbox, outboxEvents)
            && (forall e :: e in events ==> e.recordId in r.records.at && r.records.at[e.recordId].state == e.newState)
  {
    var r := Finish(s, events, outboxEvents).store;
    FinishTakesFullEffect(s, events, outboxEvents, 0);
    CheckAllMeansEach(s.records, events);
    forall e | e in events
      ensures e.recordId in r.records.at && r.records.at[e.recordId].state == e.newState
    {
      var i :| 0 <= i < |events| && events[i] == e;
      assert Check(s.records, events[i]).Ok?;
      FinishTakesFullEffect(s, events, outboxEvents, e.recordId);
      ReplayReachesTarget(s.records.at[e.recordId].state, events, i);
    }
  }

  lemma AcceptedWriteFinishes(s: Store, record: Option<MemoryRecord>, receipt: WriteReceipt,
                              outboxEvents: seq<OutboxEvent>, events: seq<StatusEvent>, expected: Option<Precondition>)
    requires CommitWrite(s, record, receipt, outboxEvents, events, expected).outcome.Ok?
    ensures var noted := NoteWrite(Inserted(s, record), record, receipt);
            && noted.records == Target(s, record) && noted.statusEvents == s.statusEvents && noted.outbox == s.outbox
            && CheckAll(noted.records, events).Ok?
            && CommitWrite(s, record, receipt, outboxEvents, events, expected) == Finish(noted, events, outboxEvents)
  {
    CheckAllMeansEach(Inserted(s, record).records, events);
  }

  lemma WriteTakesEvents(s: Store, op: Op)
    requires s.records.Valid() && op.Write? && DistinctTargets(op.events) && Do(s, op).outcome.Ok?
    ensures TakesEffect(s, op, Do(s, op).store)
  {
    AcceptedWriteFinishes(s, op.record, op.receipt, op.outboxEvents, op.events, op.expected);
    if op.record.Some? {
      PutKeepsValid(s.records, op.record.value.recordId, op.record.value);
    }
    FinishTakesEvents(NoteWrite(Inserted(s, op.record), op.record, op.receipt), op.events, op.outboxEvents);
  }

  lemma DeletionTakesEvent(s: Store, op: Op)
    requires op.Deletion? && Do(s, op).outcome.Ok?
    ensures TakesEffect(s, op, Do(s, op).store)
  {
  }

  lemma TransitionTakesEvent(s: Store, op: Op)
    requires s.records.Valid() && op.Transition? && Do(s, op).outcome.Ok?
    ensures TakesEffect(s, op, Do(s, op).store)
  {
    ApplyEffect(LedgerOf(s), op.event);
  }

  lemma InvalidationTakesEvents(s: Store, op: Op)
    requires s.records.Valid() && op.Invalidate? && DistinctTargets(op.events) && Do(s, op).outcome.Ok?
    ensures TakesEffect(s, op, Do(s, op).store)
  {
    CheckAllMeansEach(s.records, op.events);
    FinishTakesEvents(NoteInvalidation(s, op.invalidation, op.receipts), op.events, op.outboxEvents);
  }

  lemma EventsTakeEffect(s: Store, op: Op)
    requires s.records.Valid() && DistinctTargets(EventsOf(op)) && BringsEvents(op) && Do(s, op).outcome.Ok?
    ensures TakesEffect(s, op, Do(s, op).store)
  {
    CheckAllMeansEach(s.records, EventsOf(op));
    match op
    case Write(_, _, _, _, _) => WriteTakesEvents(s, op);
    case Transition(_) => TransitionTakesEvent(s, op);
    case Lifecycle(receipt, events, outboxEvents) =>
      FinishTakesEvents(s.(lifecycleReceipts := s.lifecycleReceipts[receipt.receiptId := receipt]), events,
                        outboxEvents);
    case Archive(receipt, events, outboxEvents) =>
      FinishTakesEvents(s.(archiveReceipts := s.archiveReceipts[receipt.receiptId := receipt]), events, outboxEvents);
    case Invalidate(_, _, _, _, _) => InvalidationTakesEvents(s, op);
    case Deletion(_, _, _, _) => DeletionTakesEvent(s, op);
  }

  /** Main result: with distinct targets, and new records where the guards let a write through, every operation changes
      nothing or succeeds, and a success takes every event it brings. */
  lemma EveryOperationIsAtomic(s: Store, op: Op)
    requires s.records.Valid()
    requires DistinctTargets(EventsOf(op))
    requires op.Write? && Guarded(s, op.record, op.expected) ==> FreshRecord(s, op.record)
    ensures AllOrNothing(s, Do(s, op))
    ensures Do(s, op).outcome.Ok? && BringsEvents(op) ==> TakesEffect(s, op, Do(s, op).store)
  {
    if Do(s, op).outcome.Ok? && BringsEvents(op) {
      EventsTakeEffect(s, op);
    }
    DistinctTargetsAreSelfConsistent(EventsOf(op));
    match op
    case Write(record, receipt, outboxEvents, events, expected) =>
      WriteAtomicIff(s, record, receipt, outboxEvents, events, expected);
      CheckAllMeansEach(Target(s, record), events);
    case Lifecycle(receipt, events, outboxEvents) => LifecycleAtomicIff(s, receipt, events, outboxEvents);
    case Archive(receipt, events, outboxEvents) => ArchiveAtomicIff(s, receipt, events, outboxEvents);
    case Invalidate(event, receipts, events, outboxEvents, requirements) =>
      InvalidationAtomicIff(s, event, receipts, events, outboxEvents, requirements);
    case _ => SimpleOperationsAreAtomic(s, op);
  }

  /** The contradiction is real: two events on one record pass every check, and the second then fails. */
  lemma DuplicateTargetsCanTearACommit(s: Store, id: Uuid, receipt: LifecycleReceipt)
    requires s.records.Valid() && id in s.records.at && s.records.at[id].state == Active && receipt.transitions == [id]
    ensures var events := [StatusEvent(id, Some(Active), Archived, "a", 0, None),
                           StatusEvent(id, Some(Active), Superseded, "b", 1, None)];
            !AllOrNothing(s, CommitLifecycle(s, receipt, events, []))
  {
    var first := StatusEvent(id, Some(Active), Archived, "a", 0, None);
    var second := StatusEvent(id, Some(Active), Superseded, "b", 1, None);
    var events := [first, second];
    LifecycleAtomicIff(s, receipt, events, []);
    assert Targets(events) == {id} == AsSet(receipt.transitions) by {
      assert first in events;
      assert id in receipt.transitions;
    }
    CheckAllMeansEach(s.records, events);
    assert CheckAll(s.records, events).Ok?;
    assert events[1].previous.Some? && events[..1] == [first];
    assert [first][..0] == [];
    assert Replay(Active, [first], id) == Archived;
    assert !SelfConsistent(events);
  }
}
