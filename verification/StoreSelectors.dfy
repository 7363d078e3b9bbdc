/** Source invalidation: once withdrawn, a record never answers a source lookup again. */
module StoreSelectors {
  import opened Prelude
  import opened OrderedDict
  import opened MemoryModel
  import opened Ledgers
  import opened StoreSpec
  import opened StoreRuns
  import opened StoreAtomicity
  import opened StoreEffects

  /** The record is known and none of its selectors is active. */
  ghost predicate Withdrawn(s: Store, id: Uuid) {
    && s.records.Valid()
    && id in s.records.at
    && Silent(s.selectors, id)
  }

  ghost predicate Silent(selectors: map<SelectorId, Selector>, id: Uuid) {
    forall k :: k in selectors && selectors[k].recordId == id ==> !selectors[k].active
  }

  lemma WithdrawnIsNeverSelected(s: Store, id: Uuid, q: SelectorQuery)
    requires Withdrawn(s, id)
    ensures id !in SelectedRecords(s, q)
  {
  }

  lemma {:induction false} IndexingOthersStaysSilent(selectors: map<SelectorId, Selector>, r: MemoryRecord,
                                                     repository: string, conditions: seq<(string, string)>, id: Uuid)
    requires Silent(selectors, id) && r.recordId != id
    ensures Silent(AddSelectors(selectors, r, repository, conditions), id)
  {
    if conditions != [] {
      IndexingOthersStaysSilent(selectors, r, repository, conditions[..|conditions| - 1], id);
    }
  }

  lemma DeactivatingStaysSilent(selectors: map<SelectorId, Selector>, ids: set<Uuid>, at: Time, id: Uuid)
    requires id in ids || Silent(selectors, id)
    ensures Silent(Deactivate(selectors, ids, at), id)
  {
  }

  lemma ApplyingKeepsRecord(l: Ledger, events: seq<StatusEvent>, id: Uuid)
    requires l.records.Valid() && id in l.records.at
    ensures var r := ApplyAll(l, events).ledger.records; r.Valid() && id in r.at
  {
    ApplyAllKeepsRecords(l, events);
  }

  lemma FinishKeepsWithdrawn(s: Store, events: seq<StatusEvent>, outboxEvents: seq<OutboxEvent>, id: Uuid)
    requires Withdrawn(s, id)
    ensures Withdrawn(Finish(s, events, outboxEvents).store, id)
  {
    FinishLedger(s, events, outboxEvents);
    ApplyingKeepsRecord(LedgerOf(s), events, id);
  }

  lemma TransitionAllKeepsWithdrawn(s: Store, noted: Store, events: seq<StatusEvent>, outboxEvents: seq<OutboxEvent>,
                                    id: Uuid)
    requires Withdrawn(s, id) && noted.records == s.records && noted.selectors == s.selectors
    ensures Withdrawn(TransitionAll(s, noted, events, outboxEvents).store, id)
  {
    FinishKeepsWithdrawn(noted, events, outboxEvents, id);
  }

  lemma InsertKeepsWithdrawn(s: Store, r: MemoryRecord, id: Uuid)
    requires Withdrawn(s, id) && r.recordId !in s.records.at
    ensures Withdrawn(InsertRecord(s, r), id)
    ensures Withdrawn(Rollback(InsertRecord(s, r), r), id)
  {
    PutKeepsValid(s.records, r.recordId, r);
    DeleteUndoesFreshPut(s.records, r.recordId, r);
  }

  lemma IndexingKeepsSilent(selectors: map<SelectorId, Selector>, record: Option<MemoryRecord>, id: Uuid)
    requires Silent(selectors, id) && (record.Some? ==> record.value.recordId != id)
    ensures Silent(if record.Some? then IndexSelectors(selectors, record.value) else selectors, id)
  {
    if record.Some? && record.value.conditions.Some? {
      var c := record.value.conditions.value;
      IndexingOthersStaysSilent(selectors, record.value, c.repository, c.conditions, id);
    }
  }

  lemma NotingKeepsWithdrawn(s: Store, record: Option<MemoryRecord>, receipt: WriteReceipt, id: Uuid)
    requires Withdrawn(s, id) && (record.Some? ==> record.value.recordId != id)
    ensures Withdrawn(NoteWrite(s, record, receipt), id)
  {
    NotingParts(s, record, receipt);
    IndexingKeepsSilent(s.selectors, record, id);
  }

  lemma NotingParts(s: Store, record: Option<MemoryRecord>, receipt: WriteReceipt)
    ensures var r := NoteWrite(s, record, receipt);
            && r.records == s.records
            && r.selectors == if record.Some? then IndexSelectors(s.selectors, record.value) else s.selectors
  {
  }

  lemma AdmissionKeepsWithdrawn(s: Store, record: Option<MemoryRecord>, receipt: WriteReceipt,
                                outboxEvents: seq<OutboxEvent>, events: seq<StatusEvent>, id: Uuid)
    requires Withdrawn(s, id) && (record.Some? ==> record.value.recordId !in s.records.at)
    ensures Withdrawn(AdmitWrite(Inserted(s, record), record, receipt, outboxEvents, events).store, id)
  {
    var inserted := Inserted(s, record);
    if record.Some? {
      InsertKeepsWithdrawn(s, record.value, id);
    }
    if CheckAll(inserted.records, events).Ok? {
      NotingKeepsWithdrawn(inserted, record, receipt, id);
      FinishKeepsWithdrawn(NoteWrite(inserted, record, receipt), events, outboxEvents, id);
    } else {
      CheckAllMeansEach(inserted.records, events);
    }
  }

  lemma WriteKeepsWithdrawn(s: Store, record: Option<MemoryRecord>, receipt: WriteReceipt,
                            outboxEvents: seq<OutboxEvent>, events: seq<StatusEvent>, expected: Option<Precondition>,
                            id: Uuid)
    requires Withdrawn(s, id) && (record.Some? ==> record.value.recordId !in s.records.at)
    ensures Withdrawn(CommitWrite(s, record, receipt, outboxEvents, events, expected).store, id)
  {
    AdmissionKeepsWithdrawn(s, record, receipt, outboxEvents, events, id);
    var admitted := AdmitWrite(Inserted(s, record), record, receipt, outboxEvents, events);
    assert CommitWrite(s, record, receipt, outboxEvents, events, expected).store == s
        || CommitWrite(s, record, receipt, outboxEvents, events, expected) == admitted;
  }

  lemma InvalidationKeepsWithdrawn(s: Store, event: InvalidationEvent, receipts: seq<LifecycleReceipt>,
                                   events: seq<StatusEvent>, outboxEvents: seq<OutboxEvent>,
                                   requirements: seq<Requirement>, id: Uuid)
    requires Withdrawn(s, id)
    ensures Withdrawn(CommitSourceInvalidation(s, event, receipts, events, outboxEvents, requirements).store, id)
  {
    TransitionAllKeepsWithdrawn(s, NoteInvalidation(s, event, receipts), events, outboxEvents, id);
    var moved := TransitionAll(s, NoteInvalidation(s, event, receipts), events, outboxEvents).store;
    DeactivatingStaysSilent(moved.selectors, Transitioned(receipts), event.createdAt, id);
  }

  lemma CompletionKeepsWithdrawn(s: Store, recordId: Uuid, receiptId: Uuid, at: Time, actor: string, id: Uuid)
    requires Withdrawn(s, id)
    ensures Withdrawn(CompleteDeletion(s, recordId, receiptId, at, actor).store, id)
  {
    CompletionLedger(s, recordId, receiptId, at, actor);
    if recordId in s.records.at {
      ApplyEffect(LedgerOf(s), CompletionEvent(s.records.at[recordId], recordId, receiptId, at, actor));
    }
  }

  lemma {:induction false} CompletionsKeepWithdrawn(s: Store, completions: seq<(Uuid, Uuid)>, at: Time, actor: string,
                                                    id: Uuid)
    requires Withdrawn(s, id)
    ensures Withdrawn(CompleteAll(s, completions, at, actor).store, id)
  {
    if completions != [] {
      var n := |completions| - 1;
      CompletionsKeepWithdrawn(s, completions[..n], at, actor, id);
      CompletionKeepsWithdrawn(CompleteAll(s, completions[..n], at, actor).store, completions[n].0, completions[n].1,
                               at, actor, id);
    }
  }

  lemma ReleaseKeepsWithdrawn(s: Store, receipt: ReleaseReceipt, plan: ReleasePlan, id: Uuid)
    requires Withdrawn(s, id)
    ensures Withdrawn(CommitRelease(s, receipt, plan).store, id)
  {
    var begun := BeginRelease(s, receipt, plan);
    CompletionsKeepWithdrawn(begun, plan.completions, receipt.createdAt, ReleaseActor(receipt), id);
    ReleaseIsAllOrNothing(s, receipt, plan);
    var r := CommitRelease(s, receipt, plan).store;
    assert r == s || r == CompleteAll(begun, plan.completions, receipt.createdAt, ReleaseActor(receipt)).store;
  }

  lemma TransitionKeepsWithdrawn(s: Store, event: StatusEvent, id: Uuid)
    requires Withdrawn(s, id)
    ensures Withdrawn(TransitionState(s, event).store, id)
  {
    LedgerReplaced(s, Apply(LedgerOf(s), event).ledger, s.outbox);
    ApplyEffect(LedgerOf(s), event);
  }

  lemma ConflictLinksKeepWithdrawn(s: Store, receipt: ConflictReceipt, id: Uuid)
    requires Withdrawn(s, id)
    ensures Withdrawn(CommitConflictLinks(s, receipt).store, id)
  {
    ConflictLinksParts(s, receipt);
    ConflictLinksKeepStates(s.records, receipt.links);
  }

  lemma DeletionKeepsWithdrawn(s: Store, receipt: DeletionReceipt, tombstone: MemoryRecord,
                               outboxEvents: seq<OutboxEvent>, event: StatusEvent, id: Uuid)
    requires Withdrawn(s, id)
    ensures Withdrawn(CommitDeletion(s, receipt, tombstone, outboxEvents, event).store, id)
  {
    DeletionParts(s, receipt, tombstone, outboxEvents, event);
    PutKeepsValid(s.records, tombstone.recordId, tombstone);
    assert Silent(DropSelectors(s.selectors, tombstone.recordId), id);
  }

  /** No operation, not even moving the record back to ACTIVE, brings a withdrawn record's selectors back. */
  lemma StepKeepsWithdrawn(s: Store, op: Op, id: Uuid)
    requires Withdrawn(s, id) && Admissible(s, op)
    ensures Withdrawn(Do(s, op).store, id)
  {
    match op
    case Write(record, receipt, outboxEvents, events, expected) =>
      WriteKeepsWithdrawn(s, record, receipt, outboxEvents, events, expected, id);
    case Transition(event) => TransitionKeepsWithdrawn(s, event, id);
    case Lifecycle(receipt, events, outboxEvents) =>
      TransitionAllKeepsWithdrawn(s, s.(lifecycleReceipts := s.lifecycleReceipts[receipt.receiptId := receipt]), events,
                                  outboxEvents, id);
    case Archive(receipt, events, outboxEvents) =>
      TransitionAllKeepsWithdrawn(s, s.(archiveReceipts := s.archiveReceipts[receipt.receiptId := receipt]), events,
                                  outboxEvents, id);
    case Invalidate(event, receipts, events, outboxEvents, requirements) =>
      InvalidationKeepsWithdrawn(s, event, receipts, events, outboxEvents, requirements, id);
    case ConflictLinks(receipt) => ConflictLinksKeepWithdrawn(s, receipt, id);
    case Deletion(receipt, tombstone, outboxEvents, event) =>
      DeletionKeepsWithdrawn(s, receipt, tombstone, outboxEvents, event, id);
    case Completion(recordId, receiptId, at, actor) => CompletionKeepsWithdrawn(s, recordId, receiptId, at, actor, id);
    case Release(receipt, plan) => ReleaseKeepsWithdrawn(s, receipt, plan, id);
    case _ => LinkAndOutboxParts(s, op);
  }

  lemma {:induction false} WithdrawnForever(s: Store, ops: seq<Op>, id: Uuid)
    requires Withdrawn(s, id) && Run(s, ops)
    ensures Withdrawn(After(s, ops), id)
    decreases |ops|
  {
    if ops != [] {
      StepKeepsWithdrawn(s, ops[0], id);
      WithdrawnForever(Do(s, ops[0]).store, ops[1..], id);
    }
  }

  /** An accepted invalidation withdraws every record it transitioned. */
  lemma InvalidationWithdraws(s: Store, event: InvalidationEvent, receipts: seq<LifecycleReceipt>,
                              events: seq<StatusEvent>, outboxEvents: seq<OutboxEvent>, requirements: seq<Requirement>,
                              id: Uuid)
    requires s.records.Valid() && id in Transitioned(receipts)
    requires CommitSourceInvalidation(s, event, receipts, events, outboxEvents, requirements).outcome.Ok?
    ensures Withdrawn(CommitSourceInvalidation(s, event, receipts, events, outboxEvents, requirements).store, id)
  {
    var noted := NoteInvalidation(s, event, receipts);
    CheckAllMeansEach(s.records, events);
    assert id in Targets(events);
    var e :| e in events && e.recordId == id;
    var j :| 0 <= j < |events| && events[j] == e;
    assert Check(s.records, events[j]).Ok?;
    FinishLedger(noted, events, outboxEvents);
    ApplyingKeepsRecord(LedgerOf(noted), events, id);
    DeactivatingStaysSilent(Finish(noted, events, outboxEvents).store.selectors, Transitioned(receipts),
                            event.createdAt, id);
  }

  /** Main result: after an accepted invalidation no lookup in any later state returns a record it transitioned. */
  lemma InvalidationIsPermanent(s: Store, op: Op, later: seq<Op>, id: Uuid, q: SelectorQuery)
    requires s.records.Valid() && op.Invalidate? && id in Transitioned(op.receipts)
    requires Do(s, op).outcome.Ok? && Run(Do(s, op).store, later)
    ensures id in After(Do(s, op).store, later).records.at
    ensures id !in SelectedRecords(After(Do(s, op).store, later), q)
  {
    InvalidationWithdraws(s, op.invalidation, op.receipts, op.events, op.outboxEvents, op.requirements, id);
    WithdrawnForever(Do(s, op).store, later, id);
    WithdrawnIsNeverSelected(After(Do(s, op).store, later), id, q);
  }
}
