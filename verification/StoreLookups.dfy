/** Lookups by source condition: what each operation adds to their answers and takes from them, and nothing else. */
module StoreLookups {
  import opened Prelude
  import opened OrderedDict
  import opened MemoryModel
  import opened Ledgers
  import opened OutboxSpec
  import opened StoreSpec
  import opened StoreRuns
  import opened StoreAtomicity
  import opened StoreEffects

  // ---- every selector is filed under a known record ----

  ghost predicate Filed(records: Dict<Uuid, MemoryRecord>, selectors: map<SelectorId, Selector>) {
    forall k :: k in selectors ==>
      && k.recordId in records.at
      && k == SelectorId(selectors[k].recordId, selectors[k].selectorType, selectors[k].selectorValue)
  }

  ghost predicate SelectorsFiled(s: Store) {
    s.records.Valid() && Filed(s.records, s.selectors)
  }

  /** Indexing adds one active selector for each condition not yet indexed, and keeps what was there. */
  lemma {:induction false} IndexingAdds(selectors: map<SelectorId, Selector>, r: MemoryRecord, repository: string,
                                        conditions: seq<(string, string)>, k: SelectorId)
    ensures var after := AddSelectors(selectors, r, repository, conditions);
            && (k in after <==>
                  k in selectors || (k.recordId == r.recordId && (k.selectorType, k.selectorValue) in conditions))
            && (k in selectors ==> after[k] == selectors[k])
            && (k in after && k !in selectors ==>
                  after[k] == Selector(r.recordId, repository, k.selectorType, k.selectorValue, true, None))
  {
    if conditions != [] {
      var n := |conditions| - 1;
      IndexingAdds(selectors, r, repository, conditions[..n], k);
      assert conditions == conditions[..n] + [conditions[n]];
    }
  }

  lemma IndexingKeepsFiled(records: Dict<Uuid, MemoryRecord>, selectors: map<SelectorId, Selector>, r: MemoryRecord)
    requires Filed(records, selectors) && r.recordId in records.at
    ensures Filed(records, IndexSelectors(selectors, r))
  {
    if r.conditions.Some? {
      var c := r.conditions.value;
      forall k | k in IndexSelectors(selectors, r)
        ensures k.recordId in records.at
        ensures var sel := IndexSelectors(selectors, r)[k];
                k == SelectorId(sel.recordId, sel.selectorType, sel.selectorValue)
      {
        IndexingAdds(selectors, r, c.repository, c.conditions, k);
      }
    }
  }

  lemma FinishKeepsFiled(s: Store, events: seq<StatusEvent>, outboxEvents: seq<OutboxEvent>)
    requires SelectorsFiled(s)
    ensures SelectorsFiled(Finish(s, events, outboxEvents).store)
  {
    FinishLedger(s, events, outboxEvents);
    ApplyAllKeepsRecords(LedgerOf(s), events);
  }

  lemma NotedWriteIsFiled(s: Store, record: Option<MemoryRecord>, receipt: WriteReceipt)
    requires SelectorsFiled(s)
    ensures SelectorsFiled(NoteWrite(Inserted(s, record), record, receipt))
  {
    if record.Some? {
      var r := record.value;
      PutKeepsValid(s.records, r.recordId, r);
      IndexingKeepsFiled(s.records.Put(r.recordId, r), s.selectors, r);
    }
  }

  lemma RolledBackWriteIsFiled(s: Store, r: MemoryRecord)
    requires SelectorsFiled(s) && r.recordId !in s.records.at
    ensures SelectorsFiled(Rollback(InsertRecord(s, r), r))
  {
    DeleteUndoesFreshPut(s.records, r.recordId, r);
  }

  lemma WriteKeepsFiled(s: Store, record: Option<MemoryRecord>, receipt: WriteReceipt, outboxEvents: seq<OutboxEvent>,
                        events: seq<StatusEvent>, expected: Option<Precondition>)
    requires SelectorsFiled(s) && (record.Some? ==> record.value.recordId !in s.records.at)
    ensures SelectorsFiled(CommitWrite(s, record, receipt, outboxEvents, events, expected).store)
  {
    var r, inserted := CommitWrite(s, record, receipt, outboxEvents, events, expected), Inserted(s, record);
    if !Guarded(s, record, expected) {
      assert r.store == s;
    } else if CheckAll(inserted.records, events).Raised? {
      if record.Some? {
        RolledBackWriteIsFiled(s, record.value);
      }
      assert r.store == if record.Some? then Rollback(inserted, record.value) else s;
    } else {
      NotedWriteIsFiled(s, record, receipt);
      FinishKeepsFiled(NoteWrite(inserted, record, receipt), events, outboxEvents);
      CheckAllMeansEach(inserted.records, events);
      assert r == Finish(NoteWrite(inserted, record, receipt), events, outboxEvents);
    }
  }

  lemma TransitionAllKeepsFiled(s: Store, noted: Store, events: seq<StatusEvent>, outboxEvents: seq<OutboxEvent>)
    requires SelectorsFiled(s) && noted.records == s.records && noted.selectors == s.selectors
    ensures SelectorsFiled(TransitionAll(s, noted, events, outboxEvents).store)
  {
    FinishKeepsFiled(noted, events, outboxEvents);
  }

  lemma InvalidationKeepsFiled(s: Store, op: Op)
    requires SelectorsFiled(s) && op.Invalidate?
    ensures SelectorsFiled(Do(s, op).store)
  {
    TransitionAllKeepsFiled(s, NoteInvalidation(s, op.invalidation, op.receipts), op.events, op.outboxEvents);
  }

  lemma CompletionKeepsFiled(s: Store, recordId: Uuid, receiptId: Uuid, at: Time, actor: string)
    requires SelectorsFiled(s)
    ensures SelectorsFiled(CompleteDeletion(s, recordId, receiptId, at, actor).store)
  {
    CompletionLedger(s, recordId, receiptId, at, actor);
    assert CompleteDeletion(s, recordId, receiptId, at, actor).store.selectors == s.selectors;
    if recordId in s.records.at {
      ApplyEffect(LedgerOf(s), CompletionEvent(s.records.at[recordId], recordId, receiptId, at, actor));
    }
  }

  lemma {:induction false} CompletionsKeepFiled(s: Store, completions: seq<(Uuid, Uuid)>, at: Time, actor: string)
    requires SelectorsFiled(s)
    ensures SelectorsFiled(CompleteAll(s, completions, at, actor).store)
  {
    if completions != [] {
      var n := |completions| - 1;
      CompletionsKeepFiled(s, completions[..n], at, actor);
      CompletionKeepsFiled(CompleteAll(s, completions[..n], at, actor).store, completions[n].0, completions[n].1, at,
                           actor);
    }
  }

  lemma ReleaseKeepsFiled(s: Store, receipt: ReleaseReceipt, plan: ReleasePlan)
    requires SelectorsFiled(s)
    ensures SelectorsFiled(CommitRelease(s, receipt, plan).store)
  {
    CompletionsKeepFiled(BeginRelease(s, receipt, plan), plan.completions, receipt.createdAt, ReleaseActor(receipt));
    ReleaseIsAllOrNothing(s, receipt, plan);
  }

  lemma DeletionKeepsFiled(s: Store, receipt: DeletionReceipt, tombstone: MemoryRecord, outboxEvents: seq<OutboxEvent>,
                           event: StatusEvent)
    requires SelectorsFiled(s)
    ensures SelectorsFiled(CommitDeletion(s, receipt, tombstone, outboxEvents, event).store)
  {
    DeletionParts(s, receipt, tombstone, outboxEvents, event);
    PutKeepsValid(s.records, tombstone.recordId, tombstone);
  }

  lemma TransitionKeepsFiled(s: Store, event: StatusEvent)
    requires SelectorsFiled(s)
    ensures SelectorsFiled(TransitionState(s, event).store)
  {
    LedgerReplaced(s, Apply(LedgerOf(s), event).ledger, s.outbox);
    ApplyEffect(LedgerOf(s), event);
  }

  lemma LinkingKeepsFiled(s: Store, receipt: ConflictReceipt)
    requires SelectorsFiled(s)
    ensures SelectorsFiled(CommitConflictLinks(s, receipt).store)
  {
    ConflictLinksParts(s, receipt);
    ConflictLinksKeepStates(s.records, receipt.links);
  }

  lemma StepKeepsFiled(s: Store, op: Op)
    requires SelectorsFiled(s) && Admissible(s, op)
    ensures SelectorsFiled(Do(s, op).store)
  {
    match op
    case Write(record, receipt, outboxEvents, events, expected) =>
      WriteKeepsFiled(s, record, receipt, outboxEvents, events, expected);
    case Transition(event) => TransitionKeepsFiled(s, event);
    case Lifecycle(receipt, events, outboxEvents) =>
      TransitionAllKeepsFiled(s, s.(lifecycleReceipts := s.lifecycleReceipts[receipt.receiptId := receipt]), events,
                              outboxEvents);
    case Archive(receipt, events, outboxEvents) =>
      TransitionAllKeepsFiled(s, s.(archiveReceipts := s.archiveReceipts[receipt.receiptId := receipt]), events,
                              outboxEvents);
    case Invalidate(_, _, _, _, _) => InvalidationKeepsFiled(s, op);
    case ConflictLinks(receipt) => LinkingKeepsFiled(s, receipt);
    case Deletion(receipt, tombstone, outboxEvents, event) =>
      DeletionKeepsFiled(s, receipt, tombstone, outboxEvents, event);
    case Completion(recordId, receiptId, at, actor) => CompletionKeepsFiled(s, recordId, receiptId, at, actor);
    case Release(receipt, plan) => ReleaseKeepsFiled(s, receipt, plan);
    case _ => LinkAndOutboxParts(s, op);
  }

  /** Over every run each selector is filed under the record and condition it indexes. */
  lemma {:induction false} SelectorsFiledAlways(s: Store, ops: seq<Op>)
    requires SelectorsFiled(s) && Run(s, ops)
    ensures SelectorsFiled(After(s, ops))
    decreases |ops|
  {
    if ops != [] {
      StepKeepsFiled(s, ops[0]);
      SelectorsFiledAlways(Do(s, ops[0]).store, ops[1..]);
    }
  }

  // ---- what a lookup answers ----

  /** A lookup returns the record: one of its active selectors meets the query, and the tenant's record is ACTIVE. */
  lemma SelectedMeans(s: Store, q: SelectorQuery, id: Uuid)
    requires SelectorsFiled(s)
    ensures id in SelectedRecords(s, q) <==>
              && id in s.records.at && s.records.at[id].tenantId == q.tenantId && s.records.at[id].state == Active
              && var k := SelectorId(id, q.selectorType, q.selectorValue);
                 k in s.selectors && s.selectors[k].active
                 && (q.repository.Some? ==> s.selectors[k].repository == q.repository.value)
  {
    var key := SelectorId(id, q.selectorType, q.selectorValue);
    if id in SelectedRecords(s, q) {
      var k :| k in s.selectors && Selects(s.records, s.selectors[k], q) && s.selectors[k].recordId == id;
      assert k == key;
    }
    if key in s.selectors {
      assert s.selectors[key].recordId == id;
    }
  }

  /** Main result: a record just written, and left ACTIVE, is found by a lookup exactly when the lookup asks its tenant,
      its repository or any, and one of its conditions. */
  lemma WrittenRecordIsFoundIff(ops: seq<Op>, op: Op, q: SelectorQuery)
    requires Run(EmptyStore(), ops) && Admissible(After(EmptyStore(), ops), op)
    requires op.Write? && op.record.Some? && Do(After(EmptyStore(), ops), op).outcome.Ok?
    ensures op.record.value.recordId in Do(After(EmptyStore(), ops), op).store.records.at
    ensures var r, record := Do(After(EmptyStore(), ops), op).store, op.record.value;
            r.records.at[record.recordId].state == Active ==>
              (record.recordId in SelectedRecords(r, q) <==>
                 && record.tenantId == q.tenantId && record.conditions.Some?
                 && (q.repository.Some? ==> q.repository.value == record.conditions.value.repository)
                 && (q.selectorType, q.selectorValue) in record.conditions.value.conditions)
  {
    var s, record := After(EmptyStore(), ops), op.record.value;
    var r, id := Do(s, op).store, record.recordId;
    SelectorsFiledAlways(EmptyStore(), ops);
    StepKeepsFiled(s, op);
    WriteTakesFullEffect(s, record, op.receipt, op.outboxEvents, op.events, op.expected, id);
    assert id in Target(s, Some(record)).at && Target(s, Some(record)).at[id] == record;
    assert Identity(r.records.at[id]) == Identity(record);
    assert r.records.at[id].tenantId == Identity(r.records.at[id]).tenantId;
    assert record.tenantId == Identity(record).tenantId;
    SelectedMeans(r, q, id);
    var key := SelectorId(id, q.selectorType, q.selectorValue);
    assert key !in s.selectors;
    if record.conditions.Some? {
      IndexingAdds(s.selectors, record, record.conditions.value.repository, record.conditions.value.conditions, key);
    }
  }

  lemma WriteSelectors(s: Store, record: Option<MemoryRecord>, receipt: WriteReceipt, outboxEvents: seq<OutboxEvent>,
                       events: seq<StatusEvent>, expected: Option<Precondition>)
    ensures var r := CommitWrite(s, record, receipt, outboxEvents, events, expected).store.selectors;
            r == s.selectors || (record.Some? && r == IndexSelectors(s.selectors, record.value))
  {
    var r, inserted := CommitWrite(s, record, receipt, outboxEvents, events, expected), Inserted(s, record);
    CheckAllMeansEach(inserted.records, events);
    if !Guarded(s, record, expected) {
      assert r.store == s;
    } else if CheckAll(inserted.records, events).Raised? {
      assert r.store == if record.Some? then Rollback(inserted, record.value) else s;
    } else {
      FinishLedger(NoteWrite(inserted, record, receipt), events, outboxEvents);
      assert r == Finish(NoteWrite(inserted, record, receipt), events, outboxEvents);
    }
  }

  /** A write leaves every selector there was as it was: writing a record again never brings withdrawn ones back. */
  lemma WritesKeepSelectors(s: Store, op: Op, k: SelectorId)
    requires op.Write? && k in s.selectors
    ensures k in Do(s, op).store.selectors && Do(s, op).store.selectors[k] == s.selectors[k]
  {
    WriteSelectors(s, op.record, op.receipt, op.outboxEvents, op.events, op.expected);
    if op.record.Some? && op.record.value.conditions.Some? {
      var c := op.record.value.conditions.value;
      IndexingAdds(s.selectors, op.record.value, c.repository, c.conditions, k);
    }
  }

  // ---- source invalidation ----

  lemma InvalidationParts(s: Store, event: InvalidationEvent, receipts: seq<LifecycleReceipt>, events: seq<StatusEvent>,
                          outboxEvents: seq<OutboxEvent>, requirements: seq<Requirement>)
    requires CommitSourceInvalidation(s, event, receipts, events, outboxEvents, requirements).outcome.Ok?
    ensures Targets(events) == Transitioned(receipts)
    ensures var moved := TransitionAll(s, NoteInvalidation(s, event, receipts), events, outboxEvents);
            var r := CommitSourceInvalidation(s, event, receipts, events, outboxEvents, requirements).store;
            moved.outcome.Ok? && r.records == moved.store.records
            && r.selectors == Deactivate(s.selectors, Transitioned(receipts), event.createdAt)
  {
    CheckAllMeansEach(s.records, events);
    FinishLedger(NoteInvalidation(s, event, receipts), events, outboxEvents);
  }

  /** What an accepted invalidation does to the selectors: those of the records it transitioned are inactive, dated by
      the event if they were active before; all others are as they were. */
  lemma InvalidationTouchesOnlyItsRecords(s: Store, op: Op, k: SelectorId)
    requires op.Invalidate? && Do(s, op).outcome.Ok?
    ensures k in s.selectors <==> k in Do(s, op).store.selectors
    ensures k in s.selectors ==>
              var was, now, ids := s.selectors[k], Do(s, op).store.selectors[k], Transitioned(op.receipts);
              && (was.recordId in ids ==> !now.active)
              && (was.recordId in ids && was.active ==> now.deactivatedAt == Some(op.invalidation.createdAt))
              && (was.recordId !in ids || !was.active ==> now == was)
              && now.(active := was.active, deactivatedAt := was.deactivatedAt) == was
  {
    InvalidationParts(s, op.invalidation, op.receipts, op.events, op.outboxEvents, op.requirements);
  }

  lemma {:induction false} OthersReplayToThemselves(start: MemoryState, events: seq<StatusEvent>, id: Uuid)
    requires id !in Targets(events)
    ensures Replay(start, events, id) == start
  {
    if events != [] {
      var n := |events| - 1;
      assert events[n] in events;
      assert forall e :: e in events[..n] ==> e in events;
      OthersReplayToThemselves(start, events[..n], id);
    }
  }

  lemma UntransitionedRecordsStay(s: Store, noted: Store, events: seq<StatusEvent>, outboxEvents: seq<OutboxEvent>,
                                  id: Uuid)
    requires s.records.Valid() && LedgerOf(noted) == LedgerOf(s) && noted.outbox == s.outbox && id !in Targets(events)
    requires TransitionAll(s, noted, events, outboxEvents).outcome.Ok?
    ensures var r := TransitionAll(s, noted, events, outboxEvents).store.records;
            && (id in r.at <==> id in s.records.at)
            && (id in s.records.at ==>
                  r.at[id].state == s.records.at[id].state && r.at[id].tenantId == s.records.at[id].tenantId)
  {
    TransitionAllTakesFullEffect(s, noted, events, outboxEvents, id);
    var r := TransitionAll(s, noted, events, outboxEvents).store.records;
    if id in s.records.at {
      OthersReplayToThemselves(s.records.at[id].state, events, id);
      assert Identity(r.at[id]).tenantId == Identity(s.records.at[id]).tenantId;
    }
  }

  /** Main result: an accepted invalidation takes exactly the records it transitioned from every lookup, and no
      other. */
  lemma InvalidationWithdrawsExactly(s: Store, op: Op, q: SelectorQuery)
    requires SelectorsFiled(s) && op.Invalidate? && Do(s, op).outcome.Ok?
    ensures SelectedRecords(Do(s, op).store, q) == SelectedRecords(s, q) - Transitioned(op.receipts)
  {
    var r, ids := Do(s, op).store, Transitioned(op.receipts);
    InvalidationKeepsFiled(s, op);
    InvalidationParts(s, op.invalidation, op.receipts, op.events, op.outboxEvents, op.requirements);
    forall id: Uuid
      ensures id in SelectedRecords(r, q) <==> id in SelectedRecords(s, q) && id !in ids
    {
      SelectedMeans(s, q, id);
      SelectedMeans(r, q, id);
      InvalidationTouchesOnlyItsRecords(s, op, SelectorId(id, q.selectorType, q.selectorValue));
      if id !in ids {
        UntransitionedRecordsStay(s, NoteInvalidation(s, op.invalidation, op.receipts), op.events, op.outboxEvents, id);
      }
    }
  }

  // ---- deletion ----

  /** Main result: a tombstone takes its record's selectors, and only them: the record leaves every lookup, no other
      does. */
  lemma DeletionWithdrawsExactly(s: Store, op: Op, q: SelectorQuery, k: SelectorId)
    requires SelectorsFiled(s) && op.Deletion? && Do(s, op).outcome.Ok?
    ensures var r := Do(s, op).store;
            && (k in r.selectors <==> k in s.selectors && k.recordId != op.tombstone.recordId)
            && (k in r.selectors ==> r.selectors[k] == s.selectors[k])
            && SelectedRecords(r, q) == SelectedRecords(s, q) - {op.tombstone.recordId}
  {
    var r := Do(s, op).store;
    BuriedParts(s, op.deletion, op.tombstone, op.event, Enqueue(s.outbox, op.outboxEvents));
    PutKeepsValid(s.records, op.tombstone.recordId, op.tombstone);
    DeletionKeepsFiled(s, op.deletion, op.tombstone, op.outboxEvents, op.event);
    forall id: Uuid
      ensures id in SelectedRecords(r, q) <==> id in SelectedRecords(s, q) && id != op.tombstone.recordId
    {
      SelectedMeans(s, q, id);
      SelectedMeans(r, q, id);
    }
  }
}
