/** Writer guards: one record per operation key, and at most one governed write per snapshot. */
module StoreGuards {
  import opened Prelude
  import opened OrderedDict
  import opened MemoryModel
  import opened Ledgers
  import opened StoreSpec
  import opened StoreRuns
  import opened StoreAtomicity
  import opened StoreEffects

  /** Changing records without touching their ids and keys keeps the agreement. */
  lemma SameKeysKeepAgreement(a: Dict<Uuid, MemoryRecord>, b: Dict<Uuid, MemoryRecord>, index: map<OperationKey, Uuid>)
    requires Agrees(a, index) && b.Valid() && b.at.Keys == a.at.Keys
    requires forall id :: id in a.at ==> b.at[id].recordId == a.at[id].recordId && KeyOf(b.at[id]) == KeyOf(a.at[id])
    ensures Agrees(b, index)
  {
  }

  lemma SameRecordsKeepAgreement(a: Dict<Uuid, MemoryRecord>, b: Dict<Uuid, MemoryRecord>,
                                 index: map<OperationKey, Uuid>)
    requires Agrees(a, index) && b.Valid() && SameRecords(a, b)
    ensures Agrees(b, index)
  {
    forall id | id in a.at
      ensures b.at[id].recordId == a.at[id].recordId && KeyOf(b.at[id]) == KeyOf(a.at[id])
    {
      assert Identity(a.at[id]) == Identity(b.at[id]);
      assert KeyOf(Identity(a.at[id])) == KeyOf(a.at[id]) && KeyOf(Identity(b.at[id])) == KeyOf(b.at[id]);
      assert Identity(a.at[id]).recordId == a.at[id].recordId && Identity(b.at[id]).recordId == b.at[id].recordId;
    }
    SameKeysKeepAgreement(a, b, index);
  }

  lemma ApplyAllKeepsAgreement(l: Ledger, events: seq<StatusEvent>, index: map<OperationKey, Uuid>)
    requires Agrees(l.records, index)
    ensures Agrees(ApplyAll(l, events).ledger.records, index)
  {
    ApplyAllKeepsRecords(l, events);
    SameRecordsKeepAgreement(l.records, ApplyAll(l, events).ledger.records, index);
  }

  lemma FinishKeepsAgreement(s: Store, events: seq<StatusEvent>, outboxEvents: seq<OutboxEvent>)
    requires IndexAgrees(s)
    ensures IndexAgrees(Finish(s, events, outboxEvents).store)
  {
    FinishLedger(s, events, outboxEvents);
    ApplyAllKeepsAgreement(LedgerOf(s), events, s.idempotency);
  }

  lemma TransitionAllKeepsAgreement(s: Store, noted: Store, events: seq<StatusEvent>, outboxEvents: seq<OutboxEvent>)
    requires IndexAgrees(s) && noted.records == s.records && noted.idempotency == s.idempotency
    ensures IndexAgrees(TransitionAll(s, noted, events, outboxEvents).store)
  {
    FinishKeepsAgreement(noted, events, outboxEvents);
  }

  lemma InsertKeepsAgreement(s: Store, r: MemoryRecord)
    requires IndexAgrees(s) && r.recordId !in s.records.at && !KeyTaken(s, r)
    ensures IndexAgrees(InsertRecord(s, r))
    ensures Rollback(InsertRecord(s, r), r) == s
  {
    PutKeepsAgreement(s.records, s.idempotency, r);
    RollbackUndoesIffFresh(s, r);
  }

  lemma PutKeepsAgreement(records: Dict<Uuid, MemoryRecord>, index: map<OperationKey, Uuid>, r: MemoryRecord)
    requires Agrees(records, index) && r.recordId !in records.at
    requires KeyOf(r) in index ==> index[KeyOf(r)] == r.recordId
    ensures KeyOf(r) !in index
    ensures Agrees(records.Put(r.recordId, r), index[KeyOf(r) := r.recordId])
  {
    PutKeepsValid(records, r.recordId, r);
  }

  lemma WriteKeepsAgreement(s: Store, record: Option<MemoryRecord>, receipt: WriteReceipt,
                            outboxEvents: seq<OutboxEvent>, events: seq<StatusEvent>, expected: Option<Precondition>)
    requires IndexAgrees(s) && (record.Some? ==> record.value.recordId !in s.records.at)
    ensures IndexAgrees(CommitWrite(s, record, receipt, outboxEvents, events, expected).store)
  {
    var r := CommitWrite(s, record, receipt, outboxEvents, events, expected);
    var inserted := Inserted(s, record);
    if !Guarded(s, record, expected) {
      assert r.store == s;
    } else {
      if record.Some? {
        InsertKeepsAgreement(s, record.value);
      }
      if CheckAll(inserted.records, events).Raised? {
        assert r.store == s;
      } else {
        FinishKeepsAgreement(NoteWrite(inserted, record, receipt), events, outboxEvents);
        assert r == Finish(NoteWrite(inserted, record, receipt), events, outboxEvents);
      }
    }
  }

  lemma CompletionKeepsAgreement(s: Store, recordId: Uuid, receiptId: Uuid, at: Time, actor: string)
    requires IndexAgrees(s)
    ensures IndexAgrees(CompleteDeletion(s, recordId, receiptId, at, actor).store)
  {
    var r := CompleteDeletion(s, recordId, receiptId, at, actor).store;
    CompletionLedger(s, recordId, receiptId, at, actor);
    assert r.idempotency == s.idempotency && r.records == LedgerOf(r).records;
    if recordId in s.records.at {
      ApplyKeepsAgreement(LedgerOf(s), CompletionEvent(s.records.at[recordId], recordId, receiptId, at, actor),
                          s.idempotency);
    }
  }

  lemma TransitionKeepsAgreement(s: Store, event: StatusEvent)
    requires IndexAgrees(s)
    ensures IndexAgrees(TransitionState(s, event).store)
  {
    LedgerReplaced(s, Apply(LedgerOf(s), event).ledger, s.outbox);
    ApplyKeepsAgreement(LedgerOf(s), event, s.idempotency);
  }

  lemma ApplyKeepsAgreement(l: Ledger, e: StatusEvent, index: map<OperationKey, Uuid>)
    requires Agrees(l.records, index)
    ensures Agrees(Apply(l, e).ledger.records, index)
  {
    ApplyEffect(l, e);
    SameRecordsKeepAgreement(l.records, Apply(l, e).ledger.records, index);
  }

  lemma {:induction false} CompletionsKeepAgreement(s: Store, completions: seq<(Uuid, Uuid)>, at: Time, actor: string)
    requires IndexAgrees(s)
    ensures IndexAgrees(CompleteAll(s, completions, at, actor).store)
  {
    if completions != [] {
      var n := |completions| - 1;
      CompletionsKeepAgreement(s, completions[..n], at, actor);
      CompletionKeepsAgreement(CompleteAll(s, completions[..n], at, actor).store, completions[n].0, completions[n].1,
                               at, actor);
    }
  }

  lemma ReleaseKeepsAgreement(s: Store, receipt: ReleaseReceipt, plan: ReleasePlan)
    requires IndexAgrees(s)
    ensures IndexAgrees(CommitRelease(s, receipt, plan).store)
  {
    var begun := BeginRelease(s, receipt, plan);
    CompletionsKeepAgreement(begun, plan.completions, receipt.createdAt, ReleaseActor(receipt));
    ReleaseIsAllOrNothing(s, receipt, plan);
    var r := CommitRelease(s, receipt, plan).store;
    assert r == s || r == CompleteAll(begun, plan.completions, receipt.createdAt, ReleaseActor(receipt)).store;
  }

  lemma DeletionKeepsAgreement(s: Store, receipt: DeletionReceipt, tombstone: MemoryRecord,
                               outboxEvents: seq<OutboxEvent>, event: StatusEvent)
    requires IndexAgrees(s)
    requires tombstone.recordId in s.records.at ==> KeyOf(tombstone) == KeyOf(s.records.at[tombstone.recordId])
    ensures IndexAgrees(CommitDeletion(s, receipt, tombstone, outboxEvents, event).store)
  {
    var r := CommitDeletion(s, receipt, tombstone, outboxEvents, event).store;
    DeletionParts(s, receipt, tombstone, outboxEvents, event);
    if r.records != s.records {
      PutKeepsValid(s.records, tombstone.recordId, tombstone);
      SameKeysKeepAgreement(s.records, s.records.Put(tombstone.recordId, tombstone), s.idempotency);
    }
  }

  lemma ConflictLinksKeepAgreement(s: Store, receipt: ConflictReceipt)
    requires IndexAgrees(s)
    ensures IndexAgrees(CommitConflictLinks(s, receipt).store)
  {
    ConflictLinksParts(s, receipt);
    LinkingKeepsKeys(s.records, receipt.links);
    SameKeysKeepAgreement(s.records, AddConflictLinks(s.records, receipt.links), s.idempotency);
  }

  lemma LinkingKeepsKeys(records: Dict<Uuid, MemoryRecord>, links: seq<(Uuid, Uuid)>)
    requires records.Valid()
    ensures var r := AddConflictLinks(records, links);
            r.Valid() && r.at.Keys == records.at.Keys &&
            forall id :: id in records.at ==>
                           r.at[id].recordId == records.at[id].recordId && KeyOf(r.at[id]) == KeyOf(records.at[id])
  {
    var r := AddConflictLinks(records, links);
    ConflictLinksKeepStates(records, links);
    forall id | id in records.at
      ensures r.at[id].recordId == records.at[id].recordId && KeyOf(r.at[id]) == KeyOf(records.at[id])
    {
      assert KeyOf(r.at[id]) == KeyOf(r.at[id].(conflictsWith := []));
      assert r.at[id].recordId == r.at[id].(conflictsWith := []).recordId;
    }
  }

  lemma CommitKeepsAgreement(s: Store, op: Op)
    requires IndexAgrees(s) && (op.Transition? || op.Lifecycle? || op.Archive? || op.Invalidate?)
    ensures IndexAgrees(Do(s, op).store)
  {
    match op
    case Transition(event) => TransitionKeepsAgreement(s, event);
    case Lifecycle(receipt, events, outboxEvents) =>
      TransitionAllKeepsAgreement(s, s.(lifecycleReceipts := s.lifecycleReceipts[receipt.receiptId := receipt]), events,
                                  outboxEvents);
    case Archive(receipt, events, outboxEvents) =>
      TransitionAllKeepsAgreement(s, s.(archiveReceipts := s.archiveReceipts[receipt.receiptId := receipt]), events,
                                  outboxEvents);
    case Invalidate(event, receipts, events, outboxEvents, _) =>
      TransitionAllKeepsAgreement(s, NoteInvalidation(s, event, receipts), events, outboxEvents);
  }

  lemma StepKeepsAgreement(s: Store, op: Op)
    requires IndexAgrees(s) && Admissible(s, op)
    ensures IndexAgrees(Do(s, op).store)
  {
    match op
    case Write(record, receipt, outboxEvents, events, expected) =>
      WriteKeepsAgreement(s, record, receipt, outboxEvents, events, expected);
    case ConflictLinks(receipt) => ConflictLinksKeepAgreement(s, receipt);
    case Deletion(receipt, tombstone, outboxEvents, event) =>
      DeletionKeepsAgreement(s, receipt, tombstone, outboxEvents, event);
    case Completion(recordId, receiptId, at, actor) => CompletionKeepsAgreement(s, recordId, receiptId, at, actor);
    case Release(receipt, plan) => ReleaseKeepsAgreement(s, receipt, plan);
    case _ => if LeavesRecords(op) { LinkAndOutboxParts(s, op); } else { CommitKeepsAgreement(s, op); }
  }

  lemma {:induction false} IndexAgreesAlways(s: Store, ops: seq<Op>)
    requires IndexAgrees(s) && Run(s, ops)
    ensures IndexAgrees(After(s, ops))
    decreases |ops|
  {
    if ops != [] {
      StepKeepsAgreement(s, ops[0]);
      IndexAgreesAlways(Do(s, ops[0]).store, ops[1..]);
    }
  }

  /** Main result: after any history from an empty store the next operation, writing a new record id and hitting each
      record at most once, changes nothing or succeeds, and a success takes every event it brings. */
  lemma EveryOperationIsAtomicAlways(ops: seq<Op>, op: Op)
    requires Run(EmptyStore(), ops) && Admissible(After(EmptyStore(), ops), op)
    requires DistinctTargets(EventsOf(op))
    ensures var s := After(EmptyStore(), ops); var r := Do(s, op);
            && AllOrNothing(s, r)
            && (r.outcome.Ok? && BringsEvents(op) ==> TakesEffect(s, op, r.store))
  {
    IndexAgreesAlways(EmptyStore(), ops);
    EveryOperationIsAtomic(After(EmptyStore(), ops), op);
  }

  /** Main result: from an empty store no history ever gives one operation key two records,
      and a lookup by key finds exactly the record that carries it. */
  lemma OneRecordPerOperationKey(ops: seq<Op>, a: Uuid, b: Uuid)
    requires Run(EmptyStore(), ops)
    requires var s := After(EmptyStore(), ops); a in s.records.at && b in s.records.at
    ensures var s := After(EmptyStore(), ops);
            && (KeyOf(s.records.at[a]) == KeyOf(s.records.at[b]) ==> a == b)
            && FindByIdempotency(s, KeyOf(s.records.at[a])) == Some(s.records.at[a])
  {
    IndexAgreesAlways(EmptyStore(), ops);
  }

  /** Main result: once a governed write adds an ACTIVE record, every write authorized against the same
      snapshot is refused wherever that record is still ACTIVE in the namespace. */
  lemma OneGovernedWritePerSnapshot(s: Store, winner: MemoryRecord, receipt: WriteReceipt,
                                    outboxEvents: seq<OutboxEvent>, events: seq<StatusEvent>, p: Precondition,
                                    later: Store, loser: Option<MemoryRecord>, receipt': WriteReceipt,
                                    outboxEvents': seq<OutboxEvent>, events': seq<StatusEvent>)
    requires IndexAgrees(s) && winner.recordId !in s.records.at
    requires CommitWrite(s, Some(winner), receipt, outboxEvents, events, Some(p)).outcome.Ok?
    requires winner.recordId in later.records.at
    requires var r := later.records.at[winner.recordId];
             r.recordId == winner.recordId && r.tenantId == p.tenantId && r.ns == p.ns && r.state == Active
    ensures CommitWrite(later, loser, receipt', outboxEvents', events', Some(p))
            == Step(later, Raised(SnapshotConflict))
  {
    var r := later.records.at[winner.recordId];
    assert FingerprintOf(r) in ActiveSnapshot(later.records, p.tenantId, p.ns);
    assert SnapshotHolds(s, p);
    assert forall f :: f in p.expected ==> f.recordId in s.records.at;
  }
}
