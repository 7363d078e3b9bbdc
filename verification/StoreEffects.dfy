/** What each operation does to the parts of the store, stated once for the proofs about whole runs. */
module StoreEffects {
  import opened Prelude
  import opened OrderedDict
  import opened MemoryModel
  import opened Ledgers
  import opened OutboxSpec
  import opened StoreSpec
  import opened StoreRuns
  import opened StoreAtomicity

  /** A write either leaves the ledger alone or applies its events to it with the record inserted. */
  lemma WriteLedger(s: Store, record: Option<MemoryRecord>, receipt: WriteReceipt, outboxEvents: seq<OutboxEvent>,
                    events: seq<StatusEvent>, expected: Option<Precondition>)
    requires s.records.Valid() && (record.Some? ==> record.value.recordId !in s.records.at)
    ensures var r := CommitWrite(s, record, receipt, outboxEvents, events, expected).store;
            || LedgerOf(r) == LedgerOf(s)
            || LedgerOf(r) == ApplyAll(Ledger(Target(s, record), s.statusEvents), events).ledger
  {
    var r := CommitWrite(s, record, receipt, outboxEvents, events, expected);
    var inserted := Inserted(s, record);
    if !Guarded(s, record, expected) {
      assert r.store == s;
    } else if CheckAll(inserted.records, events).Raised? {
      if record.Some? {
        DeleteUndoesFreshPut(s.records, record.value.recordId, record.value);
        assert r.store == Rollback(inserted, record.value);
      }
    } else {
      var noted := NoteWrite(inserted, record, receipt);
      assert r == Finish(noted, events, outboxEvents);
      FinishLedger(noted, events, outboxEvents);
    }
  }

  lemma FinishLedger(s: Store, events: seq<StatusEvent>, outboxEvents: seq<OutboxEvent>)
    ensures var r, l := Finish(s, events, outboxEvents).store, ApplyAll(LedgerOf(s), events).ledger;
            && LedgerOf(r) == l && r.records == l.records
            && r.idempotency == s.idempotency && r.selectors == s.selectors
  {
    var applied := ApplyAll(LedgerOf(s), events);
    LedgerReplaced(s, applied.ledger, Enqueue(s.outbox, outboxEvents));
  }

  lemma LedgerReplaced(s: Store, l: Ledger, outbox: Outbox)
    ensures var r := WithLedger(s, l);
            LedgerOf(r) == l && r.records == l.records && r.idempotency == s.idempotency && r.selectors == s.selectors
            && r.outbox == s.outbox
    ensures var r := WithLedger(s, l).(outbox := outbox);
            LedgerOf(r) == l && r.records == l.records && r.idempotency == s.idempotency && r.selectors == s.selectors
  {
  }

  /** The transition a completion applies to a record that is not deleted yet. */
  function CompletionEvent(record: MemoryRecord, recordId: Uuid, receiptId: Uuid, at: Time,
                           actor: string): StatusEvent {
    StatusEvent(recordId, Some(record.state), Deleted, actor, at, Some(receiptId))
  }

  lemma CompletionLedger(s: Store, recordId: Uuid, receiptId: Uuid, at: Time, actor: string)
    ensures var r := LedgerOf(CompleteDeletion(s, recordId, receiptId, at, actor).store);
            || r == LedgerOf(s)
            || (recordId in s.records.at &&
                r == Apply(LedgerOf(s), CompletionEvent(s.records.at[recordId], recordId, receiptId, at, actor)).ledger)
  {
  }

  lemma {:induction false} SameRecordSet(s: Store, completions: seq<(Uuid, Uuid)>, at: Time, actor: string)
    requires s.records.Valid()
    ensures CompleteAll(s, completions, at, actor).store.records.Valid()
    ensures CompleteAll(s, completions, at, actor).store.records.at.Keys == s.records.at.Keys
  {
    if completions != [] {
      var n := |completions| - 1;
      SameRecordSet(s, completions[..n], at, actor);
      var before := CompleteAll(s, completions[..n], at, actor).store;
      CompletionLedger(before, completions[n].0, completions[n].1, at, actor);
    }
  }

  /** The same records in the same order, up to their conflict links. */
  ghost predicate OnlyLinksDiffer(a: Dict<Uuid, MemoryRecord>, b: Dict<Uuid, MemoryRecord>) {
    && b.Valid() && b.order == a.order && b.at.Keys == a.at.Keys
    && (forall id :: id in b.at ==> id in a.at && b.at[id].(conflictsWith := []) == a.at[id].(conflictsWith := []))
  }

  lemma OneLinkKeepsStates(records: Dict<Uuid, MemoryRecord>, a: Uuid, b: Uuid)
    requires records.Valid()
    ensures OnlyLinksDiffer(records, AddConflictLink(records, a, b))
  {
  }

  lemma {:induction false} ConflictLinksKeepStates(records: Dict<Uuid, MemoryRecord>, links: seq<(Uuid, Uuid)>)
    requires records.Valid()
    ensures OnlyLinksDiffer(records, AddConflictLinks(records, links))
  {
    if links != [] {
      var n := |links| - 1;
      ConflictLinksKeepStates(records, links[..n]);
      var before := AddConflictLinks(records, links[..n]);
      OneLinkKeepsStates(before, links[n].0, links[n].1);
      OneLinkKeepsStates(AddConflictLink(before, links[n].0, links[n].1), links[n].1, links[n].0);
    }
  }

  lemma ConflictLinksParts(s: Store, receipt: ConflictReceipt)
    ensures var r := CommitConflictLinks(s, receipt).store;
            && (r.records == s.records || r.records == AddConflictLinks(s.records, receipt.links))
            && r.statusEvents == s.statusEvents && r.idempotency == s.idempotency && r.selectors == s.selectors
            && r.outbox == s.outbox
  {
    if EndsKnown(s.records, receipt.links) {
      LinkedParts(s, AddConflictLinks(s.records, receipt.links), s.conflictReceipts[receipt.receiptId := receipt]);
    }
  }

  lemma LinkedParts(s: Store, records: Dict<Uuid, MemoryRecord>, receipts: map<Uuid, ConflictReceipt>)
    ensures var r := s.(records := records, conflictReceipts := receipts);
            && r.records == records && r.statusEvents == s.statusEvents && r.idempotency == s.idempotency
            && r.selectors == s.selectors && r.outbox == s.outbox
  {
  }

  lemma BuriedParts(s: Store, receipt: DeletionReceipt, tombstone: MemoryRecord, event: StatusEvent, outbox: Outbox)
    ensures var r := BuryRecord(s, receipt, tombstone, event).(outbox := outbox);
            && r.records == s.records.Put(tombstone.recordId, tombstone) && r.idempotency == s.idempotency
            && r.selectors == DropSelectors(s.selectors, tombstone.recordId)
  {
  }

  lemma DeletionParts(s: Store, receipt: DeletionReceipt, tombstone: MemoryRecord, outboxEvents: seq<OutboxEvent>,
                      event: StatusEvent)
    ensures var r := CommitDeletion(s, receipt, tombstone, outboxEvents, event).store;
            && r.idempotency == s.idempotency
            && (r.selectors == s.selectors || r.selectors == DropSelectors(s.selectors, tombstone.recordId))
            && (r.records == s.records ||
                (tombstone.recordId in s.records.at && r.records == s.records.Put(tombstone.recordId, tombstone)))
  {
    BuriedParts(s, receipt, tombstone, event, Enqueue(s.outbox, outboxEvents));
  }

  /** The operations that touch neither records nor what is derived from them. */
  predicate LeavesRecords(op: Op) {
    op.PutLink? || op.PutLinkIfActive? || op.DropLink? || op.Rebuild? || op.Claims? || op.Updates?
  }

  /** The same records, log, index and selectors. */
  ghost predicate SameCore(s: Store, r: Store) {
    && r.records == s.records && r.statusEvents == s.statusEvents
    && r.idempotency == s.idempotency && r.selectors == s.selectors
  }

  lemma LinkParts(s: Store, links: map<LinkKey, ProjectionLink>)
    ensures SameCore(s, s.(links := links))
  {
  }

  lemma OutboxParts(s: Store, outbox: Outbox, rebuilds: seq<RebuildReceipt>)
    ensures SameCore(s, s.(outbox := outbox))
    ensures SameCore(s, s.(rebuilds := rebuilds, outbox := outbox))
  {
  }

  lemma SavingParts(s: Store, link: ProjectionLink, previous: Option<ProjectionLink>)
    ensures SameCore(s, SaveLink(s, link).store) && SameCore(s, SaveLinkIfActive(s, link, previous).store)
  {
    LinkParts(s, SaveLink(s, link).store.links);
  }

  lemma DroppingParts(s: Store, recordId: Uuid, target: string)
    ensures SameCore(s, DeleteLink(s, recordId, target).store)
  {
    LinkParts(s, DeleteLink(s, recordId, target).store.links);
  }

  lemma RebuildParts(s: Store, receipt: RebuildReceipt, outboxEvents: seq<OutboxEvent>)
    ensures SameCore(s, CommitRebuild(s, receipt, outboxEvents).store)
  {
    OutboxParts(s, Enqueue(s.outbox, outboxEvents), s.rebuilds + [receipt]);
  }

  lemma ClaimParts(s: Store, limit: int, now: Time, leaseSeconds: int, owner: string, leases: nat -> Uuid)
    ensures SameCore(s, ClaimOutbox(s, limit, now, leaseSeconds, owner, leases).store)
  {
    OutboxParts(s, Claim(s.outbox, limit, now, leaseSeconds, owner, leases), s.rebuilds);
  }

  lemma UpdateParts(s: Store, eventId: Uuid, settlement: Settlement, lease: Option<Uuid>)
    ensures SameCore(s, UpdateOutbox(s, eventId, settlement, lease).store)
  {
    OutboxParts(s, Update(s.outbox, eventId, settlement, lease).outbox, s.rebuilds);
  }

  lemma LinkOperationParts(s: Store, op: Op)
    requires op.PutLink? || op.PutLinkIfActive? || op.DropLink?
    ensures SameCore(s, Do(s, op).store)
  {
    match op
    case PutLink(link) => SavingParts(s, link, None);
    case PutLinkIfActive(link, previous) => SavingParts(s, link, previous);
    case DropLink(recordId, target) => DroppingParts(s, recordId, target);
  }

  lemma OutboxOperationParts(s: Store, op: Op)
    requires op.Rebuild? || op.Claims? || op.Updates?
    ensures SameCore(s, Do(s, op).store)
  {
    match op
    case Rebuild(receipt, outboxEvents) => RebuildParts(s, receipt, outboxEvents);
    case Claims(limit, now, leaseSeconds, owner, leases) => ClaimParts(s, limit, now, leaseSeconds, owner, leases);
    case Updates(eventId, settlement, lease) => UpdateParts(s, eventId, settlement, lease);
  }

  lemma LinkAndOutboxParts(s: Store, op: Op)
    requires LeavesRecords(op)
    ensures SameCore(s, Do(s, op).store)
  {
    if op.Rebuild? || op.Claims? || op.Updates? {
      OutboxOperationParts(s, op);
    } else {
      LinkOperationParts(s, op);
    }
  }
}
