/** The store's histories, seen from the outbox: every operation is an enqueue, a claim or an update. */
module StoreOutbox {
  import opened Prelude
  import opened MemoryModel
  import opened Ledgers
  import opened OutboxSpec
  import opened StoreSpec
  import R = StoreRuns
  import O = OutboxRuns
  import opened StoreAtomicity
  import opened StoreEffects

  ghost function ActionOf(s: Store, op: R.Op): O.Action {
    match op
    case Claims(limit, now, leaseSeconds, owner, leases) => O.Claims(limit, now, leaseSeconds, owner, leases)
    case Updates(eventId, settlement, lease) =>
      if lease.Some? then O.Updates(eventId, settlement, lease.value) else O.Enqueues([])
    case _ => O.Enqueues(if R.Do(s, op).outcome.Ok? then Handed(op) else [])
  }

  /** Workers always pass the lease they hold. */
  predicate Leased(op: R.Op) {
    op.Updates? ==> op.lease.Some?
  }

  lemma FinishOutbox(s: Store, events: seq<StatusEvent>, outboxEvents: seq<OutboxEvent>)
    ensures var r := Finish(s, events, outboxEvents);
            r.store.outbox == if r.outcome.Ok? then Enqueue(s.outbox, outboxEvents) else s.outbox
  {
    var l := ApplyAll(LedgerOf(s), events).ledger;
    LedgerReplaced(s, l, Enqueue(s.outbox, outboxEvents));
    ApplyingEnds(LedgerOf(s), events);
  }

  lemma WriteOutbox(s: Store, record: Option<MemoryRecord>, receipt: WriteReceipt, outboxEvents: seq<OutboxEvent>,
                    events: seq<StatusEvent>, expected: Option<Precondition>)
    ensures var r := CommitWrite(s, record, receipt, outboxEvents, events, expected);
            r.store.outbox == if r.outcome.Ok? then Enqueue(s.outbox, outboxEvents) else s.outbox
  {
    var r := CommitWrite(s, record, receipt, outboxEvents, events, expected);
    var inserted := Inserted(s, record);
    CheckAllMeansEach(inserted.records, events);
    if !Guarded(s, record, expected) {
      assert r.store == s && r.outcome.Raised?;
    } else if CheckAll(inserted.records, events).Raised? {
      assert r.store == if record.Some? then Rollback(inserted, record.value) else s;
    } else {
      FinishOutbox(NoteWrite(inserted, record, receipt), events, outboxEvents);
      assert r == Finish(NoteWrite(inserted, record, receipt), events, outboxEvents);
    }
  }

  lemma TransitionAllOutbox(s: Store, noted: Store, events: seq<StatusEvent>, outboxEvents: seq<OutboxEvent>)
    requires noted.outbox == s.outbox
    ensures var r := TransitionAll(s, noted, events, outboxEvents);
            r.store.outbox == if r.outcome.Ok? then Enqueue(s.outbox, outboxEvents) else s.outbox
  {
    FinishOutbox(noted, events, outboxEvents);
    CheckAllMeansEach(s.records, events);
  }

  lemma InvalidationOutbox(s: Store, event: InvalidationEvent, receipts: seq<LifecycleReceipt>,
                           events: seq<StatusEvent>, outboxEvents: seq<OutboxEvent>, requirements: seq<Requirement>)
    ensures var r := CommitSourceInvalidation(s, event, receipts, events, outboxEvents, requirements);
            r.store.outbox == if r.outcome.Ok? then Enqueue(s.outbox, outboxEvents) else s.outbox
  {
    TransitionAllOutbox(s, NoteInvalidation(s, event, receipts), events, outboxEvents);
  }

  lemma {:induction false} CompletionsOutbox(s: Store, completions: seq<(Uuid, Uuid)>, at: Time, actor: string)
    ensures CompleteAll(s, completions, at, actor).store.outbox == s.outbox
  {
    if completions != [] {
      var n := |completions| - 1;
      CompletionsOutbox(s, completions[..n], at, actor);
      CompletionOutbox(CompleteAll(s, completions[..n], at, actor).store, completions[n].0, completions[n].1, at,
                       actor);
    }
  }

  lemma CompletionOutbox(s: Store, recordId: Uuid, receiptId: Uuid, at: Time, actor: string)
    ensures CompleteDeletion(s, recordId, receiptId, at, actor).store.outbox == s.outbox
  {
  }

  lemma ReleaseOutbox(s: Store, receipt: ReleaseReceipt, plan: ReleasePlan)
    ensures CommitRelease(s, receipt, plan).store.outbox == s.outbox
  {
    CompletionsOutbox(BeginRelease(s, receipt, plan), plan.completions,
                      receipt.createdAt, ReleaseActor(receipt));
  }

  lemma DeletionOutbox(s: Store, receipt: DeletionReceipt, tombstone: MemoryRecord, outboxEvents: seq<OutboxEvent>,
                       event: StatusEvent)
    ensures var r := CommitDeletion(s, receipt, tombstone, outboxEvents, event);
            r.store.outbox == if r.outcome.Ok? then Enqueue(s.outbox, outboxEvents) else s.outbox
  {
  }

  lemma RebuildOutbox(s: Store, receipt: RebuildReceipt, outboxEvents: seq<OutboxEvent>)
    ensures var r := CommitRebuild(s, receipt, outboxEvents);
            r.store.outbox == if r.outcome.Ok? then Enqueue(s.outbox, outboxEvents) else s.outbox
  {
  }

  lemma TransitionOutbox(s: Store, event: StatusEvent)
    ensures TransitionState(s, event).store.outbox == s.outbox
  {
  }

  /** Operations that hand nothing over leave the outbox alone. */
  lemma QuietOutbox(s: Store, op: R.Op)
    requires op.Transition? || op.ConflictLinks? || op.Completion? || op.PutLink? || op.PutLinkIfActive? || op.DropLink?
             || op.Release?
    ensures R.Do(s, op).store.outbox == s.outbox
  {
    match op
    case Transition(event) => TransitionOutbox(s, event);
    case ConflictLinks(receipt) => ConflictLinksParts(s, receipt);
    case Completion(recordId, receiptId, at, actor) => CompletionOutbox(s, recordId, receiptId, at, actor);
    case Release(receipt, plan) => ReleaseOutbox(s, receipt, plan);
    case _ =>
  }

  /** The operations that hand events over do so exactly when they are accepted. */
  lemma HandingOutbox(s: Store, op: R.Op)
    requires op.Write? || op.Lifecycle? || op.Archive? || op.Invalidate? || op.Deletion? || op.Rebuild?
    ensures R.Do(s, op).store.outbox == if R.Do(s, op).outcome.Ok? then Enqueue(s.outbox, Handed(op)) else s.outbox
  {
    match op
    case Write(record, receipt, outboxEvents, events, expected) =>
      WriteOutbox(s, record, receipt, outboxEvents, events, expected);
    case Lifecycle(receipt, events, outboxEvents) =>
      TransitionAllOutbox(s, s.(lifecycleReceipts := s.lifecycleReceipts[receipt.receiptId := receipt]), events,
                          outboxEvents);
    case Archive(receipt, events, outboxEvents) =>
      TransitionAllOutbox(s, s.(archiveReceipts := s.archiveReceipts[receipt.receiptId := receipt]), events,
                          outboxEvents);
    case Invalidate(event, receipts, events, outboxEvents, requirements) =>
      InvalidationOutbox(s, event, receipts, events, outboxEvents, requirements);
    case Deletion(receipt, tombstone, outboxEvents, event) =>
      DeletionOutbox(s, receipt, tombstone, outboxEvents, event);
    case Rebuild(receipt, outboxEvents) => RebuildOutbox(s, receipt, outboxEvents);
  }

  /** Every operation moves the outbox as its action does; an update that states no lease settles without the check. */
  lemma OutboxFollows(s: Store, used: set<Uuid>, op: R.Op)
    ensures R.Do(s, op).store.outbox
         == if Leased(op) then O.Step(O.World(s.outbox, used), ActionOf(s, op)).outbox
            else Update(s.outbox, op.eventId, op.settlement, None).outbox
  {
    if op.Claims? || op.Updates? {
    } else if op.Write? || op.Lifecycle? || op.Archive? || op.Invalidate? || op.Deletion? || op.Rebuild? {
      HandingOutbox(s, op);
      assert Enqueue(s.outbox, []) == s.outbox;
    } else {
      QuietOutbox(s, op);
      assert Enqueue(s.outbox, []) == s.outbox;
    }
  }

  ghost function Actions(s: Store, ops: seq<R.Op>): seq<O.Action>
    decreases |ops|
  {
    if ops == [] then [] else [ActionOf(s, ops[0])] + Actions(R.Do(s, ops[0]).store, ops[1..])
  }

  /** The hypotheses of the outbox theorems, on a history of the store: leased updates, fresh leases, new events. */
  ghost predicate DisciplinedRun(s: Store, used: set<Uuid>, ops: seq<R.Op>) {
    (forall i :: 0 <= i < |ops| ==> Leased(ops[i])) && O.Run(O.World(s.outbox, used), Actions(s, ops))
  }

  /** A history of the store is a history of its outbox. */
  lemma {:induction false} OutboxOfHistory(s: Store, used: set<Uuid>, ops: seq<R.Op>)
    requires DisciplinedRun(s, used, ops)
    ensures O.After(O.World(s.outbox, used), Actions(s, ops)).outbox == R.After(s, ops).outbox
    decreases |ops|
  {
    if ops != [] {
      var a, w := ActionOf(s, ops[0]), O.World(s.outbox, used);
      var next := R.Do(s, ops[0]).store;
      assert Actions(s, ops)[1..] == Actions(next, ops[1..]);
      OutboxFollows(s, used, ops[0]);
      assert O.Step(w, a) == O.World(next.outbox, O.Step(w, a).used);
      OutboxOfHistory(next, O.Step(w, a).used, ops[1..]);
    }
  }

  /** Main result: over any history of the whole store, a closed event is never touched again
      and the backlog is what was enqueued minus what was closed. */
  lemma WholeStoreOutboxLaws(s: Store, used: set<Uuid>, ops: seq<R.Op>, lease: Uuid, id: Uuid)
    requires Disciplined(s.outbox, used) && DisciplinedRun(s, used, ops)
    ensures O.SettledUnder(O.World(s.outbox, used), Actions(s, ops), lease) <= 1
    ensures id in s.outbox.at && !IsOpen(s.outbox.at[id]) ==>
              id in R.After(s, ops).outbox.at && R.After(s, ops).outbox.at[id] == s.outbox.at[id]
    ensures Backlog(R.After(s, ops).outbox) + O.ClosedCount(O.World(s.outbox, used), Actions(s, ops))
         == Backlog(s.outbox) + O.EnqueuedCount(Actions(s, ops))
  {
    var w, acts := O.World(s.outbox, used), Actions(s, ops);
    OutboxOfHistory(s, used, ops);
    O.OneSettlementPerLease(w, acts, lease);
    if id in s.outbox.at && !IsOpen(s.outbox.at[id]) {
      O.ClosedEventsAreFrozen(w, acts, id);
    }
    O.BacklogIsConserved(w, acts);
  }
}
