/** The status log explains the records: replaying it from each insertion gives the stored state. */
module StoreReplay {
  import opened Prelude
  import opened OrderedDict
  import opened MemoryModel
  import opened Ledgers
  import opened StoreSpec
  import opened StoreRuns
  import opened StoreAtomicity
  import opened StoreEffects

  /** A store beside the state every record was first inserted in. */
  datatype Tracked = Tracked(store: Store, ghost inserted: map<Uuid, MemoryState>)

  ghost predicate LedgerReplays(l: Ledger, inserted: map<Uuid, MemoryState>) {
    && l.records.Valid()
    && inserted.Keys == l.records.at.Keys
    && Chained(inserted, l.log)
    && (forall id :: id in l.records.at ==> l.records.at[id].state == Replay(inserted[id], l.log, id))
  }

  ghost predicate LogReplays(t: Tracked) {
    LedgerReplays(LedgerOf(t.store), t.inserted)
  }

  /** A record enters with the state it is written in; nothing else adds one. */
  ghost function Follow(t: Tracked, op: Op): Tracked {
    var s := Do(t.store, op).store;
    Tracked(s, if op.Write? && op.record.Some? && op.record.value.recordId in s.records.at
               then t.inserted[op.record.value.recordId := op.record.value.state] else t.inserted)
  }

  ghost function FollowAll(t: Tracked, ops: seq<Op>): Tracked
    decreases |ops|
  {
    if ops == [] then t else FollowAll(Follow(t, ops[0]), ops[1..])
  }

  lemma ApplyKeepsReplay(l: Ledger, inserted: map<Uuid, MemoryState>, e: StatusEvent)
    requires LedgerReplays(l, inserted)
    ensures LedgerReplays(Apply(l, e).ledger, inserted)
  {
    if Check(l.records, e).Ok? {
      LoggingKeepsReplay(l, inserted, e, Moved(l.records.at[e.recordId], e));
    }
  }

  /** Logging an event and storing a record in the state it names keeps the log faithful. */
  lemma LoggingKeepsReplay(l: Ledger, inserted: map<Uuid, MemoryState>, e: StatusEvent, r: MemoryRecord)
    requires LedgerReplays(l, inserted) && Check(l.records, e).Ok? && r.state == e.newState
    ensures LedgerReplays(Ledger(l.records.Put(e.recordId, r), l.log + [e]), inserted)
  {
    var log := l.log + [e];
    assert log[..|log| - 1] == l.log;
    ChainedExtends(inserted, l.log, e);
    PutKeepsValid(l.records, e.recordId, r);
  }

  lemma {:induction false} ApplyAllKeepsReplay(l: Ledger, inserted: map<Uuid, MemoryState>, events: seq<StatusEvent>)
    requires LedgerReplays(l, inserted)
    ensures LedgerReplays(ApplyAll(l, events).ledger, inserted)
  {
    if events != [] {
      var n := |events| - 1;
      ApplyAllKeepsReplay(l, inserted, events[..n]);
      ApplyKeepsReplay(ApplyAll(l, events[..n]).ledger, inserted, events[n]);
    }
  }

  lemma InsertKeepsReplay(l: Ledger, inserted: map<Uuid, MemoryState>, r: MemoryRecord)
    requires LedgerReplays(l, inserted) && r.recordId !in l.records.at
    ensures LedgerReplays(Ledger(l.records.Put(r.recordId, r), l.log), inserted[r.recordId := r.state])
  {
    PutKeepsValid(l.records, r.recordId, r);
    ReplayUntouched(r.state, l.log, r.recordId);
    assert forall j :: 0 <= j < |l.log| ==> l.log[j].recordId in inserted;
  }

  lemma WriteKeepsReplay(t: Tracked, op: Op)
    requires LogReplays(t) && op.Write? && Admissible(t.store, op)
    ensures LogReplays(Follow(t, op))
  {
    var s, record := t.store, op.record;
    var begun := Ledger(Target(s, record), s.statusEvents);
    WriteLedger(s, record, op.receipt, op.outboxEvents, op.events, op.expected);
    var noted := if record.Some? then t.inserted[record.value.recordId := record.value.state] else t.inserted;
    if record.Some? {
      InsertKeepsReplay(LedgerOf(s), t.inserted, record.value);
    }
    ApplyAllKeepsReplay(begun, noted, op.events);
    ApplyAllKeepsRecords(begun, op.events);
  }

  lemma FinishKeepsReplay(s: Store, inserted: map<Uuid, MemoryState>, events: seq<StatusEvent>,
                          outboxEvents: seq<OutboxEvent>)
    requires LedgerReplays(LedgerOf(s), inserted)
    ensures LedgerReplays(LedgerOf(Finish(s, events, outboxEvents).store), inserted)
  {
    ApplyAllKeepsReplay(LedgerOf(s), inserted, events);
    FinishLedger(s, events, outboxEvents);
  }

  lemma TransitionAllKeepsReplay(s: Store, noted: Store, inserted: map<Uuid, MemoryState>, events: seq<StatusEvent>,
                                 outboxEvents: seq<OutboxEvent>)
    requires LedgerReplays(LedgerOf(s), inserted) && LedgerOf(noted) == LedgerOf(s)
    ensures LedgerReplays(LedgerOf(TransitionAll(s, noted, events, outboxEvents).store), inserted)
  {
    FinishKeepsReplay(noted, inserted, events, outboxEvents);
  }

  lemma LinkingKeepsReplay(l: Ledger, inserted: map<Uuid, MemoryState>, links: seq<(Uuid, Uuid)>)
    requires LedgerReplays(l, inserted)
    ensures LedgerReplays(Ledger(AddConflictLinks(l.records, links), l.log), inserted)
  {
    var r := AddConflictLinks(l.records, links);
    ConflictLinksKeepStates(l.records, links);
    forall id | id in r.at
      ensures r.at[id].state == l.records.at[id].state
    {
      assert r.at[id].state == r.at[id].(conflictsWith := []).state;
    }
    SameStatesKeepReplay(l, inserted, r);
  }

  lemma ConflictLinksKeepReplay(s: Store, inserted: map<Uuid, MemoryState>, receipt: ConflictReceipt)
    requires LedgerReplays(LedgerOf(s), inserted)
    ensures LedgerReplays(LedgerOf(CommitConflictLinks(s, receipt).store), inserted)
  {
    ConflictLinksParts(s, receipt);
    LinkingKeepsReplay(LedgerOf(s), inserted, receipt.links);
  }

  lemma DeletionKeepsReplay(s: Store, inserted: map<Uuid, MemoryState>, receipt: DeletionReceipt,
                            tombstone: MemoryRecord, outboxEvents: seq<OutboxEvent>, event: StatusEvent)
    requires LedgerReplays(LedgerOf(s), inserted)
    ensures LedgerReplays(LedgerOf(CommitDeletion(s, receipt, tombstone, outboxEvents, event).store), inserted)
  {
    var r := CommitDeletion(s, receipt, tombstone, outboxEvents, event);
    if r.outcome.Ok? {
      LoggingKeepsReplay(LedgerOf(s), inserted, event, tombstone);
      assert LedgerOf(r.store) == Ledger(s.records.Put(event.recordId, tombstone), s.statusEvents + [event]);
    } else {
      assert r.store == s;
    }
  }

  lemma SameStatesKeepReplay(l: Ledger, inserted: map<Uuid, MemoryState>, records: Dict<Uuid, MemoryRecord>)
    requires LedgerReplays(l, inserted) && records.Valid() && records.at.Keys == l.records.at.Keys
    requires forall id :: id in records.at ==> records.at[id].state == l.records.at[id].state
    ensures LedgerReplays(Ledger(records, l.log), inserted)
  {
  }

  lemma CompletionKeepsReplay(s: Store, inserted: map<Uuid, MemoryState>, recordId: Uuid, receiptId: Uuid, at: Time,
                              actor: string)
    requires LedgerReplays(LedgerOf(s), inserted)
    ensures LedgerReplays(LedgerOf(CompleteDeletion(s, recordId, receiptId, at, actor).store), inserted)
  {
    CompletionLedger(s, recordId, receiptId, at, actor);
    if recordId in s.records.at {
      ApplyKeepsReplay(LedgerOf(s), inserted, CompletionEvent(s.records.at[recordId], recordId, receiptId, at, actor));
    }
  }

  lemma {:induction false} CompletionsKeepReplay(s: Store, inserted: map<Uuid, MemoryState>,
                                                 completions: seq<(Uuid, Uuid)>, at: Time, actor: string)
    requires LedgerReplays(LedgerOf(s), inserted)
    ensures LedgerReplays(LedgerOf(CompleteAll(s, completions, at, actor).store), inserted)
  {
    if completions != [] {
      var n := |completions| - 1;
      CompletionsKeepReplay(s, inserted, completions[..n], at, actor);
      CompletionKeepsReplay(CompleteAll(s, completions[..n], at, actor).store, inserted, completions[n].0,
                            completions[n].1, at, actor);
    }
  }

  lemma ReleaseKeepsReplay(s: Store, inserted: map<Uuid, MemoryState>, receipt: ReleaseReceipt, plan: ReleasePlan)
    requires LedgerReplays(LedgerOf(s), inserted)
    ensures LedgerReplays(LedgerOf(CommitRelease(s, receipt, plan).store), inserted)
  {
    var begun := BeginRelease(s, receipt, plan);
    CompletionsKeepReplay(begun, inserted, plan.completions, receipt.createdAt, ReleaseActor(receipt));
    var done := CompleteAll(begun, plan.completions, receipt.createdAt, ReleaseActor(receipt));
    ReleaseIsAllOrNothing(s, receipt, plan);
    var r := CommitRelease(s, receipt, plan).store;
    assert r == s || r == done.store;
  }

  /** One step of any kind, successful or not, keeps the log faithful. */
  lemma StepKeepsReplay(t: Tracked, op: Op)
    requires LogReplays(t) && Admissible(t.store, op)
    ensures LogReplays(Follow(t, op))
  {
    var s, ins := t.store, t.inserted;
    match op
    case Write(_, _, _, _, _) => WriteKeepsReplay(t, op);
    case Transition(event) =>
      ApplyKeepsReplay(LedgerOf(s), ins, event);
      assert LedgerOf(Do(s, op).store) == Apply(LedgerOf(s), event).ledger;
    case Lifecycle(receipt, events, outboxEvents) =>
      TransitionAllKeepsReplay(s, s.(lifecycleReceipts := s.lifecycleReceipts[receipt.receiptId := receipt]), ins,
                               events, outboxEvents);
    case Archive(receipt, events, outboxEvents) =>
      TransitionAllKeepsReplay(s, s.(archiveReceipts := s.archiveReceipts[receipt.receiptId := receipt]), ins, events,
                               outboxEvents);
    case Invalidate(event, receipts, events, outboxEvents, _) =>
      TransitionAllKeepsReplay(s, NoteInvalidation(s, event, receipts), ins, events, outboxEvents);
    case ConflictLinks(receipt) => ConflictLinksKeepReplay(s, ins, receipt);
    case Deletion(receipt, tombstone, outboxEvents, event) =>
      DeletionKeepsReplay(s, ins, receipt, tombstone, outboxEvents, event);
    case Completion(recordId, receiptId, at, actor) => CompletionKeepsReplay(s, ins, recordId, receiptId, at, actor);
    case Release(receipt, plan) => ReleaseKeepsReplay(s, ins, receipt, plan);
    case _ => LinkAndOutboxParts(s, op);
  }

  /** Main result: in every reachable state the log replays to the records and every stated previous state is right. */
  lemma {:induction false} LogReplaysAlways(t: Tracked, ops: seq<Op>)
    requires LogReplays(t) && Run(t.store, ops)
    ensures LogReplays(FollowAll(t, ops))
    ensures FollowAll(t, ops).store == After(t.store, ops)
    decreases |ops|
  {
    if ops != [] {
      StepKeepsReplay(t, ops[0]);
      LogReplaysAlways(Follow(t, ops[0]), ops[1..]);
    }
  }

  lemma LogReplaysFromEmpty(ops: seq<Op>)
    requires Run(EmptyStore(), ops)
    ensures LogReplays(FollowAll(Tracked(EmptyStore(), map[]), ops))
    ensures FollowAll(Tracked(EmptyStore(), map[]), ops).store == After(EmptyStore(), ops)
  {
    LogReplaysAlways(Tracked(EmptyStore(), map[]), ops);
  }
}
