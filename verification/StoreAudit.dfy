/** The audit trail: what every accepted operation puts on record, and that nothing on record is ever taken off. */
module StoreAudit {
  import opened Prelude
  import opened OrderedDict
  import opened MemoryModel
  import opened Ledgers
  import opened OutboxSpec
  import opened StoreSpec
  import opened StoreRuns
  import opened StoreAtomicity
  import opened StoreEffects
  import opened StoreGuards
  import opened StoreSnapshots

  /** The parts of the store kept as evidence. */
  datatype Trail = Trail(
    log: seq<StatusEvent>,
    receipts: map<Uuid, WriteReceipt>,
    archives: map<Uuid, ArchiveReceipt>,
    deletions: map<Uuid, DeletionReceipt>,
    lifecycles: map<Uuid, LifecycleReceipt>,
    conflicts: map<Uuid, ConflictReceipt>,
    releases: seq<ReleaseReceipt>,
    rebuilds: seq<RebuildReceipt>,
    invalidations: map<(string, string), InvalidationEvent>,
    requirements: map<Uuid, Requirement>)

  function TrailOf(s: Store): Trail {
    Trail(s.statusEvents, s.receipts, s.archiveReceipts, s.deletionReceipts, s.lifecycleReceipts, s.conflictReceipts,
          s.releases, s.rebuilds, s.invalidations, s.requirements)
  }

  /** Logs only grow at their end, receipts are only added or replaced by one of the same id, an invalidation stands as
      it was committed. */
  ghost predicate Extends(a: Trail, b: Trail) {
    && a.log <= b.log && a.releases <= b.releases && a.rebuilds <= b.rebuilds
    && a.receipts.Keys <= b.receipts.Keys && a.archives.Keys <= b.archives.Keys && a.deletions.Keys <= b.deletions.Keys
    && a.lifecycles.Keys <= b.lifecycles.Keys && a.conflicts.Keys <= b.conflicts.Keys
    && a.requirements.Keys <= b.requirements.Keys
    && (forall k :: k in a.invalidations ==> k in b.invalidations && b.invalidations[k] == a.invalidations[k])
  }

  /** The receipts of a list, stored in order under their ids: what is found under an id is the last of the list with
      that id, or what was there before. */
  lemma {:induction false} ReceiptsAreNoted(noted: map<Uuid, LifecycleReceipt>, receipts: seq<LifecycleReceipt>,
                                            id: Uuid)
    ensures id in noted ==> id in NoteReceipts(noted, receipts)
    ensures (forall i :: 0 <= i < |receipts| ==> receipts[i].receiptId != id) ==>
              (id in NoteReceipts(noted, receipts) <==> id in noted)
              && (id in noted ==> NoteReceipts(noted, receipts)[id] == noted[id])
  {
    if receipts != [] {
      var n := |receipts| - 1;
      ReceiptsAreNoted(noted, receipts[..n], id);
      assert receipts[n].receiptId == id || forall i :: 0 <= i < n ==> receipts[..n][i] == receipts[i];
    }
  }

  lemma {:induction false} LastReceiptIsFound(noted: map<Uuid, LifecycleReceipt>, receipts: seq<LifecycleReceipt>,
                                              i: nat)
    requires i < |receipts| && forall j :: i < j < |receipts| ==> receipts[j].receiptId != receipts[i].receiptId
    ensures var r, id := NoteReceipts(noted, receipts), receipts[i].receiptId; id in r && r[id] == receipts[i]
  {
    var n := |receipts| - 1;
    if i < n {
      LastReceiptIsFound(noted, receipts[..n], i);
    }
  }

  lemma {:induction false} RequirementsAreNoted(noted: map<Uuid, Requirement>, more: seq<Requirement>, id: Uuid)
    ensures id in noted ==> id in NoteRequirements(noted, more)
    ensures (forall i :: 0 <= i < |more| ==> more[i].requirementId != id) ==>
              (id in NoteRequirements(noted, more) <==> id in noted)
              && (id in noted ==> NoteRequirements(noted, more)[id] == noted[id])
  {
    if more != [] {
      var n := |more| - 1;
      RequirementsAreNoted(noted, more[..n], id);
      assert more[n].requirementId == id || forall i :: 0 <= i < n ==> more[..n][i] == more[i];
    }
  }

  lemma {:induction false} LastRequirementIsFound(noted: map<Uuid, Requirement>, more: seq<Requirement>, i: nat)
    requires i < |more| && forall j :: i < j < |more| ==> more[j].requirementId != more[i].requirementId
    ensures var r, id := NoteRequirements(noted, more), more[i].requirementId; id in r && r[id] == more[i]
  {
    var n := |more| - 1;
    if i < n {
      LastRequirementIsFound(noted, more[..n], i);
    }
  }

  lemma LedgerTrail(s: Store, l: Ledger)
    ensures TrailOf(WithLedger(s, l)) == TrailOf(s).(log := l.log)
  {
  }

  lemma EnqueuingTrail(s: Store, outbox: Outbox)
    ensures TrailOf(s.(outbox := outbox)) == TrailOf(s)
  {
  }

  lemma FinishTrail(s: Store, events: seq<StatusEvent>, outboxEvents: seq<OutboxEvent>)
    requires s.records.Valid()
    ensures var r := Finish(s, events, outboxEvents);
            && TrailOf(r.store) == TrailOf(s).(log := r.store.statusEvents)
            && s.statusEvents <= r.store.statusEvents
            && (r.outcome.Ok? ==> r.store.statusEvents == s.statusEvents + events)
  {
    var l := ApplyAll(LedgerOf(s), events).ledger;
    ApplyAllLogs(LedgerOf(s), events);
    LedgerTrail(s, l);
    EnqueuingTrail(WithLedger(s, l), Enqueue(s.outbox, outboxEvents));
  }

  lemma InsertTrail(s: Store, r: MemoryRecord)
    ensures TrailOf(InsertRecord(s, r)) == TrailOf(s) && TrailOf(Rollback(InsertRecord(s, r), r)) == TrailOf(s)
  {
  }

  lemma NotingTrail(s: Store, record: Option<MemoryRecord>, receipt: WriteReceipt)
    ensures TrailOf(NoteWrite(s, record, receipt)) == TrailOf(s).(receipts := s.receipts[receipt.receiptId := receipt])
  {
  }

  /** An accepted write logs its events and keeps its receipt; a refused one logs at most some of them. */
  lemma WriteTrail(s: Store, record: Option<MemoryRecord>, receipt: WriteReceipt, outboxEvents: seq<OutboxEvent>,
                   events: seq<StatusEvent>, expected: Option<Precondition>)
    requires s.records.Valid()
    ensures var r := CommitWrite(s, record, receipt, outboxEvents, events, expected);
            || (r.outcome.Raised? && TrailOf(r.store) == TrailOf(s))
            || (&& TrailOf(r.store) == TrailOf(s).(log := r.store.statusEvents,
                                                   receipts := s.receipts[receipt.receiptId := receipt])
                && s.statusEvents <= r.store.statusEvents
                && (r.outcome.Ok? ==> r.store.statusEvents == s.statusEvents + events))
  {
    var r, inserted := CommitWrite(s, record, receipt, outboxEvents, events, expected), Inserted(s, record);
    CheckAllMeansEach(inserted.records, events);
    if record.Some? {
      PutKeepsValid(s.records, record.value.recordId, record.value);
      InsertTrail(s, record.value);
    }
    if !Guarded(s, record, expected) {
      assert r.store == s;
    } else if CheckAll(inserted.records, events).Raised? {
      assert r.store == if record.Some? then Rollback(inserted, record.value) else s;
    } else {
      NotingTrail(inserted, record, receipt);
      FinishTrail(NoteWrite(inserted, record, receipt), events, outboxEvents);
      assert r == Finish(NoteWrite(inserted, record, receipt), events, outboxEvents);
    }
  }

  lemma TransitionAllTrail(s: Store, noted: Store, events: seq<StatusEvent>, outboxEvents: seq<OutboxEvent>)
    requires s.records.Valid() && LedgerOf(noted) == LedgerOf(s)
    ensures var r := TransitionAll(s, noted, events, outboxEvents);
            || (r.outcome.Raised? && r.store == s)
            || (&& TrailOf(r.store) == TrailOf(noted).(log := r.store.statusEvents)
                && s.statusEvents <= r.store.statusEvents
                && (r.outcome.Ok? ==> r.store.statusEvents == s.statusEvents + events))
  {
    FinishTrail(noted, events, outboxEvents);
    CheckAllMeansEach(s.records, events);
  }

  lemma LifecycleTrail(s: Store, receipt: LifecycleReceipt, events: seq<StatusEvent>, outboxEvents: seq<OutboxEvent>)
    requires s.records.Valid()
    ensures var r := CommitLifecycle(s, receipt, events, outboxEvents);
            || (r.outcome.Raised? && r.store == s)
            || (&& TrailOf(r.store) == TrailOf(s).(log := r.store.statusEvents,
                                                   lifecycles := s.lifecycleReceipts[receipt.receiptId := receipt])
                && s.statusEvents <= r.store.statusEvents
                && (r.outcome.Ok? ==> r.store.statusEvents == s.statusEvents + events))
  {
    TransitionAllTrail(s, s.(lifecycleReceipts := s.lifecycleReceipts[receipt.receiptId := receipt]), events,
                       outboxEvents);
  }

  lemma ArchiveTrail(s: Store, receipt: ArchiveReceipt, events: seq<StatusEvent>, outboxEvents: seq<OutboxEvent>)
    requires s.records.Valid()
    ensures var r := CommitArchive(s, receipt, events, outboxEvents);
            || (r.outcome.Raised? && r.store == s)
            || (&& TrailOf(r.store) == TrailOf(s).(log := r.store.statusEvents,
                                                   archives := s.archiveReceipts[receipt.receiptId := receipt])
                && s.statusEvents <= r.store.statusEvents
                && (r.outcome.Ok? ==> r.store.statusEvents == s.statusEvents + events))
  {
    TransitionAllTrail(s, s.(archiveReceipts := s.archiveReceipts[receipt.receiptId := receipt]), events, outboxEvents);
  }

  function WithInvalidation(s: Store, event: InvalidationEvent): map<(string, string), InvalidationEvent> {
    s.invalidations[(event.tenantId, event.eventId) := event]
  }

  lemma InvalidatingTrail(s: Store, event: InvalidationEvent, receipts: seq<LifecycleReceipt>)
    ensures TrailOf(NoteInvalidation(s, event, receipts)) == TrailOf(s).(
                                           lifecycles := NoteReceipts(s.lifecycleReceipts, receipts),
                                           invalidations := WithInvalidation(s, event))
  {
  }

  lemma RequiringTrail(s: Store, requirements: map<Uuid, Requirement>, selectors: map<SelectorId, Selector>)
    ensures TrailOf(s.(requirements := requirements, selectors := selectors))
            == TrailOf(s).(requirements := requirements)
  {
  }

  /** An accepted invalidation is new, and is on record under its tenant and event id, with its receipts and
      requirements. */
  lemma InvalidationTrail(s: Store, event: InvalidationEvent, receipts: seq<LifecycleReceipt>, events: seq<StatusEvent>,
                          outboxEvents: seq<OutboxEvent>, requirements: seq<Requirement>)
    requires s.records.Valid()
    requires CommitSourceInvalidation(s, event, receipts, events, outboxEvents, requirements).outcome.Ok?
    ensures (event.tenantId, event.eventId) !in s.invalidations
    ensures TrailOf(CommitSourceInvalidation(s, event, receipts, events, outboxEvents, requirements).store)
            == TrailOf(s).(log := s.statusEvents + events,
                           lifecycles := NoteReceipts(s.lifecycleReceipts, receipts),
                           invalidations := WithInvalidation(s, event),
                           requirements := NoteRequirements(s.requirements, requirements))
  {
    var noted := NoteInvalidation(s, event, receipts);
    var moved := TransitionAll(s, noted, events, outboxEvents);
    CheckAllMeansEach(s.records, events);
    assert moved == Finish(noted, events, outboxEvents) && moved.outcome.Ok?;
    InvalidatingTrail(s, event, receipts);
    FinishTrail(noted, events, outboxEvents);
    RequiringTrail(moved.store, NoteRequirements(moved.store.requirements, requirements),
                   Deactivate(moved.store.selectors, Transitioned(receipts), event.createdAt));
  }

  /** What a refused one leaves: what it has noted and logged by then, and no requirement. */
  lemma RefusedInvalidationTrail(s: Store, event: InvalidationEvent, receipts: seq<LifecycleReceipt>,
                                 events: seq<StatusEvent>, outboxEvents: seq<OutboxEvent>,
                                 requirements: seq<Requirement>)
    requires s.records.Valid()
    requires CommitSourceInvalidation(s, event, receipts, events, outboxEvents, requirements).outcome.Raised?
    ensures var r := CommitSourceInvalidation(s, event, receipts, events, outboxEvents, requirements).store;
            || r == s
            || (&& (event.tenantId, event.eventId) !in s.invalidations && s.statusEvents <= r.statusEvents
                && TrailOf(r) == TrailOf(s).(log := r.statusEvents,
                                             lifecycles := NoteReceipts(s.lifecycleReceipts, receipts),
                                             invalidations := WithInvalidation(s, event)))
  {
    InvalidatingTrail(s, event, receipts);
    TransitionAllTrail(s, NoteInvalidation(s, event, receipts), events, outboxEvents);
  }

  lemma BuryingTrail(s: Store, receipt: DeletionReceipt, tombstone: MemoryRecord, event: StatusEvent, outbox: Outbox)
    ensures TrailOf(BuryRecord(s, receipt, tombstone, event).(outbox := outbox)) == TrailOf(s).(
              log := s.statusEvents + [event], deletions := s.deletionReceipts[receipt.receiptId := receipt])
  {
  }

  lemma DeletionTrail(s: Store, receipt: DeletionReceipt, tombstone: MemoryRecord, outboxEvents: seq<OutboxEvent>,
                      event: StatusEvent)
    ensures var r := CommitDeletion(s, receipt, tombstone, outboxEvents, event);
            || (r.outcome.Raised? && r.store == s)
            || (&& r.outcome.Ok? && receipt.recordId == tombstone.recordId == event.recordId
                && event.newState == tombstone.state && Check(s.records, event).Ok?
                && TrailOf(r.store) == TrailOf(s).(log := s.statusEvents + [event],
                                                   deletions := s.deletionReceipts[receipt.receiptId := receipt]))
  {
    BuryingTrail(s, receipt, tombstone, event, Enqueue(s.outbox, outboxEvents));
  }

  lemma CompletingTrail(s: Store, l: Ledger, deletions: map<Uuid, DeletionReceipt>)
    ensures TrailOf(s.(deletionReceipts := deletions)) == TrailOf(s).(deletions := deletions)
    ensures TrailOf(WithLedger(s, l).(deletionReceipts := deletions))
            == TrailOf(s).(log := l.log, deletions := deletions)
  {
  }

  /** What completing a deletion logs: nothing of a record DELETED already; else who deleted it, when, from what state
      and under which receipt. */
  function CompletionLog(record: MemoryRecord, recordId: Uuid, receiptId: Uuid, at: Time,
                         actor: string): seq<StatusEvent> {
    if record.state == Deleted then []
    else [StatusEvent(recordId, Some(record.state), Deleted, actor, at, Some(receiptId))]
  }

  /** A completed deletion is COMPLETE and dated, and logged. */
  lemma CompletionTrail(s: Store, recordId: Uuid, receiptId: Uuid, at: Time, actor: string)
    ensures var r := CompleteDeletion(s, recordId, receiptId, at, actor);
            || (r.outcome.Raised? && r.store == s)
            || (&& r.outcome.Ok? && recordId in s.records.at && receiptId in s.deletionReceipts
                && var completed := s.deletionReceipts[receiptId].(status := Complete, completedAt := Some(at));
                   TrailOf(r.store) == TrailOf(s).(
                     log := s.statusEvents + CompletionLog(s.records.at[recordId], recordId, receiptId, at, actor),
                     deletions := s.deletionReceipts[receiptId := completed]))
  {
    if recordId in s.records.at && receiptId in s.deletionReceipts && LinksOf(s.links, recordId) == {} {
      var record := s.records.at[recordId];
      var l := Apply(LedgerOf(s), CompletionEvent(record, recordId, receiptId, at, actor)).ledger;
      var deletions := s.deletionReceipts[receiptId :=
        s.deletionReceipts[receiptId].(status := Complete, completedAt := Some(at))];
      CompletingTrail(s, l, deletions);
      assert s.statusEvents + [] == s.statusEvents;
      assert CompleteDeletion(s, recordId, receiptId, at, actor).store
          == if record.state != Deleted then WithLedger(s, l).(deletionReceipts := deletions)
             else s.(deletionReceipts := deletions);
    }
  }

  lemma ExtendsIsTransitive(a: Trail, b: Trail, c: Trail)
    requires Extends(a, b) && Extends(b, c)
    ensures Extends(a, c)
  {
  }

  lemma TransitionTrail(s: Store, event: StatusEvent)
    ensures var r := TransitionState(s, event);
            TrailOf(r.store) == TrailOf(s).(log := if r.outcome.Ok? then s.statusEvents + [event] else s.statusEvents)
  {
    LedgerTrail(s, Apply(LedgerOf(s), event).ledger);
  }

  lemma LinkedTrail(s: Store, records: Dict<Uuid, MemoryRecord>, conflicts: map<Uuid, ConflictReceipt>)
    ensures TrailOf(s.(records := records, conflictReceipts := conflicts)) == TrailOf(s).(conflicts := conflicts)
  {
  }

  /** Conflict links are accepted exactly when both ends of each are known. */
  lemma LinkingTrail(s: Store, receipt: ConflictReceipt)
    ensures var r := CommitConflictLinks(s, receipt);
            && (r.outcome.Ok? <==>
                  forall link :: link in receipt.links ==> link.0 in s.records.at && link.1 in s.records.at)
            && TrailOf(r.store) ==
                 if r.outcome.Ok? then TrailOf(s).(conflicts := s.conflictReceipts[receipt.receiptId := receipt])
                 else TrailOf(s)
  {
    LinkedTrail(s, AddConflictLinks(s.records, receipt.links), s.conflictReceipts[receipt.receiptId := receipt]);
  }

  lemma RebuildTrail(s: Store, receipt: RebuildReceipt, outboxEvents: seq<OutboxEvent>)
    ensures var r := CommitRebuild(s, receipt, outboxEvents);
            && (r.outcome.Ok? <==> receipt.applied)
            && TrailOf(r.store) ==
                 if r.outcome.Ok? then TrailOf(s).(rebuilds := s.rebuilds + [receipt]) else TrailOf(s)
  {
  }

  lemma LinksAndOutboxLeaveNoTrail(s: Store, op: Op)
    requires LeavesRecords(op) && !op.Rebuild?
    ensures TrailOf(Do(s, op).store) == TrailOf(s)
  {
  }

  lemma NotesOnlyGrow(s: Store, receipts: seq<LifecycleReceipt>, requirements: seq<Requirement>)
    ensures s.lifecycleReceipts.Keys <= NoteReceipts(s.lifecycleReceipts, receipts).Keys
    ensures s.requirements.Keys <= NoteRequirements(s.requirements, requirements).Keys
  {
    forall id
      ensures id in s.lifecycleReceipts ==> id in NoteReceipts(s.lifecycleReceipts, receipts)
      ensures id in s.requirements ==> id in NoteRequirements(s.requirements, requirements)
    {
      ReceiptsAreNoted(s.lifecycleReceipts, receipts, id);
      RequirementsAreNoted(s.requirements, requirements, id);
    }
  }

  lemma NotingExtends(t: Trail, log: seq<StatusEvent>, lifecycles: map<Uuid, LifecycleReceipt>, key: (string, string),
                      event: InvalidationEvent, requirements: map<Uuid, Requirement>)
    requires t.log <= log && t.lifecycles.Keys <= lifecycles.Keys && t.requirements.Keys <= requirements.Keys
    requires key !in t.invalidations
    ensures Extends(t, t.(log := log, lifecycles := lifecycles, invalidations := t.invalidations[key := event],
                          requirements := requirements))
  {
  }

  lemma InvalidationExtends(s: Store, event: InvalidationEvent, receipts: seq<LifecycleReceipt>,
                            events: seq<StatusEvent>, outboxEvents: seq<OutboxEvent>, requirements: seq<Requirement>)
    requires s.records.Valid()
    ensures Extends(TrailOf(s),
                    TrailOf(CommitSourceInvalidation(s, event, receipts, events, outboxEvents, requirements).store))
  {
    var r, t := CommitSourceInvalidation(s, event, receipts, events, outboxEvents, requirements), TrailOf(s);
    var key, noted := (event.tenantId, event.eventId), NoteReceipts(s.lifecycleReceipts, receipts);
    NotesOnlyGrow(s, receipts, requirements);
    CheckAllMeansEach(s.records, events);
    LogExtends(t, s.statusEvents, s.deletionReceipts);
    if r.outcome.Ok? {
      InvalidationTrail(s, event, receipts, events, outboxEvents, requirements);
      NotingExtends(t, s.statusEvents + events, noted, key, event, NoteRequirements(s.requirements, requirements));
    } else {
      RefusedInvalidationTrail(s, event, receipts, events, outboxEvents, requirements);
      if r.store != s {
        NotingExtends(t, r.store.statusEvents, noted, key, event, s.requirements);
      }
    }
  }

  lemma WriteExtends(s: Store, op: Op)
    requires s.records.Valid() && op.Write?
    ensures Extends(TrailOf(s), TrailOf(Do(s, op).store))
  {
    WriteTrail(s, op.record, op.receipt, op.outboxEvents, op.events, op.expected);
  }

  lemma LifecycleExtends(s: Store, op: Op)
    requires s.records.Valid() && op.Lifecycle?
    ensures Extends(TrailOf(s), TrailOf(Do(s, op).store))
  {
    LifecycleTrail(s, op.lifecycle, op.events, op.outboxEvents);
  }

  lemma ArchiveExtends(s: Store, op: Op)
    requires s.records.Valid() && op.Archive?
    ensures Extends(TrailOf(s), TrailOf(Do(s, op).store))
  {
    ArchiveTrail(s, op.archive, op.events, op.outboxEvents);
  }

  lemma LogExtends(t: Trail, log: seq<StatusEvent>, deletions: map<Uuid, DeletionReceipt>)
    requires t.log <= log && t.deletions.Keys <= deletions.Keys
    ensures Extends(t, t.(log := log, deletions := deletions))
  {
  }

  lemma DeletionExtends(s: Store, receipt: DeletionReceipt, tombstone: MemoryRecord, outboxEvents: seq<OutboxEvent>,
                        event: StatusEvent)
    ensures Extends(TrailOf(s), TrailOf(CommitDeletion(s, receipt, tombstone, outboxEvents, event).store))
  {
    DeletionTrail(s, receipt, tombstone, outboxEvents, event);
    LogExtends(TrailOf(s), s.statusEvents, s.deletionReceipts);
    LogExtends(TrailOf(s), s.statusEvents + [event], s.deletionReceipts[receipt.receiptId := receipt]);
  }

  lemma CompletionExtends(s: Store, recordId: Uuid, receiptId: Uuid, at: Time, actor: string)
    ensures Extends(TrailOf(s), TrailOf(CompleteDeletion(s, recordId, receiptId, at, actor).store))
  {
    CompletionTrail(s, recordId, receiptId, at, actor);
    LogExtends(TrailOf(s), s.statusEvents, s.deletionReceipts);
    if recordId in s.records.at && receiptId in s.deletionReceipts {
      var completed := s.deletionReceipts[receiptId].(status := Complete, completedAt := Some(at));
      LogExtends(TrailOf(s), s.statusEvents + CompletionLog(s.records.at[recordId], recordId, receiptId, at, actor),
                 s.deletionReceipts[receiptId := completed]);
    }
  }

  lemma LinkingExtends(s: Store, receipt: ConflictReceipt)
    ensures Extends(TrailOf(s), TrailOf(CommitConflictLinks(s, receipt).store))
  {
    LinkingTrail(s, receipt);
  }

  lemma {:induction false} CompletionsTrail(s: Store, completions: seq<(Uuid, Uuid)>, at: Time, actor: string)
    ensures var r := CompleteAll(s, completions, at, actor).store;
            Extends(TrailOf(s), TrailOf(r)) && r.releases == s.releases
  {
    if completions != [] {
      var n := |completions| - 1;
      CompletionsTrail(s, completions[..n], at, actor);
      var before := CompleteAll(s, completions[..n], at, actor).store;
      CompletionExtends(before, completions[n].0, completions[n].1, at, actor);
      CompletionTrail(before, completions[n].0, completions[n].1, at, actor);
      ExtendsIsTransitive(TrailOf(s), TrailOf(before), TrailOf(CompleteAll(s, completions, at, actor).store));
    }
  }

  /** What a release says in the log of each deletion it completes: deleted, by its own actor, at its own time. */
  ghost predicate LoggedFor(e: StatusEvent, receipt: ReleaseReceipt, plan: ReleasePlan) {
    && e.newState == Deleted && e.occurredAt == receipt.createdAt
    && e.actor == "memory.legacy-release:" + receipt.actor
    && exists c :: c in plan.completions && e.recordId == c.0 && e.receiptId == Some(c.1)
  }

  lemma {:induction false} CompletionsLog(s: Store, receipt: ReleaseReceipt, plan: ReleasePlan, n: nat)
    requires n <= |plan.completions|
    ensures var r := CompleteAll(s, plan.completions[..n], receipt.createdAt, ReleaseActor(receipt)).store;
            && s.statusEvents <= r.statusEvents
            && forall i :: |s.statusEvents| <= i < |r.statusEvents| ==> LoggedFor(r.statusEvents[i], receipt, plan)
  {
    if n > 0 {
      var c, done := plan.completions[n - 1], plan.completions[..n];
      CompletionsLog(s, receipt, plan, n - 1);
      assert done[..n - 1] == plan.completions[..n - 1] && c in plan.completions;
      var before := CompleteAll(s, plan.completions[..n - 1], receipt.createdAt, ReleaseActor(receipt)).store;
      CompletionTrail(before, c.0, c.1, receipt.createdAt, ReleaseActor(receipt));
    }
  }

  /** Every entry an accepted release adds to the log says so. */
  lemma ReleaseLogs(s: Store, receipt: ReleaseReceipt, plan: ReleasePlan, i: nat)
    requires |s.statusEvents| <= i < |CommitRelease(s, receipt, plan).store.statusEvents|
    ensures LoggedFor(CommitRelease(s, receipt, plan).store.statusEvents[i], receipt, plan)
  {
    ReleaseIsAllOrNothing(s, receipt, plan);
    assert plan.completions[..|plan.completions|] == plan.completions;
    CompletionsLog(BeginRelease(s, receipt, plan), receipt, plan, |plan.completions|);
  }

  lemma ReleaseTrail(s: Store, receipt: ReleaseReceipt, plan: ReleasePlan)
    ensures var r := CommitRelease(s, receipt, plan);
            && Extends(TrailOf(s), TrailOf(r.store))
            && (r.outcome.Ok? ==> r.store.releases == s.releases + [receipt])
  {
    var begun := BeginRelease(s, receipt, plan);
    ReleaseIsAllOrNothing(s, receipt, plan);
    CompletionsTrail(begun, plan.completions, receipt.createdAt, ReleaseActor(receipt));
    assert Extends(TrailOf(s), TrailOf(begun));
    ExtendsIsTransitive(TrailOf(s), TrailOf(begun),
                        TrailOf(CompleteAll(begun, plan.completions, receipt.createdAt, ReleaseActor(receipt)).store));
  }

  lemma CommitExtends(s: Store, op: Op)
    requires s.records.Valid() && (op.Write? || op.Lifecycle? || op.Archive? || op.Invalidate?)
    ensures Extends(TrailOf(s), TrailOf(Do(s, op).store))
  {
    match op
    case Write(_, _, _, _, _) => WriteExtends(s, op);
    case Lifecycle(_, _, _) => LifecycleExtends(s, op);
    case Archive(_, _, _) => ArchiveExtends(s, op);
    case Invalidate(event, receipts, events, outboxEvents, requirements) =>
      InvalidationExtends(s, event, receipts, events, outboxEvents, requirements);
  }

  lemma DeletionsExtend(s: Store, op: Op)
    requires op.Deletion? || op.Completion? || op.Release?
    ensures Extends(TrailOf(s), TrailOf(Do(s, op).store))
  {
    match op
    case Deletion(receipt, tombstone, outboxEvents, event) =>
      DeletionExtends(s, receipt, tombstone, outboxEvents, event);
    case Completion(recordId, receiptId, at, actor) => CompletionExtends(s, recordId, receiptId, at, actor);
    case Release(receipt, plan) => ReleaseTrail(s, receipt, plan);
  }

  lemma TransitionExtends(s: Store, event: StatusEvent)
    ensures Extends(TrailOf(s), TrailOf(TransitionState(s, event).store))
  {
    TransitionTrail(s, event);
    LogExtends(TrailOf(s), TransitionState(s, event).store.statusEvents, s.deletionReceipts);
  }

  lemma RebuildExtends(s: Store, receipt: RebuildReceipt, outboxEvents: seq<OutboxEvent>)
    ensures Extends(TrailOf(s), TrailOf(CommitRebuild(s, receipt, outboxEvents).store))
  {
    RebuildTrail(s, receipt, outboxEvents);
  }

  lemma OthersExtend(s: Store, op: Op)
    requires op.Transition? || op.ConflictLinks? || op.Rebuild?
    ensures Extends(TrailOf(s), TrailOf(Do(s, op).store))
  {
    match op
    case Transition(event) => TransitionExtends(s, event);
    case ConflictLinks(receipt) => LinkingExtends(s, receipt);
    case Rebuild(receipt, outboxEvents) => RebuildExtends(s, receipt, outboxEvents);
  }

  /** Every operation, refused ones included, only adds to the trail. */
  lemma StepExtends(s: Store, op: Op)
    requires s.records.Valid()
    ensures Extends(TrailOf(s), TrailOf(Do(s, op).store))
  {
    if op.Write? || op.Lifecycle? || op.Archive? || op.Invalidate? {
      CommitExtends(s, op);
    } else if op.Deletion? || op.Completion? || op.Release? {
      DeletionsExtend(s, op);
    } else if op.Transition? || op.ConflictLinks? || op.Rebuild? {
      OthersExtend(s, op);
    } else {
      LinksAndOutboxLeaveNoTrail(s, op);
    }
  }

  /** Main result: over every history the status log, the releases and the rebuilds only grow at their end, no receipt
      is ever taken off record, and an invalidation stands as it was committed. */
  lemma {:induction false} TrailOnlyGrows(s: Store, ops: seq<Op>)
    requires IndexAgrees(s) && Run(s, ops)
    ensures Extends(TrailOf(s), TrailOf(After(s, ops)))
    decreases |ops|
  {
    if ops != [] {
      var next := Do(s, ops[0]).store;
      StepExtends(s, ops[0]);
      StepKeepsAgreement(s, ops[0]);
      TrailOnlyGrows(next, ops[1..]);
      ExtendsIsTransitive(TrailOf(s), TrailOf(next), TrailOf(After(s, ops)));
    }
  }

  /** Main result: an event of a tenant invalidates once. After an accepted invalidation the same event id of the tenant
      is refused, without a change, whatever happened in between and whatever it targets now. */
  lemma InvalidationCommitsOnce(s: Store, op: Op, later: seq<Op>, again: Op)
    requires IndexAgrees(s) && op.Invalidate? && Do(s, op).outcome.Ok? && Run(Do(s, op).store, later)
    requires again.Invalidate? && again.invalidation.tenantId == op.invalidation.tenantId
    requires again.invalidation.eventId == op.invalidation.eventId
    ensures var t := After(Do(s, op).store, later);
            && Do(t, again).store == t && Do(t, again).outcome.Raised?
            && (Targets(again.events) == Transitioned(again.receipts) ==>
                  Do(t, again).outcome == Raised(IdempotencyConflict))
  {
    InvalidationTrail(s, op.invalidation, op.receipts, op.events, op.outboxEvents, op.requirements);
    StepKeepsAgreement(s, op);
    TrailOnlyGrows(Do(s, op).store, later);
    assert (op.invalidation.tenantId, op.invalidation.eventId) in TrailOf(Do(s, op).store).invalidations;
  }

  /** And nothing but that refuses it as a replay: another tenant's event of the same id does not. */
  lemma InvalidationIsReplayIff(s: Store, op: Op)
    requires op.Invalidate? && Targets(op.events) == Transitioned(op.receipts)
    ensures Do(s, op).outcome == Raised(IdempotencyConflict)
            <==> (op.invalidation.tenantId, op.invalidation.eventId) in s.invalidations
  {
    var noted := NoteInvalidation(s, op.invalidation, op.receipts);
    ChecksRaiseTransitionErrors(s.records, op.events);
    ApplyingRaisesTransitionErrors(LedgerOf(noted), op.events);
  }
}
