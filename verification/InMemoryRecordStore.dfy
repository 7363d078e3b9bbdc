/** The store object: its dictionaries and logs, changed in place by each operation. */
module RecordStores {
  import opened Prelude
  import opened Sorting
  import opened OrderedDict
  import opened MemoryModel
  import opened Ledgers
  import opened OutboxSpec
  import opened StoreSpec

  class InMemoryRecordStore {
    var records: SoundDict<Uuid, MemoryRecord>
    var idempotency: map<OperationKey, Uuid>
    var statusEvents: seq<StatusEvent>
    var receipts: map<Uuid, WriteReceipt>
    var archiveReceipts: map<Uuid, ArchiveReceipt>
    var deletionReceipts: map<Uuid, DeletionReceipt>
    var lifecycleReceipts: map<Uuid, LifecycleReceipt>
    var conflictReceipts: map<Uuid, ConflictReceipt>
    var outbox: SoundDict<Uuid, OutboxEvent>
    var projectionLinks: map<LinkKey, ProjectionLink>
    var releases: seq<ReleaseReceipt>
    var rebuilds: seq<RebuildReceipt>
    var sourceSelectors: map<SelectorId, Selector>
    var sourceInvalidations: map<(string, string), InvalidationEvent>
    var requirements: map<Uuid, Requirement>

    ghost function View(): Store
      reads this
    {
      Store(records, idempotency, statusEvents, receipts, archiveReceipts, deletionReceipts, lifecycleReceipts,
            conflictReceipts,
            outbox, projectionLinks, releases, rebuilds, sourceSelectors, sourceInvalidations, requirements)
    }

    constructor ()
      ensures View() == EmptyStore()
    {
      records, idempotency, statusEvents, receipts := Empty(), map[], [], map[];
      archiveReceipts, deletionReceipts, lifecycleReceipts, conflictReceipts := map[], map[], map[], map[];
      outbox, projectionLinks, releases, rebuilds := Empty(), map[], [], [];
      sourceSelectors, sourceInvalidations, requirements := map[], map[], map[];
    }

    // ---- transitions ----

    method CheckTransition(event: StatusEvent) returns (outcome: Outcome)
      ensures outcome == Check(records, event)
    {
      if event.recordId !in records.at {
        return Raised(TargetNotFound);
      }
      if event.previous.Some? && records.at[event.recordId].state != event.previous.value {
        return Raised(UnexpectedState);
      }
      outcome := Ok;
    }

    method CheckTransitions(events: seq<StatusEvent>) returns (outcome: Outcome)
      ensures outcome == CheckAll(records, events)
    {
      CheckAllMeansEach(records, []);
      for i := 0 to |events|
        invariant CheckAll(records, events[..i]) == Ok
      {
        outcome := CheckTransition(events[i]);
        assert events[..i + 1][..i] == events[..i];
        if outcome.Raised? {
          CheckFailureSticks(records, events, i + 1);
          return;
        }
      }
      assert events[..|events|] == events;
      outcome := Ok;
    }

    method ApplyTransition(event: StatusEvent) returns (outcome: Outcome)
      modifies this`records, this`statusEvents
      ensures Step(View(), outcome) == TransitionState(old(View()), event)
    {
      outcome := CheckTransition(event);
      if outcome.Ok? {
        var record := records.at[event.recordId];
        var supersededAt := record.supersededAt;
        if event.newState == Superseded {
          supersededAt := Some(event.occurredAt);
        }
        PutKeepsValid(records, event.recordId, record.(state := event.newState, supersededAt := supersededAt));
        records := records.Put(event.recordId, record.(state := event.newState, supersededAt := supersededAt));
        statusEvents := statusEvents + [event];
      }
    }

    method ApplyTransitions(events: seq<StatusEvent>) returns (outcome: Outcome)
      modifies this`records, this`statusEvents
      ensures var applied := ApplyAll(LedgerOf(old(View())), events);
              View() == WithLedger(old(View()), applied.ledger) && outcome == applied.outcome
    {
      ghost var start := View();
      for i := 0 to |events|
        invariant ApplyAll(LedgerOf(start), events[..i]) == LedgerStep(LedgerOf(View()), Ok)
        invariant View() == WithLedger(start, LedgerOf(View()))
      {
        outcome := ApplyTransition(events[i]);
        assert events[..i + 1][..i] == events[..i];
        if outcome.Raised? {
          ApplyFailureSticks(LedgerOf(start), events, i + 1);
          return;
        }
      }
      assert events[..|events|] == events;
      outcome := Ok;
    }

    method TransitionRecord(event: StatusEvent) returns (outcome: Outcome)
      modifies this`records, this`statusEvents
      ensures Step(View(), outcome) == TransitionState(old(View()), event)
    {
      outcome := ApplyTransition(event);
    }

    method EnqueueAll(events: seq<OutboxEvent>)
      modifies this`outbox
      ensures outbox == Enqueue(old(outbox), events)
    {
      for i := 0 to |events|
        invariant outbox == Enqueue(old(outbox), events[..i])
      {
        PutKeepsValid(outbox, events[i].eventId, events[i]);
        outbox := outbox.Put(events[i].eventId, events[i]);
        assert events[..i + 1][..i] == events[..i];
      }
      assert events[..|events|] == events;
    }

    // ---- writing ----

    method RequirePhaseLockSnapshot(expected: Precondition) returns (outcome: Outcome)
      ensures outcome == if SnapshotHolds(View(), expected) then Ok else Raised(SnapshotConflict)
    {
      var current := ActiveSnapshot(records, expected.tenantId, expected.ns);
      outcome := if current != expected.expected then Raised(SnapshotConflict) else Ok;
    }

    method AddSourceSelectors(record: MemoryRecord)
      modifies this`sourceSelectors
      ensures sourceSelectors == IndexSelectors(old(sourceSelectors), record)
    {
      if record.conditions.Some? {
        var repository, conditions := record.conditions.value.repository, record.conditions.value.conditions;
        for i := 0 to |conditions|
          invariant sourceSelectors == AddSelectors(old(sourceSelectors), record, repository, conditions[..i])
        {
          var id := SelectorId(record.recordId, conditions[i].0, conditions[i].1);
          if id !in sourceSelectors {
            sourceSelectors := sourceSelectors[id := SelectorFor(record, repository, conditions[i])];
          }
          assert conditions[..i + 1][..i] == conditions[..i];
        }
        assert conditions[..|conditions|] == conditions;
      }
    }

    /** Apply the checked events and hand over the outbox events. */
    method FinishCommit(events: seq<StatusEvent>, outboxEvents: seq<OutboxEvent>) returns (outcome: Outcome)
      modifies this`records, this`statusEvents, this`outbox
      ensures Step(View(), outcome) == Finish(old(View()), events, outboxEvents)
    {
      outcome := ApplyTransitions(events);
      if outcome.Ok? {
        EnqueueAll(outboxEvents);
      }
      ApplyingEnds(LedgerOf(old(View())), events);
    }

    method StoreRecord(record: MemoryRecord)
      modifies this`records
      ensures records == old(records).Put(record.recordId, record)
    {
      PutKeepsValid(records, record.recordId, record);
      records := records.Put(record.recordId, record);
    }

    method InsertNew(record: MemoryRecord)
      modifies this`records, this`idempotency
      ensures View() == InsertRecord(old(View()), record)
    {
      StoreRecord(record);
      idempotency := idempotency[KeyOf(record) := record.recordId];
    }

    method RollBack(record: MemoryRecord)
      modifies this`records, this`idempotency
      ensures View() == Rollback(old(View()), record)
    {
      DeleteKeepsValid(records, record.recordId);
      records := records.Delete(record.recordId);
      idempotency := idempotency - {KeyOf(record)};
    }

    method NoteWritten(record: Option<MemoryRecord>, receipt: WriteReceipt)
      modifies this`receipts, this`sourceSelectors
      ensures View() == NoteWrite(old(View()), record, receipt)
    {
      receipts := receipts[receipt.receiptId := receipt];
      if record.Some? {
        AddSourceSelectors(record.value);
      }
    }

    /** With the record in: check every event, then roll back or carry the write through. */
    method AdmitRecord(record: Option<MemoryRecord>, receipt: WriteReceipt, outboxEvents: seq<OutboxEvent>,
                       events: seq<StatusEvent>) returns (outcome: Outcome)
      modifies this
      ensures Step(View(), outcome) == AdmitWrite(old(View()), record, receipt, outboxEvents, events)
    {
      outcome := CheckTransitions(events);
      if outcome.Raised? {
        if record.Some? {
          RollBack(record.value);
        }
        return;
      }
      NoteWritten(record, receipt);
      outcome := FinishCommit(events, outboxEvents);
    }

    method CommitWriteRecord(record: Option<MemoryRecord>, receipt: WriteReceipt, outboxEvents: seq<OutboxEvent>,
                             events: seq<StatusEvent>, expected: Option<Precondition>) returns (outcome: Outcome)
      modifies this
      ensures Step(View(), outcome) == CommitWrite(old(View()), record, receipt, outboxEvents, events, expected)
    {
      if expected.Some? {
        outcome := RequirePhaseLockSnapshot(expected.value);
        if outcome.Raised? {
          return;
        }
      }
      if record.Some? {
        var key := KeyOf(record.value);
        if key in idempotency && idempotency[key] != record.value.recordId {
          return Raised(IdempotencyConflict);
        }
        InsertNew(record.value);
      }
      outcome := AdmitRecord(record, receipt, outboxEvents, events);
    }

    /** While index and records agree: the one record with this operation key, or none has it. */
    method FindByKey(tenantId: string, ns: string, idempotencyKey: string) returns (record: Option<MemoryRecord>)
      ensures var key := OperationKey(tenantId, ns, idempotencyKey);
              && record == FindByIdempotency(View(), key)
              && (IndexAgrees(View()) ==>
                    match record
                    case Some(found) =>
                      && found.recordId in records.at && records.at[found.recordId] == found && KeyOf(found) == key
                      && (forall id :: id in records.at && KeyOf(records.at[id]) == key ==> id == found.recordId)
                    case None => forall id :: id in records.at ==> KeyOf(records.at[id]) != key)
    {
      var key := OperationKey(tenantId, ns, idempotencyKey);
      if key in idempotency && idempotency[key] in records.at {
        return Some(records.at[idempotency[key]]);
      }
      record := None;
    }

    // ---- transition commits ----

    method CommitLifecycleTransitions(receipt: LifecycleReceipt, events: seq<StatusEvent>,
                                      outboxEvents: seq<OutboxEvent>)
      returns (outcome: Outcome)
      modifies this
      ensures Step(View(), outcome) == CommitLifecycle(old(View()), receipt, events, outboxEvents)
    {
      if Targets(events) != AsSet(receipt.transitions) {
        return Raised(TargetsDiffer);
      }
      outcome := CheckTransitions(events);
      if outcome.Raised? {
        return;
      }
      lifecycleReceipts := lifecycleReceipts[receipt.receiptId := receipt];
      outcome := FinishCommit(events, outboxEvents);
    }

    method CommitArchiveRecords(receipt: ArchiveReceipt, events: seq<StatusEvent>, outboxEvents: seq<OutboxEvent>)
      returns (outcome: Outcome)
      modifies this
      ensures Step(View(), outcome) == CommitArchive(old(View()), receipt, events, outboxEvents)
    {
      if !receipt.applied {
        return Raised(NotApplied);
      }
      if Targets(events) != AsSet(receipt.archivedRecordIds) {
        return Raised(TargetsDiffer);
      }
      outcome := CheckTransitions(events);
      if outcome.Raised? {
        return;
      }
      archiveReceipts := archiveReceipts[receipt.receiptId := receipt];
      outcome := FinishCommit(events, outboxEvents);
    }

    method CommitInvalidation(event: InvalidationEvent, lifecycle: seq<LifecycleReceipt>, events: seq<StatusEvent>,
                              outboxEvents: seq<OutboxEvent>, more: seq<Requirement>) returns (outcome: Outcome)
      modifies this
      ensures Step(View(), outcome)
              == CommitSourceInvalidation(old(View()), event, lifecycle, events, outboxEvents, more)
    {
      ghost var s := View();
      var transitioned := Transitioned(lifecycle);
      if Targets(events) != transitioned {
        return Raised(TargetsDiffer);
      }
      var key := (event.tenantId, event.eventId);
      if key in sourceInvalidations {
        return Raised(IdempotencyConflict);
      }
      outcome := CheckTransitions(events);
      if outcome.Raised? {
        return;
      }
      NoteInvalidated(event, lifecycle);
      outcome := FinishCommit(events, outboxEvents);
      if outcome.Raised? {
        return;
      }
      Withdraw(more, transitioned, event.createdAt);
      ApplyingEnds(LedgerOf(NoteInvalidation(s, event, lifecycle)), events);
    }

    method NoteInvalidated(event: InvalidationEvent, lifecycle: seq<LifecycleReceipt>)
      modifies this`sourceInvalidations, this`lifecycleReceipts
      ensures View() == NoteInvalidation(old(View()), event, lifecycle)
    {
      sourceInvalidations := sourceInvalidations[(event.tenantId, event.eventId) := event];
      NoteLifecycle(lifecycle);
    }

    method Withdraw(more: seq<Requirement>, transitioned: set<Uuid>, at: Time)
      modifies this`requirements, this`sourceSelectors
      ensures View() == old(View()).(requirements := NoteRequirements(old(requirements), more),
                                     selectors := Deactivate(old(sourceSelectors), transitioned, at))
    {
      NoteRevalidation(more);
      sourceSelectors := Deactivate(sourceSelectors, transitioned, at);
    }

    method NoteLifecycle(lifecycle: seq<LifecycleReceipt>)
      modifies this`lifecycleReceipts
      ensures lifecycleReceipts == NoteReceipts(old(lifecycleReceipts), lifecycle)
    {
      for i := 0 to |lifecycle|
        invariant lifecycleReceipts == NoteReceipts(old(lifecycleReceipts), lifecycle[..i])
      {
        lifecycleReceipts := lifecycleReceipts[lifecycle[i].receiptId := lifecycle[i]];
        assert lifecycle[..i + 1][..i] == lifecycle[..i];
      }
      assert lifecycle[..|lifecycle|] == lifecycle;
    }

    method NoteRevalidation(more: seq<Requirement>)
      modifies this`requirements
      ensures requirements == NoteRequirements(old(requirements), more)
    {
      for i := 0 to |more|
        invariant requirements == NoteRequirements(old(requirements), more[..i])
      {
        requirements := requirements[more[i].requirementId := more[i]];
        assert more[..i + 1][..i] == more[..i];
      }
      assert more[..|more|] == more;
    }

    method CheckEnds(links: seq<(Uuid, Uuid)>) returns (known: bool)
      ensures known == EndsKnown(records, links)
    {
      for i := 0 to |links|
        invariant forall j :: 0 <= j < i ==> links[j].0 in records.at && links[j].1 in records.at
      {
        if links[i].0 !in records.at || links[i].1 !in records.at {
          return false;
        }
      }
      known := true;
    }

    method LinkEach(links: seq<(Uuid, Uuid)>)
      modifies this`records
      ensures records == AddConflictLinks(old(records), links)
    {
      for i := 0 to |links|
        invariant records == AddConflictLinks(old(records), links[..i])
      {
        LinkingKeepsValid(records, links[i].0, links[i].1);
        records := AddConflictLink(records, links[i].0, links[i].1);
        LinkingKeepsValid(records, links[i].1, links[i].0);
        records := AddConflictLink(records, links[i].1, links[i].0);
        assert links[..i + 1][..i] == links[..i];
      }
      assert links[..|links|] == links;
    }

    method LinkConflicts(receipt: ConflictReceipt) returns (outcome: Outcome)
      modifies this`records, this`conflictReceipts
      ensures Step(View(), outcome) == CommitConflictLinks(old(View()), receipt)
    {
      var known := CheckEnds(receipt.links);
      if !known {
        return Raised(TargetNotFound);
      }
      LinkEach(receipt.links);
      conflictReceipts := conflictReceipts[receipt.receiptId := receipt];
      outcome := Ok;
    }

    // ---- deletion ----

    method CommitTombstone(receipt: DeletionReceipt, tombstone: MemoryRecord, outboxEvents: seq<OutboxEvent>,
                           event: StatusEvent)
      returns (outcome: Outcome)
      modifies this
      ensures Step(View(), outcome) == CommitDeletion(old(View()), receipt, tombstone, outboxEvents, event)
    {
      if tombstone.recordId != receipt.recordId {
        return Raised(TargetsDiffer);
      }
      if event.recordId != receipt.recordId || event.newState != tombstone.state {
        return Raised(TargetsDiffer);
      }
      if tombstone.recordId !in records.at {
        return Raised(TargetNotFound);
      }
      outcome := CheckTransition(event);
      if outcome.Raised? {
        return;
      }
      Bury(receipt, tombstone, event);
      EnqueueAll(outboxEvents);
    }

    method Redact(tombstone: MemoryRecord)
      modifies this`records, this`sourceSelectors
      ensures View() == old(View()).(records := old(records).Put(tombstone.recordId, tombstone),
                                     selectors := DropSelectors(old(sourceSelectors), tombstone.recordId))
    {
      StoreRecord(tombstone);
      sourceSelectors := DropSelectors(sourceSelectors, tombstone.recordId);
    }

    method NoteDeletion(receipt: DeletionReceipt, event: StatusEvent)
      modifies this`statusEvents, this`deletionReceipts
      ensures View() == old(View()).(statusEvents := old(statusEvents) + [event],
                                     deletionReceipts := old(deletionReceipts)[receipt.receiptId := receipt])
    {
      statusEvents := statusEvents + [event];
      deletionReceipts := deletionReceipts[receipt.receiptId := receipt];
    }

    method Bury(receipt: DeletionReceipt, tombstone: MemoryRecord, event: StatusEvent)
      modifies this`statusEvents, this`records, this`sourceSelectors, this`deletionReceipts
      ensures View() == BuryRecord(old(View()), receipt, tombstone, event)
    {
      NoteDeletion(receipt, event);
      Redact(tombstone);
    }

    method FinishDeletion(recordId: Uuid, receiptId: Uuid, completedAt: Time, actor: string) returns (outcome: Outcome)
      modifies this`records, this`statusEvents, this`deletionReceipts
      ensures Step(View(), outcome) == CompleteDeletion(old(View()), recordId, receiptId, completedAt, actor)
    {
      if recordId !in records.at || receiptId !in deletionReceipts {
        return Raised(TargetNotFound);
      }
      if LinksOf(projectionLinks, recordId) != {} {
        return Raised(LinksRemain);
      }
      var record, receipt := records.at[recordId], deletionReceipts[receiptId];
      if record.state != Deleted {
        outcome := ApplyTransition(StatusEvent(recordId, Some(record.state), Deleted, actor, completedAt,
                                               Some(receiptId)));
      }
      deletionReceipts := deletionReceipts[receiptId := receipt.(status := Complete, completedAt := Some(completedAt))];
      outcome := Ok;
    }

    // ---- projection links ----

    method SaveProjectionLink(link: ProjectionLink)
      modifies this`projectionLinks
      ensures View() == SaveLink(old(View()), link).store
    {
      projectionLinks := projectionLinks[(link.recordId, link.targetIdentity) := link];
    }

    method SaveProjectionLinkIfActive(link: ProjectionLink, previous: Option<ProjectionLink>) returns (outcome: Outcome)
      modifies this`projectionLinks
      ensures Step(View(), outcome) == SaveLinkIfActive(old(View()), link, previous)
    {
      if link.recordId !in records.at || records.at[link.recordId].state != Active {
        return Declined;
      }
      var key := (link.recordId, link.targetIdentity);
      if LinkAt(projectionLinks, key) != previous {
        return Raised(LinkChanged);
      }
      projectionLinks := projectionLinks[key := link];
      outcome := Ok;
    }

    method DeleteProjectionLink(recordId: Uuid, target: string)
      modifies this`projectionLinks
      ensures View() == DeleteLink(old(View()), recordId, target).store
    {
      projectionLinks := projectionLinks - {(recordId, target)};
    }

    method ChangeLinks(updates: seq<ProjectionLink>, removals: seq<LinkKey>)
      modifies this`projectionLinks
      ensures projectionLinks == RemoveLinks(UpdateLinks(old(projectionLinks), updates), removals)
    {
      for i := 0 to |updates|
        invariant projectionLinks == UpdateLinks(old(projectionLinks), updates[..i])
      {
        projectionLinks := projectionLinks[(updates[i].recordId, updates[i].targetIdentity) := updates[i]];
        assert updates[..i + 1][..i] == updates[..i];
      }
      assert updates[..|updates|] == updates;
      ghost var updated := projectionLinks;
      for i := 0 to |removals|
        invariant projectionLinks == RemoveLinks(updated, removals[..i])
      {
        projectionLinks := projectionLinks - {removals[i]};
        assert removals[..i + 1] == removals[..i] + [removals[i]];
      }
      assert removals[..|removals|] == removals;
    }

    method FinishDeletions(completions: seq<(Uuid, Uuid)>, completedAt: Time, actor: string) returns (outcome: Outcome)
      modifies this`records, this`statusEvents, this`deletionReceipts
      ensures Step(View(), outcome) == CompleteAll(old(View()), completions, completedAt, actor)
    {
      ghost var start := View();
      for i := 0 to |completions|
        invariant CompleteAll(start, completions[..i], completedAt, actor) == Step(View(), Ok)
      {
        outcome := FinishDeletion(completions[i].0, completions[i].1, completedAt, actor);
        OneMoreCompletion(start, completions, i, completedAt, actor);
        if outcome.Raised? {
          CompletionFailureSticks(start, completions, i + 1, completedAt, actor);
          return;
        }
      }
      assert completions[..|completions|] == completions;
      outcome := Ok;
    }

    method CheckExpectedLinks(expected: seq<ProjectionLink>) returns (current: bool)
      ensures current == LinksAsExpected(View(), expected)
    {
      for i := 0 to |expected|
        invariant forall j :: 0 <= j < i ==>
          LinkAt(projectionLinks, (expected[j].recordId, expected[j].targetIdentity)) == Some(expected[j])
      {
        if LinkAt(projectionLinks, (expected[i].recordId, expected[i].targetIdentity)) != Some(expected[i]) {
          return false;
        }
      }
      current := true;
    }

    method CheckCompletions(completions: seq<(Uuid, Uuid)>) returns (known: bool)
      ensures known == CompletionsKnown(View(), completions)
    {
      for i := 0 to |completions|
        invariant forall j :: 0 <= j < i ==> completions[j].0 in records.at && completions[j].1 in deletionReceipts
      {
        if completions[i].0 !in records.at || completions[i].1 !in deletionReceipts {
          return false;
        }
      }
      known := true;
    }

    method OpenRelease(receipt: ReleaseReceipt, plan: ReleasePlan)
      modifies this`releases, this`projectionLinks
      ensures View() == BeginRelease(old(View()), receipt, plan)
    {
      releases := releases + [receipt];
      ChangeLinks(plan.updates, plan.removals);
    }

    /** Every effect in turn, up to the first that raises. */
    method ApplyRelease(receipt: ReleaseReceipt, plan: ReleasePlan) returns (outcome: Outcome)
      modifies this`releases, this`projectionLinks, this`records, this`statusEvents, this`deletionReceipts
      ensures Step(View(), outcome)
           == CompleteAll(BeginRelease(old(View()), receipt, plan), plan.completions, receipt.createdAt,
                          ReleaseActor(receipt))
    {
      OpenRelease(receipt, plan);
      outcome := FinishDeletions(plan.completions, receipt.createdAt, ReleaseActor(receipt));
    }

    /** Put the five parts back. */
    method PutBack(was: (SoundDict<Uuid, MemoryRecord>, map<Uuid, DeletionReceipt>, seq<StatusEvent>,
                         map<LinkKey, ProjectionLink>, seq<ReleaseReceipt>))
      modifies this`records, this`deletionReceipts, this`statusEvents, this`projectionLinks, this`releases
      ensures (records, deletionReceipts, statusEvents, projectionLinks, releases) == was
    {
      records, deletionReceipts, statusEvents, projectionLinks, releases := was.0, was.1, was.2, was.3, was.4;
    }

    /** Remember what is about to change, change it, and restore it all if any step raises. */
    method AttemptRelease(receipt: ReleaseReceipt, plan: ReleasePlan) returns (outcome: Outcome)
      modifies this`releases, this`projectionLinks, this`records, this`statusEvents, this`deletionReceipts
      ensures Step(View(), outcome) == PerformRelease(old(View()), receipt, plan)
    {
      var remembered := (records, deletionReceipts, statusEvents, projectionLinks, releases);
      outcome := ApplyRelease(receipt, plan);
      if outcome.Raised? {
        PutBack(remembered);
      }
    }

    /** Validate every effect before applying any. */
    method CommitLegacyRelease(receipt: ReleaseReceipt, plan: ReleasePlan) returns (outcome: Outcome)
      modifies this
      ensures Step(View(), outcome) == CommitRelease(old(View()), receipt, plan)
    {
      if !receipt.applied {
        return Raised(NotApplied);
      }
      var current := CheckExpectedLinks(plan.expected);
      if !current {
        return Raised(LinkChanged);
      }
      var known := CheckCompletions(plan.completions);
      if !known {
        return Raised(TargetNotFound);
      }
      outcome := AttemptRelease(receipt, plan);
    }

    method CommitProjectionRebuild(receipt: RebuildReceipt, outboxEvents: seq<OutboxEvent>) returns (outcome: Outcome)
      modifies this`rebuilds, this`outbox
      ensures Step(View(), outcome) == CommitRebuild(old(View()), receipt, outboxEvents)
    {
      if !receipt.applied {
        return Raised(NotApplied);
      }
      rebuilds := rebuilds + [receipt];
      EnqueueAll(outboxEvents);
      outcome := Ok;
    }

    // ---- the outbox ----

    method ClaimableEvents(now: Time) returns (candidates: seq<OutboxEvent>)
      ensures candidates == ClaimableAmong(outbox.Values(), now)
    {
      var all := outbox.Values();
      candidates := [];
      for i := 0 to |all|
        invariant candidates == ClaimableAmong(all[..i], now)
      {
        if Claimable(all[i], now) {
          candidates := candidates + [all[i]];
        }
        assert all[..i + 1][..i] == all[..i];
      }
      assert all[..|all|] == all;
    }

    method LeaseEach(picked: seq<OutboxEvent>, leases: nat -> Uuid, owner: string, until: Time)
      returns (claimed: seq<OutboxEvent>)
      modifies this`outbox
      ensures claimed == LeasedEvents(picked, leases, owner, until)
      ensures outbox == Enqueue(old(outbox), claimed)
    {
      claimed := [];
      for i := 0 to |picked|
        invariant claimed == LeasedEvents(picked[..i], leases, owner, until)
        invariant outbox == Enqueue(old(outbox), claimed)
      {
        var updated := Leased(picked[i], leases(i), owner, until);
        PutKeepsValid(outbox, picked[i].eventId, updated);
        outbox := outbox.Put(picked[i].eventId, updated);
        assert (claimed + [updated])[..|claimed|] == claimed;
        claimed := claimed + [updated];
        assert picked[..i + 1][..i] == picked[..i];
      }
      assert picked[..|picked|] == picked;
    }

    method PickOldest(limit: int, now: Time) returns (picked: seq<OutboxEvent>)
      ensures picked == Picked(outbox, limit, now)
    {
      var candidates := ClaimableEvents(now);
      picked := Take(SortBy(OldestFirst, candidates), limit);
    }

    method LeaseOldest(limit: int, now: Time, leaseSeconds: int, owner: string, leases: nat -> Uuid)
      returns (claimed: seq<OutboxEvent>)
      modifies this`outbox
      ensures claimed == ClaimedEvents(old(outbox), limit, now, leaseSeconds, owner, leases)
      ensures outbox == Enqueue(old(outbox), claimed)
    {
      var picked := PickOldest(limit, now);
      claimed := LeaseEach(picked, leases, owner, now + leaseSeconds * SECOND);
    }

    /** `leases` supplies the identifiers a claim mints. */
    method ClaimEvents(limit: int, now: Time, leaseSeconds: int, owner: string, leases: nat -> Uuid)
      returns (claimed: seq<OutboxEvent>)
      modifies this`outbox
      ensures View() == ClaimOutbox(old(View()), limit, now, leaseSeconds, owner, leases).store
      ensures claimed == ClaimedEvents(old(outbox), limit, now, leaseSeconds, owner, leases)
    {
      claimed := LeaseOldest(limit, now, leaseSeconds, owner, leases);
    }

    method SettleEvent(eventId: Uuid, settlement: Settlement, lease: Option<Uuid>) returns (outcome: Outcome)
      modifies this`outbox
      ensures Step(View(), outcome) == UpdateOutbox(old(View()), eventId, settlement, lease)
    {
      if eventId !in outbox.at {
        return Raised(EventNotFound);
      }
      var event := outbox.at[eventId];
      if lease.Some? && event.leaseId != lease {
        return Raised(LeaseLost);
      }
      var settled := event.(
        status := settlement.status, attempts := settlement.attempts, nextAttemptAt := settlement.nextAttemptAt,
        lastError := settlement.lastError, deliveredAt := settlement.deliveredAt,
        leaseId := None, leaseOwner := None, leaseExpiresAt := None);
      PutKeepsValid(outbox, eventId, settled);
      outbox := outbox.Put(eventId, settled);
      outcome := Ok;
    }

    method OutboxBacklog() returns (backlog: nat)
      ensures backlog == Backlog(outbox)
    {
      backlog := 0;
      var order := outbox.order;
      for i := 0 to |order|
        invariant backlog == |OpenAmong(outbox, order[..i])|
      {
        OpenAmongGrows(outbox, order, i);
        if IsOpen(outbox.at[order[i]]) {
          backlog := backlog + 1;
        }
      }
      assert order[..|order|] == order;
      assert OpenAmong(outbox, order) == OpenIds(outbox);
    }

    // ---- reading ----

    method Search(tenantId: string, q: SearchRequest, namespaces: seq<string>) returns (found: seq<MemoryRecord>)
      ensures found == SearchRecords(View(), tenantId, q, namespaces)
    {
      var allowed := {Active};
      if q.includeSuperseded { allowed := allowed + {Superseded}; }
      if q.includeArchived { allowed := allowed + {Archived}; }
      var before := if q.recordedBefore.Some? then q.recordedBefore.value else q.validAt;
      var all := records.Values();
      var results: seq<MemoryRecord> := [];
      for i := 0 to |all|
        invariant results == MatchesAmong(all[..i], tenantId, q, namespaces)
      {
        var r := all[i];
        assert all[..i + 1][..i] == all[..i];
        assert (r.state in allowed) == Visible(r.state, q);
        if r.tenantId != tenantId || r.ns !in namespaces { continue; }
        if r.state !in allowed || r.confidence < q.minConfidence { continue; }
        if q.memoryClasses != [] && r.memoryClass !in q.memoryClasses { continue; }
        if !IsValidAt(r, q.validAt) { continue; }
        if r.recordedAt > before { continue; }
        results := results + [r];
      }
      assert all[..|all|] == all;
      found := Take(SortBy(NewestFirst, results), q.limit * 10);
    }

    /** Exactly the ACTIVE records of the tenant with an active matching selector, each once, in identifier order. */
    method FindSourceSelectorMatches(q: SelectorQuery) returns (found: seq<Uuid>)
      ensures forall i, j :: 0 <= i < j < |found| ==> found[i] < found[j]
      ensures forall id :: id in found <==> id in SelectedRecords(View(), q)
    {
      ghost var s := View();
      var matches: set<Uuid> := {};
      ghost var seen: set<SelectorId> := {};
      var left := sourceSelectors.Keys;
      while left != {}
        invariant left + seen == sourceSelectors.Keys
        invariant matches == SelectedAmong(s, q, seen)
        decreases |left|
      {
        var k :| k in left;
        SelectedAmongGrows(s, q, seen, k);
        left, seen := left - {k}, seen + {k};
        var selector := sourceSelectors[k];
        if !selector.active { continue; }
        if q.repository.Some? && selector.repository != q.repository.value { continue; }
        if selector.selectorType != q.selectorType || selector.selectorValue != q.selectorValue { continue; }
        if selector.recordId !in records.at || records.at[selector.recordId].tenantId != q.tenantId { continue; }
        if records.at[selector.recordId].state != Active { continue; }
        matches := matches + {selector.recordId};
      }
      SelectedAmongAll(s, q);
      found := Ascending(matches);
    }
  }

  method Least(ids: set<Uuid>) returns (least: Uuid)
    requires ids != {}
    ensures least in ids && forall id :: id in ids ==> least <= id
  {
    least :| least in ids;
    var left := ids - {least};
    while left != {}
      invariant least in ids && left <= ids
      invariant forall id :: id in ids && id !in left ==> least <= id
      decreases |left|
    {
      var next :| next in left;
      if next < least {
        least := next;
      }
      left := left - {next};
    }
  }

  /** `sorted` on a set of identifiers: repeatedly the least one left. */
  method Ascending(ids: set<Uuid>) returns (sorted: seq<Uuid>)
    ensures forall i, j :: 0 <= i < j < |sorted| ==> sorted[i] < sorted[j]
    ensures forall id :: id in sorted <==> id in ids
  {
    sorted := [];
    var left := ids;
    while left != {}
      invariant left <= ids
      invariant forall i, j :: 0 <= i < j < |sorted| ==> sorted[i] < sorted[j]
      invariant sorted != [] ==> forall id :: id in left ==> sorted[|sorted| - 1] < id
      invariant forall id :: id in ids ==> id in sorted || id in left
      invariant forall id :: id in sorted ==> id in ids
      decreases |left|
    {
      var least := Least(left);
      left := left - {least};
      sorted := sorted + [least];
    }
  }

  lemma LinkingKeepsValid(records: Dict<Uuid, MemoryRecord>, a: Uuid, b: Uuid)
    requires records.Valid()
    ensures AddConflictLink(records, a, b).Valid()
  {
  }

  /** The matches among some of the selectors. */
  ghost function SelectedAmong(s: Store, q: SelectorQuery, keys: set<SelectorId>): set<Uuid> {
    set k | k in keys && k in s.selectors && Selects(s.records, s.selectors[k], q) :: s.selectors[k].recordId
  }

  lemma SelectedAmongGrows(s: Store, q: SelectorQuery, keys: set<SelectorId>, k: SelectorId)
    requires k in s.selectors
    ensures SelectedAmong(s, q, keys + {k}) ==
            SelectedAmong(s, q, keys) + if Selects(s.records, s.selectors[k], q) then {s.selectors[k].recordId} else {}
  {
    assert k in keys + {k};
  }

  lemma SelectedAmongAll(s: Store, q: SelectorQuery)
    ensures SelectedAmong(s, q, s.selectors.Keys) == SelectedRecords(s, q)
  {
  }

  ghost function OpenAmong(o: Outbox, order: seq<Uuid>): set<Uuid> {
    set id | id in order && id in o.at && IsOpen(o.at[id])
  }

  lemma OpenAmongGrows(o: Outbox, order: seq<Uuid>, i: nat)
    requires i < |order| && Distinct(order) && order[i] in o.at
    ensures OpenAmong(o, order[..i + 1]) == OpenAmong(o, order[..i]) + if IsOpen(o.at[order[i]]) then {order[i]} else {}
    ensures order[i] !in OpenAmong(o, order[..i])
  {
    assert order[..i + 1] == order[..i] + [order[i]];
  }

  lemma OneMoreCompletion(s: Store, completions: seq<(Uuid, Uuid)>, n: nat, at: Time, actor: string)
    requires n < |completions|
    ensures var before := CompleteAll(s, completions[..n], at, actor);
            CompleteAll(s, completions[..n + 1], at, actor) ==
            if before.outcome.Raised? then before
            else CompleteDeletion(before.store, completions[n].0, completions[n].1, at, actor)
  {
    assert completions[..n + 1][..n] == completions[..n];
  }

  /** Once a completion raises, the rest of the list changes nothing. */
  lemma CompletionFailureSticks(s: Store, completions: seq<(Uuid, Uuid)>, k: nat, at: Time, actor: string)
    requires k <= |completions| && CompleteAll(s, completions[..k], at, actor).outcome.Raised?
    ensures CompleteAll(s, completions, at, actor) == CompleteAll(s, completions[..k], at, actor)
  {
    for n := k to |completions|
      invariant CompleteAll(s, completions[..n], at, actor) == CompleteAll(s, completions[..k], at, actor)
    {
      OneMoreCompletion(s, completions, n, at, actor);
    }
    assert completions[..|completions|] == completions;
  }
}
