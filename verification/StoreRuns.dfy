/** Histories of the store: every operation in any order. */
module StoreRuns {
  import opened Prelude
  import opened MemoryModel
  import opened OutboxSpec
  import opened StoreSpec

  datatype Op =
    | Write(record: Option<MemoryRecord>, receipt: WriteReceipt, outboxEvents: seq<OutboxEvent>,
            events: seq<StatusEvent>,
            expected: Option<Precondition>)
    | Transition(event: StatusEvent)
    | Lifecycle(lifecycle: LifecycleReceipt, events: seq<StatusEvent>, outboxEvents: seq<OutboxEvent>)
    | Archive(archive: ArchiveReceipt, events: seq<StatusEvent>, outboxEvents: seq<OutboxEvent>)
    | Invalidate(invalidation: InvalidationEvent, receipts: seq<LifecycleReceipt>, events: seq<StatusEvent>,
                 outboxEvents: seq<OutboxEvent>, requirements: seq<Requirement>)
    | ConflictLinks(conflict: ConflictReceipt)
    | Deletion(deletion: DeletionReceipt, tombstone: MemoryRecord, outboxEvents: seq<OutboxEvent>, event: StatusEvent)
    | Completion(recordId: Uuid, receiptId: Uuid, completedAt: Time, actor: string)
    | PutLink(link: ProjectionLink)
    | PutLinkIfActive(link: ProjectionLink, previous: Option<ProjectionLink>)
    | DropLink(recordId: Uuid, target: string)
    | Release(release: ReleaseReceipt, plan: ReleasePlan)
    | Rebuild(rebuild: RebuildReceipt, outboxEvents: seq<OutboxEvent>)
    | Claims(limit: int, now: Time, leaseSeconds: int, owner: string, leases: nat -> Uuid)
    | Updates(eventId: Uuid, settlement: Settlement, lease: Option<Uuid>)

  function Do(s: Store, op: Op): Step {
    match op
    case Write(record, receipt, outboxEvents, events, expected) =>
      CommitWrite(s, record, receipt, outboxEvents, events, expected)
    case Transition(event) => TransitionState(s, event)
    case Lifecycle(receipt, events, outboxEvents) => CommitLifecycle(s, receipt, events, outboxEvents)
    case Archive(receipt, events, outboxEvents) => CommitArchive(s, receipt, events, outboxEvents)
    case Invalidate(event, receipts, events, outboxEvents, requirements) =>
      CommitSourceInvalidation(s, event, receipts, events, outboxEvents, requirements)
    case ConflictLinks(receipt) => CommitConflictLinks(s, receipt)
    case Deletion(receipt, tombstone, outboxEvents, event) => CommitDeletion(s, receipt, tombstone, outboxEvents, event)
    case Completion(recordId, receiptId, completedAt, actor) =>
      CompleteDeletion(s, recordId, receiptId, completedAt, actor)
    case PutLink(link) => SaveLink(s, link)
    case PutLinkIfActive(link, previous) => SaveLinkIfActive(s, link, previous)
    case DropLink(recordId, target) => DeleteLink(s, recordId, target)
    case Release(receipt, plan) => CommitRelease(s, receipt, plan)
    case Rebuild(receipt, outboxEvents) => CommitRebuild(s, receipt, outboxEvents)
    case Claims(limit, now, leaseSeconds, owner, leases) => ClaimOutbox(s, limit, now, leaseSeconds, owner, leases)
    case Updates(eventId, settlement, lease) => UpdateOutbox(s, eventId, settlement, lease)
  }

  /** Writers mint a new record id; a tombstone keeps the identity and operation key of what it replaces. */
  ghost predicate Admissible(s: Store, op: Op) {
    match op
    case Write(record, _, _, _, _) => record.Some? ==> record.value.recordId !in s.records.at
    case Deletion(_, tombstone, _, _) =>
      tombstone.recordId in s.records.at ==> KeyOf(tombstone) == KeyOf(s.records.at[tombstone.recordId])
    case _ => true
  }

  ghost predicate Run(s: Store, ops: seq<Op>)
    decreases |ops|
  {
    ops != [] ==> Admissible(s, ops[0]) && Run(Do(s, ops[0]).store, ops[1..])
  }

  function After(s: Store, ops: seq<Op>): Store
    decreases |ops|
  {
    if ops == [] then s else After(Do(s, ops[0]).store, ops[1..])
  }
}
