/** The contracts the record store keeps: records, events, receipts and links. */
module MemoryModel {
  import opened Prelude

  datatype MemoryState =
    | Candidate | Active | Superseded | Archived | Quarantined | Rejected | DeletionPending | Deleted

  /** A record. `payload` stands for the fields the store carries without reading. */
  datatype MemoryRecord = MemoryRecord(
    recordId: Uuid,
    tenantId: string,
    ns: string,
    memoryClass: string,
    idempotencyKey: string,
    state: MemoryState,
    validFrom: Time,
    validTo: Option<Time>,
    recordedAt: Time,
    supersededAt: Option<Time>,
    confidence: real,
    normalizedDigest: string,
    conflictsWith: seq<Uuid>,
    conditions: Option<SourceConditions>,
    payload: string)

  /** The structured invalidation conditions of a governed generated-data record. */
  datatype SourceConditions = SourceConditions(repository: string, conditions: seq<(string, string)>)

  datatype StatusEvent = StatusEvent(
    recordId: Uuid,
    previous: Option<MemoryState>,
    newState: MemoryState,
    actor: string,
    occurredAt: Time,
    receiptId: Option<Uuid>)

  datatype WriteReceipt = WriteReceipt(receiptId: Uuid, payload: string)

  datatype ArchiveReceipt = ArchiveReceipt(receiptId: Uuid, applied: bool, archivedRecordIds: seq<Uuid>)

  datatype LifecycleReceipt = LifecycleReceipt(receiptId: Uuid, transitions: seq<Uuid>)

  datatype ConflictReceipt = ConflictReceipt(receiptId: Uuid, links: seq<(Uuid, Uuid)>)

  datatype DeletionStatus = DryRun | PendingProjection | Complete

  datatype DeletionReceipt = DeletionReceipt(
    receiptId: Uuid, recordId: Uuid, status: DeletionStatus, completedAt: Option<Time>, payload: string)

  datatype ReleaseReceipt = ReleaseReceipt(receiptId: Uuid, applied: bool, actor: string, createdAt: Time)

  datatype RebuildReceipt = RebuildReceipt(receiptId: Uuid, applied: bool)

  datatype ProjectionLink = ProjectionLink(recordId: Uuid, targetIdentity: string, locator: string)

  /** A selector's identity is a digest of the record and the condition; here it is that pair itself. */
  datatype SelectorId = SelectorId(recordId: Uuid, selectorType: string, selectorValue: string)

  datatype Selector = Selector(
    recordId: Uuid,
    repository: string,
    selectorType: string,
    selectorValue: string,
    active: bool,
    deactivatedAt: Option<Time>)

  datatype InvalidationEvent = InvalidationEvent(tenantId: string, eventId: string, createdAt: Time)

  datatype Requirement = Requirement(requirementId: Uuid, recordId: Uuid)

  datatype OutboxStatus = Pending | Processing | Delivered | Retry | Dead

  datatype OutboxEvent = OutboxEvent(
    eventId: Uuid,
    payload: string,
    status: OutboxStatus,
    attempts: int,
    nextAttemptAt: Time,
    lastError: Option<string>,
    createdAt: Time,
    deliveredAt: Option<Time>,
    leaseId: Option<Uuid>,
    leaseOwner: Option<string>,
    leaseExpiresAt: Option<Time>)

  /** One record as the namespace digest sees it. */
  datatype Fingerprint = Fingerprint(
    recordId: Uuid, digest: string, state: MemoryState, validFrom: Time, validTo: Option<Time>, recordedAt: Time)

  /** What a governed write expects its namespace to hold when it commits. */
  datatype Precondition = Precondition(tenantId: string, ns: string, expected: set<Fingerprint>)

  datatype OperationKey = OperationKey(tenantId: string, ns: string, idempotencyKey: string)

  datatype SearchRequest = SearchRequest(
    memoryClasses: seq<string>,
    validAt: Time,
    recordedBefore: Option<Time>,
    includeSuperseded: bool,
    includeArchived: bool,
    minConfidence: real,
    limit: int)

  datatype StoreError =
    | TargetNotFound
    | UnexpectedState
    | IdempotencyConflict
    | SnapshotConflict
    | TargetsDiffer
    | NotApplied
    | LinkChanged
    | LinksRemain
    | EventNotFound
    | LeaseLost

  /** How a store method ends: normally, by answering "no", or by raising. */
  datatype Outcome = Ok | Declined | Raised(error: StoreError)

  function KeyOf(r: MemoryRecord): OperationKey {
    OperationKey(r.tenantId, r.ns, r.idempotencyKey)
  }

  function FingerprintOf(r: MemoryRecord): Fingerprint {
    Fingerprint(r.recordId, r.normalizedDigest, r.state, r.validFrom, r.validTo, r.recordedAt)
  }

  predicate IsValidAt(r: MemoryRecord, at: Time) {
    r.validFrom <= at && (r.validTo.None? || at < r.validTo.value)
  }
}
