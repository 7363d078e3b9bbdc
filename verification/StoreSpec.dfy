/** The canonical record store as a value, and each of its operations as one step. */
module StoreSpec {
  import opened Prelude
  import opened Sorting
  import opened OrderedDict
  import opened MemoryModel
  import opened Ledgers
  import opened OutboxSpec

  type LinkKey = (Uuid, string)

  datatype Store = Store(
    records: Dict<Uuid, MemoryRecord>,
    idempotency: map<OperationKey, Uuid>,
    statusEvents: seq<StatusEvent>,
    receipts: map<Uuid, WriteReceipt>,
    archiveReceipts: map<Uuid, ArchiveReceipt>,
    deletionReceipts: map<Uuid, DeletionReceipt>,
    lifecycleReceipts: map<Uuid, LifecycleReceipt>,
    conflictReceipts: map<Uuid, ConflictReceipt>,
    outbox: Outbox,
    links: map<LinkKey, ProjectionLink>,
    releases: seq<ReleaseReceipt>,
    rebuilds: seq<RebuildReceipt>,
    selectors: map<SelectorId, Selector>,
    invalidations: map<(string, string), InvalidationEvent>,
    requirements: map<Uuid, Requirement>)

  datatype Step = Step(store: Store, outcome: Outcome)

  function EmptyStore(): Store {
    Store(Empty(), map[], [], map[], map[], map[], map[], map[], Empty(), map[], [], [], map[], map[], map[])
  }

  function LedgerOf(s: Store): Ledger {
    Ledger(s.records, s.statusEvents)
  }

  function WithLedger(s: Store, l: Ledger): Store {
    s.(records := l.records, statusEvents := l.log)
  }

  // ---- writing ----

  /** The namespace's live ACTIVE records, as the digest fingerprints them. */
  function ActiveSnapshot(records: Dict<Uuid, MemoryRecord>, tenantId: string, ns: string): set<Fingerprint> {
    set id | id in records.at && records.at[id].tenantId == tenantId && records.at[id].ns == ns
             && records.at[id].state == Active
      :: FingerprintOf(records.at[id])
  }

  predicate SnapshotHolds(s: Store, p: Precondition) {
    ActiveSnapshot(s.records, p.tenantId, p.ns) == p.expected
  }

  predicate KeyTaken(s: Store, r: MemoryRecord) {
    KeyOf(r) in s.idempotency && s.idempotency[KeyOf(r)] != r.recordId
  }

  function InsertRecord(s: Store, r: MemoryRecord): Store {
    s.(records := s.records.Put(r.recordId, r), idempotency := s.idempotency[KeyOf(r) := r.recordId])
  }

  function Rollback(s: Store, r: MemoryRecord): Store {
    s.(records := s.records.Delete(r.recordId), idempotency := s.idempotency - {KeyOf(r)})
  }

  function SelectorFor(r: MemoryRecord, repository: string, condition: (string, string)): Selector {
    Selector(r.recordId, repository, condition.0, condition.1, true, None)
  }

  /** Index a record's conditions; an identifier already present keeps its selector. */
  function AddSelectors(selectors: map<SelectorId, Selector>, r: MemoryRecord, repository: string,
                        conditions: seq<(string, string)>):
    map<SelectorId, Selector>
  {
    if conditions == [] then selectors
    else
      var n := |conditions| - 1;
      var before := AddSelectors(selectors, r, repository, conditions[..n]);
      var id := SelectorId(r.recordId, conditions[n].0, conditions[n].1);
      if id in before then before else before[id := SelectorFor(r, repository, conditions[n])]
  }

  function IndexSelectors(selectors: map<SelectorId, Selector>, r: MemoryRecord): map<SelectorId, Selector> {
    match r.conditions
    case None => selectors
    case Some(c) => AddSelectors(selectors, r, c.repository, c.conditions)
  }

  /** The end of every transition commit: apply each event in turn, then enqueue. */
  function Finish(s: Store, events: seq<StatusEvent>, outboxEvents: seq<OutboxEvent>): Step {
    var applied := ApplyAll(LedgerOf(s), events);
    var moved := WithLedger(s, applied.ledger);
    if applied.outcome.Raised? then Step(moved, applied.outcome)
    else Step(moved.(outbox := Enqueue(moved.outbox, outboxEvents)), Ok)
  }

  function NoteWrite(s: Store, record: Option<MemoryRecord>, receipt: WriteReceipt): Store {
    s.(receipts := s.receipts[receipt.receiptId := receipt],
       selectors := if record.Some? then IndexSelectors(s.selectors, record.value) else s.selectors)
  }

  function Inserted(s: Store, record: Option<MemoryRecord>): Store {
    if record.Some? then InsertRecord(s, record.value) else s
  }

  /** With the record in, check every transition: roll the insert back on failure, otherwise carry the write through. */
  function AdmitWrite(s: Store, record: Option<MemoryRecord>, receipt: WriteReceipt, outboxEvents: seq<OutboxEvent>,
                      events: seq<StatusEvent>): Step
  {
    var checked := CheckAll(s.records, events);
    if checked.Raised? then Step(if record.Some? then Rollback(s, record.value) else s, checked)
    else Finish(NoteWrite(s, record, receipt), events, outboxEvents)
  }

  function CommitWrite(s: Store, record: Option<MemoryRecord>, receipt: WriteReceipt, outboxEvents: seq<OutboxEvent>,
                       events: seq<StatusEvent>, expected: Option<Precondition>): Step
  {
    if expected.Some? && !SnapshotHolds(s, expected.value) then Step(s, Raised(SnapshotConflict))
    else if record.Some? && KeyTaken(s, record.value) then Step(s, Raised(IdempotencyConflict))
    else AdmitWrite(Inserted(s, record), record, receipt, outboxEvents, events)
  }

  // ---- transitions under a receipt ----

  function Targets(events: seq<StatusEvent>): set<Uuid> {
    set e | e in events :: e.recordId
  }

  function AsSet(ids: seq<Uuid>): set<Uuid> {
    set id | id in ids
  }

  function TransitionState(s: Store, e: StatusEvent): Step {
    var applied := Apply(LedgerOf(s), e);
    Step(WithLedger(s, applied.ledger), applied.outcome)
  }

  /** Check every event, note the receipt, apply every event, enqueue: the shape the commits share. */
  function TransitionAll(s: Store, noted: Store, events: seq<StatusEvent>, outboxEvents: seq<OutboxEvent>): Step {
    var checked := CheckAll(s.records, events);
    if checked.Raised? then Step(s, checked)
    else Finish(noted, events, outboxEvents)
  }

  function CommitLifecycle(s: Store, receipt: LifecycleReceipt, events: seq<StatusEvent>,
                           outboxEvents: seq<OutboxEvent>): Step {
    if Targets(events) != AsSet(receipt.transitions) then Step(s, Raised(TargetsDiffer))
    else TransitionAll(s, s.(lifecycleReceipts := s.lifecycleReceipts[receipt.receiptId := receipt]), events,
                       outboxEvents)
  }

  function CommitArchive(s: Store, receipt: ArchiveReceipt, events: seq<StatusEvent>,
                         outboxEvents: seq<OutboxEvent>): Step {
    if !receipt.applied then Step(s, Raised(NotApplied))
    else if Targets(events) != AsSet(receipt.archivedRecordIds) then Step(s, Raised(TargetsDiffer))
    else TransitionAll(s, s.(archiveReceipts := s.archiveReceipts[receipt.receiptId := receipt]), events, outboxEvents)
  }

  // ---- source invalidation ----

  function Transitioned(receipts: seq<LifecycleReceipt>): set<Uuid> {
    set r, id | r in receipts && id in r.transitions :: id
  }

  function NoteReceipts(noted: map<Uuid, LifecycleReceipt>,
                        receipts: seq<LifecycleReceipt>): map<Uuid, LifecycleReceipt> {
    if receipts == [] then noted
    else
      var n := |receipts| - 1;
      NoteReceipts(noted, receipts[..n])[receipts[n].receiptId := receipts[n]]
  }

  function NoteRequirements(noted: map<Uuid, Requirement>, more: seq<Requirement>): map<Uuid, Requirement> {
    if more == [] then noted
    else
      var n := |more| - 1;
      NoteRequirements(noted, more[..n])[more[n].requirementId := more[n]]
  }

  function Deactivate(selectors: map<SelectorId, Selector>, ids: set<Uuid>, at: Time): map<SelectorId, Selector> {
    map k | k in selectors ::
      if selectors[k].recordId in ids && selectors[k].active
      then selectors[k].(active := false, deactivatedAt := Some(at)) else selectors[k]
  }

  function NoteInvalidation(s: Store, event: InvalidationEvent, receipts: seq<LifecycleReceipt>): Store {
    s.(invalidations := s.invalidations[(event.tenantId, event.eventId) := event],
       lifecycleReceipts := NoteReceipts(s.lifecycleReceipts, receipts))
  }

  function CommitSourceInvalidation(s: Store, event: InvalidationEvent, receipts: seq<LifecycleReceipt>,
                                    events: seq<StatusEvent>, outboxEvents: seq<OutboxEvent>,
                                    requirements: seq<Requirement>): Step
  {
    if Targets(events) != Transitioned(receipts) then Step(s, Raised(TargetsDiffer))
    else if (event.tenantId, event.eventId) in s.invalidations then Step(s, Raised(IdempotencyConflict))
    else
      var moved := TransitionAll(s, NoteInvalidation(s, event, receipts), events, outboxEvents);
      if moved.outcome.Raised? then moved
      else Step(moved.store.(requirements := NoteRequirements(moved.store.requirements, requirements),
                             selectors := Deactivate(moved.store.selectors, Transitioned(receipts),
                                                     event.createdAt)), Ok)
  }

  // ---- conflict links ----

  function AddConflictLink(records: Dict<Uuid, MemoryRecord>, a: Uuid, b: Uuid): Dict<Uuid, MemoryRecord> {
    if a !in records.at || b in records.at[a].conflictsWith then records
    else records.Put(a, records.at[a].(conflictsWith := records.at[a].conflictsWith + [b]))
  }

  function AddConflictLinks(records: Dict<Uuid, MemoryRecord>, links: seq<(Uuid, Uuid)>): Dict<Uuid, MemoryRecord> {
    if links == [] then records
    else
      var n := |links| - 1;
      AddConflictLink(AddConflictLink(AddConflictLinks(records, links[..n]), links[n].0, links[n].1), links[n].1,
                      links[n].0)
  }

  predicate EndsKnown(records: Dict<Uuid, MemoryRecord>, links: seq<(Uuid, Uuid)>) {
    forall i | 0 <= i < |links| :: links[i].0 in records.at && links[i].1 in records.at
  }

  function CommitConflictLinks(s: Store, receipt: ConflictReceipt): Step {
    if !EndsKnown(s.records, receipt.links) then Step(s, Raised(TargetNotFound))
    else Step(s.(records := AddConflictLinks(s.records, receipt.links),
                 conflictReceipts := s.conflictReceipts[receipt.receiptId := receipt]), Ok)
  }

  // ---- deletion ----

  function DropSelectors(selectors: map<SelectorId, Selector>, id: Uuid): map<SelectorId, Selector> {
    map k | k in selectors && selectors[k].recordId != id :: selectors[k]
  }

  /** The tombstone takes the record's place; the selectors derived from what it redacts go with it. */
  function BuryRecord(s: Store, receipt: DeletionReceipt, tombstone: MemoryRecord, event: StatusEvent): Store {
    s.(statusEvents := s.statusEvents + [event],
       records := s.records.Put(tombstone.recordId, tombstone),
       selectors := DropSelectors(s.selectors, tombstone.recordId),
       deletionReceipts := s.deletionReceipts[receipt.receiptId := receipt])
  }

  function CommitDeletion(s: Store, receipt: DeletionReceipt, tombstone: MemoryRecord, outboxEvents: seq<OutboxEvent>,
                          event: StatusEvent): Step {
    if tombstone.recordId != receipt.recordId then Step(s, Raised(TargetsDiffer))
    else if event.recordId != receipt.recordId || event.newState != tombstone.state then Step(s, Raised(TargetsDiffer))
    else if tombstone.recordId !in s.records.at then Step(s, Raised(TargetNotFound))
    else
      var checked := Check(s.records, event);
      if checked.Raised? then Step(s, checked)
      else Step(BuryRecord(s, receipt, tombstone, event).(outbox := Enqueue(s.outbox, outboxEvents)), Ok)
  }

  function LinksOf(links: map<LinkKey, ProjectionLink>, id: Uuid): set<LinkKey> {
    set k | k in links && k.0 == id
  }

  function CompleteDeletion(s: Store, recordId: Uuid, receiptId: Uuid, completedAt: Time, actor: string): Step {
    if recordId !in s.records.at || receiptId !in s.deletionReceipts then Step(s, Raised(TargetNotFound))
    else if LinksOf(s.links, recordId) != {} then Step(s, Raised(LinksRemain))
    else
      var record := s.records.at[recordId];
      var moved :=
        if record.state != Deleted
        then WithLedger(s, Apply(LedgerOf(s), StatusEvent(recordId, Some(record.state), Deleted, actor, completedAt,
                                                          Some(receiptId))).ledger)
        else s;
      Step(moved.(deletionReceipts := s.deletionReceipts[receiptId :=
                    s.deletionReceipts[receiptId].(status := Complete, completedAt := Some(completedAt))]), Ok)
  }

  // ---- projection links and the legacy release ----

  function SaveLink(s: Store, link: ProjectionLink): Step {
    Step(s.(links := s.links[(link.recordId, link.targetIdentity) := link]), Ok)
  }

  function LinkAt(links: map<LinkKey, ProjectionLink>, key: LinkKey): Option<ProjectionLink> {
    if key in links then Some(links[key]) else None
  }

  function SaveLinkIfActive(s: Store, link: ProjectionLink, previous: Option<ProjectionLink>): Step {
    if link.recordId !in s.records.at || s.records.at[link.recordId].state != Active then Step(s, Declined)
    else if LinkAt(s.links, (link.recordId, link.targetIdentity)) != previous then Step(s, Raised(LinkChanged))
    else SaveLink(s, link)
  }

  function DeleteLink(s: Store, recordId: Uuid, target: string): Step {
    Step(s.(links := s.links - {(recordId, target)}), Ok)
  }

  function UpdateLinks(links: map<LinkKey, ProjectionLink>,
                       updates: seq<ProjectionLink>): map<LinkKey, ProjectionLink> {
    if updates == [] then links
    else
      var n := |updates| - 1;
      UpdateLinks(links, updates[..n])[(updates[n].recordId, updates[n].targetIdentity) := updates[n]]
  }

  function RemoveLinks(links: map<LinkKey, ProjectionLink>, removals: seq<LinkKey>): map<LinkKey, ProjectionLink> {
    links - set k | k in removals
  }

  function CompleteAll(s: Store, completions: seq<(Uuid, Uuid)>, completedAt: Time, actor: string): Step {
    if completions == [] then Step(s, Ok)
    else
      var n := |completions| - 1;
      var before := CompleteAll(s, completions[..n], completedAt, actor);
      if before.outcome.Raised? then before
      else CompleteDeletion(before.store, completions[n].0, completions[n].1, completedAt, actor)
  }

  /** What a legacy projection release is asked to do. */
  datatype ReleasePlan = ReleasePlan(
    updates: seq<ProjectionLink>,
    removals: seq<LinkKey>,
    completions: seq<(Uuid, Uuid)>,
    expected: seq<ProjectionLink>)

  predicate LinksAsExpected(s: Store, expected: seq<ProjectionLink>) {
    forall i | 0 <= i < |expected| :: LinkAt(s.links,
                                             (expected[i].recordId, expected[i].targetIdentity)) == Some(expected[i])
  }

  predicate CompletionsKnown(s: Store, completions: seq<(Uuid, Uuid)>) {
    forall i | 0 <= i < |completions| :: completions[i].0 in s.records.at && completions[i].1 in s.deletionReceipts
  }

  function ReleaseActor(receipt: ReleaseReceipt): string {
    "memory.legacy-release:" + receipt.actor
  }

  /** The links a release leaves before any deletion completes. */
  function ReleasedLinks(s: Store, plan: ReleasePlan): map<LinkKey, ProjectionLink> {
    RemoveLinks(UpdateLinks(s.links, plan.updates), plan.removals)
  }

  function BeginRelease(s: Store, receipt: ReleaseReceipt, plan: ReleasePlan): Store {
    s.(releases := s.releases + [receipt], links := ReleasedLinks(s, plan))
  }

  /** The five parts a release remembers before it starts, put back into the store. */
  function Restored(s: Store, was: Store): Store {
    s.(records := was.records, deletionReceipts := was.deletionReceipts, statusEvents := was.statusEvents,
       links := was.links,
       releases := was.releases)
  }

  /** Apply every effect; if one fails, restore what was remembered. */
  function PerformRelease(s: Store, receipt: ReleaseReceipt, plan: ReleasePlan): Step {
    var done := CompleteAll(BeginRelease(s, receipt, plan), plan.completions, receipt.createdAt, ReleaseActor(receipt));
    if done.outcome.Raised? then Step(Restored(done.store, s), done.outcome) else done
  }

  function CommitRelease(s: Store, receipt: ReleaseReceipt, plan: ReleasePlan): Step {
    if !receipt.applied then Step(s, Raised(NotApplied))
    else if !LinksAsExpected(s, plan.expected) then Step(s, Raised(LinkChanged))
    else if !CompletionsKnown(s, plan.completions) then Step(s, Raised(TargetNotFound))
    else PerformRelease(s, receipt, plan)
  }

  // ---- rebuilds and the outbox ----

  function CommitRebuild(s: Store, receipt: RebuildReceipt, outboxEvents: seq<OutboxEvent>): Step {
    if !receipt.applied then Step(s, Raised(NotApplied))
    else Step(s.(rebuilds := s.rebuilds + [receipt], outbox := Enqueue(s.outbox, outboxEvents)), Ok)
  }

  function ClaimOutbox(s: Store, limit: int, now: Time, leaseSeconds: int, owner: string, leases: nat -> Uuid): Step {
    Step(s.(outbox := Claim(s.outbox, limit, now, leaseSeconds, owner, leases)), Ok)
  }

  function UpdateOutbox(s: Store, eventId: Uuid, settlement: Settlement, lease: Option<Uuid>): Step {
    var u := Update(s.outbox, eventId, settlement, lease);
    Step(s.(outbox := u.outbox), u.outcome)
  }

  // ---- reading ----

  predicate Visible(state: MemoryState, q: SearchRequest) {
    state == Active || (q.includeSuperseded && state == Superseded) || (q.includeArchived && state == Archived)
  }

  function Cutoff(q: SearchRequest): Time {
    if q.recordedBefore.Some? then q.recordedBefore.value else q.validAt
  }

  predicate Matches(r: MemoryRecord, tenantId: string, q: SearchRequest, namespaces: seq<string>) {
    && r.tenantId == tenantId && r.ns in namespaces
    && Visible(r.state, q) && r.confidence >= q.minConfidence
    && (q.memoryClasses == [] || r.memoryClass in q.memoryClasses)
    && IsValidAt(r, q.validAt)
    && r.recordedAt <= Cutoff(q)
  }

  function MatchesAmong(records: seq<MemoryRecord>, tenantId: string, q: SearchRequest,
                        namespaces: seq<string>): seq<MemoryRecord> {
    if records == [] then []
    else
      var n := |records| - 1;
      MatchesAmong(records[..n], tenantId, q, namespaces)
      + if Matches(records[n], tenantId, q, namespaces) then [records[n]] else []
  }

  predicate NewestFirst(a: MemoryRecord, b: MemoryRecord) {
    a.recordedAt >= b.recordedAt
  }

  function SearchRecords(s: Store, tenantId: string, q: SearchRequest, namespaces: seq<string>): seq<MemoryRecord> {
    Take(SortBy(NewestFirst, MatchesAmong(s.records.Values(), tenantId, q, namespaces)), q.limit * 10)
  }

  /** A lookup by structured source selector; no repository means any. */
  datatype SelectorQuery = SelectorQuery(tenantId: string, repository: Option<string>, selectorType: string,
                                         selectorValue: string)

  /** An active selector that answers the query and belongs to an ACTIVE record of the tenant. */
  predicate Selects(records: Dict<Uuid, MemoryRecord>, sel: Selector, q: SelectorQuery) {
    && sel.active
    && (q.repository.Some? ==> sel.repository == q.repository.value)
    && sel.selectorType == q.selectorType && sel.selectorValue == q.selectorValue
    && sel.recordId in records.at
    && records.at[sel.recordId].tenantId == q.tenantId
    && records.at[sel.recordId].state == Active
  }

  /** The records a lookup must return. */
  function SelectedRecords(s: Store, q: SelectorQuery): set<Uuid> {
    set k | k in s.selectors && Selects(s.records, s.selectors[k], q) :: s.selectors[k].recordId
  }

  /** The index and the records agree one-to-one. */
  ghost predicate Agrees(records: Dict<Uuid, MemoryRecord>, index: map<OperationKey, Uuid>) {
    && records.Valid()
    && (forall id :: id in records.at ==>
          records.at[id].recordId == id && KeyOf(records.at[id]) in index && index[KeyOf(records.at[id])] == id)
    && (forall k :: k in index ==> index[k] in records.at && KeyOf(records.at[index[k]]) == k)
  }

  ghost predicate IndexAgrees(s: Store) {
    Agrees(s.records, s.idempotency)
  }

  function FindByIdempotency(s: Store, key: OperationKey): Option<MemoryRecord> {
    if key in s.idempotency && s.idempotency[key] in s.records.at then Some(s.records.at[s.idempotency[key]]) else None
  }
}
