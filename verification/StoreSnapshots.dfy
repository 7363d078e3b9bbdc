/** What the snapshot guard of a governed write looks at: the live records of its own tenant and namespace, and all of
    them. */
module StoreSnapshots {
  import opened Prelude
  import opened OrderedDict
  import opened MemoryModel
  import opened Ledgers
  import opened OutboxSpec
  import opened StoreSpec
  import opened StoreAtomicity
  import opened StoreGuards

  /** What the guard is told of one record: text, validity and recording time. */
  datatype Sight = Sight(digest: string, validFrom: Time, validTo: Option<Time>, recordedAt: Time)

  function SightOf(f: Fingerprint): Sight {
    Sight(f.digest, f.validFrom, f.validTo, f.recordedAt)
  }

  /** The record as it stands live in the namespace, if it does. */
  function Live(s: Store, tenantId: string, ns: string, id: Uuid): Option<Sight> {
    if id !in s.records.at then None
    else
      var r := s.records.at[id];
      if r.tenantId != tenantId || r.ns != ns || r.state != Active then None
      else Some(Sight(r.normalizedDigest, r.validFrom, r.validTo, r.recordedAt))
  }

  ghost predicate SnapshotRefused(s: Store, record: Option<MemoryRecord>, receipt: WriteReceipt,
                                  outboxEvents: seq<OutboxEvent>, events: seq<StatusEvent>, p: Precondition) {
    CommitWrite(s, record, receipt, outboxEvents, events, Some(p)).outcome == Raised(SnapshotConflict)
  }

  /** The errors a transition can end in. */
  predicate TransitionError(outcome: Outcome) {
    outcome.Raised? ==> outcome.error == TargetNotFound || outcome.error == UnexpectedState
  }

  lemma {:induction false} ChecksRaiseTransitionErrors(records: Dict<Uuid, MemoryRecord>, events: seq<StatusEvent>)
    ensures TransitionError(CheckAll(records, events))
  {
    if events != [] {
      ChecksRaiseTransitionErrors(records, events[..|events| - 1]);
    }
  }

  lemma {:induction false} ApplyingRaisesTransitionErrors(l: Ledger, events: seq<StatusEvent>)
    ensures TransitionError(ApplyAll(l, events).outcome)
  {
    if events != [] {
      ApplyingRaisesTransitionErrors(l, events[..|events| - 1]);
    }
  }

  /** Nothing but the snapshot guard ever answers with a snapshot conflict. */
  lemma RefusedByTheGuard(s: Store, record: Option<MemoryRecord>, receipt: WriteReceipt, outboxEvents: seq<OutboxEvent>,
                          events: seq<StatusEvent>, p: Precondition)
    ensures SnapshotRefused(s, record, receipt, outboxEvents, events, p) <==> !SnapshotHolds(s, p)
  {
    var inserted := Inserted(s, record);
    ChecksRaiseTransitionErrors(inserted.records, events);
    ApplyingRaisesTransitionErrors(LedgerOf(NoteWrite(inserted, record, receipt)), events);
  }

  lemma SightIsTheFingerprint(s: Store, tenantId: string, ns: string, f: Fingerprint)
    requires IndexAgrees(s)
    ensures f in ActiveSnapshot(s.records, tenantId, ns) <==>
              f.state == Active && Live(s, tenantId, ns, f.recordId) == Some(SightOf(f))
  {
    if f.recordId in s.records.at && s.records.at[f.recordId].recordId == f.recordId {
      assert Live(s, tenantId, ns, f.recordId).Some? ==>
          FingerprintOf(s.records.at[f.recordId]) in ActiveSnapshot(s.records, tenantId, ns);
    }
  }

  /** Main result: a write authorized at one store is refused at another for its snapshot exactly when some record is
      live in the namespace at one of the two and not, or not the same, at the other. */
  lemma SnapshotRefusesIff(s: Store, t: Store, record: Option<MemoryRecord>, receipt: WriteReceipt,
                           outboxEvents: seq<OutboxEvent>, events: seq<StatusEvent>, p: Precondition)
    requires IndexAgrees(s) && IndexAgrees(t) && !SnapshotRefused(s, record, receipt, outboxEvents, events, p)
    ensures SnapshotRefused(t, record, receipt, outboxEvents, events, p) <==>
              exists id :: Live(s, p.tenantId, p.ns, id) != Live(t, p.tenantId, p.ns, id)
  {
    RefusedByTheGuard(s, record, receipt, outboxEvents, events, p);
    RefusedByTheGuard(t, record, receipt, outboxEvents, events, p);
    var a, b := ActiveSnapshot(s.records, p.tenantId, p.ns), ActiveSnapshot(t.records, p.tenantId, p.ns);
    forall f: Fingerprint
      ensures f in a <==> f.state == Active
                          && Live(s, p.tenantId, p.ns, f.recordId) == Some(SightOf(f))
      ensures f in b <==> f.state == Active
                          && Live(t, p.tenantId, p.ns, f.recordId) == Some(SightOf(f))
    {
      SightIsTheFingerprint(s, p.tenantId, p.ns, f);
      SightIsTheFingerprint(t, p.tenantId, p.ns, f);
    }
    if id :| Live(s, p.tenantId, p.ns, id) != Live(t, p.tenantId, p.ns, id) {
      DifferentSightsDiffer(s, t, p, id);
    }
    if a != b {
      if f :| f in a && f !in b {
        assert Live(s, p.tenantId, p.ns, f.recordId) != Live(t, p.tenantId, p.ns, f.recordId);
      } else {
        var f :| f in b && f !in a;
        assert Live(s, p.tenantId, p.ns, f.recordId) != Live(t, p.tenantId, p.ns, f.recordId);
      }
    }
  }

  lemma DifferentSightsDiffer(s: Store, t: Store, p: Precondition, id: Uuid)
    requires IndexAgrees(s) && IndexAgrees(t)
    requires Live(s, p.tenantId, p.ns, id) != Live(t, p.tenantId, p.ns, id)
    ensures ActiveSnapshot(s.records, p.tenantId, p.ns) != ActiveSnapshot(t.records, p.tenantId, p.ns)
  {
    var x, y := Live(s, p.tenantId, p.ns, id), Live(t, p.tenantId, p.ns, id);
    var v := if x.Some? then x.value else y.value;
    var f := Fingerprint(id, v.digest, Active, v.validFrom, v.validTo, v.recordedAt);
    SightIsTheFingerprint(s, p.tenantId, p.ns, f);
    SightIsTheFingerprint(t, p.tenantId, p.ns, f);
  }

  /** The same live records in the namespace, whatever either store holds besides. */
  ghost predicate SameNamespace(s: Store, t: Store, tenantId: string, ns: string) {
    forall id ::
      (id in s.records.at && s.records.at[id].tenantId == tenantId && s.records.at[id].ns == ns
       && s.records.at[id].state == Active) ||
      (id in t.records.at && t.records.at[id].tenantId == tenantId && t.records.at[id].ns == ns
       && t.records.at[id].state == Active) ==>
        id in s.records.at && id in t.records.at && s.records.at[id] == t.records.at[id]
  }

  /** Main result: the guard answers alike at any two stores with the same live records of that tenant and namespace.
      Records of other tenants, of other namespaces, and records no longer live never refuse a write. */
  lemma OtherNamespacesDoNotRefuse(s: Store, t: Store, record: Option<MemoryRecord>, receipt: WriteReceipt,
                                   outboxEvents: seq<OutboxEvent>, events: seq<StatusEvent>, p: Precondition)
    requires SameNamespace(s, t, p.tenantId, p.ns)
    ensures SnapshotRefused(s, record, receipt, outboxEvents, events, p)
            <==> SnapshotRefused(t, record, receipt, outboxEvents, events, p)
  {
    RefusedByTheGuard(s, record, receipt, outboxEvents, events, p);
    RefusedByTheGuard(t, record, receipt, outboxEvents, events, p);
    assert ActiveSnapshot(s.records, p.tenantId, p.ns) == ActiveSnapshot(t.records, p.tenantId, p.ns);
  }

  /** The same operation of the same tenant in the same namespace. */
  predicate SameOperation(a: MemoryRecord, b: MemoryRecord) {
    a.tenantId == b.tenantId && a.ns == b.ns && a.idempotencyKey == b.idempotencyKey
  }

  /** A write that passes its snapshot is refused for its operation key exactly when another record holds the key. */
  lemma KeyRefusesIff(s: Store, record: MemoryRecord, receipt: WriteReceipt, outboxEvents: seq<OutboxEvent>,
                      events: seq<StatusEvent>, expected: Option<Precondition>)
    requires IndexAgrees(s)
    requires expected.Some? ==> !SnapshotRefused(s, Some(record), receipt, outboxEvents, events, expected.value)
    ensures CommitWrite(s, Some(record), receipt, outboxEvents, events, expected).outcome
            == Raised(IdempotencyConflict) <==>
              exists id :: id in s.records.at && id != record.recordId && SameOperation(s.records.at[id], record)
  {
    if expected.Some? {
      RefusedByTheGuard(s, Some(record), receipt, outboxEvents, events, expected.value);
    }
    var inserted := Inserted(s, Some(record));
    ChecksRaiseTransitionErrors(inserted.records, events);
    ApplyingRaisesTransitionErrors(LedgerOf(NoteWrite(inserted, Some(record), receipt)), events);
  }
}
