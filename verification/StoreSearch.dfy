/** Past answers are stable: what a search at an old cutoff returned, it returns for ever. */
module StoreSearch {
  import opened Prelude
  import opened Sorting
  import opened OrderedDict
  import opened MemoryModel
  import opened Ledgers
  import opened StoreSpec
  import opened StoreRuns
  import opened StoreAtomicity
  import opened StoreEffects
  import opened StoreGuards

  /** The states a search with both include flags admits. */
  predicate Searchable(state: MemoryState) {
    state == Active || state == Superseded || state == Archived
  }

  /** A search with a cutoff here, or at any earlier instant, can return the record only if it is seen. */
  predicate Seen(r: MemoryRecord, cutoff: Time) {
    Searchable(r.state) && r.recordedAt <= cutoff
  }

  /** Everything a search reads of a record except which searchable state it is in. */
  ghost predicate SameFacts(a: MemoryRecord, b: MemoryRecord) {
    && a.recordId == b.recordId && a.tenantId == b.tenantId && a.ns == b.ns
    && a.memoryClass == b.memoryClass && a.confidence == b.confidence
    && a.validFrom == b.validFrom && a.validTo == b.validTo && a.recordedAt == b.recordedAt
  }

  /** A seen record stays seen with its facts; any other stays unseen, whatever becomes of it. */
  ghost predicate KeepsFacts(a: MemoryRecord, b: MemoryRecord, cutoff: Time) {
    && (Seen(a, cutoff) <==> Seen(b, cutoff))
    && (Seen(a, cutoff) ==> SameFacts(a, b))
  }

  /** Records stand where they stood, the seen ones with the same facts; what is new is not seen. */
  ghost predicate Preserves(a: Dict<Uuid, MemoryRecord>, b: Dict<Uuid, MemoryRecord>, cutoff: Time) {
    && a.Valid() && b.Valid()
    && a.order <= b.order
    && (forall id :: id in a.at ==> id in b.at && KeepsFacts(a.at[id], b.at[id], cutoff))
    && (forall id :: id in b.at && id !in a.at ==> !Seen(b.at[id], cutoff))
  }

  lemma PreservesIsTransitive(a: Dict<Uuid, MemoryRecord>, b: Dict<Uuid, MemoryRecord>, c: Dict<Uuid, MemoryRecord>,
                              cutoff: Time)
    requires Preserves(a, b, cutoff) && Preserves(b, c, cutoff)
    ensures Preserves(a, c, cutoff)
  {
  }

  /** The two answers list the same records in the same order. */
  ghost predicate SameAnswer(a: seq<MemoryRecord>, b: seq<MemoryRecord>) {
    && |a| == |b|
    && (forall i :: 0 <= i < |a| ==> a[i].recordId == b[i].recordId && a[i].recordedAt == b[i].recordedAt)
  }

  lemma {:induction false} InsertKeepsAnswer(x: MemoryRecord, y: MemoryRecord, a: seq<MemoryRecord>,
                                             b: seq<MemoryRecord>)
    requires SameAnswer(a, b) && x.recordId == y.recordId && x.recordedAt == y.recordedAt
    ensures SameAnswer(Insert(NewestFirst, x, a), Insert(NewestFirst, y, b))
  {
    if a != [] && !NewestFirst(x, a[0]) {
      InsertKeepsAnswer(x, y, a[1..], b[1..]);
    }
  }

  lemma {:induction false} SortKeepsAnswer(a: seq<MemoryRecord>, b: seq<MemoryRecord>)
    requires SameAnswer(a, b)
    ensures SameAnswer(SortBy(NewestFirst, a), SortBy(NewestFirst, b))
  {
    if a != [] {
      SortKeepsAnswer(a[1..], b[1..]);
      InsertKeepsAnswer(a[0], b[0], SortBy(NewestFirst, a[1..]), SortBy(NewestFirst, b[1..]));
    }
  }

  lemma {:induction false} MatchesKeepAnswer(order: seq<Uuid>, a: map<Uuid, MemoryRecord>, b: map<Uuid, MemoryRecord>,
                                             tenantId: string, q: SearchRequest, namespaces: seq<string>)
    requires q.includeSuperseded && q.includeArchived
    requires forall id :: id in order ==> id in a && id in b && KeepsFacts(a[id], b[id], Cutoff(q))
    ensures SameAnswer(MatchesAmong(ValuesOf(order, a), tenantId, q, namespaces),
                       MatchesAmong(ValuesOf(order, b), tenantId, q, namespaces))
  {
    if order != [] {
      var n := |order| - 1;
      MatchesKeepAnswer(order[..n], a, b, tenantId, q, namespaces);
      MatchesOfLast(order, a, tenantId, q, namespaces);
      MatchesOfLast(order, b, tenantId, q, namespaces);
      assert Matches(a[order[n]], tenantId, q, namespaces) <==> Matches(b[order[n]], tenantId, q, namespaces);
    }
  }

  lemma MatchesOfLast(order: seq<Uuid>, at: map<Uuid, MemoryRecord>, tenantId: string, q: SearchRequest,
                      namespaces: seq<string>)
    requires order != [] && order[|order| - 1] in at
    ensures var n := |order| - 1;
            MatchesAmong(ValuesOf(order, at), tenantId, q, namespaces)
            == MatchesAmong(ValuesOf(order[..n], at), tenantId, q, namespaces)
               + if Matches(at[order[n]], tenantId, q, namespaces) then [at[order[n]]] else []
  {
    var vs := ValuesOf(order, at);
    assert vs[..|vs| - 1] == ValuesOf(order[..|order| - 1], at);
  }

  lemma {:induction false} UnseenRecordsDoNotMatch(order: seq<Uuid>, k: nat, at: map<Uuid, MemoryRecord>,
                                                 tenantId: string, q: SearchRequest, namespaces: seq<string>)
    requires k <= |order| && forall i :: k <= i < |order| ==> order[i] in at && !Seen(at[order[i]], Cutoff(q))
    ensures MatchesAmong(ValuesOf(order, at), tenantId, q, namespaces)
            == MatchesAmong(ValuesOf(order[..k], at), tenantId, q, namespaces)
  {
    if k < |order| {
      var n := |order| - 1;
      assert order[..n][..k] == order[..k];
      UnseenRecordsDoNotMatch(order[..n], k, at, tenantId, q, namespaces);
      MatchesOfLast(order, at, tenantId, q, namespaces);
    } else {
      assert order[..k] == order;
    }
  }

  lemma NewcomersAreUnseen(a: Dict<Uuid, MemoryRecord>, b: Dict<Uuid, MemoryRecord>, cutoff: Time, i: nat)
    requires Preserves(a, b, cutoff) && |a.order| <= i < |b.order|
    ensures b.order[i] in b.at && !Seen(b.at[b.order[i]], cutoff)
  {
    assert forall j :: 0 <= j < |a.order| ==> b.order[j] == a.order[j] && b.order[j] != b.order[i];
    assert b.order[i] !in a.order;
    assert b.order[i] in b.order;
  }

  lemma NewcomersDoNotMatch(a: Dict<Uuid, MemoryRecord>, b: Dict<Uuid, MemoryRecord>, tenantId: string,
                            q: SearchRequest, namespaces: seq<string>)
    requires Preserves(a, b, Cutoff(q))
    ensures MatchesAmong(b.Values(), tenantId, q, namespaces)
            == MatchesAmong(ValuesOf(a.order, b.at), tenantId, q, namespaces)
  {
    var k := |a.order|;
    forall i | k <= i < |b.order|
      ensures b.order[i] in b.at && !Seen(b.at[b.order[i]], Cutoff(q))
    {
      NewcomersAreUnseen(a, b, Cutoff(q), i);
    }
    UnseenRecordsDoNotMatch(b.order, k, b.at, tenantId, q, namespaces);
    assert b.order[..k] == a.order;
  }

  lemma CutKeepsAnswer(a: seq<MemoryRecord>, b: seq<MemoryRecord>, n: int)
    requires SameAnswer(a, b)
    ensures SameAnswer(Take(a, n), Take(b, n))
  {
  }

  /** A preserved store gives the same answer, the cut at ten times the limit included. */
  lemma PreservedStoreAnswersTheSame(s: Store, r: Store, tenantId: string, q: SearchRequest, namespaces: seq<string>)
    requires Preserves(s.records, r.records, Cutoff(q)) && q.includeSuperseded && q.includeArchived
    ensures SameAnswer(SearchRecords(s, tenantId, q, namespaces), SearchRecords(r, tenantId, q, namespaces))
  {
    var a, b := s.records.Values(), r.records.Values();
    NewcomersDoNotMatch(s.records, r.records, tenantId, q, namespaces);
    MatchesKeepAnswer(s.records.order, s.records.at, r.records.at, tenantId, q, namespaces);
    SortKeepsAnswer(MatchesAmong(a, tenantId, q, namespaces), MatchesAmong(b, tenantId, q, namespaces));
    CutKeepsAnswer(SortBy(NewestFirst, MatchesAmong(a, tenantId, q, namespaces)),
                   SortBy(NewestFirst, MatchesAmong(b, tenantId, q, namespaces)), q.limit * 10);
  }

  /** The move neither hides a seen record nor shows an old one that was hidden. */
  predicate StaysSearchable(records: Dict<Uuid, MemoryRecord>, e: StatusEvent, cutoff: Time) {
    e.recordId in records.at && records.at[e.recordId].recordedAt <= cutoff ==>
      (Searchable(e.newState) <==> Searchable(records.at[e.recordId].state))
  }

  lemma ApplyPreserves(l: Ledger, e: StatusEvent, cutoff: Time)
    requires l.records.Valid() && StaysSearchable(l.records, e, cutoff)
    ensures Preserves(l.records, Apply(l, e).ledger.records, cutoff)
  {
    if Check(l.records, e).Ok? {
      PutKeepsValid(l.records, e.recordId, Moved(l.records.at[e.recordId], e));
    }
  }

  lemma {:induction false} ApplyAllPreserves(l: Ledger, events: seq<StatusEvent>, cutoff: Time)
    requires l.records.Valid() && forall e :: e in events ==> StaysSearchable(l.records, e, cutoff)
    ensures Preserves(l.records, ApplyAll(l, events).ledger.records, cutoff)
  {
    if events != [] {
      var n := |events| - 1;
      ApplyAllPreserves(l, events[..n], cutoff);
      var before := ApplyAll(l, events[..n]);
      ApplyAllKeepsRecords(l, events[..n]);
      assert events[n] in events;
      assert StaysSearchable(l.records, events[n], cutoff);
      ApplyPreserves(before.ledger, events[n], cutoff);
      PreservesIsTransitive(l.records, before.ledger.records, Apply(before.ledger, events[n]).ledger.records, cutoff);
    }
  }

  lemma {:induction false} LinkingPreserves(records: Dict<Uuid, MemoryRecord>, links: seq<(Uuid, Uuid)>, cutoff: Time)
    requires records.Valid()
    ensures Preserves(records, AddConflictLinks(records, links), cutoff)
  {
    ConflictLinksKeepStates(records, links);
    var r := AddConflictLinks(records, links);
    forall id | id in records.at
      ensures KeepsFacts(records.at[id], r.at[id], cutoff)
    {
      assert SameFacts(r.at[id], r.at[id].(conflictsWith := []));
      assert SameFacts(records.at[id], records.at[id].(conflictsWith := []));
    }
  }

  /** The steps that cannot disturb an answer at the cutoff. Later writes are among them in whatever state, and so is
      all that happens to them afterwards; so are moves of older records among ACTIVE, SUPERSEDED and ARCHIVED or among
      the other states, conflict links, projection links, rebuilds and outbox work. */
  ghost predicate Benign(s: Store, op: Op, cutoff: Time) {
    match op
    case Write(record, _, _, events, _) =>
      && (record.Some? ==> record.value.recordId !in s.records.at && !Seen(record.value, cutoff))
      && (forall e :: e in events ==> StaysSearchable(Target(s, record), e, cutoff))
    case Transition(event) => StaysSearchable(s.records, event, cutoff)
    case Lifecycle(_, events, _) => forall e :: e in events ==> StaysSearchable(s.records, e, cutoff)
    case Archive(_, events, _) => forall e :: e in events ==> StaysSearchable(s.records, e, cutoff)
    case Invalidate(_, _, events, _, _) => forall e :: e in events ==> StaysSearchable(s.records, e, cutoff)
    case ConflictLinks(_) => true
    case Deletion(_, tombstone, _, _) =>
      tombstone.recordId in s.records.at ==> KeepsFacts(s.records.at[tombstone.recordId], tombstone, cutoff)
    case Completion(recordId, _, _, _) => recordId in s.records.at ==> !Seen(s.records.at[recordId], cutoff)
    case Release(_, plan) =>
      forall c :: c in plan.completions && c.0 in s.records.at ==> !Seen(s.records.at[c.0], cutoff)
    case _ => true
  }

  ghost predicate BenignRun(s: Store, ops: seq<Op>, cutoff: Time)
    decreases |ops|
  {
    ops != [] ==> Benign(s, ops[0], cutoff) && BenignRun(Do(s, ops[0]).store, ops[1..], cutoff)
  }

  lemma FinishPreserves(s: Store, events: seq<StatusEvent>, outboxEvents: seq<OutboxEvent>, cutoff: Time)
    requires s.records.Valid() && forall e :: e in events ==> StaysSearchable(s.records, e, cutoff)
    ensures Preserves(s.records, Finish(s, events, outboxEvents).store.records, cutoff)
  {
    FinishLedger(s, events, outboxEvents);
    ApplyAllPreserves(LedgerOf(s), events, cutoff);
  }

  lemma NothingPreserves(records: Dict<Uuid, MemoryRecord>, cutoff: Time)
    requires records.Valid()
    ensures Preserves(records, records, cutoff)
  {
  }

  lemma InsertPreserves(records: Dict<Uuid, MemoryRecord>, r: MemoryRecord, cutoff: Time)
    requires records.Valid() && r.recordId !in records.at && !Seen(r, cutoff)
    ensures Preserves(records, records.Put(r.recordId, r), cutoff)
  {
    PutKeepsValid(records, r.recordId, r);
  }

  lemma WritePreserves(s: Store, op: Op, cutoff: Time)
    requires s.records.Valid() && op.Write? && Benign(s, op, cutoff)
    ensures Preserves(s.records, Do(s, op).store.records, cutoff)
  {
    var begun := Ledger(Target(s, op.record), s.statusEvents);
    WriteLedger(s, op.record, op.receipt, op.outboxEvents, op.events, op.expected);
    NothingPreserves(s.records, cutoff);
    if op.record.Some? {
      InsertPreserves(s.records, op.record.value, cutoff);
    }
    ApplyAllPreserves(begun, op.events, cutoff);
    PreservesIsTransitive(s.records, begun.records, ApplyAll(begun, op.events).ledger.records, cutoff);
    assert LedgerOf(Do(s, op).store).records == Do(s, op).store.records;
  }

  lemma TransitionAllPreserves(s: Store, noted: Store, events: seq<StatusEvent>, outboxEvents: seq<OutboxEvent>,
                               cutoff: Time)
    requires s.records.Valid() && noted.records == s.records
    requires forall e :: e in events ==> StaysSearchable(s.records, e, cutoff)
    ensures Preserves(s.records, TransitionAll(s, noted, events, outboxEvents).store.records, cutoff)
  {
    FinishPreserves(noted, events, outboxEvents, cutoff);
    NothingPreserves(s.records, cutoff);
  }

  lemma DeletionPreserves(s: Store, op: Op, cutoff: Time)
    requires s.records.Valid() && op.Deletion? && Benign(s, op, cutoff)
    ensures Preserves(s.records, Do(s, op).store.records, cutoff)
  {
    var r, tombstone := Do(s, op).store, op.tombstone;
    DeletionParts(s, op.deletion, tombstone, op.outboxEvents, op.event);
    NothingPreserves(s.records, cutoff);
    if r.records != s.records {
      PutKeepsValid(s.records, tombstone.recordId, tombstone);
    }
  }

  lemma CompletionPreserves(s: Store, recordId: Uuid, receiptId: Uuid, at: Time, actor: string, cutoff: Time)
    requires s.records.Valid() && (recordId in s.records.at ==> !Seen(s.records.at[recordId], cutoff))
    ensures Preserves(s.records, CompleteDeletion(s, recordId, receiptId, at, actor).store.records, cutoff)
  {
    CompletionLedger(s, recordId, receiptId, at, actor);
    NothingPreserves(s.records, cutoff);
    if recordId in s.records.at {
      ApplyPreserves(LedgerOf(s), CompletionEvent(s.records.at[recordId], recordId, receiptId, at, actor), cutoff);
    }
  }

  lemma {:induction false} CompletionsPreserve(s: Store, completions: seq<(Uuid, Uuid)>, at: Time, actor: string,
                                               cutoff: Time)
    requires s.records.Valid()
    requires forall c :: c in completions && c.0 in s.records.at ==> !Seen(s.records.at[c.0], cutoff)
    ensures Preserves(s.records, CompleteAll(s, completions, at, actor).store.records, cutoff)
  {
    NothingPreserves(s.records, cutoff);
    if completions != [] {
      var n := |completions| - 1;
      CompletionsPreserve(s, completions[..n], at, actor, cutoff);
      var before, last := CompleteAll(s, completions[..n], at, actor).store, completions[n];
      assert last in completions;
      SameRecordSet(s, completions[..n], at, actor);
      CompletionPreserves(before, last.0, last.1, at, actor, cutoff);
      PreservesIsTransitive(s.records, before.records,
                            CompleteDeletion(before, last.0, last.1, at, actor).store.records, cutoff);
    }
  }

  lemma ReleasePreserves(s: Store, op: Op, cutoff: Time)
    requires s.records.Valid() && op.Release? && Benign(s, op, cutoff)
    ensures Preserves(s.records, Do(s, op).store.records, cutoff)
  {
    var begun := BeginRelease(s, op.release, op.plan);
    CompletionsPreserve(begun, op.plan.completions, op.release.createdAt, ReleaseActor(op.release), cutoff);
    NothingPreserves(s.records, cutoff);
    ReleaseIsAllOrNothing(s, op.release, op.plan);
  }

  lemma StepPreserves(s: Store, op: Op, cutoff: Time)
    requires s.records.Valid() && Benign(s, op, cutoff)
    ensures Preserves(s.records, Do(s, op).store.records, cutoff)
  {
    NothingPreserves(s.records, cutoff);
    match op
    case Write(_, _, _, _, _) => WritePreserves(s, op, cutoff);
    case Transition(event) =>
      LedgerReplaced(s, Apply(LedgerOf(s), event).ledger, s.outbox);
      ApplyPreserves(LedgerOf(s), event, cutoff);
    case Lifecycle(receipt, events, outboxEvents) =>
      TransitionAllPreserves(s, s.(lifecycleReceipts := s.lifecycleReceipts[receipt.receiptId := receipt]), events,
                             outboxEvents, cutoff);
    case Archive(receipt, events, outboxEvents) =>
      TransitionAllPreserves(s, s.(archiveReceipts := s.archiveReceipts[receipt.receiptId := receipt]), events,
                             outboxEvents, cutoff);
    case Invalidate(event, receipts, events, outboxEvents, _) =>
      TransitionAllPreserves(s, NoteInvalidation(s, event, receipts), events, outboxEvents, cutoff);
    case ConflictLinks(receipt) =>
      ConflictLinksParts(s, receipt);
      LinkingPreserves(s.records, receipt.links, cutoff);
    case Deletion(_, _, _, _) => DeletionPreserves(s, op, cutoff);
    case Completion(recordId, receiptId, at, actor) => CompletionPreserves(s, recordId, receiptId, at, actor, cutoff);
    case Release(_, _) => ReleasePreserves(s, op, cutoff);
    case _ => LinkAndOutboxParts(s, op);
  }

  lemma {:induction false} BenignRunPreserves(s: Store, ops: seq<Op>, cutoff: Time)
    requires s.records.Valid() && BenignRun(s, ops, cutoff)
    ensures Preserves(s.records, After(s, ops).records, cutoff)
    decreases |ops|
  {
    if ops != [] {
      var next := Do(s, ops[0]).store;
      StepPreserves(s, ops[0], cutoff);
      BenignRunPreserves(next, ops[1..], cutoff);
      PreservesIsTransitive(s.records, next.records, After(next, ops[1..]).records, cutoff);
    }
  }

  /** Main result: over any run of such steps, a search with both include flags keeps its answer:
      the same record ids in the same order. */
  lemma PastAnswersAreStable(s: Store, ops: seq<Op>, tenantId: string, q: SearchRequest, namespaces: seq<string>)
    requires s.records.Valid() && q.includeSuperseded && q.includeArchived
    requires BenignRun(s, ops, Cutoff(q))
    ensures SameAnswer(SearchRecords(s, tenantId, q, namespaces), SearchRecords(After(s, ops), tenantId, q, namespaces))
  {
    BenignRunPreserves(s, ops, Cutoff(q));
    PreservedStoreAnswersTheSame(s, After(s, ops), tenantId, q, namespaces);
  }

  // ---- what a single search returns ----

  /** What a search promises of what it finds: the tenant's, from an authorized namespace, in a state asked for, sure
      enough, of a class asked for, valid at the instant asked about and recorded by the cutoff, which is that instant
      unless the request names one. */
  predicate Eligible(r: MemoryRecord, tenantId: string, q: SearchRequest, namespaces: seq<string>) {
    && r.tenantId == tenantId && r.ns in namespaces
    && (r.state == Active || r.state == Superseded || r.state == Archived)
    && (r.state == Superseded ==> q.includeSuperseded) && (r.state == Archived ==> q.includeArchived)
    && q.minConfidence <= r.confidence
    && (q.memoryClasses != [] ==> r.memoryClass in q.memoryClasses)
    && r.validFrom <= q.validAt && (r.validTo.Some? ==> q.validAt < r.validTo.value)
    && (q.recordedBefore.Some? ==> r.recordedAt <= q.recordedBefore.value)
    && (q.recordedBefore.None? ==> r.recordedAt <= q.validAt)
  }

  lemma EligibleMatches(r: MemoryRecord, tenantId: string, q: SearchRequest, namespaces: seq<string>)
    ensures Matches(r, tenantId, q, namespaces) <==> Eligible(r, tenantId, q, namespaces)
  {
  }

  lemma NewestFirstIsPreorder()
    ensures TotalPreorder(NewestFirst)
  {
  }

  lemma {:induction false} MatchesAreMatching(records: seq<MemoryRecord>, tenantId: string, q: SearchRequest,
                                              namespaces: seq<string>, r: MemoryRecord)
    ensures r in MatchesAmong(records, tenantId, q, namespaces) <==> r in records && Matches(r, tenantId, q, namespaces)
  {
    if records != [] {
      var n := |records| - 1;
      MatchesAreMatching(records[..n], tenantId, q, namespaces, r);
      assert records == records[..n] + [records[n]];
    }
  }

  /** A search returns eligible records only, newest first; one it leaves out is no newer than all it returns,
      and nothing is left out below ten times the limit. */
  lemma SearchIsExact(s: Store, tenantId: string, q: SearchRequest, namespaces: seq<string>, id: Uuid, i: nat)
    requires s.records.Valid() && id in s.records.at && q.limit >= 1
    requires i < |SearchRecords(s, tenantId, q, namespaces)|
    ensures var found := SearchRecords(s, tenantId, q, namespaces);
            && |found| <= q.limit * 10
            && Eligible(found[i], tenantId, q, namespaces)
            && (exists k :: k in s.records.at && s.records.at[k] == found[i])
            && (i + 1 < |found| ==> found[i].recordedAt >= found[i + 1].recordedAt)
            && (Eligible(s.records.at[id], tenantId, q, namespaces) && s.records.at[id] !in found ==>
                  |found| == q.limit * 10 && found[i].recordedAt >= s.records.at[id].recordedAt)
  {
    var r := s.records.at[id];
    var all := MatchesAmong(s.records.Values(), tenantId, q, namespaces);
    var ranked, found := SortBy(NewestFirst, all), SearchRecords(s, tenantId, q, namespaces);
    EligibleMatches(r, tenantId, q, namespaces);
    EligibleMatches(found[i], tenantId, q, namespaces);
    NewestFirstIsPreorder();
    SortIsOrdered(NewestFirst, all);
    ValuesAreEntries(s.records.order, s.records.at);
    assert found[i] in ranked;
    SortElements(NewestFirst, all, found[i]);
    MatchesAreMatching(s.records.Values(), tenantId, q, namespaces, found[i]);
    if i + 1 < |found| {
      assert NewestFirst(ranked[i], ranked[i + 1]);
    }
    if Matches(r, tenantId, q, namespaces) && r !in found {
      MatchesAreMatching(s.records.Values(), tenantId, q, namespaces, r);
      SortElements(NewestFirst, all, r);
      var j :| 0 <= j < |ranked| && ranked[j] == r;
      assert j >= |found|;
      assert NewestFirst(ranked[i], ranked[j]);
    }
  }

  lemma {:induction false} MatchesStayDistinct(records: seq<MemoryRecord>, tenantId: string, q: SearchRequest,
                                               namespaces: seq<string>)
    requires Distinct(records)
    ensures Distinct(MatchesAmong(records, tenantId, q, namespaces))
  {
    if records != [] {
      var n := |records| - 1;
      MatchesStayDistinct(records[..n], tenantId, q, namespaces);
      MatchesAreMatching(records[..n], tenantId, q, namespaces, records[n]);
      assert records[n] !in records[..n];
    }
  }

  /** After any history of the store a search returns each record at most once. */
  lemma SearchReturnsOnce(ops: seq<Op>, tenantId: string, q: SearchRequest, namespaces: seq<string>, i: nat, j: nat)
    requires Run(EmptyStore(), ops)
    requires i < j < |SearchRecords(After(EmptyStore(), ops), tenantId, q, namespaces)|
    ensures var found := SearchRecords(After(EmptyStore(), ops), tenantId, q, namespaces);
            found[i].recordId != found[j].recordId
  {
    var s := After(EmptyStore(), ops);
    IndexAgreesAlways(EmptyStore(), ops);
    var all := s.records.Values();
    OneValuePerKey(s.records.order, s.records.at);
    ValuesAreEntries(s.records.order, s.records.at);
    forall a, b | 0 <= a < b < |all|
      ensures all[a] != all[b]
    {
      assert all[a].recordId == s.records.order[a] && all[b].recordId == s.records.order[b];
    }
    var matches := MatchesAmong(all, tenantId, q, namespaces);
    MatchesStayDistinct(all, tenantId, q, namespaces);
    SortKeepsDistinct(NewestFirst, matches);
    var ranked, found := SortBy(NewestFirst, matches), SearchRecords(s, tenantId, q, namespaces);
    assert found[i] == ranked[i] && found[j] == ranked[j];
    forall r | r in ranked
      ensures r.recordId in s.records.at && s.records.at[r.recordId] == r
    {
      SortElements(NewestFirst, matches, r);
      MatchesAreMatching(all, tenantId, q, namespaces, r);
    }
  }
}
