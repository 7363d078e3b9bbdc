/** The legacy projection release: when it succeeds, and what it then achieves. */
module StoreRelease {
  import opened Prelude
  import opened OrderedDict
  import opened MemoryModel
  import opened Ledgers
  import opened StoreSpec
  import opened StoreAtomicity
  import opened StoreEffects

  /** A completed deletion: a DELETED record, a COMPLETE receipt and no projection link. */
  ghost predicate Completed(s: Store, completion: (Uuid, Uuid), at: Time) {
    && completion.0 in s.records.at && s.records.at[completion.0].state == Deleted
    && completion.1 in s.deletionReceipts
    && s.deletionReceipts[completion.1].status == Complete
    && s.deletionReceipts[completion.1].completedAt == Some(at)
    && LinksOf(s.links, completion.0) == {}
  }

  /** What completing deletions may change: records only towards DELETED, receipts only of the listed ones, links
      never. */
  ghost predicate Progress(s: Store, r: Store) {
    && r.links == s.links
    && r.records.at.Keys == s.records.at.Keys
    && r.deletionReceipts.Keys == s.deletionReceipts.Keys
  }

  /** A deletion that can complete: record and receipt exist and no projection copy is left to erase. */
  ghost predicate Completable(s: Store, c: (Uuid, Uuid)) {
    c.0 in s.records.at && c.1 in s.deletionReceipts && LinksOf(s.links, c.0) == {}
  }

  lemma CompletionParts(s: Store, c: (Uuid, Uuid), at: Time, actor: string)
    requires Completable(s, c)
    ensures var r := CompleteDeletion(s, c.0, c.1, at, actor).store;
            var completed := s.deletionReceipts[c.1].(status := Complete, completedAt := Some(at));
            && r.records == (if s.records.at[c.0].state != Deleted
                             then s.records.Put(c.0, s.records.at[c.0].(state := Deleted)) else s.records)
            && r.deletionReceipts == s.deletionReceipts[c.1 := completed]
            && r.links == s.links
  {
    var record := s.records.at[c.0];
    var e := CompletionEvent(record, c.0, c.1, at, actor);
    DeletingMoves(record, e);
    assert Check(s.records, e).Ok?;
    LedgerReplaced(s, Apply(LedgerOf(s), e).ledger, s.outbox);
  }

  lemma DeletingMoves(record: MemoryRecord, e: StatusEvent)
    requires e.newState == Deleted
    ensures Moved(record, e) == record.(state := Deleted)
  {
  }

  lemma CompletionEffect(s: Store, c: (Uuid, Uuid), at: Time, actor: string)
    requires s.records.Valid()
    ensures var r := CompleteDeletion(s, c.0, c.1, at, actor);
            && r.store.records.Valid()
            && Progress(s, r.store)
            && (if Completable(s, c) then r.outcome.Ok? && Completed(r.store, c, at)
                else r.outcome.Raised? && r.store == s)
  {
    if Completable(s, c) {
      CompletionParts(s, c, at, actor);
    }
  }

  lemma CompletionKeepsCompleted(s: Store, c: (Uuid, Uuid), at: Time, actor: string, done: (Uuid, Uuid))
    requires Completed(s, done, at)
    ensures Completed(CompleteDeletion(s, c.0, c.1, at, actor).store, done, at)
  {
    if Completable(s, c) {
      CompletionParts(s, c, at, actor);
    }
  }

  lemma ProgressKeepsCompletable(s: Store, r: Store, c: (Uuid, Uuid))
    requires Progress(s, r)
    ensures Completable(r, c) <==> Completable(s, c)
  {
  }

  lemma {:induction false} CompletionsEffect(s: Store, completions: seq<(Uuid, Uuid)>, at: Time, actor: string)
    requires s.records.Valid()
    ensures var r := CompleteAll(s, completions, at, actor);
            && r.store.records.Valid()
            && Progress(s, r.store)
            && (r.outcome.Ok? || r.outcome.Raised?)
            && (r.outcome.Ok? <==> forall c :: c in completions ==> Completable(s, c))
            && (r.outcome.Ok? ==> forall c :: c in completions ==> Completed(r.store, c, at))
  {
    if completions != [] {
      var n := |completions| - 1;
      CompletionsEffect(s, completions[..n], at, actor);
      var before, last := CompleteAll(s, completions[..n], at, actor), completions[n];
      assert completions == completions[..n] + [last];
      CompletionEffect(before.store, last, at, actor);
      ProgressKeepsCompletable(s, before.store, last);
      if before.outcome.Ok? {
        forall c | c in completions[..n]
          ensures Completed(CompleteDeletion(before.store, last.0, last.1, at, actor).store, c, at)
        {
          CompletionKeepsCompleted(before.store, last, at, actor, c);
        }
      }
    }
  }

  /** Main result: a release succeeds exactly when its plan is current and leaves no link on any deletion it completes;
      then every one of them is complete, and the links are exactly the plan's. */
  lemma ReleaseSucceedsIff(s: Store, receipt: ReleaseReceipt, plan: ReleasePlan)
    requires s.records.Valid()
    ensures var r := CommitRelease(s, receipt, plan);
            && (r.outcome.Ok? <==>
                  && receipt.applied
                  && LinksAsExpected(s, plan.expected)
                  && CompletionsKnown(s, plan.completions)
                  && (forall c :: c in plan.completions ==> LinksOf(ReleasedLinks(s, plan), c.0) == {}))
            && (r.outcome.Ok? ==>
                  && r.store.links == ReleasedLinks(s, plan)
                  && (forall c :: c in plan.completions ==> Completed(r.store, c, receipt.createdAt)))
  {
    var begun := BeginRelease(s, receipt, plan);
    CompletionsEffect(begun, plan.completions, receipt.createdAt, ReleaseActor(receipt));
    ReleaseIsAllOrNothing(s, receipt, plan);
    assert forall i :: 0 <= i < |plan.completions| ==> plan.completions[i] in plan.completions;
  }
}
