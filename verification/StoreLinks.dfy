/** Projection links: which link is found after each operation, and that of two writers who saw the same link one
    wins. */
module StoreLinks {
  import opened Prelude
  import opened OrderedDict
  import opened MemoryModel
  import opened StoreSpec
  import opened StoreRuns

  /** The link found for a record and target. */
  function Found(s: Store, recordId: Uuid, target: string): Option<ProjectionLink> {
    if (recordId, target) in s.links then Some(s.links[(recordId, target)]) else None
  }

  /** The operation leaves everything but the links. */
  ghost predicate OnlyLinks(s: Store, r: Store) {
    r.(links := s.links) == s
  }

  /** Every link is found as before but this one. */
  ghost predicate OthersFound(s: Store, r: Store, recordId: Uuid, target: string) {
    forall id: Uuid, t: string :: (id, t) != (recordId, target) ==> Found(r, id, t) == Found(s, id, t)
  }

  /** A saved link is found where it belongs, a deleted one is not, and all others are as they were. */
  lemma SavedLinkIsFound(s: Store, link: ProjectionLink)
    ensures var r := SaveLink(s, link).store;
            && Found(r, link.recordId, link.targetIdentity) == Some(link)
            && OthersFound(s, r, link.recordId, link.targetIdentity) && OnlyLinks(s, r)
  {
  }

  lemma DeletedLinkIsGone(s: Store, recordId: Uuid, target: string)
    ensures var r := DeleteLink(s, recordId, target).store;
            && Found(r, recordId, target) == None
            && OthersFound(s, r, recordId, target) && OnlyLinks(s, r)
  {
  }

  /** A guarded save answers "no" exactly when the record is not ACTIVE, is refused exactly when another link than the
      one last seen is there, and otherwise saves; unless it saves it changes nothing. */
  lemma GuardedSaveIff(s: Store, link: ProjectionLink, seen: Option<ProjectionLink>)
    ensures var r := SaveLinkIfActive(s, link, seen);
            var active := link.recordId in s.records.at && s.records.at[link.recordId].state == Active;
            && (r.outcome == Declined <==> !active)
            && (r.outcome == Raised(LinkChanged) <==> active && Found(s, link.recordId, link.targetIdentity) != seen)
            && (r.outcome == Ok <==> active && Found(s, link.recordId, link.targetIdentity) == seen)
            && r.store == if r.outcome.Ok? then SaveLink(s, link).store else s
  {
  }

  /** Main result: of two writers who saw the same link, the later is refused, unless the first put back
      what both had seen. */
  lemma OneWriterPerSeenLink(s: Store, first: ProjectionLink, second: ProjectionLink, seen: Option<ProjectionLink>)
    requires first.recordId == second.recordId && first.targetIdentity == second.targetIdentity
    requires SaveLinkIfActive(s, first, seen).outcome.Ok? && seen != Some(first)
    ensures var t := SaveLinkIfActive(s, first, seen).store;
            SaveLinkIfActive(t, second, seen) == Step(t, Raised(LinkChanged))
  {
    GuardedSaveIff(s, first, seen);
    SavedLinkIsFound(s, first);
    GuardedSaveIff(SaveLinkIfActive(s, first, seen).store, second, seen);
  }

  // ---- the links of a release ----

  function KeyOfLink(link: ProjectionLink): LinkKey {
    (link.recordId, link.targetIdentity)
  }

  lemma {:induction false} UnmentionedLinkStays(links: map<LinkKey, ProjectionLink>, updates: seq<ProjectionLink>,
                                                key: LinkKey)
    requires forall i :: 0 <= i < |updates| ==> KeyOfLink(updates[i]) != key
    ensures LinkAt(UpdateLinks(links, updates), key) == LinkAt(links, key)
  {
    if updates != [] {
      UnmentionedLinkStays(links, updates[..|updates| - 1], key);
    }
  }

  lemma {:induction false} LastUpdateIsFound(links: map<LinkKey, ProjectionLink>, updates: seq<ProjectionLink>, i: nat)
    requires i < |updates| && forall j :: i < j < |updates| ==> KeyOfLink(updates[j]) != KeyOfLink(updates[i])
    ensures LinkAt(UpdateLinks(links, updates), KeyOfLink(updates[i])) == Some(updates[i])
  {
    var n := |updates| - 1;
    if i < n {
      LastUpdateIsFound(links, updates[..n], i);
    }
  }

  /** Main result: after the link changes of a release a link it removes is gone, even one it updates too; one it does
      not mention is as it was. */
  lemma ReleasedLinkIsFound(s: Store, plan: ReleasePlan, recordId: Uuid, target: string)
    ensures var key, r := (recordId, target), ReleasedLinks(s, plan);
            && (key in plan.removals ==> LinkAt(r, key) == None)
            && (key !in plan.removals && (forall i :: 0 <= i < |plan.updates| ==> KeyOfLink(plan.updates[i]) != key) ==>
                  LinkAt(r, key) == Found(s, recordId, target))
  {
    var key := (recordId, target);
    if forall i :: 0 <= i < |plan.updates| ==> KeyOfLink(plan.updates[i]) != key {
      UnmentionedLinkStays(s.links, plan.updates, key);
    }
  }

  /** Of a link it updates, and does not remove, the last update is found. */
  lemma ReleasedUpdateIsFound(s: Store, plan: ReleasePlan, i: nat)
    requires i < |plan.updates| && KeyOfLink(plan.updates[i]) !in plan.removals
    requires forall j :: i < j < |plan.updates| ==> KeyOfLink(plan.updates[j]) != KeyOfLink(plan.updates[i])
    ensures LinkAt(ReleasedLinks(s, plan), KeyOfLink(plan.updates[i])) == Some(plan.updates[i])
  {
    LastUpdateIsFound(s.links, plan.updates, i);
  }

  /** Completing a deletion is refused exactly for an unknown record or receipt, or while some link of the record
      remains; links of other records do not hold it up. */
  lemma CompletionRefusedIff(s: Store, recordId: Uuid, receiptId: Uuid, at: Time, actor: string)
    ensures CompleteDeletion(s, recordId, receiptId, at, actor).outcome == Raised(TargetNotFound)
            <==> recordId !in s.records.at || receiptId !in s.deletionReceipts
    ensures CompleteDeletion(s, recordId, receiptId, at, actor).outcome == Raised(LinksRemain)
            <==> && recordId in s.records.at && receiptId in s.deletionReceipts
                 && exists target :: Found(s, recordId, target).Some?
  {
    if k :| k in LinksOf(s.links, recordId) {
      assert Found(s, recordId, k.1).Some?;
    }
    forall target | Found(s, recordId, target).Some?
      ensures LinksOf(s.links, recordId) != {}
    {
      assert (recordId, target) in LinksOf(s.links, recordId);
    }
  }

  /** A plan is current exactly when every link it expects is the one found. */
  lemma PlanIsCurrentIff(s: Store, plan: ReleasePlan)
    ensures LinksAsExpected(s, plan.expected) <==>
              forall e :: e in plan.expected ==> Found(s, e.recordId, e.targetIdentity) == Some(e)
  {
    assert forall i :: 0 <= i < |plan.expected| ==> plan.expected[i] in plan.expected;
  }
}
