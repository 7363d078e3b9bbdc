/** Conflict links: each link is on record at both of its ends, once, and linking again changes nothing. */
module StoreConflicts {
  import opened Prelude
  import opened OrderedDict
  import opened MemoryModel
  import opened StoreSpec

  function ConflictsOf(records: Dict<Uuid, MemoryRecord>, id: Uuid): seq<Uuid> {
    if id in records.at then records.at[id].conflictsWith else []
  }

  /** The link joins the two records, in one direction or the other. */
  predicate Joins(links: seq<(Uuid, Uuid)>, x: Uuid, y: Uuid) {
    (x, y) in links || (y, x) in links
  }

  lemma OneLinkJoins(records: Dict<Uuid, MemoryRecord>, a: Uuid, b: Uuid, x: Uuid, y: Uuid)
    ensures var was, after := ConflictsOf(records, x), ConflictsOf(AddConflictLink(records, a, b), x);
            && (y in after <==> y in was || (x in records.at && x == a && y == b))
            && was <= after
            && (Distinct(was) ==> Distinct(after))
  {
  }

  /** Main result: a record's conflicts afterwards are the old ones, in their old order, and whatever a link joins it
      with, each of them once. */
  lemma {:induction false} LinksJoinBothEnds(records: Dict<Uuid, MemoryRecord>, links: seq<(Uuid, Uuid)>, x: Uuid,
                                             y: Uuid)
    requires x in records.at
    ensures var was, after := ConflictsOf(records, x), ConflictsOf(AddConflictLinks(records, links), x);
            && (y in after <==> y in was || Joins(links, x, y))
            && was <= after
            && (Distinct(was) ==> Distinct(after))
    ensures AddConflictLinks(records, links).at.Keys == records.at.Keys
  {
    if links != [] {
      var n := |links| - 1;
      var before := AddConflictLinks(records, links[..n]);
      LinksJoinBothEnds(records, links[..n], x, y);
      OneLinkJoins(before, links[n].0, links[n].1, x, y);
      OneLinkJoins(AddConflictLink(before, links[n].0, links[n].1), links[n].1, links[n].0, x, y);
      assert links == links[..n] + [links[n]];
    }
  }

  /** Every link is already on record at both ends. */
  ghost predicate Linked(records: Dict<Uuid, MemoryRecord>, links: seq<(Uuid, Uuid)>) {
    forall i :: 0 <= i < |links| ==>
                  links[i].1 in ConflictsOf(records, links[i].0) && links[i].0 in ConflictsOf(records, links[i].1)
  }

  lemma {:induction false} LinkedNeedsNothing(records: Dict<Uuid, MemoryRecord>, links: seq<(Uuid, Uuid)>)
    requires Linked(records, links)
    ensures AddConflictLinks(records, links) == records
  {
    if links != [] {
      var n := |links| - 1;
      LinkedNeedsNothing(records, links[..n]);
      assert links[n].1 in ConflictsOf(records, links[n].0) && links[n].0 in ConflictsOf(records, links[n].1);
    }
  }

  /** Main result: a link is the same at either end after a commit, and committing the receipt again leaves the store as
      it is. */
  lemma CommittingLinksTwiceIsOnce(s: Store, receipt: ConflictReceipt)
    requires CommitConflictLinks(s, receipt).outcome.Ok?
    ensures var once := CommitConflictLinks(s, receipt).store;
            Linked(once.records, receipt.links) && CommitConflictLinks(once, receipt) == Step(once, Ok)
  {
    var once := CommitConflictLinks(s, receipt).store;
    forall i | 0 <= i < |receipt.links|
      ensures receipt.links[i].1 in ConflictsOf(once.records, receipt.links[i].0)
      ensures receipt.links[i].0 in ConflictsOf(once.records, receipt.links[i].1)
    {
      LinksJoinBothEnds(s.records, receipt.links, receipt.links[i].0, receipt.links[i].1);
      LinksJoinBothEnds(s.records, receipt.links, receipt.links[i].1, receipt.links[i].0);
    }
    LinkedNeedsNothing(once.records, receipt.links);
    assert once.conflictReceipts[receipt.receiptId := receipt] == once.conflictReceipts;
  }
}
