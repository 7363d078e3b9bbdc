/** Where a returned hit comes from: which provider result cites it, with what score, and which of several is kept. */
module ProjectionCitations {
  import opened Prelude
  import opened Sorting
  import opened ProjectionSpec

  // ---- every hit is a citation, and every citation a hit ----

  /** The hit is what the item at this rank says of one of the records it cites. */
  ghost predicate Cites(item: Item, rank: nat, ns: string, strategy: string, h: Hit) {
    && h.recordId in item.recordIds && h.score == Score(item.raw, rank) && h.excerpt == item.excerpt
    && h.ns == ns && h.strategy == strategy
  }

  ghost predicate CitedAt(capabilities: seq<string>, replies: seq<Reply>, s: nat, a: nat, rank: nat, h: Hit) {
    && s < |capabilities| && s < |replies| && replies[s].Replied?
    && a < |replies[s].answers| && rank < |replies[s].answers[a].items|
    && Cites(replies[s].answers[a].items[rank], rank, replies[s].answers[a].ns, capabilities[s], h)
  }

  /** Some strategy's provider cited the record so. */
  ghost predicate Cited(capabilities: seq<string>, replies: seq<Reply>, h: Hit) {
    exists s: nat, a: nat, rank: nat :: CitedAt(capabilities, replies, s, a, rank, h)
  }

  lemma {:induction false} FirstOccurrencesAreTheIds(ids: seq<Uuid>, id: Uuid)
    ensures id in FirstOccurrences(ids) <==> id in ids
  {
    if ids != [] {
      var n := |ids| - 1;
      FirstOccurrencesAreTheIds(ids[..n], id);
      assert ids == ids[..n] + [ids[n]];
    }
  }

  lemma ItemHitsAreItsCitations(item: Item, rank: nat, ns: string, strategy: string, h: Hit)
    ensures h in HitsOfItem(FirstOccurrences(item.recordIds), Score(item.raw, rank), item, ns, strategy)
            <==> Cites(item, rank, ns, strategy, h)
  {
    var ids := FirstOccurrences(item.recordIds);
    var hits := HitsOfItem(ids, Score(item.raw, rank), item, ns, strategy);
    FirstOccurrencesAreTheIds(item.recordIds, h.recordId);
    if Cites(item, rank, ns, strategy, h) {
      var i :| 0 <= i < |ids| && ids[i] == h.recordId;
      assert hits[i] == h;
    }
  }

  ghost predicate ItemCites(items: seq<Item>, ns: string, strategy: string, rank: nat, h: Hit) {
    rank < |items| && Cites(items[rank], rank, ns, strategy, h)
  }

  lemma {:induction false} ItemsHitsAreCitations(items: seq<Item>, ns: string, strategy: string, h: Hit)
    ensures h in HitsOfItems(items, ns, strategy) <==> exists rank: nat :: ItemCites(items, ns, strategy, rank, h)
  {
    if items != [] {
      var n := |items| - 1;
      ItemsHitsAreCitations(items[..n], ns, strategy, h);
      ItemHitsAreItsCitations(items[n], n, ns, strategy, h);
      if h in HitsOfItems(items[..n], ns, strategy) {
        var rank: nat :| ItemCites(items[..n], ns, strategy, rank, h);
        assert ItemCites(items, ns, strategy, rank, h);
      } else if h in HitsOfItems(items, ns, strategy) {
        assert ItemCites(items, ns, strategy, n, h);
      }
      if rank: nat :| ItemCites(items, ns, strategy, rank, h) {
        assert rank < n ==> ItemCites(items[..n], ns, strategy, rank, h);
      }
    }
  }

  ghost predicate AnswerCites(answers: seq<Answer>, strategy: string, a: nat, rank: nat, h: Hit) {
    a < |answers| && rank < |answers[a].items| && Cites(answers[a].items[rank], rank, answers[a].ns, strategy, h)
  }

  lemma {:induction false} AnswersHitsAreCitations(answers: seq<Answer>, strategy: string, h: Hit)
    ensures h in HitsOfAnswers(answers, strategy) <==>
                exists a: nat, rank: nat :: AnswerCites(answers, strategy, a, rank, h)
  {
    if answers != [] {
      var n := |answers| - 1;
      AnswersHitsAreCitations(answers[..n], strategy, h);
      ItemsHitsAreCitations(answers[n].items, answers[n].ns, strategy, h);
      if h in HitsOfAnswers(answers[..n], strategy) {
        var a: nat, rank: nat :| AnswerCites(answers[..n], strategy, a, rank, h);
        assert AnswerCites(answers, strategy, a, rank, h);
      } else if h in HitsOfAnswers(answers, strategy) {
        var rank: nat :| ItemCites(answers[n].items, answers[n].ns, strategy, rank, h);
        assert AnswerCites(answers, strategy, n, rank, h);
      }
      if a: nat, rank: nat :| AnswerCites(answers, strategy, a, rank, h) {
        assert a < n ==> AnswerCites(answers[..n], strategy, a, rank, h);
        assert a == n ==> ItemCites(answers[n].items, answers[n].ns, strategy, rank, h);
      }
    }
  }

  /** The provider hits are exactly the citations: every cited record, under every strategy, is a candidate with the
      score, excerpt, namespace and strategy of the result that cites it, and there are no others. */
  lemma {:induction false} HitsAreExactlyTheCitations(capabilities: seq<string>, replies: seq<Reply>, h: Hit)
    requires |capabilities| == |replies|
    ensures h in AllHits(capabilities, replies) <==> Cited(capabilities, replies, h)
  {
    if replies != [] {
      var n := |replies| - 1;
      HitsAreExactlyTheCitations(capabilities[..n], replies[..n], h);
      if replies[n].Replied? {
        AnswersHitsAreCitations(replies[n].answers, capabilities[n], h);
      }
      if h in AllHits(capabilities[..n], replies[..n]) {
        var s: nat, a: nat, rank: nat :| CitedAt(capabilities[..n], replies[..n], s, a, rank, h);
        assert CitedAt(capabilities, replies, s, a, rank, h);
      } else if h in AllHits(capabilities, replies) {
        var a: nat, rank: nat :| AnswerCites(replies[n].answers, capabilities[n], a, rank, h);
        assert CitedAt(capabilities, replies, n, a, rank, h);
      }
      if s: nat, a: nat, rank: nat :| CitedAt(capabilities, replies, s, a, rank, h) {
        if s < n {
          assert CitedAt(capabilities[..n], replies[..n], s, a, rank, h);
        } else {
          assert AnswerCites(replies[n].answers, capabilities[n], a, rank, h);
        }
      }
    }
  }

  /** Main result: a returned hit is what some result of the provider says of its record, and no result, of any strategy
      that answered, reports a relevance in the unit interval for that record above the score returned. */
  lemma ReturnedHitsAreTheBestCitations(capabilities: seq<string>, replies: seq<Reply>, limit: nat, k: nat, s: nat,
                                        a: nat, rank: nat)
    requires |capabilities| == |replies| && k < |Ranked(Combined(capabilities, replies, limit), limit)|
    requires s < |replies| && replies[s].Replied? && a < |replies[s].answers| && rank < |replies[s].answers[a].items|
    ensures var hit := Ranked(Combined(capabilities, replies, limit), limit)[k];
            var item := replies[s].answers[a].items[rank];
            && Cited(capabilities, replies, hit)
            && (hit.recordId in item.recordIds ==>
                  && hit.score >= Score(item.raw, rank)
                  && (item.raw.Number? && 0.0 <= item.raw.value <= 1.0 ==> hit.score >= item.raw.value))
  {
    var c, got := Combined(capabilities, replies, limit), Ranked(Combined(capabilities, replies, limit), limit);
    var hit, answer := got[k], replies[s].answers[a];
    var item := answer.items[rank];
    CombinedHitsAreProviderHits(capabilities, replies, limit);
    assert hit in SortBy(BestFirst, c);
    SortElements(BestFirst, c, hit);
    HitsAreExactlyTheCitations(capabilities, replies, hit);
    if hit.recordId in item.recordIds {
      var rival := Hit(hit.recordId, Score(item.raw, rank), item.excerpt, answer.ns, capabilities[s]);
      assert CitedAt(capabilities, replies, s, a, rank, rival);
      HitsAreExactlyTheCitations(capabilities, replies, rival);
      ReturnedScoresAreBest(capabilities, replies, limit, k, rival);
    }
  }

  /** Main result: a search returns as many hits as asked for, or one for every record cited if those are fewer; never
      two for one record, and none scoring more than the one before it. */
  lemma ReturnsAsManyAsAsked(capabilities: seq<string>, replies: seq<Reply>, limit: nat)
    requires |capabilities| == |replies|
    ensures var got := Ranked(Combined(capabilities, replies, limit), limit);
            var cited := IdsOf(AllHits(capabilities, replies));
            && |got| == (if limit <= |cited| then limit else |cited|)
            && DistinctRecords(got)
            && forall i, j :: 0 <= i < j < |got| ==> got[j].score <= got[i].score
  {
    var c, all := Combined(capabilities, replies, limit), AllHits(capabilities, replies);
    SizeAgrees(capabilities, replies, limit);
    AllHitsAreScored(capabilities, replies);
    MergeIsUnionAtEveryScore([], all, 0.0);
    EveryScoredRecordCounts(Merge([], all));
    assert IdsAbove(all, 0.0) == IdsOf(all) && IdsAbove([], 0.0) == {};
    CombinedHitsAreProviderHits(capabilities, replies, limit);
    SortKeepsRecords(c);
    var ranked := SortBy(BestFirst, c);
    forall i, j | 0 <= i < j < |Ranked(c, limit)|
      ensures Ranked(c, limit)[j].score <= Ranked(c, limit)[i].score
    {
      assert BestFirst(ranked[i], ranked[j]);
    }
  }

  // ---- which of a record's hits is kept, and in what order ----

  /** The first of its record's hits to reach the best score among them. */
  ghost predicate FirstBest(hits: seq<Hit>, i: nat) {
    && i < |hits|
    && forall j :: 0 <= j < |hits| && hits[j].recordId == hits[i].recordId ==>
                     hits[j].score <= hits[i].score && (j < i ==> hits[j].score < hits[i].score)
  }

  function RecordsOf(hits: seq<Hit>): (r: seq<Uuid>)
    ensures |r| == |hits|
    ensures forall i :: 0 <= i < |r| ==> r[i] == hits[i].recordId
  {
    if hits == [] then [] else RecordsOf(hits[..|hits| - 1]) + [hits[|hits| - 1].recordId]
  }

  /** One hit is in place for every record seen, the first best of its hits; records stand in the order they were first
      seen. */
  ghost predicate Keeps(kept: seq<Hit>, seen: seq<Hit>) {
    && DistinctRecords(kept)
    && (forall k :: 0 <= k < |kept| ==> exists i: nat :: FirstBest(seen, i) && seen[i] == kept[k])
    && RecordsOf(kept) == FirstOccurrences(RecordsOf(seen))
  }

  lemma OneMoreFirstBest(seen: seq<Hit>, hit: Hit, i: nat)
    requires FirstBest(seen, i) && (hit.recordId == seen[i].recordId ==> hit.score <= seen[i].score)
    ensures FirstBest(seen + [hit], i)
  {
  }

  lemma NewFirstBest(seen: seq<Hit>, hit: Hit)
    requires forall j :: 0 <= j < |seen| && seen[j].recordId == hit.recordId ==> seen[j].score < hit.score
    ensures FirstBest(seen + [hit], |seen|)
  {
  }

  lemma AbsorbKeepsRecords(hits: seq<Hit>, hit: Hit)
    ensures RecordsOf(Absorb(hits, hit))
            == if hit.recordId in RecordsOf(hits) then RecordsOf(hits) else RecordsOf(hits) + [hit.recordId]
  {
    IndexOfFinds(hits, hit.recordId);
    var i := IndexOf(hits, hit.recordId);
    if i >= 0 {
      assert RecordsOf(hits)[i] == hit.recordId;
    } else {
      assert forall k :: 0 <= k < |hits| ==> RecordsOf(hits)[k] != hit.recordId;
    }
  }

  /** Whatever was seen of the record, its kept hit reaches at least that score. */
  lemma KeptIsBest(kept: seq<Hit>, seen: seq<Hit>, k: nat, j: nat)
    requires Keeps(kept, seen) && k < |kept| && j < |seen| && seen[j].recordId == kept[k].recordId
    ensures seen[j].score <= kept[k].score
  {
    var i: nat :| FirstBest(seen, i) && seen[i] == kept[k];
  }

  /** A hit that stays stays the first best: the new one does not beat it. */
  lemma StayingHitIsFirstBest(kept: seq<Hit>, seen: seq<Hit>, hit: Hit, k: nat)
    requires Keeps(kept, seen) && k < |kept| && k < |Absorb(kept, hit)| && Absorb(kept, hit)[k] == kept[k]
    ensures exists i: nat :: FirstBest(seen + [hit], i) && (seen + [hit])[i] == kept[k]
  {
    var i: nat :| FirstBest(seen, i) && seen[i] == kept[k];
    var at := IndexOf(kept, hit.recordId);
    IndexOfFinds(kept, hit.recordId);
    assert hit.recordId == kept[k].recordId ==> at == k;
    OneMoreFirstBest(seen, hit, i);
    assert (seen + [hit])[i] == kept[k];
  }

  /** A hit taken in is the first best: whatever was seen of its record scored less. */
  lemma TakenHitIsFirstBest(kept: seq<Hit>, seen: seq<Hit>, hit: Hit)
    requires Keeps(kept, seen)
    requires forall k :: 0 <= k < |kept| && kept[k].recordId == hit.recordId ==> kept[k].score < hit.score
    ensures FirstBest(seen + [hit], |seen|) && (seen + [hit])[|seen|] == hit
  {
    forall j | 0 <= j < |seen| && seen[j].recordId == hit.recordId
      ensures seen[j].score < hit.score
    {
      SeenRecordsAreKept(kept, seen, j);
      var k :| 0 <= k < |kept| && kept[k].recordId == seen[j].recordId;
      KeptIsBest(kept, seen, k, j);
    }
    NewFirstBest(seen, hit);
  }

  lemma OneHitTaken(kept: seq<Hit>, hit: Hit, k: nat)
    requires DistinctRecords(kept) && k < |Absorb(kept, hit)| && (k < |kept| ==> Absorb(kept, hit)[k] != kept[k])
    ensures Absorb(kept, hit)[k] == hit
    ensures forall m :: 0 <= m < |kept| && kept[m].recordId == hit.recordId ==> kept[m].score < hit.score
  {
    IndexOfFinds(kept, hit.recordId);
  }

  lemma AbsorbKeepsFirstBests(kept: seq<Hit>, seen: seq<Hit>, hit: Hit, k: nat)
    requires Keeps(kept, seen) && k < |Absorb(kept, hit)|
    ensures exists i: nat :: FirstBest(seen + [hit], i) && (seen + [hit])[i] == Absorb(kept, hit)[k]
  {
    if k < |kept| && Absorb(kept, hit)[k] == kept[k] {
      StayingHitIsFirstBest(kept, seen, hit, k);
    } else {
      OneHitTaken(kept, hit, k);
      TakenHitIsFirstBest(kept, seen, hit);
    }
  }

  lemma AbsorbKeepsOrder(kept: seq<Hit>, seen: seq<Hit>, hit: Hit)
    requires RecordsOf(kept) == FirstOccurrences(RecordsOf(seen))
    ensures RecordsOf(Absorb(kept, hit)) == FirstOccurrences(RecordsOf(seen + [hit]))
  {
    AbsorbKeepsRecords(kept, hit);
    var after := RecordsOf(seen + [hit]);
    assert after[..|seen|] == RecordsOf(seen) && after[|seen|] == hit.recordId;
  }

  lemma AbsorbKeeps(kept: seq<Hit>, seen: seq<Hit>, hit: Hit)
    requires Keeps(kept, seen)
    ensures Keeps(Absorb(kept, hit), seen + [hit])
  {
    AbsorbAddsOne(kept, hit, 0.0);
    AbsorbKeepsOrder(kept, seen, hit);
    forall k: nat | k < |Absorb(kept, hit)|
      ensures exists i: nat :: FirstBest(seen + [hit], i) && (seen + [hit])[i] == Absorb(kept, hit)[k]
    {
      AbsorbKeepsFirstBests(kept, seen, hit, k);
    }
  }

  lemma SeenRecordsAreKept(kept: seq<Hit>, seen: seq<Hit>, j: nat)
    requires Keeps(kept, seen) && j < |seen|
    ensures exists k :: 0 <= k < |kept| && kept[k].recordId == seen[j].recordId
  {
    var id := seen[j].recordId;
    assert RecordsOf(seen)[j] == id;
    FirstOccurrencesAreTheIds(RecordsOf(seen), id);
    var k :| 0 <= k < |RecordsOf(kept)| && RecordsOf(kept)[k] == id;
    assert kept[k].recordId == id;
  }

  lemma MergeOfLast(seen: seq<Hit>)
    requires seen != []
    ensures var n := |seen| - 1;
            Merge([], seen) == Absorb(Merge([], seen[..n]), seen[n]) && seen == seen[..n] + [seen[n]]
  {
  }

  lemma MergeOfNothing()
    ensures Merge([], []) == [] && Keeps([], [])
  {
  }

  lemma OneMoreKept(kept: seq<Hit>, before: seq<Hit>, hit: Hit, next: seq<Hit>, seen: seq<Hit>)
    requires Keeps(kept, before) && next == Absorb(kept, hit) && seen == before + [hit]
    ensures Keeps(next, seen)
  {
    AbsorbKeeps(kept, before, hit);
  }

  /** Main result: a merge keeps of each record the first of its hits to reach its best score, the earlier strategy
      winning a tie, and lists the records in the order they were first seen. */
  lemma {:induction false} MergeKeepsTheFirstBest(seen: seq<Hit>)
    ensures Keeps(Merge([], seen), seen)
  {
    if seen == [] {
      MergeOfNothing();
    } else {
      var n := |seen| - 1;
      MergeKeepsTheFirstBest(seen[..n]);
      MergeOfLast(seen);
      OneMoreKept(Merge([], seen[..n]), seen[..n], seen[n], Merge([], seen), seen);
    }
  }

  // ---- what a failed search reports ----

  /** A refusal is reported under the name of its strategy, and nothing else is. */
  lemma {:induction false} FailuresAreTheRefusals(capabilities: seq<string>, replies: seq<Reply>, text: string)
    requires |capabilities| == |replies|
    ensures text in Failures(capabilities, replies) <==>
              exists n: nat ::
                n < |replies| && replies[n].Refused? && text == capabilities[n] + ": " + replies[n].reason
  {
    if replies != [] {
      var n := |replies| - 1;
      FailuresAreTheRefusals(capabilities[..n], replies[..n], text);
      if k: nat :| k < n && replies[..n][k].Refused? && text == capabilities[..n][k] + ": " + replies[..n][k].reason {
        assert replies[k].Refused? && text == capabilities[k] + ": " + replies[k].reason;
      }
      if k: nat :| k < |replies| && replies[k].Refused? && text == capabilities[k] + ": " + replies[k].reason {
        assert k < n ==> replies[..n][k].Refused? && text == capabilities[..n][k] + ": " + replies[..n][k].reason;
      }
    }
  }
}
