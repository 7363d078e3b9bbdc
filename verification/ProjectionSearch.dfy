/** The projection's search loops over a dictionary of best hits. */
module Projections {
  import opened Prelude
  import opened Sorting
  import opened ProjectionSpec

  /** Keep the better of two hits for one record: still one hit a record, and no record is lost at any score. */
  method KeepBest(hits: seq<Hit>, hit: Hit) returns (kept: seq<Hit>)
    ensures kept == Absorb(hits, hit)
    ensures DistinctRecords(hits) ==>
              DistinctRecords(kept) && forall x :: IdsAbove(kept, x) == IdsAbove(hits, x) + IdsAbove([hit], x)
  {
    if DistinctRecords(hits) {
      AbsorbAddsOne(hits, hit, 0.0);
      forall x
        ensures IdsAbove(Absorb(hits, hit), x) == IdsAbove(hits, x) + IdsAbove([hit], x)
      {
        AbsorbAddsOne(hits, hit, x);
      }
    }
    var existing := IndexOf(hits, hit.recordId);
    if existing < 0 {
      kept := hits + [hit];
    } else if hit.score > hits[existing].score {
      kept := hits[existing := hit];
    } else {
      kept := hits;
    }
  }

  /** One namespace's ranked results, each citing any number of records. */
  method AbsorbAnswer(before: seq<Hit>, items: seq<Item>, ns: string, strategy: string) returns (hits: seq<Hit>)
    ensures hits == Merge(before, HitsOfItems(items, ns, strategy))
  {
    hits := before;
    for rank := 0 to |items|
      invariant hits == Merge(before, HitsOfItems(items[..rank], ns, strategy))
    {
      var ids := FirstOccurrences(items[rank].recordIds);
      var score := Score(items[rank].raw, rank);
      ghost var start := hits;
      ghost var cited := HitsOfItem(ids, score, items[rank], ns, strategy);
      for r := 0 to |ids|
        invariant hits == Merge(start, cited[..r])
      {
        hits := KeepBest(hits, Hit(ids[r], score, items[rank].excerpt, ns, strategy));
        assert cited[..r + 1][..r] == cited[..r];
      }
      assert cited[..|ids|] == cited;
      FoldAppends(Absorb, before, HitsOfItems(items[..rank], ns, strategy), cited);
      assert items[..rank + 1][..rank] == items[..rank];
    }
    assert items[..|items|] == items;
  }

  method SearchStrategy(answers: seq<Answer>, strategy: string, limit: int) returns (ranked: seq<Hit>)
    ensures ranked == StrategyHits(answers, strategy, limit)
  {
    var hits: seq<Hit> := [];
    for a := 0 to |answers|
      invariant hits == Merge([], HitsOfAnswers(answers[..a], strategy))
    {
      hits := AbsorbAnswer(hits, answers[a].items, answers[a].ns, strategy);
      FoldAppends(Absorb, [], HitsOfAnswers(answers[..a], strategy),
                  HitsOfItems(answers[a].items, answers[a].ns, strategy));
      assert answers[..a + 1][..a] == answers[..a];
    }
    assert answers[..|answers|] == answers;
    ranked := Take(SortBy(BestFirst, hits), limit);
  }

  method SearchAll(capabilities: seq<string>, replies: seq<Reply>, limit: int) returns (outcome: Outcome)
    requires |capabilities| == |replies|
    ensures outcome == Search(capabilities, replies, limit)
  {
    var combined: seq<Hit> := [];
    var failures: seq<string> := [];
    for s := 0 to |replies|
      invariant combined == Combined(capabilities[..s], replies[..s], limit)
      invariant failures == Failures(capabilities[..s], replies[..s])
    {
      assert replies[..s + 1][..s] == replies[..s] && capabilities[..s + 1][..s] == capabilities[..s];
      match replies[s] {
        case Refused(reason) =>
          failures := failures + [capabilities[s] + ": " + reason];
        case Replied(answers) =>
          var found := SearchStrategy(answers, capabilities[s], limit);
          ghost var before := combined;
          for h := 0 to |found|
            invariant combined == Merge(before, found[..h])
          {
            combined := KeepBest(combined, found[h]);
            assert found[..h + 1][..h] == found[..h];
          }
          assert found[..|found|] == found;
      }
    }
    assert replies[..|replies|] == replies && capabilities[..|replies|] == capabilities;
    if failures != [] && combined == [] {
      return Failed(failures);
    }
    outcome := Hits(Take(SortBy(BestFirst, combined), limit));
  }
}
