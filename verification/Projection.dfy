/** Merging projection hits: per strategy, then across strategies, each time keeping the best score. */
module ProjectionSpec {
  import opened Prelude
  import opened Sorting

  datatype Hit = Hit(recordId: Uuid, score: real, excerpt: string, ns: string, strategy: string)

  /** What the provider put in `relevance` or `score`. */
  datatype RawScore = Missing | Number(value: real) | NotANumber

  /** One provider result with the canonical records it resolves to, in citation order. */
  datatype Item = Item(recordIds: seq<Uuid>, raw: RawScore, excerpt: string)

  /** The provider's ranked results for one authorized namespace. */
  datatype Answer = Answer(ns: string, items: seq<Item>)

  datatype Reply = Replied(answers: seq<Answer>) | Refused(reason: string)

  datatype Outcome = Hits(hits: seq<Hit>) | Failed(failures: seq<string>)

  /** A reported number is cut to the unit interval, an unreadable one counts nothing, and a hit without one is scored
      by its place in the answer. */
  function Score(raw: RawScore, rank: nat): (r: real)
    ensures 0.0 <= r <= 1.0
  {
    match raw
    case Missing => 1.0 / (1.0 + rank as real)
    case NotANumber => 0.0
    case Number(v) => if v < 0.0 then 0.0 else if v > 1.0 then 1.0 else v
  }

  lemma ProductKeepsOrder(x: real, y: real, z: real)
    requires x > 0.0 && y < z
    ensures x * y < x * z
  {
    assert x * z - x * y == x * (z - y);
  }

  lemma ReciprocalsReverseOrder(a: real, b: real)
    requires 0.0 < a < b
    ensures 1.0 / b < 1.0 / a
  {
    var x, y := 1.0 / a, 1.0 / b;
    assert a * x == 1.0 && b * y == 1.0;
    if y <= 0.0 {
      if y < 0.0 {
        ProductKeepsOrder(b, y, 0.0);
      }
      assert false;
    }
    ProductKeepsOrder(y, a, b);
    assert y * a < y * b == b * y;
    assert y * a == a * y;
    if x < y {
      ProductKeepsOrder(a, x, y);
      assert false;
    }
  }

  /** A result the provider ranked higher scores strictly more when it reports no score. */
  lemma RankOrdersUnscoredHits(rank: nat, later: nat)
    ensures rank < later <==> Score(Missing, later) < Score(Missing, rank)
  {
    var a, b := 1.0 + rank as real, 1.0 + later as real;
    if rank < later {
      ReciprocalsReverseOrder(a, b);
    } else if later < rank {
      ReciprocalsReverseOrder(b, a);
    }
  }

  /** A relevance inside the unit interval is kept as reported, one outside is moved to the nearer end, and a higher
      report never scores less; an unreadable one scores nothing. */
  lemma ReportedRelevanceIsTheScore(v: real, w: real, i: nat, j: nat)
    ensures 0.0 <= v <= 1.0 ==> Score(Number(v), i) == v
    ensures v <= 0.0 ==> Score(Number(v), i) == 0.0
    ensures v >= 1.0 ==> Score(Number(v), i) == 1.0
    ensures v <= w ==> Score(Number(v), i) <= Score(Number(w), j)
    ensures Score(NotANumber, i) == 0.0
  {
  }

  /** Without a report the first result scores 1, the second a half, the third a third, and so on. */
  lemma UnreportedScoreIsTheRank(rank: nat)
    ensures Score(Missing, 0) == 1.0 && Score(Missing, 1) == 0.5
    ensures Score(Missing, rank) * (1.0 + rank as real) == 1.0
  {
  }

  /** Order-preserving removal of repeats. */
  function FirstOccurrences(ids: seq<Uuid>): (r: seq<Uuid>) {
    if ids == [] then []
    else
      var n := |ids| - 1;
      var front := FirstOccurrences(ids[..n]);
      if ids[n] in front then front else front + [ids[n]]
  }

  function HitsOfItem(ids: seq<Uuid>, score: real, item: Item, ns: string, strategy: string): (r: seq<Hit>)
    ensures |r| == |ids|
    ensures forall i :: 0 <= i < |ids| ==> r[i] == Hit(ids[i], score, item.excerpt, ns, strategy)
  {
    if ids == [] then []
    else HitsOfItem(ids[..|ids| - 1], score, item, ns, strategy)
         + [Hit(ids[|ids| - 1], score, item.excerpt, ns, strategy)]
  }

  /** Every hit of one namespace's results, in rank order, before any merging. */
  function HitsOfItems(items: seq<Item>, ns: string, strategy: string): seq<Hit> {
    if items == [] then []
    else
      var n := |items| - 1;
      HitsOfItems(items[..n], ns, strategy)
      + HitsOfItem(FirstOccurrences(items[n].recordIds), Score(items[n].raw, n), items[n], ns, strategy)
  }

  function HitsOfAnswers(answers: seq<Answer>, strategy: string): seq<Hit> {
    if answers == [] then []
    else
      var n := |answers| - 1;
      HitsOfAnswers(answers[..n], strategy) + HitsOfItems(answers[n].items, answers[n].ns, strategy)
  }

  /** The untruncated hits of every strategy that answered. */
  function AllHits(capabilities: seq<string>, replies: seq<Reply>): seq<Hit>
    requires |capabilities| == |replies|
  {
    if replies == [] then []
    else
      var n := |replies| - 1;
      AllHits(capabilities[..n], replies[..n])
      + if replies[n].Replied? then HitsOfAnswers(replies[n].answers, capabilities[n]) else []
  }

  function IndexOf(hits: seq<Hit>, id: Uuid): (i: int)
    ensures -1 <= i < |hits|
  {
    if hits == [] then -1
    else if hits[|hits| - 1].recordId == id then |hits| - 1
    else IndexOf(hits[..|hits| - 1], id)
  }

  /** Store a hit under its record: a better score replaces in place, a new record goes last. */
  function Absorb(hits: seq<Hit>, hit: Hit): seq<Hit> {
    var i := IndexOf(hits, hit.recordId);
    if i < 0 then hits + [hit] else if hit.score > hits[i].score then hits[i := hit] else hits
  }

  function Merge(hits: seq<Hit>, more: seq<Hit>): seq<Hit> {
    Fold(Absorb, hits, more)
  }

  predicate BestFirst(a: Hit, b: Hit) {
    a.score >= b.score
  }

  function Ranked(hits: seq<Hit>, limit: int): seq<Hit> {
    Take(SortBy(BestFirst, hits), limit)
  }

  function StrategyHits(answers: seq<Answer>, strategy: string, limit: int): seq<Hit> {
    Ranked(Merge([], HitsOfAnswers(answers, strategy)), limit)
  }

  function Combined(capabilities: seq<string>, replies: seq<Reply>, limit: int): seq<Hit>
    requires |capabilities| == |replies|
  {
    if replies == [] then []
    else
      var n := |replies| - 1;
      var before := Combined(capabilities[..n], replies[..n], limit);
      if replies[n].Replied? then Merge(before, StrategyHits(replies[n].answers, capabilities[n], limit)) else before
  }

  function Failures(capabilities: seq<string>, replies: seq<Reply>): seq<string>
    requires |capabilities| == |replies|
  {
    if replies == [] then []
    else
      var n := |replies| - 1;
      Failures(capabilities[..n], replies[..n])
      + if replies[n].Refused? then [capabilities[n] + ": " + replies[n].reason] else []
  }

  function Search(capabilities: seq<string>, replies: seq<Reply>, limit: int): Outcome
    requires |capabilities| == |replies|
  {
    var combined := Combined(capabilities, replies, limit);
    var failures := Failures(capabilities, replies);
    if failures != [] && combined == [] then Failed(failures) else Hits(Ranked(combined, limit))
  }

  /** The records that reach a score. */
  ghost function IdsAbove(hits: seq<Hit>, x: real): set<Uuid> {
    set h | h in hits && h.score >= x :: h.recordId
  }

  ghost predicate DistinctRecords(hits: seq<Hit>) {
    forall i, j :: 0 <= i < j < |hits| ==> hits[i].recordId != hits[j].recordId
  }

  ghost predicate Scored(hits: seq<Hit>) {
    forall h :: h in hits ==> h.score >= 0.0
  }

  lemma {:induction false} IndexOfFinds(hits: seq<Hit>, id: Uuid)
    ensures IndexOf(hits, id) >= 0 ==> hits[IndexOf(hits, id)].recordId == id
    ensures IndexOf(hits, id) < 0 ==> forall k :: 0 <= k < |hits| ==> hits[k].recordId != id
  {
    if hits != [] {
      IndexOfFinds(hits[..|hits| - 1], id);
    }
  }

  lemma AbsorbAddsOne(hits: seq<Hit>, hit: Hit, x: real)
    requires DistinctRecords(hits)
    ensures DistinctRecords(Absorb(hits, hit))
    ensures IdsAbove(Absorb(hits, hit), x) == IdsAbove(hits, x) + IdsAbove([hit], x)
    ensures forall h :: h in Absorb(hits, hit) ==> h in hits || h == hit
  {
    var i, r := IndexOf(hits, hit.recordId), Absorb(hits, hit);
    IndexOfFinds(hits, hit.recordId);
    forall id
      ensures id in IdsAbove(r, x) <==> id in IdsAbove(hits, x) + IdsAbove([hit], x)
    {
      if id in IdsAbove(hits, x) {
        var k :| 0 <= k < |hits| && hits[k].recordId == id && hits[k].score >= x;
        assert r[k].recordId == id && r[k].score >= x;
        assert r[k] in r;
      }
      if id in IdsAbove([hit], x) {
        if i < 0 { assert r[|hits|] in r; } else { assert r[i] in r; }
      }
      if id in IdsAbove(r, x) {
        var k :| 0 <= k < |r| && r[k].recordId == id && r[k].score >= x;
        if r[k] != hit { assert r[k] in hits; } else { assert hit in [hit]; }
      }
    }
  }

  /** Merging keeps one hit per record and exactly the records either side lifts above any score. */
  lemma {:induction false} MergeIsUnionAtEveryScore(hits: seq<Hit>, more: seq<Hit>, x: real)
    requires DistinctRecords(hits)
    ensures DistinctRecords(Merge(hits, more))
    ensures IdsAbove(Merge(hits, more), x) == IdsAbove(hits, x) + IdsAbove(more, x)
    ensures forall h :: h in Merge(hits, more) ==> h in hits || h in more
  {
    if more != [] {
      var n := |more| - 1;
      MergeIsUnionAtEveryScore(hits, more[..n], x);
      assert Merge(hits, more) == Absorb(Merge(hits, more[..n]), more[n]);
      AbsorbAddsOne(Merge(hits, more[..n]), more[n], x);
      assert more == more[..n] + [more[n]];
      ConcatIds(more[..n], [more[n]], x);
    }
  }

  lemma ConcatIds(a: seq<Hit>, b: seq<Hit>, x: real)
    ensures IdsAbove(a + b, x) == IdsAbove(a, x) + IdsAbove(b, x)
  {
    forall id
      ensures id in IdsAbove(a + b, x) <==> id in IdsAbove(a, x) + IdsAbove(b, x)
    {
      if id in IdsAbove(a + b, x) {
        var h :| h in a + b && h.score >= x && h.recordId == id;
        assert h in a || h in b;
      }
      if id in IdsAbove(a, x) {
        var h :| h in a && h.score >= x && h.recordId == id;
        assert h in a + b;
      }
      if id in IdsAbove(b, x) {
        var h :| h in b && h.score >= x && h.recordId == id;
        assert h in a + b;
      }
    }
  }

  lemma BestFirstIsPreorder()
    ensures TotalPreorder(BestFirst)
  {
  }

  lemma SortKeepsRecords(hits: seq<Hit>)
    requires DistinctRecords(hits)
    ensures var s := SortBy(BestFirst, hits);
            DistinctRecords(s) && Ordered(BestFirst, s) &&
            (forall x :: IdsAbove(s, x) == IdsAbove(hits, x)) && (forall h :: h in s <==> h in hits)
  {
    var s := SortBy(BestFirst, hits);
    BestFirstIsPreorder();
    SortIsOrdered(BestFirst, hits);
    SortKeepsDistinct(BestFirst, hits);
    forall h
      ensures h in s <==> h in hits
    {
      SortElements(BestFirst, hits, h);
    }
    forall i, j | 0 <= i < j < |s|
      ensures s[i].recordId != s[j].recordId
    {
      assert s[i] in hits && s[j] in hits;
    }
  }

  ghost function IdsOf(hits: seq<Hit>): set<Uuid> {
    set h | h in hits :: h.recordId
  }

  lemma {:induction false} OneIdPerHit(s: seq<Hit>)
    requires DistinctRecords(s)
    ensures |IdsOf(s)| == |s|
  {
    if s != [] {
      var n := |s| - 1;
      OneIdPerHit(s[..n]);
      assert s == s[..n] + [s[n]];
      assert IdsOf(s) == IdsOf(s[..n]) + {s[n].recordId} by {
        assert forall h :: h in s <==> h in s[..n] || h == s[n];
      }
      assert s[n].recordId !in IdsOf(s[..n]);
    }
  }

  /** In a ranking, the k-th score reaches x exactly when more than k records do. */
  lemma PositionByCount(s: seq<Hit>, k: nat, x: real)
    requires k < |s| && DistinctRecords(s) && Ordered(BestFirst, s)
    ensures s[k].score >= x <==> |IdsAbove(s, x)| > k
  {
    if s[k].score >= x {
      OneIdPerHit(s[..k + 1]);
      forall id | id in IdsOf(s[..k + 1])
        ensures id in IdsAbove(s, x)
      {
        var i :| 0 <= i <= k && s[..k + 1][i].recordId == id;
        assert i < k ==> BestFirst(s[i], s[k]);
        assert s[i] in s;
      }
      SubsetSize(IdsOf(s[..k + 1]), IdsAbove(s, x));
    } else {
      OneIdPerHit(s[..k]);
      forall i | k <= i < |s|
        ensures s[i].score < x
      {
        if i > k { assert BestFirst(s[k], s[i]); }
      }
      forall id | id in IdsAbove(s, x)
        ensures id in IdsOf(s[..k])
      {
        var i :| 0 <= i < |s| && s[i].recordId == id && s[i].score >= x;
        assert s[i] == s[..k][i];
      }
      SubsetSize(IdsAbove(s, x), IdsOf(s[..k]));
    }
  }

  lemma SubsetSize<T>(a: set<T>, b: set<T>)
    requires a <= b
    ensures |a| <= |b|
  {
    assert b == a + (b - a);
  }

  /** Past a place that scores below x, a ranking holds no record above x. */
  lemma CutBelowLosesNothing(s: seq<Hit>, limit: nat, x: real)
    requires Ordered(BestFirst, s) && 0 < limit < |s| && s[limit - 1].score < x
    ensures IdsAbove(s[..limit], x) == IdsAbove(s, x)
  {
    forall i | limit <= i < |s|
      ensures s[i].score < x
    {
      assert BestFirst(s[limit - 1], s[i]);
    }
    forall id | id in IdsAbove(s, x)
      ensures id in IdsAbove(s[..limit], x)
    {
      var i :| 0 <= i < |s| && s[i].recordId == id && s[i].score >= x;
      assert s[..limit][i] in s[..limit];
    }
  }

  /** A cut ranking still holds every record above x, or at least `limit` of them. */
  lemma CutKeepsRecordsAbove(hits: seq<Hit>, limit: nat, x: real)
    requires DistinctRecords(hits)
    ensures var kept := IdsAbove(Ranked(hits, limit), x);
            && kept <= IdsAbove(hits, x)
            && (kept == IdsAbove(hits, x) || |kept| >= limit)
  {
    var s, r := SortBy(BestFirst, hits), Ranked(hits, limit);
    SortKeepsRecords(hits);
    assert forall h :: h in r ==> h in s;
    assert IdsAbove(r, x) <= IdsAbove(s, x);
    if 0 < limit < |s| {
      if s[limit - 1].score >= x {
        assert Ordered(BestFirst, r) && DistinctRecords(r);
        PositionByCount(r, limit - 1, x);
      } else {
        CutBelowLosesNothing(s, limit, x);
      }
    }
  }

  lemma {:induction false} CombinedKeepsRecordsAbove(capabilities: seq<string>, replies: seq<Reply>, limit: nat,
                                                     x: real)
    requires |capabilities| == |replies|
    ensures var c, all := Combined(capabilities, replies, limit), AllHits(capabilities, replies);
            && DistinctRecords(c)
            && IdsAbove(c, x) <= IdsAbove(all, x)
            && (IdsAbove(c, x) == IdsAbove(all, x) || |IdsAbove(c, x)| >= limit)
    decreases |replies|
  {
    if replies != [] {
      var n := |replies| - 1;
      CombinedKeepsRecordsAbove(capabilities[..n], replies[..n], limit, x);
      if replies[n].Replied? {
        var before := Combined(capabilities[..n], replies[..n], limit);
        var raw := HitsOfAnswers(replies[n].answers, capabilities[n]);
        var mine := StrategyHits(replies[n].answers, capabilities[n], limit);
        MergeIsUnionAtEveryScore([], raw, x);
        CutKeepsRecordsAbove(Merge([], raw), limit, x);
        MergeIsUnionAtEveryScore(before, mine, x);
        ConcatIds(AllHits(capabilities[..n], replies[..n]), raw, x);
        SubsetSize(IdsAbove(before, x), IdsAbove(before, x) + IdsAbove(mine, x));
        SubsetSize(IdsAbove(mine, x), IdsAbove(before, x) + IdsAbove(mine, x));
      } else {
        assert AllHits(capabilities, replies) == AllHits(capabilities[..n], replies[..n]);
      }
    }
  }

  lemma {:induction false} ItemHitsAreScored(items: seq<Item>, ns: string, strategy: string)
    ensures Scored(HitsOfItems(items, ns, strategy))
  {
    if items != [] {
      ItemHitsAreScored(items[..|items| - 1], ns, strategy);
    }
  }

  lemma {:induction false} AnswerHitsAreScored(answers: seq<Answer>, strategy: string)
    ensures Scored(HitsOfAnswers(answers, strategy))
  {
    if answers != [] {
      var n := |answers| - 1;
      AnswerHitsAreScored(answers[..n], strategy);
      ItemHitsAreScored(answers[n].items, answers[n].ns, strategy);
    }
  }

  lemma {:induction false} AllHitsAreScored(capabilities: seq<string>, replies: seq<Reply>)
    requires |capabilities| == |replies|
    ensures Scored(AllHits(capabilities, replies))
  {
    if replies != [] {
      var n := |replies| - 1;
      AllHitsAreScored(capabilities[..n], replies[..n]);
      if replies[n].Replied? {
        AnswerHitsAreScored(replies[n].answers, capabilities[n]);
      }
    }
  }

  /** Every kept hit is a provider hit, and none of them outscores it for long: one hit per record. */
  lemma {:induction false} CombinedHitsAreProviderHits(capabilities: seq<string>, replies: seq<Reply>, limit: int)
    requires |capabilities| == |replies|
    ensures DistinctRecords(Combined(capabilities, replies, limit))
    ensures forall h :: h in Combined(capabilities, replies, limit) ==> h in AllHits(capabilities, replies)
    decreases |replies|
  {
    if replies != [] {
      var n := |replies| - 1;
      CombinedHitsAreProviderHits(capabilities[..n], replies[..n], limit);
      if replies[n].Replied? {
        var raw := HitsOfAnswers(replies[n].answers, capabilities[n]);
        var mine := StrategyHits(replies[n].answers, capabilities[n], limit);
        MergeIsUnionAtEveryScore([], raw, 0.0);
        SortKeepsRecords(Merge([], raw));
        assert forall h :: h in mine ==> h in SortBy(BestFirst, Merge([], raw));
        MergeIsUnionAtEveryScore(Combined(capabilities[..n], replies[..n], limit), mine, 0.0);
      }
    }
  }

  /** The reference: merge everything untruncated, rank once, cut once. */
  function Reference(capabilities: seq<string>, replies: seq<Reply>, limit: int): seq<Hit>
    requires |capabilities| == |replies|
  {
    Ranked(Merge([], AllHits(capabilities, replies)), limit)
  }

  lemma EveryScoredRecordCounts(s: seq<Hit>)
    requires DistinctRecords(s) && Scored(s)
    ensures |IdsAbove(s, 0.0)| == |s|
  {
    OneIdPerHit(s);
    assert IdsAbove(s, 0.0) == IdsOf(s);
  }

  lemma ScoreAtMost(s: seq<Hit>, t: seq<Hit>, k: nat, limit: nat)
    requires k < |s| && k < |t| && k < limit
    requires DistinctRecords(s) && DistinctRecords(t) && Ordered(BestFirst, s) && Ordered(BestFirst, t)
    requires var x := s[k].score; |IdsAbove(t, x)| >= |IdsAbove(s, x)| || |IdsAbove(t, x)| >= limit
    ensures t[k].score >= s[k].score
  {
    PositionByCount(s, k, s[k].score);
    PositionByCount(t, k, s[k].score);
  }

  lemma ScoreAgrees(capabilities: seq<string>, replies: seq<Reply>, limit: nat, k: nat)
    requires |capabilities| == |replies| && k < limit
    requires k < |Combined(capabilities, replies, limit)| && k < |Merge([], AllHits(capabilities, replies))|
    ensures SortBy(BestFirst, Combined(capabilities, replies, limit))[k].score
         == SortBy(BestFirst, Merge([], AllHits(capabilities, replies)))[k].score
  {
    var all := AllHits(capabilities, replies);
    var c, m := Combined(capabilities, replies, limit), Merge([], all);
    var s, t := SortBy(BestFirst, c), SortBy(BestFirst, m);
    var x, y := s[k].score, t[k].score;
    CombinedKeepsRecordsAbove(capabilities, replies, limit, x);
    CombinedKeepsRecordsAbove(capabilities, replies, limit, y);
    MergeIsUnionAtEveryScore([], all, x);
    MergeIsUnionAtEveryScore([], all, y);
    SortKeepsRecords(c);
    SortKeepsRecords(m);
    SubsetSize(IdsAbove(c, x), IdsAbove(m, x));
    ScoreAtMost(s, t, k, limit);
    ScoreAtMost(t, s, k, limit);
  }

  lemma SizeAgrees(capabilities: seq<string>, replies: seq<Reply>, limit: nat)
    requires |capabilities| == |replies|
    ensures var c, m := Combined(capabilities, replies, limit), Merge([], AllHits(capabilities, replies));
            |c| <= |m| && (|c| == |m| || |c| >= limit)
  {
    var all := AllHits(capabilities, replies);
    var c, m := Combined(capabilities, replies, limit), Merge([], all);
    AllHitsAreScored(capabilities, replies);
    CombinedHitsAreProviderHits(capabilities, replies, limit);
    MergeIsUnionAtEveryScore([], all, 0.0);
    CombinedKeepsRecordsAbove(capabilities, replies, limit, 0.0);
    EveryScoredRecordCounts(c);
    EveryScoredRecordCounts(m);
    SubsetSize(IdsAbove(c, 0.0), IdsAbove(m, 0.0));
  }

  /** Main result: cutting each strategy to `limit` before the merge loses no score. */
  lemma EarlyTruncationLosesNothing(capabilities: seq<string>, replies: seq<Reply>, limit: nat)
    requires |capabilities| == |replies|
    ensures var got := Ranked(Combined(capabilities, replies, limit), limit);
            var want := Reference(capabilities, replies, limit);
            |got| == |want| && forall k :: 0 <= k < |got| ==> got[k].score == want[k].score
  {
    SizeAgrees(capabilities, replies, limit);
    var got, want := Ranked(Combined(capabilities, replies, limit), limit), Reference(capabilities, replies, limit);
    forall k | 0 <= k < |got|
      ensures got[k].score == want[k].score
    {
      ScoreAgrees(capabilities, replies, limit, k);
    }
  }

  /** Main result: each returned hit carries its record's best score over every strategy that answered. */
  lemma ReturnedScoresAreBest(capabilities: seq<string>, replies: seq<Reply>, limit: nat, k: nat, rival: Hit)
    requires |capabilities| == |replies|
    requires k < |Ranked(Combined(capabilities, replies, limit), limit)|
    requires rival in AllHits(capabilities, replies)
    requires rival.recordId == Ranked(Combined(capabilities, replies, limit), limit)[k].recordId
    ensures rival.score <= Ranked(Combined(capabilities, replies, limit), limit)[k].score
  {
    var c := Combined(capabilities, replies, limit);
    var s := SortBy(BestFirst, c);
    var x := rival.score;
    CombinedKeepsRecordsAbove(capabilities, replies, limit, x);
    SortKeepsRecords(c);
    PositionByCount(s, k, x);
    if |IdsAbove(c, x)| < limit {
      assert rival.recordId in IdsAbove(AllHits(capabilities, replies), x);
      var h :| h in s && h.score >= x && h.recordId == rival.recordId;
      var i :| 0 <= i < |s| && s[i] == h;
      assert i == k;
    }
  }

  /** A search fails exactly when a strategy refused and nothing is left to return: no strategy found a hit, or none may
      be returned at all. */
  lemma FailsOnlyWhenEmptyHanded(capabilities: seq<string>, replies: seq<Reply>, limit: nat)
    requires |capabilities| == |replies|
    ensures Search(capabilities, replies, limit).Failed? <==>
              && (limit == 0 || AllHits(capabilities, replies) == [])
              && exists n :: 0 <= n < |replies| && replies[n].Refused?
  {
    var c, all := Combined(capabilities, replies, limit), AllHits(capabilities, replies);
    RefusalsAreListed(capabilities, replies);
    if limit == 0 {
      NothingWithoutALimit(capabilities, replies);
    } else {
      AllHitsAreScored(capabilities, replies);
      CombinedKeepsRecordsAbove(capabilities, replies, limit, 0.0);
      CombinedHitsAreProviderHits(capabilities, replies, limit);
      if all != [] {
        assert all[0].recordId in IdsAbove(all, 0.0) by { assert all[0] in all; }
        var id :| id in IdsAbove(c, 0.0);
        assert exists h :: h in c && h.recordId == id;
      }
      if c != [] {
        assert c[0] in all;
      }
    }
  }

  lemma {:induction false} NothingWithoutALimit(capabilities: seq<string>, replies: seq<Reply>)
    requires |capabilities| == |replies|
    ensures Combined(capabilities, replies, 0) == []
  {
    if replies != [] {
      var n := |replies| - 1;
      NothingWithoutALimit(capabilities[..n], replies[..n]);
    }
  }

  lemma {:induction false} RefusalsAreListed(capabilities: seq<string>, replies: seq<Reply>)
    requires |capabilities| == |replies|
    ensures Failures(capabilities, replies) != [] <==> exists n :: 0 <= n < |replies| && replies[n].Refused?
  {
    if replies != [] {
      var n := |replies| - 1;
      RefusalsAreListed(capabilities[..n], replies[..n]);
      if k :| 0 <= k < n && replies[k].Refused? {
        assert replies[..n][k].Refused?;
      }
    }
  }
}
