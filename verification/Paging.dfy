/** Listing live incarnations page by page: what a page holds, and when following the cursor covers everything. */
module Paging {
  import opened Prelude
  import opened OrderedDict
  import opened Sorting
  import opened ActiveModel
  import Mem = ReferenceSpec

  // ---- the order of a listing ----

  /** How Python compares texts: code point by code point. */
  predicate TextLeq(a: string, b: string) {
    a == "" || (b != "" && (a[0] < b[0] || (a[0] == b[0] && TextLeq(a[1..], b[1..]))))
  }

  predicate KeyLeq(a: Key, b: Key) {
    if a.agentId != b.agentId then TextLeq(a.agentId, b.agentId) else TextLeq(a.instanceId, b.instanceId)
  }

  predicate PresenceLeq(p: AgentPresence, q: AgentPresence) {
    KeyLeq(p.identity.key, q.identity.key)
  }

  lemma {:induction false} TextLeqOrders(a: string, b: string)
    ensures TextLeq(a, b) || TextLeq(b, a)
    ensures TextLeq(a, b) && TextLeq(b, a) ==> a == b
  {
    if a != "" && b != "" && a[0] == b[0] {
      TextLeqOrders(a[1..], b[1..]);
      assert a == [a[0]] + a[1..] && b == [b[0]] + b[1..];
    }
  }

  /** The two texts agree up to some place, and there the first ends or holds the smaller character. */
  ghost predicate TextBefore(a: string, b: string) {
    exists n: nat :: PartAt(a, b, n)
  }

  predicate PartAt(a: string, b: string, n: nat) {
    n <= |a| && n < |b| && a[..n] == b[..n] && (n < |a| ==> a[n] < b[n])
  }

  lemma PartsAfterFirst(a: string, b: string, n: nat)
    requires PartAt(a, b, n) && n > 0
    ensures a != "" && b != "" && a[0] == b[0]
  {
    assert a[..n][0] == b[..n][0];
  }

  lemma {:induction false} TextLeqMeans(a: string, b: string)
    ensures TextLeq(a, b) <==> a == b || TextBefore(a, b)
  {
    if a == "" || b == "" || a[0] != b[0] {
      if a != b && TextLeq(a, b) {
        assert PartAt(a, b, 0);
      }
      if n: nat :| PartAt(a, b, n) {
        if n > 0 {
          PartsAfterFirst(a, b, n);
        }
      }
    } else {
      TextLeqMeans(a[1..], b[1..]);
      assert a == [a[0]] + a[1..] && b == [b[0]] + b[1..];
      if n: nat :| PartAt(a, b, n) {
        assert n > 0 && a[1..][..n - 1] == a[..n][1..] && b[1..][..n - 1] == b[..n][1..];
        assert PartAt(a[1..], b[1..], n - 1);
      }
      if n: nat :| PartAt(a[1..], b[1..], n) {
        assert a[..n + 1] == [a[0]] + a[1..][..n] && b[..n + 1] == [b[0]] + b[1..][..n];
        assert PartAt(a, b, n + 1);
      }
    }
  }

  lemma {:induction false} TextLeqTransitive(a: string, b: string, c: string)
    requires TextLeq(a, b) && TextLeq(b, c)
    ensures TextLeq(a, c)
  {
    if a != "" && a[0] == b[0] == c[0] {
      TextLeqTransitive(a[1..], b[1..], c[1..]);
    }
  }

  lemma KeyLeqTransitive(a: Key, b: Key, c: Key)
    requires KeyLeq(a, b) && KeyLeq(b, c)
    ensures KeyLeq(a, c)
  {
    TextLeqOrders(a.agentId, b.agentId);
    TextLeqOrders(b.agentId, c.agentId);
    if a.agentId == b.agentId == c.agentId {
      TextLeqTransitive(a.instanceId, b.instanceId, c.instanceId);
    } else if a.agentId != b.agentId && b.agentId != c.agentId {
      TextLeqTransitive(a.agentId, b.agentId, c.agentId);
    }
  }

  lemma PresenceLeqIsPreorder()
    ensures TotalPreorder(PresenceLeq)
  {
    forall p: AgentPresence, q: AgentPresence
      ensures PresenceLeq(p, q) || PresenceLeq(q, p)
    {
      TextLeqOrders(p.identity.key.agentId, q.identity.key.agentId);
      TextLeqOrders(p.identity.key.instanceId, q.identity.key.instanceId);
    }
    forall p: AgentPresence, q: AgentPresence, s: AgentPresence | PresenceLeq(p, q) && PresenceLeq(q, s)
      ensures PresenceLeq(p, s)
    {
      KeyLeqTransitive(p.identity.key, q.identity.key, s.identity.key);
    }
  }

  // ---- what is listed ----

  predicate InScope(p: AgentPresence, scope: AgentScope) {
    && p.deploymentId == scope.deploymentId
    && (scope.role.Some? ==> p.identity.role == scope.role.value)
    && (scope.groupId.Some? ==> scope.groupId.value in p.identity.groups)
  }

  predicate Listed(p: AgentPresence, scope: AgentScope, now: Time) {
    !p.IsExpired(now) && InScope(p, scope)
  }

  function Filtered(all: seq<AgentPresence>, scope: AgentScope, now: Time): seq<AgentPresence> {
    if all == [] then []
    else
      var n := |all| - 1;
      Filtered(all[..n], scope, now) + if Listed(all[n], scope, now) then [all[n]] else []
  }

  function Matches(m: Mem.Memory, scope: AgentScope, now: Time): seq<AgentPresence> {
    SortBy(PresenceLeq, Filtered(m.presences.Values(), scope, now))
  }

  /** Every presence is stored under the incarnation it describes. */
  ghost predicate Filed(m: Mem.Memory) {
    m.presences.Valid() && forall k :: k in m.presences.at ==> m.presences.at[k].identity.key == k
  }

  lemma ServingKeepsFiled(c: Settings, m: Mem.Memory, call: Call, now: Time)
    requires Filed(m)
    ensures Filed(Mem.Serve(c, m, call, now).state)
  {
    match call
    case Register(identity, _) => PutKeepsValid(m.presences, identity.key, Started(c, identity, now, m.counter));
    case Renew(_) =>
    case Unregister(lease) => DeleteKeepsValid(m.presences, lease.key);
    case _ =>
  }

  lemma {:induction false} FilteredIsExact(all: seq<AgentPresence>, scope: AgentScope, now: Time)
    ensures forall p :: p in Filtered(all, scope, now) <==> p in all && Listed(p, scope, now)
    ensures Distinct(all) ==> Distinct(Filtered(all, scope, now))
  {
    if all != [] {
      var n := |all| - 1;
      FilteredIsExact(all[..n], scope, now);
      assert all == all[..n] + [all[n]];
    }
  }

  /** What a listing promises of its items: unexpired, of the deployment, and of the role and group asked for. */
  predicate Wanted(p: AgentPresence, scope: AgentScope, now: Time) {
    && now < p.expiresAt
    && p.deploymentId == scope.deploymentId
    && (scope.role == None || scope.role == Some(p.identity.role))
    && (scope.groupId == None || exists g :: g in p.identity.groups && scope.groupId == Some(g))
  }

  /** By agent, then by instance. */
  ghost predicate ListedBefore(a: Key, b: Key) {
    TextBefore(a.agentId, b.agentId) || (a.agentId == b.agentId && TextBefore(a.instanceId, b.instanceId))
  }

  lemma MatchesAreListed(m: Mem.Memory, scope: AgentScope, now: Time)
    requires Filed(m)
    ensures var ms := Matches(m, scope, now);
            && (forall p ::
                  p in ms <==>
                  p.identity.key in m.presences.at && m.presences.at[p.identity.key] == p && Listed(p, scope, now))
            && Distinct(ms)
            && Ordered(PresenceLeq, ms)
  {
    var d := m.presences;
    var all := d.Values();
    OneValuePerKey(d.order, d.at);
    ValuesAreEntries(d.order, d.at);
    FilteredIsExact(all, scope, now);
    PresenceLeqIsPreorder();
    var kept := Filtered(all, scope, now);
    SortIsOrdered(PresenceLeq, kept);
    assert Distinct(all) by {
      forall i, j | 0 <= i < j < |all|
        ensures all[i] != all[j]
      {
        assert d.order[i] != d.order[j] && all[i].identity.key == d.order[i] && all[j].identity.key == d.order[j];
      }
    }
    SortKeepsDistinct(PresenceLeq, kept);
    forall p
      ensures p in Matches(m, scope, now) <==>
                  p.identity.key in d.at && d.at[p.identity.key] == p && Listed(p, scope, now)
    {
      SortElements(PresenceLeq, kept, p);
    }
  }

  lemma ListingIsStrict(ms: seq<AgentPresence>)
    requires Ordered(PresenceLeq, ms)
    requires forall i, j :: 0 <= i < j < |ms| ==> ms[i].identity.key != ms[j].identity.key
    ensures forall i, j :: 0 <= i < j < |ms| ==> ListedBefore(ms[i].identity.key, ms[j].identity.key)
  {
    forall i, j | 0 <= i < j < |ms|
      ensures ListedBefore(ms[i].identity.key, ms[j].identity.key)
    {
      var a, b := ms[i].identity.key, ms[j].identity.key;
      assert PresenceLeq(ms[i], ms[j]);
      TextLeqMeans(a.agentId, b.agentId);
      TextLeqMeans(a.instanceId, b.instanceId);
    }
  }

  /** The presences a store lists, in listing order: each exactly once, in strictly increasing order of incarnation. */
  lemma MatchesAreExact(m: Mem.Memory, scope: AgentScope, now: Time)
    requires Filed(m)
    ensures var ms := Matches(m, scope, now);
            && (forall p ::
                  p in ms <==>
                  p.identity.key in m.presences.at && m.presences.at[p.identity.key] == p && Wanted(p, scope, now))
            && Distinct(ms)
            && (forall i, j :: 0 <= i < j < |ms| ==> ListedBefore(ms[i].identity.key, ms[j].identity.key))
  {
    var ms := Matches(m, scope, now);
    MatchesAreListed(m, scope, now);
    forall p: AgentPresence
      ensures Listed(p, scope, now) <==> Wanted(p, scope, now)
    {
    }
    forall i, j | 0 <= i < j < |ms|
      ensures ms[i].identity.key != ms[j].identity.key
    {
      assert ms[i] in ms && ms[j] in ms;
    }
    ListingIsStrict(ms);
  }

  // ---- one page ----

  datatype Page = Page(items: seq<AgentPresence>, next: Option<string>)

  function TokenOf(p: AgentPresence): string {
    Token(p.identity.key)
  }

  /** The place right after the first match that spells the cursor; an unknown cursor starts over. */
  function StartIndex(ms: seq<AgentPresence>, cursor: Option<string>): (i: nat)
    ensures i <= |ms|
  {
    if cursor.None? then 0 else var i := FirstWith(ms, cursor.value); if i < |ms| then i + 1 else 0
  }

  function FirstWith(ms: seq<AgentPresence>, token: string): (i: nat)
    ensures i <= |ms|
    ensures i < |ms| ==> TokenOf(ms[i]) == token
    ensures forall h :: 0 <= h < i ==> TokenOf(ms[h]) != token
  {
    FirstFrom(ms, token, 0)
  }

  function FirstFrom(ms: seq<AgentPresence>, token: string, from: nat): (i: nat)
    requires from <= |ms|
    ensures from <= i <= |ms|
    ensures i < |ms| ==> TokenOf(ms[i]) == token
    ensures forall h :: from <= h < i ==> TokenOf(ms[h]) != token
    decreases |ms| - from
  {
    if from == |ms| || TokenOf(ms[from]) == token then from else FirstFrom(ms, token, from + 1)
  }

  function PageOf(ms: seq<AgentPresence>, cursor: Option<string>, limit: int): Page
    requires limit >= 1
  {
    var start := StartIndex(ms, cursor);
    var items := Take(ms[start..], limit);
    Page(items, if start + limit < |ms| then Some(TokenOf(items[|items| - 1])) else None)
  }

  // ---- following the cursor ----

  datatype Walk = Walk(items: seq<AgentPresence>, finished: bool)

  /** Fetch up to `n` pages, each from the cursor of the one before. */
  function Follow(fetch: Option<string> -> Page, cursor: Option<string>, n: nat): Walk
    decreases n
  {
    if n == 0 then Walk([], false)
    else
      var page := fetch(cursor);
      if page.next.None? then Walk(page.items, true)
      else var rest := Follow(fetch, page.next, n - 1); Walk(page.items + rest.items, rest.finished)
  }

  function Source(ms: seq<AgentPresence>, limit: int): Option<string> -> Page
    requires limit >= 1
  {
    cursor => PageOf(ms, cursor, limit)
  }

  /** Following the cursor from the start ends, and has then returned exactly the whole listing. */
  ghost predicate Covers(ms: seq<AgentPresence>, limit: int)
    requires limit >= 1
  {
    exists n: nat :: Follow(Source(ms, limit), None, n) == Walk(ms, true)
  }

  predicate FirstUse(ms: seq<AgentPresence>, i: nat)
    requires i < |ms|
  {
    forall h :: 0 <= h < i ==> TokenOf(ms[h]) != TokenOf(ms[i])
  }

  /** Where the j-th full page ends. */
  function PageEnd(limit: int, j: nat): (end: nat)
    requires limit >= 1
    ensures end >= j
    ensures limit == 1 ==> end == j
  {
    if j == 0 then 0 else PageEnd(limit, j - 1) + limit
  }

  /** The last item of the j-th full page is the first to spell its token. */
  predicate EndsWell(ms: seq<AgentPresence>, limit: int, j: nat)
    requires limit >= 1
  {
    0 < PageEnd(limit, j) < |ms| ==> FirstUse(ms, PageEnd(limit, j) - 1)
  }

  lemma {:induction false} LaterPagesEndLater(j: nat, bad: nat, limit: int)
    requires limit >= 1 && j < bad
    ensures PageEnd(limit, j) + limit <= PageEnd(limit, bad)
  {
    if j + 1 < bad {
      LaterPagesEndLater(j, bad - 1, limit);
    }
  }

  /** Any page source over a listing: it serves the items from the place `at` gives a cursor, and never skips ahead. */
  ghost predicate Serves(fetch: Option<string> -> Page, at: Option<string> -> nat, ms: seq<AgentPresence>, limit: int)
    requires limit >= 1
  {
    forall c {:trigger fetch(c)} ::
      && at(c) <= |ms|
      && (at(c) + limit >= |ms| ==> fetch(c) == Page(ms[at(c)..], None))
      && (at(c) + limit < |ms| ==>
            fetch(c).items == ms[at(c)..at(c) + limit]
                && fetch(c).next.Some? && at(fetch(c).next) <= at(c) + limit)
  }

  /** Every page that ends well hands over to the next one; any other falls back. */
  lemma SourceServes(ms: seq<AgentPresence>, limit: int, fetch: Option<string> -> Page, at: Option<string> -> nat)
    requires limit >= 1 && fetch == Source(ms, limit) && forall c :: at(c) == StartIndex(ms, c)
    ensures Serves(fetch, at, ms, limit)
    ensures forall c {:trigger fetch(c)} :: at(c) + limit < |ms| ==>
              (FirstUse(ms, at(c) + limit - 1) <==> at(fetch(c).next) == at(c) + limit)
  {
    forall c {:trigger fetch(c)}
      ensures at(c) <= |ms|
      ensures at(c) + limit >= |ms| ==> fetch(c) == Page(ms[at(c)..], None)
      ensures at(c) + limit < |ms| ==>
                && fetch(c).items == ms[at(c)..at(c) + limit]
                && fetch(c).next.Some? && at(fetch(c).next) <= at(c) + limit
                && (FirstUse(ms, at(c) + limit - 1) <==> at(fetch(c).next) == at(c) + limit)
    {
      PageAt(ms, c, limit);
    }
  }

  lemma PageAt(ms: seq<AgentPresence>, cursor: Option<string>, limit: int)
    requires limit >= 1
    ensures var start, page := StartIndex(ms, cursor), PageOf(ms, cursor, limit);
            if start + limit >= |ms| then page == Page(ms[start..], None)
            else page.items == ms[start..start + limit] && page.next.Some? && StartIndex(ms, page.next) <= start + limit
                 && (FirstUse(ms, start + limit - 1) <==> StartIndex(ms, page.next) == start + limit)
  {
    var start := StartIndex(ms, cursor);
    var items := Take(ms[start..], limit);
    if start + limit < |ms| {
      var last := start + limit - 1;
      assert items == ms[start..start + limit];
      assert items[|items| - 1] == ms[last];
      assert FirstWith(ms, TokenOf(ms[last])) <= last;
    }
  }

  /** A finished walk returned at least everything after its start. */
  lemma {:induction false} WalksAreLong(fetch: Option<string> -> Page, at: Option<string> -> nat,
                                        ms: seq<AgentPresence>, limit: int, cursor: Option<string>, n: nat)
    requires limit >= 1 && Serves(fetch, at, ms, limit)
    requires Follow(fetch, cursor, n).finished
    ensures |Follow(fetch, cursor, n).items| >= |ms| - at(cursor)
    decreases n
  {
    var page := fetch(cursor);
    if page.next.Some? {
      WalksAreLong(fetch, at, ms, limit, page.next, n - 1);
    }
  }

  /** Falling back at a page end returns something twice. */
  lemma {:induction false} BadEndRepeats(fetch: Option<string> -> Page, at: Option<string> -> nat,
                                         ms: seq<AgentPresence>, limit: int, cursor: Option<string>, j: nat, bad: nat,
                                         n: nat)
    requires limit >= 1 && Serves(fetch, at, ms, limit)
    requires at(cursor) == PageEnd(limit, j) && j < bad && PageEnd(limit, bad) < |ms|
    requires forall c {:trigger fetch(c)} :: at(c) + limit == PageEnd(limit, bad) ==> at(fetch(c).next) != at(c) + limit
    requires Follow(fetch, cursor, n).finished
    ensures |Follow(fetch, cursor, n).items| > |ms| - at(cursor)
    decreases bad - j
  {
    LaterPagesEndLater(j, bad, limit);
    var page := fetch(cursor);
    if at(page.next) == PageEnd(limit, j + 1) {
      BadEndRepeats(fetch, at, ms, limit, page.next, j + 1, bad, n - 1);
    } else {
      WalksAreLong(fetch, at, ms, limit, page.next, n - 1);
    }
  }

  lemma {:induction false} GoodEndsCover(fetch: Option<string> -> Page, at: Option<string> -> nat,
                                         ms: seq<AgentPresence>, limit: int, cursor: Option<string>,
                                         j: nat) returns (n: nat)
    requires limit >= 1 && Serves(fetch, at, ms, limit) && at(cursor) == PageEnd(limit, j)
    requires forall c, i: nat {:trigger fetch(c), PageEnd(limit, i)} ::
               at(c) + limit == PageEnd(limit, i) < |ms| ==> at(fetch(c).next) == PageEnd(limit, i)
    ensures Follow(fetch, cursor, n) == Walk(ms[at(cursor)..], true)
    decreases |ms| - PageEnd(limit, j)
  {
    var start := at(cursor);
    var page := fetch(cursor);
    if start + limit >= |ms| {
      n := 1;
    } else {
      assert PageEnd(limit, j + 1) == start + limit;
      var rest := GoodEndsCover(fetch, at, ms, limit, page.next, j + 1);
      n := rest + 1;
      assert ms[start..] == ms[start..start + limit] + ms[start + limit..];
    }
  }

  lemma GoodEndsHandOver(ms: seq<AgentPresence>, limit: int, fetch: Option<string> -> Page, at: Option<string> -> nat)
    requires limit >= 1 && forall j: nat :: j >= 1 ==> EndsWell(ms, limit, j)
    requires forall c {:trigger fetch(c)} :: at(c) + limit < |ms| ==>
               (FirstUse(ms, at(c) + limit - 1) <==> at(fetch(c).next) == at(c) + limit)
    ensures forall c, i: nat {:trigger fetch(c), PageEnd(limit, i)} ::
              at(c) + limit == PageEnd(limit, i) < |ms| ==> at(fetch(c).next) == PageEnd(limit, i)
  {
    forall c, i: nat {:trigger fetch(c), PageEnd(limit, i)} | at(c) + limit == PageEnd(limit, i) < |ms|
      ensures at(fetch(c).next) == PageEnd(limit, i)
    {
      assert i >= 1;
      assert EndsWell(ms, limit, i);
      var page := fetch(c);
    }
  }

  lemma BadEndNeverCovers(ms: seq<AgentPresence>, limit: int, fetch: Option<string> -> Page, at: Option<string> -> nat,
                          bad: nat, n: nat)
    requires limit >= 1 && Serves(fetch, at, ms, limit) && at(None) == 0 && !EndsWell(ms, limit, bad)
    requires forall c {:trigger fetch(c)} :: at(c) + limit < |ms| ==>
               (FirstUse(ms, at(c) + limit - 1) <==> at(fetch(c).next) == at(c) + limit)
    ensures Follow(fetch, None, n) != Walk(ms, true)
  {
    if Follow(fetch, None, n).finished {
      BadEndRepeats(fetch, at, ms, limit, None, 0, bad, n);
    }
  }

  /** Main result: paging covers a listing exactly when no page ends on an item whose token an earlier item spells
      too. */
  lemma CoversIff(ms: seq<AgentPresence>, limit: int)
    requires limit >= 1
    ensures Covers(ms, limit) <==> forall j: nat :: j >= 1 ==> EndsWell(ms, limit, j)
  {
    var fetch := Source(ms, limit);
    var at := (c: Option<string>) => StartIndex(ms, c);
    assert at(None) == 0;
    SourceServes(ms, limit, fetch, at);
    if forall j: nat :: j >= 1 ==> EndsWell(ms, limit, j) {
      GoodEndsHandOver(ms, limit, fetch, at);
      var n := GoodEndsCover(fetch, at, ms, limit, None, 0);
      assert ms[0..] == ms;
    } else {
      var bad: nat :| bad >= 1 && !EndsWell(ms, limit, bad);
      forall n: nat
        ensures Follow(fetch, None, n) != Walk(ms, true)
      {
        BadEndNeverCovers(ms, limit, fetch, at, bad, n);
      }
    }
  }

  /** Main result: paging covers a listing at every page size exactly when the tokens of all items but the last are
      pairwise distinct. */
  lemma CoversAtEveryLimitIff(ms: seq<AgentPresence>)
    ensures (forall limit: int :: limit >= 1 ==> Covers(ms, limit))
            <==> forall i, j :: 0 <= i < j < |ms| - 1 ==> TokenOf(ms[i]) != TokenOf(ms[j])
  {
    if forall i, j :: 0 <= i < j < |ms| - 1 ==> TokenOf(ms[i]) != TokenOf(ms[j]) {
      forall limit: int | limit >= 1
        ensures Covers(ms, limit)
      {
        forall j: nat | j >= 1
          ensures EndsWell(ms, limit, j)
        {
          LaterPagesEndLater(0, j, limit);
        }
        CoversIff(ms, limit);
      }
    }
    if forall limit: int :: limit >= 1 ==> Covers(ms, limit) {
      assert Covers(ms, 1);
      CoversIff(ms, 1);
      forall i, j | 0 <= i < j < |ms| - 1
        ensures TokenOf(ms[i]) != TokenOf(ms[j])
      {
        assert EndsWell(ms, 1, j + 1);
      }
    }
  }

  /** Main result: over an unchanged store and clock, distinct tokens of the listed presences make the pages, put
      together, exactly the live presences in scope, each once and in order. */
  lemma PagesListTheStore(m: Mem.Memory, scope: AgentScope, now: Time, limit: int)
    requires limit >= 1 && Filed(m)
    requires forall j, k ::
               (j in m.presences.at && k in m.presences.at && j != k
                && Listed(m.presences.at[j], scope, now) && Listed(m.presences.at[k], scope, now)) ==>
                Token(j) != Token(k)
    ensures Covers(Matches(m, scope, now), limit)
  {
    var ms := Matches(m, scope, now);
    MatchesAreExact(m, scope, now);
    forall i, j | 0 <= i < j < |ms| - 1
      ensures TokenOf(ms[i]) != TokenOf(ms[j])
    {
      assert ms[i] in ms && ms[j] in ms && ms[i] != ms[j];
    }
    CoversAtEveryLimitIff(ms);
  }

  // ---- a store whose listing cannot be paged ----

  lemma {:induction false} SortingOrdered<T>(leq: (T, T) -> bool, s: seq<T>)
    requires Ordered(leq, s)
    ensures SortBy(leq, s) == s
  {
    if s != [] {
      SortingOrdered(leq, s[1..]);
      assert s == [s[0]] + s[1..];
    }
  }

  /** Three incarnations, the first two spelled alike. */
  const FIRST := Key("a", "b:c")
  const SECOND_ALIKE := Key("a:b", "c")
  const LAST := Key("z", "z")

  function Registering(c: Settings, m: Mem.Memory, k: Key, role: string, groups: seq<string>, now: Time): Mem.Memory {
    Mem.Registered(c, m, AgentIdentity(k, role, groups), AgentLease("l", k, now, now + SECOND), now).state
  }

  function ThreeRegistered(c: Settings, role: string, groups: seq<string>, now: Time): Mem.Memory {
    Registering(c,
                Registering(c, Registering(c, Mem.Fresh(), FIRST, role, groups, now), SECOND_ALIKE, role, groups, now),
                LAST, role, groups, now)
  }

  lemma RegisteringAppends(c: Settings, m: Mem.Memory, k: Key, role: string, groups: seq<string>, now: Time)
    requires k !in m.presences.at
    ensures var r, p := Registering(c, m, k, role, groups, now), Started(c, AgentIdentity(k, role, groups), now,
                                                                         m.counter);
            r.presences == Dict(m.presences.order + [k], m.presences.at[k := p]) && r.counter == m.counter + 1
  {
  }

  lemma ThreeAreStored(c: Settings, role: string, groups: seq<string>, now: Time)
    ensures ThreeRegistered(c, role, groups, now).presences
         == Dict([FIRST, SECOND_ALIKE, LAST],
                 map[FIRST := Started(c, AgentIdentity(FIRST, role, groups), now, 1),
                     SECOND_ALIKE := Started(c, AgentIdentity(SECOND_ALIKE, role, groups), now, 2),
                     LAST := Started(c, AgentIdentity(LAST, role, groups), now, 3)])
  {
    var one := Registering(c, Mem.Fresh(), FIRST, role, groups, now);
    var two := Registering(c, one, SECOND_ALIKE, role, groups, now);
    RegisteringAppends(c, Mem.Fresh(), FIRST, role, groups, now);
    RegisteringAppends(c, one, SECOND_ALIKE, role, groups, now);
    RegisteringAppends(c, two, LAST, role, groups, now);
  }

  lemma ValuesOfThree(order: seq<Key>, at: map<Key, AgentPresence>)
    requires |order| == 3 && order[0] in at && order[1] in at && order[2] in at
    ensures ValuesOf(order, at) == [at[order[0]], at[order[1]], at[order[2]]]
  {
    assert order[..2][..1] == order[..1] && order[..1][..0] == [];
    assert ValuesOf(order[..1], at) == [at[order[0]]];
    assert ValuesOf(order[..2], at) == [at[order[0]], at[order[1]]];
  }

  lemma FilterKeepsThree(p: AgentPresence, q: AgentPresence, last: AgentPresence, scope: AgentScope, now: Time)
    requires Listed(p, scope, now) && Listed(q, scope, now) && Listed(last, scope, now)
    ensures Filtered([p, q, last], scope, now) == [p, q, last]
  {
    assert [p, q, last][..2] == [p, q] && [p, q][..1] == [p] && [p][..0] == [];
    assert Filtered([p], scope, now) == [p];
    assert Filtered([p, q], scope, now) == [p, q];
  }

  lemma KeysAreOrdered()
    ensures KeyLeq(FIRST, SECOND_ALIKE) && KeyLeq(FIRST, LAST) && KeyLeq(SECOND_ALIKE, LAST)
  {
    assert "a:b"[0] == 'a' && "a"[1..] == "";
    assert TextLeq("a"[1..], "a:b"[1..]);
    assert TextLeq("a", "a:b") && TextLeq("a", "z") && TextLeq("a:b", "z");
  }

  lemma OrderedThree(p: AgentPresence, q: AgentPresence, last: AgentPresence)
    requires PresenceLeq(p, q) && PresenceLeq(p, last) && PresenceLeq(q, last)
    ensures SortBy(PresenceLeq, [p, q, last]) == [p, q, last]
  {
    SortingOrdered(PresenceLeq, [p, q, last]);
  }

  lemma ThreeAreListed(c: Settings, role: string, groups: seq<string>, now: Time)
    returns (p: AgentPresence, q: AgentPresence, last: AgentPresence)
    requires c.Positive()
    ensures Matches(ThreeRegistered(c, role, groups, now), AgentScope(c.deploymentId, None, None), now) == [p, q, last]
    ensures p.identity.key == FIRST && q.identity.key == SECOND_ALIKE && last.identity.key == LAST
  {
    var m, scope := ThreeRegistered(c, role, groups, now), AgentScope(c.deploymentId, None, None);
    p := Started(c, AgentIdentity(FIRST, role, groups), now, 1);
    q := Started(c, AgentIdentity(SECOND_ALIKE, role, groups), now, 2);
    last := Started(c, AgentIdentity(LAST, role, groups), now, 3);
    ThreeAreStored(c, role, groups, now);
    ValuesOfThree(m.presences.order, m.presences.at);
    assert m.presences.Values() == [p, q, last];
    FilterKeepsThree(p, q, last, scope, now);
    KeysAreOrdered();
    OrderedThree(p, q, last);
  }

  /** Main result: a store can hold incarnations that no number of one-item pages ever finishes listing. */
  lemma PagingCanLoop(c: Settings, role: string, groups: seq<string>, now: Time, n: nat)
    requires c.Positive()
    ensures var ms := Matches(ThreeRegistered(c, role, groups, now), AgentScope(c.deploymentId, None, None), now);
            !Follow(Source(ms, 1), None, n).finished
  {
    var p, q, last := ThreeAreListed(c, role, groups, now);
    assert "a" + ":" + "b:c" == "a:b" + ":" + "c";
    CollidingTokensLoop(p, q, last, None, n);
  }

  /** With two items spelled alike, a walk can circle between them for ever. */
  lemma {:induction false} CollidingTokensLoop(p: AgentPresence, q: AgentPresence, last: AgentPresence,
                                               cursor: Option<string>, n: nat)
    requires TokenOf(p) == TokenOf(q) && (cursor == None || cursor == Some(TokenOf(p)))
    ensures !Follow(Source([p, q, last], 1), cursor, n).finished
    decreases n
  {
    if n > 0 {
      var ms := [p, q, last];
      assert FirstWith(ms, TokenOf(p)) == 0;
      var page := PageOf(ms, cursor, 1);
      assert page.items == if cursor == None then [p] else [q];
      CollidingTokensLoop(p, q, last, page.next, n - 1);
    }
  }
}
