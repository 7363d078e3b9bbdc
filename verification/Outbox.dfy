/** The projection outbox: time-bounded leases over pending events. */
module OutboxSpec {
  import opened Prelude
  import opened Sorting
  import opened OrderedDict
  import opened MemoryModel

  type Outbox = Dict<Uuid, OutboxEvent>

  /** What a worker reports about an event; reporting ends its lease. */
  datatype Settlement = Settlement(
    status: OutboxStatus, attempts: int, nextAttemptAt: Time, lastError: Option<string>, deliveredAt: Option<Time>)

  datatype UpdateStep = UpdateStep(outbox: Outbox, outcome: Outcome)

  predicate IsOpen(e: OutboxEvent) {
    e.status != Delivered && e.status != Dead
  }

  predicate Claimable(e: OutboxEvent, now: Time) {
    match e.status
    case Pending => e.nextAttemptAt <= now
    case Retry => e.nextAttemptAt <= now
    case Processing => e.leaseExpiresAt.None? || e.leaseExpiresAt.value <= now
    case Delivered => false
    case Dead => false
  }

  predicate OldestFirst(a: OutboxEvent, b: OutboxEvent) {
    a.createdAt <= b.createdAt
  }

  function ClaimableAmong(events: seq<OutboxEvent>, now: Time): seq<OutboxEvent> {
    if events == [] then []
    else
      var n := |events| - 1;
      ClaimableAmong(events[..n], now) + if Claimable(events[n], now) then [events[n]] else []
  }

  /** The claimable events, oldest first. */
  function Candidates(o: Outbox, now: Time): seq<OutboxEvent> {
    SortBy(OldestFirst, ClaimableAmong(o.Values(), now))
  }

  /** The events a claim takes. */
  function Picked(o: Outbox, limit: int, now: Time): seq<OutboxEvent> {
    Take(Candidates(o, now), limit)
  }

  function Leased(e: OutboxEvent, lease: Uuid, owner: string, until: Time): OutboxEvent {
    e.(status := Processing, leaseId := Some(lease), leaseOwner := Some(owner), leaseExpiresAt := Some(until))
  }

  function LeasedEvents(picked: seq<OutboxEvent>, leases: nat -> Uuid, owner: string, until: Time): seq<OutboxEvent> {
    if picked == [] then []
    else
      var n := |picked| - 1;
      LeasedEvents(picked[..n], leases, owner, until) + [Leased(picked[n], leases(n), owner, until)]
  }

  /** Store events under their ids, in order. */
  function Enqueue(o: Outbox, events: seq<OutboxEvent>): Outbox {
    if events == [] then o
    else
      var n := |events| - 1;
      Enqueue(o, events[..n]).Put(events[n].eventId, events[n])
  }

  /** Claimed events come back leased; `leases` supplies the fresh identifiers. */
  function ClaimedEvents(o: Outbox, limit: int, now: Time, leaseSeconds: int, owner: string,
                         leases: nat -> Uuid): seq<OutboxEvent> {
    LeasedEvents(Picked(o, limit, now), leases, owner, now + leaseSeconds * SECOND)
  }

  function Claim(o: Outbox, limit: int, now: Time, leaseSeconds: int, owner: string, leases: nat -> Uuid): Outbox {
    Enqueue(o, ClaimedEvents(o, limit, now, leaseSeconds, owner, leases))
  }

  function Settled(e: OutboxEvent, s: Settlement): OutboxEvent {
    e.(status := s.status, attempts := s.attempts, nextAttemptAt := s.nextAttemptAt, lastError := s.lastError,
       deliveredAt := s.deliveredAt, leaseId := None, leaseOwner := None, leaseExpiresAt := None)
  }

  /** Settle an event; a stated lease must still be the one it is held under. */
  function Update(o: Outbox, eventId: Uuid, s: Settlement, lease: Option<Uuid>): UpdateStep {
    if eventId !in o.at then UpdateStep(o, Raised(EventNotFound))
    else if lease.Some? && o.at[eventId].leaseId != lease then UpdateStep(o, Raised(LeaseLost))
    else UpdateStep(o.Put(eventId, Settled(o.at[eventId], s)), Ok)
  }

  function OpenIds(o: Outbox): set<Uuid> {
    set id | id in o.at && IsOpen(o.at[id])
  }

  /** The number of events not yet delivered or dead. */
  function Backlog(o: Outbox): nat {
    |OpenIds(o)|
  }

  ghost function IdsOf(events: seq<OutboxEvent>): set<Uuid> {
    set e | e in events :: e.eventId
  }

  ghost predicate DistinctEvents(events: seq<OutboxEvent>) {
    forall i, j :: 0 <= i < j < |events| ==> events[i].eventId != events[j].eventId
  }

  /** Every key names its own event, in a sound dictionary. */
  ghost predicate Well(o: Outbox) {
    && o.Valid()
    && (forall id :: id in o.at ==> o.at[id].eventId == id)
  }

  /** Leases are held only by events in processing, come from `used`, and no two events share one. */
  ghost predicate Disciplined(o: Outbox, used: set<Uuid>) {
    && Well(o)
    && (forall id :: id in o.at && o.at[id].leaseId.Some? ==>
          o.at[id].status == Processing && o.at[id].leaseId.value in used)
    && (forall a, b :: a in o.at && b in o.at && a != b && o.at[a].leaseId.Some? ==> o.at[a].leaseId != o.at[b].leaseId)
  }

  /** Events as a commit hands them over: new identifiers, open and unleased. */
  ghost predicate NewEvents(o: Outbox, events: seq<OutboxEvent>) {
    && (forall e :: e in events ==> e.eventId !in o.at && IsOpen(e) && e.leaseId.None?)
    && DistinctEvents(events)
  }

  /** Identifiers never handed out before. */
  ghost predicate FreshLeases(used: set<Uuid>, leases: nat -> Uuid, n: nat) {
    && (forall i :: 0 <= i < n ==> leases(i) !in used)
    && (forall i, j :: 0 <= i < j < n ==> leases(i) != leases(j))
  }

  /** The lease is spent: it was issued and no event is held under it any more. */
  ghost predicate Spent(o: Outbox, used: set<Uuid>, lease: Uuid) {
    && lease in used
    && (forall id :: id in o.at ==> o.at[id].leaseId != Some(lease))
  }

  lemma {:induction false} ClaimableAmongElements(events: seq<OutboxEvent>, now: Time, e: OutboxEvent)
    ensures e in ClaimableAmong(events, now) <==> e in events && Claimable(e, now)
  {
    if events != [] {
      var n := |events| - 1;
      ClaimableAmongElements(events[..n], now, e);
      assert events == events[..n] + [events[n]];
    }
  }

  lemma {:induction false} ClaimableAmongDistinct(events: seq<OutboxEvent>, now: Time)
    requires Distinct(events)
    ensures Distinct(ClaimableAmong(events, now))
  {
    if events != [] {
      var n := |events| - 1;
      ClaimableAmongDistinct(events[..n], now);
      ClaimableAmongElements(events[..n], now, events[n]);
      assert events[n] !in events[..n];
    }
  }

  lemma OldestFirstIsPreorder()
    ensures TotalPreorder(OldestFirst)
  {
  }

  lemma ValuesAreTheEvents(o: Outbox)
    requires Well(o)
    ensures Distinct(o.Values())
    ensures forall e :: e in o.Values() <==> e.eventId in o.at && o.at[e.eventId] == e
  {
    var all := o.Values();
    OneValuePerKey(o.order, o.at);
    ValuesAreEntries(o.order, o.at);
    forall i, j | 0 <= i < j < |all|
      ensures all[i] != all[j]
    {
      assert all[i].eventId == o.order[i] && all[j].eventId == o.order[j];
    }
  }

  /** The candidates of a claim are the claimable events of the outbox and nothing else. */
  lemma CandidatesAreTheClaimable(o: Outbox, now: Time, e: OutboxEvent)
    requires Well(o)
    ensures e in Candidates(o, now) <==> e.eventId in o.at && o.at[e.eventId] == e && Claimable(e, now)
  {
    ValuesAreTheEvents(o);
    SortElements(OldestFirst, ClaimableAmong(o.Values(), now), e);
    ClaimableAmongElements(o.Values(), now, e);
  }

  lemma CandidatesAreOrdered(o: Outbox, now: Time)
    requires Well(o)
    ensures Ordered(OldestFirst, Candidates(o, now))
    ensures DistinctEvents(Candidates(o, now))
  {
    var c := Candidates(o, now);
    ValuesAreTheEvents(o);
    OldestFirstIsPreorder();
    SortIsOrdered(OldestFirst, ClaimableAmong(o.Values(), now));
    ClaimableAmongDistinct(o.Values(), now);
    SortKeepsDistinct(OldestFirst, ClaimableAmong(o.Values(), now));
    forall i, j | 0 <= i < j < |c|
      ensures c[i].eventId != c[j].eventId
    {
      CandidatesAreTheClaimable(o, now, c[i]);
      CandidatesAreTheClaimable(o, now, c[j]);
    }
  }

  lemma {:induction false} LeasedEventsEach(picked: seq<OutboxEvent>, leases: nat -> Uuid, owner: string, until: Time)
    ensures var r := LeasedEvents(picked, leases, owner, until);
            |r| == |picked| && forall i :: 0 <= i < |r| ==> r[i] == Leased(picked[i], leases(i), owner, until)
  {
    if picked != [] {
      LeasedEventsEach(picked[..|picked| - 1], leases, owner, until);
    }
  }

  lemma PutKeys(o: Outbox, e: OutboxEvent)
    requires Well(o)
    ensures Well(o.Put(e.eventId, e)) && o.Put(e.eventId, e).at.Keys == o.at.Keys + {e.eventId}
  {
    PutKeepsValid(o, e.eventId, e);
  }

  lemma {:induction false} EnqueueKeys(o: Outbox, events: seq<OutboxEvent>)
    requires Well(o)
    ensures Well(Enqueue(o, events))
    ensures Enqueue(o, events).at.Keys == o.at.Keys + IdsOf(events)
  {
    if events != [] {
      var n := |events| - 1;
      EnqueueKeys(o, events[..n]);
      PutKeys(Enqueue(o, events[..n]), events[n]);
      IdsOfAppend(events[..n], events[n]);
      assert events == events[..n] + [events[n]];
    }
  }

  lemma {:induction false} EnqueueLeavesOthers(o: Outbox, events: seq<OutboxEvent>, id: Uuid)
    requires id in o.at
    requires forall e :: e in events ==> e.eventId != id
    ensures id in Enqueue(o, events).at && Enqueue(o, events).at[id] == o.at[id]
  {
    if events != [] {
      EnqueueLeavesOthers(o, events[..|events| - 1], id);
    }
  }

  lemma {:induction false} EnqueueStores(o: Outbox, events: seq<OutboxEvent>, i: nat)
    requires i < |events| && DistinctEvents(events)
    ensures var id := events[i].eventId; id in Enqueue(o, events).at && Enqueue(o, events).at[id] == events[i]
  {
    var n := |events| - 1;
    if i < n {
      EnqueueStores(o, events[..n], i);
    }
  }

  /** Main result: a claim takes exactly min(limit, claimable) events, none newer than one it leaves behind. */
  lemma ClaimTakesTheOldest(o: Outbox, limit: nat, now: Time)
    requires Well(o)
    ensures var claimable := ClaimableIds(o, now);
            var taken := IdsOf(Picked(o, limit, now));
            && |Picked(o, limit, now)| == |taken| == (if limit <= |claimable| then limit else |claimable|)
            && taken <= claimable
            && (forall a, b :: a in taken && b in claimable - taken ==> o.at[a].createdAt <= o.at[b].createdAt)
  {
    var c, p := Candidates(o, now), Picked(o, limit, now);
    CandidatesAreOrdered(o, now);
    OneIdPerEvent(c);
    OneIdPerEvent(p);
    CandidateIds(o, now);
    assert IdsOf(p) <= IdsOf(c) by {
      assert forall e :: e in p ==> e in c;
    }
    forall a, b | a in IdsOf(p) && b in IdsOf(c) - IdsOf(p)
      ensures a in o.at && b in o.at && o.at[a].createdAt <= o.at[b].createdAt
    {
      LeftBehindIsNoOlder(o, limit, now, a, b);
    }
  }

  ghost function ClaimableIds(o: Outbox, now: Time): set<Uuid> {
    set id | id in o.at && Claimable(o.at[id], now)
  }

  lemma CandidateIds(o: Outbox, now: Time)
    requires Well(o)
    ensures IdsOf(Candidates(o, now)) == ClaimableIds(o, now)
  {
    var c := Candidates(o, now);
    forall id
      ensures id in IdsOf(c) <==> id in ClaimableIds(o, now)
    {
      if id in o.at {
        CandidatesAreTheClaimable(o, now, o.at[id]);
      }
      if e :| e in c && e.eventId == id {
        CandidatesAreTheClaimable(o, now, e);
      }
    }
  }

  lemma LeftBehindIsNoOlder(o: Outbox, limit: nat, now: Time, a: Uuid, b: Uuid)
    requires Well(o)
    requires a in IdsOf(Picked(o, limit, now)) && b in IdsOf(Candidates(o, now)) - IdsOf(Picked(o, limit, now))
    ensures a in o.at && b in o.at && o.at[a].createdAt <= o.at[b].createdAt
  {
    var c, p := Candidates(o, now), Picked(o, limit, now);
    CandidatesAreOrdered(o, now);
    var i :| 0 <= i < |p| && p[i].eventId == a;
    var j :| 0 <= j < |c| && c[j].eventId == b;
    assert forall k :: 0 <= k < |p| ==> c[k] == p[k] && p[k].eventId in IdsOf(p);
    CandidatesAreTheClaimable(o, now, c[i]);
    CandidatesAreTheClaimable(o, now, c[j]);
    assert OldestFirst(c[i], c[j]);
  }

  lemma {:induction false} OneIdPerEvent(events: seq<OutboxEvent>)
    requires DistinctEvents(events)
    ensures |IdsOf(events)| == |events|
  {
    if events != [] {
      var n := |events| - 1;
      OneIdPerEvent(events[..n]);
      assert events == events[..n] + [events[n]];
      IdsOfAppend(events[..n], events[n]);
    }
  }

  lemma EnqueueKeepsDiscipline(o: Outbox, used: set<Uuid>, events: seq<OutboxEvent>)
    requires Disciplined(o, used) && NewEvents(o, events)
    ensures Disciplined(Enqueue(o, events), used)
  {
    var r := Enqueue(o, events);
    EnqueueKeys(o, events);
    forall id | id in r.at
      ensures r.at[id].leaseId.None? || (id in o.at && r.at[id] == o.at[id])
    {
      EnqueueNewEntry(o, events, id);
    }
  }

  /** After enqueuing new events an entry is an old one unchanged, or one of the new ones. */
  lemma EnqueueNewEntry(o: Outbox, events: seq<OutboxEvent>, id: Uuid)
    requires Well(o) && NewEvents(o, events) && id in Enqueue(o, events).at
    ensures id in o.at ==> Enqueue(o, events).at[id] == o.at[id]
    ensures id !in o.at ==> Enqueue(o, events).at[id] in events
  {
    EnqueueKeys(o, events);
    if id in o.at {
      EnqueueLeavesOthers(o, events, id);
    } else {
      var i :| 0 <= i < |events| && events[i].eventId == id;
      EnqueueStores(o, events, i);
    }
  }

  lemma {:induction false} LeasingKeepsIds(picked: seq<OutboxEvent>, leases: nat -> Uuid, owner: string, until: Time)
    ensures IdsOf(LeasedEvents(picked, leases, owner, until)) == IdsOf(picked)
  {
    if picked != [] {
      var n := |picked| - 1;
      LeasingKeepsIds(picked[..n], leases, owner, until);
      IdsOfAppend(picked[..n], picked[n]);
      assert picked == picked[..n] + [picked[n]];
      IdsOfAppend(LeasedEvents(picked[..n], leases, owner, until), Leased(picked[n], leases(n), owner, until));
    }
  }

  lemma IdsOfAppend(events: seq<OutboxEvent>, e: OutboxEvent)
    ensures IdsOf(events + [e]) == IdsOf(events) + {e.eventId}
  {
    assert forall x :: x in events + [e] <==> x in events || x == e;
  }

  lemma PickedAreKnown(o: Outbox, limit: int, now: Time)
    requires Well(o)
    ensures IdsOf(Picked(o, limit, now)) <= o.at.Keys
  {
    forall e | e in Picked(o, limit, now)
      ensures e.eventId in o.at
    {
      assert e in Candidates(o, now);
      CandidatesAreTheClaimable(o, now, e);
    }
  }

  lemma ClaimKeepsKeys(o: Outbox, limit: int, now: Time, leaseSeconds: int, owner: string, leases: nat -> Uuid)
    requires Well(o)
    ensures Well(Claim(o, limit, now, leaseSeconds, owner, leases))
    ensures Claim(o, limit, now, leaseSeconds, owner, leases).at.Keys == o.at.Keys
  {
    LeasingKeepsIds(Picked(o, limit, now), leases, owner, now + leaseSeconds * SECOND);
    EnqueueKeys(o, ClaimedEvents(o, limit, now, leaseSeconds, owner, leases));
    PickedAreKnown(o, limit, now);
  }

  lemma PickedIsDistinct(o: Outbox, limit: int, now: Time, leases: nat -> Uuid, owner: string, until: Time)
    requires Well(o)
    ensures var picked := Picked(o, limit, now);
            DistinctEvents(picked) && DistinctEvents(LeasedEvents(picked, leases, owner, until))
  {
    CandidatesAreOrdered(o, now);
    LeasedEventsEach(Picked(o, limit, now), leases, owner, until);
  }

  lemma ClaimLeavesUnpicked(o: Outbox, limit: int, now: Time, leaseSeconds: int, owner: string, leases: nat -> Uuid,
                            id: Uuid)
    requires id in o.at && id !in IdsOf(Picked(o, limit, now))
    ensures var r := Claim(o, limit, now, leaseSeconds, owner, leases); id in r.at && r.at[id] == o.at[id]
  {
    var until := now + leaseSeconds * SECOND;
    LeasingKeepsIds(Picked(o, limit, now), leases, owner, until);
    EnqueueLeavesOthers(o, LeasedEvents(Picked(o, limit, now), leases, owner, until), id);
  }

  lemma PickedIsStored(o: Outbox, limit: int, now: Time, k: nat)
    requires Well(o) && k < |Picked(o, limit, now)|
    ensures var e := Picked(o, limit, now)[k]; e.eventId in o.at && o.at[e.eventId] == e && Claimable(e, now)
  {
    var e := Picked(o, limit, now)[k];
    assert e in Candidates(o, now);
    CandidatesAreTheClaimable(o, now, e);
  }

  lemma ClaimLeasesPicked(o: Outbox, limit: int, now: Time, leaseSeconds: int, owner: string, leases: nat -> Uuid,
                          k: nat)
    requires Well(o) && k < |Picked(o, limit, now)|
    ensures var e, r := Picked(o, limit, now)[k], Claim(o, limit, now, leaseSeconds, owner, leases);
            e.eventId in r.at && r.at[e.eventId] == Leased(e, leases(k), owner, now + leaseSeconds * SECOND)
  {
    var until := now + leaseSeconds * SECOND;
    var claimed := LeasedEvents(Picked(o, limit, now), leases, owner, until);
    PickedIsDistinct(o, limit, now, leases, owner, until);
    LeasedEventsEach(Picked(o, limit, now), leases, owner, until);
    EnqueueStores(o, claimed, k);
  }

  /** What a claim does to one entry: nothing, or it leases a claimable event under the i-th identifier. */
  lemma ClaimEffect(o: Outbox, limit: int, now: Time, leaseSeconds: int, owner: string, leases: nat -> Uuid, id: Uuid)
    returns (i: int)
    requires Well(o) && id in o.at
    ensures Well(Claim(o, limit, now, leaseSeconds, owner, leases))
    ensures Claim(o, limit, now, leaseSeconds, owner, leases).at.Keys == o.at.Keys
    ensures -1 <= i < |Picked(o, limit, now)|
    ensures i < 0 ==> Claim(o, limit, now, leaseSeconds, owner, leases).at[id] == o.at[id]
    ensures i >= 0 ==>
      && Picked(o, limit, now)[i].eventId == id
      && Claimable(o.at[id], now)
      && Claim(o, limit, now, leaseSeconds, owner, leases).at[id]
         == Leased(o.at[id], leases(i), owner, now + leaseSeconds * SECOND)
  {
    ClaimKeepsKeys(o, limit, now, leaseSeconds, owner, leases);
    if k :| 0 <= k < |Picked(o, limit, now)| && Picked(o, limit, now)[k].eventId == id {
      i := k;
      PickedIsStored(o, limit, now, k);
      ClaimLeasesPicked(o, limit, now, leaseSeconds, owner, leases, k);
    } else {
      i := -1;
      ClaimLeavesUnpicked(o, limit, now, leaseSeconds, owner, leases, id);
    }
  }

  lemma ClaimKeepsDiscipline(o: Outbox, used: set<Uuid>, limit: int, now: Time, leaseSeconds: int, owner: string,
                             leases: nat -> Uuid)
    requires Disciplined(o, used)
    requires FreshLeases(used, leases, |Picked(o, limit, now)|)
    ensures Disciplined(Claim(o, limit, now, leaseSeconds, owner, leases), used + Issued(o, limit, now, leases))
  {
    var r := Claim(o, limit, now, leaseSeconds, owner, leases);
    ClaimKeepsKeys(o, limit, now, leaseSeconds, owner, leases);
    forall id | id in r.at && r.at[id].leaseId.Some?
      ensures r.at[id].status == Processing && r.at[id].leaseId.value in used + Issued(o, limit, now, leases)
    {
      var i := ClaimEffect(o, limit, now, leaseSeconds, owner, leases, id);
    }
    forall a, b | a in r.at && b in r.at && a != b && r.at[a].leaseId.Some?
      ensures r.at[a].leaseId != r.at[b].leaseId
    {
      var i := ClaimEffect(o, limit, now, leaseSeconds, owner, leases, a);
      var j := ClaimEffect(o, limit, now, leaseSeconds, owner, leases, b);
    }
  }

  /** The identifiers a claim hands out. */
  ghost function Issued(o: Outbox, limit: int, now: Time, leases: nat -> Uuid): set<Uuid> {
    set i | 0 <= i < |Picked(o, limit, now)| :: leases(i)
  }

  lemma UpdateKeepsDiscipline(o: Outbox, used: set<Uuid>, eventId: Uuid, s: Settlement, lease: Option<Uuid>)
    requires Disciplined(o, used)
    ensures Disciplined(Update(o, eventId, s, lease).outbox, used)
  {
  }
}
