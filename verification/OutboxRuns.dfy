/** Whole runs of the outbox in which every worker passes the lease it was given. */
module OutboxRuns {
  import opened Prelude
  import opened OrderedDict
  import opened MemoryModel
  import opened OutboxSpec

  datatype Action =
    | Enqueues(events: seq<OutboxEvent>)
    | Claims(limit: int, now: Time, leaseSeconds: int, owner: string, leases: nat -> Uuid)
    | Updates(eventId: Uuid, settlement: Settlement, lease: Uuid)

  /** The outbox beside every lease identifier handed out so far. */
  datatype World = World(outbox: Outbox, ghost used: set<Uuid>)

  ghost predicate Allowed(w: World, a: Action) {
    match a
    case Enqueues(events) => NewEvents(w.outbox, events)
    case Claims(limit, now, _, _, leases) => FreshLeases(w.used, leases, |Picked(w.outbox, limit, now)|)
    case Updates(_, _, _) => true
  }

  ghost function Step(w: World, a: Action): World {
    match a
    case Enqueues(events) => World(Enqueue(w.outbox, events), w.used)
    case Claims(limit, now, leaseSeconds, owner, leases) =>
      World(Claim(w.outbox, limit, now, leaseSeconds, owner, leases), w.used + Issued(w.outbox, limit, now, leases))
    case Updates(eventId, settlement, lease) =>
      World(Update(w.outbox, eventId, settlement, Some(lease)).outbox, w.used)
  }

  ghost predicate Run(w: World, actions: seq<Action>)
    decreases |actions|
  {
    actions != [] ==> Allowed(w, actions[0]) && Run(Step(w, actions[0]), actions[1..])
  }

  ghost function After(w: World, actions: seq<Action>): World
    decreases |actions|
  {
    if actions == [] then w else After(Step(w, actions[0]), actions[1..])
  }

  ghost predicate Settles(w: World, a: Action) {
    a.Updates? && Update(w.outbox, a.eventId, a.settlement, Some(a.lease)).outcome.Ok?
  }

  /** How many updates a lease settled over a run. */
  ghost function SettledUnder(w: World, actions: seq<Action>, lease: Uuid): nat
    decreases |actions|
  {
    if actions == [] then 0
    else (if Settles(w, actions[0]) && actions[0].lease == lease then 1 else 0)
         + SettledUnder(Step(w, actions[0]), actions[1..], lease)
  }

  ghost function EnqueuedCount(actions: seq<Action>): nat {
    if actions == [] then 0
    else (if actions[0].Enqueues? then |actions[0].events| else 0) + EnqueuedCount(actions[1..])
  }

  /** Updates that closed an event: settled as delivered or dead. */
  ghost function ClosedCount(w: World, actions: seq<Action>): nat
    decreases |actions|
  {
    if actions == [] then 0
    else (if Settles(w, actions[0]) && Closes(actions[0].settlement) then 1 else 0)
         + ClosedCount(Step(w, actions[0]), actions[1..])
  }

  ghost predicate Good(w: World) {
    Disciplined(w.outbox, w.used)
  }

  lemma StepKeepsGood(w: World, a: Action)
    requires Good(w) && Allowed(w, a)
    ensures Good(Step(w, a))
  {
    match a
    case Enqueues(events) => EnqueueKeepsDiscipline(w.outbox, w.used, events);
    case Claims(limit, now, leaseSeconds, owner, leases) =>
      ClaimKeepsDiscipline(w.outbox, w.used, limit, now, leaseSeconds, owner, leases);
    case Updates(eventId, s, lease) => UpdateKeepsDiscipline(w.outbox, w.used, eventId, s, Some(lease));
  }

  lemma StepKeepsSpent(w: World, a: Action, lease: Uuid)
    requires Good(w) && Allowed(w, a) && Spent(w.outbox, w.used, lease)
    ensures Spent(Step(w, a).outbox, Step(w, a).used, lease)
    ensures !(Settles(w, a) && a.lease == lease)
  {
    match a
    case Enqueues(events) =>
      var r := Step(w, a).outbox;
      forall id | id in r.at
        ensures r.at[id].leaseId != Some(lease)
      {
        EnqueueNewEntry(w.outbox, events, id);
      }
    case Claims(limit, now, leaseSeconds, owner, leases) =>
      var r := Step(w, a).outbox;
      ClaimKeepsKeys(w.outbox, limit, now, leaseSeconds, owner, leases);
      forall id | id in r.at
        ensures r.at[id].leaseId != Some(lease)
      {
        var i := ClaimEffect(w.outbox, limit, now, leaseSeconds, owner, leases, id);
      }
    case Updates(_, _, _) =>
  }

  /** A settlement spends its lease. */
  lemma SettlingSpends(w: World, a: Action)
    requires Good(w) && Settles(w, a)
    ensures Spent(Step(w, a).outbox, Step(w, a).used, a.lease)
  {
  }

  /** A spent lease settles nothing for the rest of any run, and stays spent. */
  lemma {:induction false} SpentForever(w: World, actions: seq<Action>, lease: Uuid)
    requires Good(w) && Run(w, actions) && Spent(w.outbox, w.used, lease)
    ensures SettledUnder(w, actions, lease) == 0
    ensures Spent(After(w, actions).outbox, After(w, actions).used, lease)
    decreases |actions|
  {
    if actions != [] {
      StepKeepsGood(w, actions[0]);
      StepKeepsSpent(w, actions[0], lease);
      SpentForever(Step(w, actions[0]), actions[1..], lease);
    }
  }

  /** Main result: over any run, no lease settles more than one update. */
  lemma {:induction false} OneSettlementPerLease(w: World, actions: seq<Action>, lease: Uuid)
    requires Good(w) && Run(w, actions)
    ensures SettledUnder(w, actions, lease) <= 1
    decreases |actions|
  {
    if actions != [] {
      StepKeepsGood(w, actions[0]);
      if Settles(w, actions[0]) && actions[0].lease == lease {
        SettlingSpends(w, actions[0]);
        SpentForever(Step(w, actions[0]), actions[1..], lease);
      } else {
        OneSettlementPerLease(Step(w, actions[0]), actions[1..], lease);
      }
    }
  }

  /** Main result: once an event is reclaimed, its former lease can never change anything again. */
  lemma ReclaimedLeaseIsPowerless(w: World, claim: Action, later: seq<Action>, eventId: Uuid, settlement: Settlement)
    requires Good(w) && claim.Claims? && Run(w, [claim] + later)
    requires eventId in w.outbox.at && w.outbox.at[eventId].leaseId.Some?
    requires eventId in Step(w, claim).outbox.at
    requires Step(w, claim).outbox.at[eventId].leaseId != w.outbox.at[eventId].leaseId
    ensures var lease := w.outbox.at[eventId].leaseId;
            var end := After(w, [claim] + later).outbox;
            forall id ::
              Update(end, id, settlement, lease).outcome.Raised? && Update(end, id, settlement, lease).outbox == end
  {
    var lease := w.outbox.at[eventId].leaseId.value;
    assert ([claim] + later)[1..] == later;
    StepKeepsGood(w, claim);
    var r := Step(w, claim).outbox;
    ClaimKeepsKeys(w.outbox, claim.limit, claim.now, claim.leaseSeconds, claim.owner, claim.leases);
    forall id | id in r.at
      ensures r.at[id].leaseId != Some(lease)
    {
      var i := ClaimEffect(w.outbox, claim.limit, claim.now, claim.leaseSeconds, claim.owner, claim.leases, id);
    }
    SpentForever(Step(w, claim), later, lease);
  }

  /** Main result: DELIVERED and DEAD are absorbing; a closed event is never touched again. */
  lemma {:induction false} ClosedEventsAreFrozen(w: World, actions: seq<Action>, id: Uuid)
    requires Good(w) && Run(w, actions)
    requires id in w.outbox.at && !IsOpen(w.outbox.at[id])
    ensures id in After(w, actions).outbox.at && After(w, actions).outbox.at[id] == w.outbox.at[id]
    decreases |actions|
  {
    if actions != [] {
      StepKeepsGood(w, actions[0]);
      match actions[0] {
        case Enqueues(events) =>
          EnqueueKeys(w.outbox, events);
          EnqueueNewEntry(w.outbox, events, id);
        case Claims(limit, now, leaseSeconds, owner, leases) =>
          var i := ClaimEffect(w.outbox, limit, now, leaseSeconds, owner, leases, id);
        case Updates(_, _, _) =>
      }
      ClosedEventsAreFrozen(Step(w, actions[0]), actions[1..], id);
    }
  }

  lemma PutGrowsBacklog(o: Outbox, e: OutboxEvent)
    requires e.eventId !in o.at && IsOpen(e)
    ensures Backlog(o.Put(e.eventId, e)) == Backlog(o) + 1
  {
    assert OpenIds(o.Put(e.eventId, e)) == OpenIds(o) + {e.eventId};
  }

  lemma {:induction false} EnqueueGrowsBacklog(o: Outbox, events: seq<OutboxEvent>)
    requires Well(o) && NewEvents(o, events)
    ensures Backlog(Enqueue(o, events)) == Backlog(o) + |events|
  {
    if events != [] {
      var n := |events| - 1;
      EnqueueGrowsBacklog(o, events[..n]);
      EnqueueKeys(o, events[..n]);
      assert events[n] in events;
      assert events[n].eventId !in IdsOf(events[..n]);
      PutGrowsBacklog(Enqueue(o, events[..n]), events[n]);
    }
  }

  predicate Closes(s: Settlement) {
    s.status == Delivered || s.status == Dead
  }

  lemma ClaimKeepsBacklog(o: Outbox, limit: int, now: Time, leaseSeconds: int, owner: string, leases: nat -> Uuid)
    requires Well(o)
    ensures Backlog(Claim(o, limit, now, leaseSeconds, owner, leases)) == Backlog(o)
  {
    var r := Claim(o, limit, now, leaseSeconds, owner, leases);
    ClaimKeepsKeys(o, limit, now, leaseSeconds, owner, leases);
    forall id | id in o.at
      ensures IsOpen(r.at[id]) == IsOpen(o.at[id])
    {
      var i := ClaimEffect(o, limit, now, leaseSeconds, owner, leases, id);
    }
    assert OpenIds(r) == OpenIds(o);
  }

  lemma UpdateMovesBacklog(o: Outbox, used: set<Uuid>, eventId: Uuid, s: Settlement, lease: Uuid)
    requires Disciplined(o, used) && Update(o, eventId, s, Some(lease)).outcome.Ok?
    ensures Backlog(Update(o, eventId, s, Some(lease)).outbox) + (if Closes(s) then 1 else 0) == Backlog(o)
  {
    var r := Update(o, eventId, s, Some(lease)).outbox;
    assert eventId in OpenIds(o);
    if Closes(s) {
      assert OpenIds(r) == OpenIds(o) - {eventId};
    } else {
      assert OpenIds(r) == OpenIds(o);
    }
  }

  lemma StepConserves(w: World, a: Action)
    requires Good(w) && Allowed(w, a)
    ensures Backlog(Step(w, a).outbox) + (if Settles(w, a) && Closes(a.settlement) then 1 else 0)
         == Backlog(w.outbox) + (if a.Enqueues? then |a.events| else 0)
  {
    match a
    case Enqueues(events) => EnqueueGrowsBacklog(w.outbox, events);
    case Claims(limit, now, leaseSeconds, owner, leases) =>
      ClaimKeepsBacklog(w.outbox, limit, now, leaseSeconds, owner, leases);
    case Updates(eventId, s, lease) =>
      if Settles(w, a) {
        UpdateMovesBacklog(w.outbox, w.used, eventId, s, lease);
      }
  }

  /** Main result: conservation. The backlog is what was enqueued minus what was settled as delivered or dead. */
  lemma {:induction false} BacklogIsConserved(w: World, actions: seq<Action>)
    requires Good(w) && Run(w, actions)
    ensures Backlog(After(w, actions).outbox) + ClosedCount(w, actions) == Backlog(w.outbox) + EnqueuedCount(actions)
    decreases |actions|
  {
    if actions != [] {
      var a := actions[0];
      StepKeepsGood(w, a);
      StepConserves(w, a);
      BacklogIsConserved(Step(w, a), actions[1..]);
    }
  }
}
