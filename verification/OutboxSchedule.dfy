/** When an outbox event can be claimed: what a claim and a settlement leave it as, and that nobody takes it early. */
module OutboxSchedule {
  import opened Prelude
  import opened OrderedDict
  import opened MemoryModel
  import opened OutboxSpec
  import opened OutboxRuns

  /** The first instant at which a claim may take the event: when its attempt falls due, or when its lease runs out. A
      closed event never falls due. */
  function DueFrom(e: OutboxEvent): Option<Time> {
    if e.status == Delivered || e.status == Dead then None
    else if e.status == Processing then e.leaseExpiresAt
    else Some(e.nextAttemptAt)
  }

  /** An event can be claimed exactly from the instant it falls due; one in processing under no dated lease, at once. */
  lemma ClaimableFromDue(e: OutboxEvent, now: Time)
    ensures Claimable(e, now) <==>
              || (DueFrom(e).Some? && DueFrom(e).value <= now)
              || (e.status == Processing && e.leaseExpiresAt.None?)
  {
  }

  /** A claim leaves an event alone, or it was due and is now in processing, held under an identifier of this claim, by
      this owner, until the stated instant; nothing else of it changes, and nobody can claim it before that instant. */
  lemma ClaimedEventIsHeld(o: Outbox, limit: int, now: Time, leaseSeconds: int, owner: string, leases: nat -> Uuid,
                           id: Uuid)
    requires Well(o) && id in o.at
    ensures id in Claim(o, limit, now, leaseSeconds, owner, leases).at
    ensures var was, e := o.at[id], Claim(o, limit, now, leaseSeconds, owner, leases).at[id];
            || e == was
            || (&& Claimable(was, now)
                && e.status == Processing && e.leaseOwner == Some(owner)
                && (exists i: nat :: e.leaseId == Some(leases(i)))
                && e.leaseExpiresAt == Some(now + leaseSeconds * SECOND)
                && e.(status := was.status, leaseId := was.leaseId, leaseOwner := was.leaseOwner,
                      leaseExpiresAt := was.leaseExpiresAt) == was
                && (forall later :: Claimable(e, later) <==> later >= now + leaseSeconds * SECOND))
  {
    var i := ClaimEffect(o, limit, now, leaseSeconds, owner, leases, id);
  }

  /** A settlement is kept as reported and gives up the lease; nothing else of the event changes, and no other event
      does. A retry can be claimed again exactly from its next attempt on. */
  lemma SettledEventIsAsReported(o: Outbox, eventId: Uuid, s: Settlement, lease: Option<Uuid>, now: Time, other: Uuid)
    requires Update(o, eventId, s, lease).outcome.Ok?
    ensures eventId in o.at && (lease.Some? ==> o.at[eventId].leaseId == lease)
    ensures var r := Update(o, eventId, s, lease).outbox;
            && eventId in r.at
            && var was, e := o.at[eventId], r.at[eventId];
               && e.status == s.status && e.attempts == s.attempts && e.nextAttemptAt == s.nextAttemptAt
               && e.lastError == s.lastError && e.deliveredAt == s.deliveredAt
               && e.leaseId == None && e.leaseOwner == None && e.leaseExpiresAt == None
               && e.eventId == was.eventId && e.payload == was.payload && e.createdAt == was.createdAt
               && (s.status == Retry || s.status == Pending ==> (Claimable(e, now) <==> s.nextAttemptAt <= now))
               && (s.status == Delivered || s.status == Dead ==> !Claimable(e, now))
    ensures var r := Update(o, eventId, s, lease).outbox;
            (other in r.at <==> other in o.at) && (other in o.at && other != eventId ==> r.at[other] == o.at[other])
  {
  }

  /** An update is refused exactly when the event is unknown, or a stated lease is not the one it is held under. */
  lemma SettlementIsRefusedIff(o: Outbox, eventId: Uuid, s: Settlement, lease: Option<Uuid>)
    ensures Update(o, eventId, s, lease).outcome == Raised(EventNotFound) <==> eventId !in o.at
    ensures Update(o, eventId, s, lease).outcome == Raised(LeaseLost)
            <==> eventId in o.at && lease.Some? && o.at[eventId].leaseId != lease
    ensures Update(o, eventId, s, lease).outcome.Ok? || Update(o, eventId, s, lease).outbox == o
  {
  }

  /** No claim of the run happens at or after `due`, and nobody settles under this lease. */
  ghost predicate Early(actions: seq<Action>, due: Time, lease: Option<Uuid>) {
    forall i :: 0 <= i < |actions| ==>
                  && (actions[i].Claims? ==> actions[i].now < due)
                  && (actions[i].Updates? ==> Some(actions[i].lease) != lease)
  }

  lemma StepLeavesUndue(w: World, a: Action, id: Uuid)
    requires Good(w) && Allowed(w, a) && id in w.outbox.at && DueFrom(w.outbox.at[id]).Some?
    requires Early([a], DueFrom(w.outbox.at[id]).value, w.outbox.at[id].leaseId)
    ensures id in Step(w, a).outbox.at && Step(w, a).outbox.at[id] == w.outbox.at[id]
  {
    assert [a][0] == a;
    match a
    case Enqueues(events) =>
      EnqueueKeys(w.outbox, events);
      EnqueueNewEntry(w.outbox, events, id);
    case Claims(limit, now, leaseSeconds, owner, leases) =>
      var i := ClaimEffect(w.outbox, limit, now, leaseSeconds, owner, leases, id);
    case Updates(_, _, _) =>
  }

  /** Main result: nobody takes an event early. Over any run in which no claim comes at or after the instant it falls
      due, and its holder, if it has one, does not settle it, the event stays exactly as it is: a retry waits for its
      next attempt, and a lease is respected until it runs out. */
  lemma {:induction false} NothingIsTakenEarly(w: World, actions: seq<Action>, id: Uuid)
    requires Good(w) && Run(w, actions) && id in w.outbox.at && DueFrom(w.outbox.at[id]).Some?
    requires Early(actions, DueFrom(w.outbox.at[id]).value, w.outbox.at[id].leaseId)
    ensures id in After(w, actions).outbox.at && After(w, actions).outbox.at[id] == w.outbox.at[id]
    decreases |actions|
  {
    if actions != [] {
      assert [actions[0]][0] == actions[0];
      StepKeepsGood(w, actions[0]);
      StepLeavesUndue(w, actions[0], id);
      NothingIsTakenEarly(Step(w, actions[0]), actions[1..], id);
    }
  }

  /** Main result: and nobody is passed over. A claim with room for every event that is due takes each of them. */
  lemma DueEventIsTaken(o: Outbox, limit: nat, now: Time, leaseSeconds: int, owner: string, leases: nat -> Uuid,
                        id: Uuid)
    requires Well(o) && id in o.at && DueFrom(o.at[id]).Some? && DueFrom(o.at[id]).value <= now
    requires limit >= |ClaimableIds(o, now)|
    ensures id in Claim(o, limit, now, leaseSeconds, owner, leases).at
    ensures var e := Claim(o, limit, now, leaseSeconds, owner, leases).at[id];
            && e.status == Processing && e.leaseOwner == Some(owner)
            && e.leaseExpiresAt == Some(now + leaseSeconds * SECOND)
  {
    ClaimableFromDue(o.at[id], now);
    ClaimTakesTheOldest(o, limit, now);
    var taken, due := IdsOf(Picked(o, limit, now)), ClaimableIds(o, now);
    assert due == taken + (due - taken);
    assert |due - taken| == 0 && id in due;
    var picked :| picked in Picked(o, limit, now) && picked.eventId == id;
    var k :| 0 <= k < |Picked(o, limit, now)| && Picked(o, limit, now)[k] == picked;
    PickedIsStored(o, limit, now, k);
    ClaimLeasesPicked(o, limit, now, leaseSeconds, owner, leases, k);
  }
}
