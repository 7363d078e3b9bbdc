/** What callers of the active store can rely on: reads after writes, fencing of former holders, fresh starts. */
module ReferenceLaws {
  import opened Prelude
  import opened OrderedDict
  import opened ActiveModel
  import opened ActiveSimulation
  import Mem = ReferenceSpec
  import Red = RedisSpec

  // ---- reads after writes ----

  /** A context as a reader finds it: what the writer committed, under its identity, in its first group. */
  ghost predicate Records(context: ActiveContext, c: Settings, writer: AgentIdentity, k: Key, draft: Draft,
                          version: nat, now: Time) {
    && context.key == k && context.draft == draft && context.version == version
    && context.role == writer.role && context.deploymentId == c.deploymentId
    && (writer.groups == [] ==> context.groupId == "default")
    && (writer.groups != [] ==> context.groupId == writer.groups[0])
    && context.updatedAt == now && context.expiresAt - now == c.contextTtl * SECOND
  }

  /** A granted write is read back unchanged until the context lapses, and not after. */
  lemma WriteThenRead(c: Settings, m: Mem.Memory, lease: AgentLease, expected: Option<int>, draft: Draft, now: Time,
                      later: Time)
    requires Mem.Put(c, m, lease, expected, draft, now).answer.ContextIs?
    ensures lease.key in m.presences.at
    ensures var put := Mem.Put(c, m, lease, expected, draft, now);
            && Records(put.answer.context, c, m.presences.at[lease.key].identity, lease.key, draft,
                       Mem.VersionOf(m, lease.key) + 1, now)
            && Mem.VersionOf(put.state, lease.key) == Mem.VersionOf(m, lease.key) + 1
            && Mem.ContextAt(put.state, lease.key, later)
               == if later < now + c.contextTtl * SECOND then put.answer else NoContext
  {
  }

  lemma RedisWriteThenRead(c: Settings, r: Red.Keys, lease: AgentLease, expected: Option<int>, draft: Draft, now: Time,
                           later: Time)
    requires Red.Put(c, r, lease, expected, draft, now).answer.ContextIs?
    ensures Token(lease.key) in r.presences
    ensures var put, t := Red.Put(c, r, lease, expected, draft, now), Token(lease.key);
            && Records(put.answer.context, c, r.presences[t].value.identity, lease.key, draft,
                       Red.StoredVersion(r, t) + 1, now)
            && Red.StoredVersion(put.state, t) == Red.StoredVersion(r, t) + 1
            && Red.ContextAt(put.state, lease.key, later)
               == if later < now + c.contextTtl * SECOND then put.answer else NoContext
  {
  }

  /** A renewal keeps who and since when, moves the heartbeat, and is read back until the presence lapses. */
  lemma RenewThenRead(c: Settings, m: Mem.Memory, lease: AgentLease, now: Time, later: Time)
    requires Mem.RenewedBy(c, m, lease, now).answer.PresenceIs?
    ensures lease.key in m.presences.at && lease.key in m.leases
    ensures var renewed := Mem.RenewedBy(c, m, lease, now);
            var was, p := m.presences.at[lease.key], renewed.answer.presence;
            && p.identity == was.identity && p.startedAt == was.startedAt && p.status == was.status
            && p.deploymentId == was.deploymentId && p.heartbeatAt == now && p.expiresAt == now + c.presenceTtl * SECOND
            && Mem.PresenceAt(renewed.state, lease.key, later)
               == (if later < now + c.presenceTtl * SECOND then renewed.answer else NoPresence)
            && (Mem.Valid(renewed.state, lease, later) <==> later < now + Mem.Extension(m, lease.key, now))
  {
  }

  /** A registration is read back until the presence lapses; its lease, and only its lease, is valid until it
      expires. */
  lemma RegisterThenRead(c: Settings, m: Mem.Memory, identity: AgentIdentity, lease: AgentLease, now: Time, later: Time,
                         other: AgentLease)
    requires identity.key == lease.key == other.key
    ensures var registered := Mem.Registered(c, m, identity, lease, now);
            var p := registered.answer.presence;
            && p.identity == identity && p.status == Starting && p.startedAt == now == p.heartbeatAt
            && p.deploymentId == c.deploymentId && p.expiresAt == now + c.presenceTtl * SECOND
            && Mem.PresenceAt(registered.state, lease.key, later)
               == (if later < now + c.presenceTtl * SECOND then registered.answer else NoPresence)
            && (Mem.Valid(registered.state, other, later) <==>
                  other.leaseId == lease.leaseId && later < lease.expiresAt)
  {
  }

  /** The holder's unregister leaves nothing to read, nothing valid, and a history that starts over. */
  lemma UnregisterForgets(m: Mem.Memory, lease: AgentLease, other: AgentLease, later: Time)
    requires lease.key in m.leases && m.leases[lease.key].leaseId == lease.leaseId && other.key == lease.key
    ensures var after := Mem.Unregistered(m, lease).state;
            && Mem.PresenceAt(after, lease.key, later) == NoPresence
            && Mem.ContextAt(after, lease.key, later) == NoContext
            && !Mem.Valid(after, other, later) && Mem.VersionOf(after, lease.key) == 0
  {
  }

  // ---- what Redis grants ----

  /** A lease is held for its interval in whole seconds, fractions cut off, and never for less than one. */
  lemma LeasesLastWholeSeconds(l: AgentLease)
    ensures l.Ttl() >= SECOND ==> Red.LeaseSeconds(l) * SECOND <= l.Ttl() < (Red.LeaseSeconds(l) + 1) * SECOND
    ensures l.Ttl() < SECOND ==> Red.LeaseSeconds(l) == 1
  {
  }

  /** The number of the presence stored under this token, zero if there is none. */
  function PresenceNumber(r: Red.Keys, t: string): nat {
    if t in r.presences then r.presences[t].value.version else 0
  }

  /** A grant of Redis, registration or renewal: the presence read back until it lapses is numbered one up, beats now,
      and is held under this lease; a renewal keeps who, since when and in what status, a registration starts over. */
  lemma RedisGrantThenRead(c: Settings, r: Red.Keys, identity: AgentIdentity, lease: AgentLease, call: Call, now: Time,
                           later: Time)
    requires identity.key == lease.key && (call == Register(identity, lease) || call == Renew(lease))
    requires Red.Serve(c, r, call, now).answer.PresenceIs?
    ensures var turn, t := Red.Serve(c, r, call, now), Token(lease.key);
            var p := turn.answer.presence;
            && p.version == PresenceNumber(r, t) + 1 && p.heartbeatAt == now
            && p.expiresAt == now + c.presenceTtl * SECOND
            && Red.PresenceAt(turn.state, lease.key, later)
               == (if later < now + c.presenceTtl * SECOND then turn.answer else NoPresence)
            && (Red.HoldsLease(turn.state, lease, later) <==> later < now + Red.LeaseSeconds(lease) * SECOND)
            && (call.Register? ==>
                  && p.identity == identity && p.status == Starting && p.startedAt == now
                  && p.deploymentId == c.deploymentId)
            && (call.Renew? ==>
                  && t in r.presences && Red.HoldsLease(r, lease, now)
                  && var was := r.presences[t].value;
                     p.identity == was.identity && p.startedAt == was.startedAt && p.status == was.status)
  {
  }

  // ---- fencing ----

  ghost function After(c: Settings, m: Mem.Memory, calls: seq<Timed>): Mem.Memory
    decreases |calls|
  {
    if calls == [] then m else After(c, OnMemory(c, m, calls[0]).state, calls[1..])
  }

  /** The incarnation is registered under some other lease, or not at all. */
  predicate Ousted(m: Mem.Memory, former: AgentLease) {
    former.key !in m.leases || m.leases[former.key].leaseId != former.leaseId
  }

  predicate Readmits(call: Call, former: AgentLease) {
    call.Register? && call.identity.key == former.key && call.lease.leaseId == former.leaseId
  }

  lemma StepKeepsOusted(c: Settings, m: Mem.Memory, former: AgentLease, call: Call, now: Time)
    requires Ousted(m, former) && !Readmits(call, former)
    ensures Ousted(Mem.Serve(c, m, call, now).state, former)
  {
  }

  /** Main result: once its registration is replaced or ended, a lease neither renews nor writes again, whatever other
      calls are made, unless it is itself registered anew; and it cannot unregister its successor. */
  lemma {:induction false} FormerHolderIsPowerless(c: Settings, m: Mem.Memory, former: AgentLease, calls: seq<Timed>,
                                                   now: Time, expected: Option<int>, draft: Draft)
    requires Ousted(m, former) && forall i :: 0 <= i < |calls| ==> !Readmits(calls[i].call, former)
    ensures var end := After(c, m, calls);
            && Mem.RenewedBy(c, end, former, now) == Turn(end, LeaseExpired(former.key))
            && Mem.Put(c, end, former, expected, draft, now) == Turn(end, LeaseExpired(former.key))
            && (former.key in end.leases ==> Mem.Unregistered(end, former) == Turn(end, Done))
    decreases |calls|
  {
    if calls != [] {
      assert !Readmits(calls[0].call, former);
      StepKeepsOusted(c, m, former, calls[0].call, calls[0].now);
      FormerHolderIsPowerless(c, OnMemory(c, m, calls[0]).state, former, calls[1..], now, expected, draft);
    }
  }

  // ---- presence numbers ----

  /** Every number in use was handed out before the next one. */
  ghost predicate Numbered(m: Mem.Memory) {
    forall k :: k in m.presences.at ==> m.presences.at[k].version < m.counter
  }

  /** The numbers of the presences handed out by registrations and renewals. */
  ghost function Numbers(c: Settings, m: Mem.Memory, calls: seq<Timed>): seq<nat>
    decreases |calls|
  {
    if calls == [] then []
    else
      var turn := OnMemory(c, m, calls[0]);
      (if turn.answer.PresenceIs? && !calls[0].call.GetPresence? then [turn.answer.presence.version] else [])
      + Numbers(c, turn.state, calls[1..])
  }

  lemma StepNumbers(c: Settings, m: Mem.Memory, call: Call, now: Time)
    requires Numbered(m)
    ensures var turn := Mem.Serve(c, m, call, now);
            && Numbered(turn.state)
            && (if turn.answer.PresenceIs? && !call.GetPresence?
                then turn.answer.presence.version == m.counter && turn.state.counter == m.counter + 1
                else turn.state.counter == m.counter)
  {
  }

  /** Main result: over any run the presences handed out are numbered consecutively, above every presence still
      stored. */
  lemma {:induction false} PresenceNumbersRise(c: Settings, m: Mem.Memory, calls: seq<Timed>)
    requires Numbered(m)
    ensures Numbered(After(c, m, calls))
    ensures forall i :: 0 <= i < |Numbers(c, m, calls)| ==> Numbers(c, m, calls)[i] == m.counter + i
    ensures After(c, m, calls).counter == m.counter + |Numbers(c, m, calls)|
    decreases |calls|
  {
    if calls != [] {
      StepNumbers(c, m, calls[0].call, calls[0].now);
      PresenceNumbersRise(c, OnMemory(c, m, calls[0]).state, calls[1..]);
    }
  }
}
