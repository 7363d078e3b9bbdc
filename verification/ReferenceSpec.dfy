/** The reference active store as a value: its dictionaries, and each operation as one step. */
module ReferenceSpec {
  import opened Prelude
  import opened OrderedDict
  import opened ActiveModel

  datatype Memory = Memory(
    presences: Dict<Key, AgentPresence>,
    contexts: Dict<Key, ActiveContext>,
    leases: map<Key, AgentLease>,
    leaseTtl: map<Key, int>,
    versions: map<Key, nat>,
    counter: nat)

  function Fresh(): Memory {
    Memory(Empty(), Empty(), map[], map[], map[], 1)
  }

  /** The lease proves registration: same id as the stored one, and not lapsed. */
  predicate Valid(m: Memory, lease: AgentLease, now: Time) {
    lease.key in m.leases && m.leases[lease.key].leaseId == lease.leaseId && !m.leases[lease.key].IsExpired(now)
  }

  function Registered(c: Settings, m: Memory, identity: AgentIdentity, lease: AgentLease, now: Time): Turn<Memory> {
    var p := Started(c, identity, now, m.counter);
    Turn(m.(presences := m.presences.Put(identity.key, p),
            leases := m.leases[identity.key := lease],
            leaseTtl := m.leaseTtl[identity.key := lease.Ttl()],
            counter := m.counter + 1),
         PresenceIs(p))
  }

  /** How long a renewal extends: the interval the lease was issued for. */
  function Extension(m: Memory, k: Key, now: Time): int
    requires k in m.leases
  {
    if k in m.leaseTtl then m.leaseTtl[k] else m.leases[k].expiresAt - now
  }

  function RenewedBy(c: Settings, m: Memory, lease: AgentLease, now: Time): Turn<Memory> {
    var k := lease.key;
    if !Valid(m, lease, now) || k !in m.presences.at || m.presences.at[k].IsExpired(now) then Turn(m, LeaseExpired(k))
    else
      var p := Renewed(c, m.presences.at[k], now, m.counter);
      Turn(m.(presences := m.presences.Put(k, p),
              leases := m.leases[k := m.leases[k].(expiresAt := now + Extension(m, k, now))],
              counter := m.counter + 1),
           PresenceIs(p))
  }

  /** Inert for anyone but the holder; without a stored lease it clears what is left. */
  function Unregistered(m: Memory, lease: AgentLease): Turn<Memory> {
    var k := lease.key;
    if k in m.leases && m.leases[k].leaseId != lease.leaseId then Turn(m, Done)
    else
      Turn(Memory(m.presences.Delete(k), m.contexts.Delete(k), m.leases - {k}, m.leaseTtl - {k}, m.versions - {k},
                  m.counter), Done)
  }

  function VersionOf(m: Memory, k: Key): nat {
    if k in m.versions then m.versions[k] else 0
  }

  function Put(c: Settings, m: Memory, lease: AgentLease, expected: Option<int>, draft: Draft,
               now: Time): Turn<Memory> {
    var k := lease.key;
    if !Valid(m, lease, now) || k !in m.presences.at then Turn(m, LeaseExpired(k))
    else if expected.Some? && expected.value != VersionOf(m, k) then
      Turn(m, VersionConflict(expected.value, VersionOf(m, k)))
    else
      var next := VersionOf(m, k) + 1;
      var context := Committed(c, k, m.presences.at[k], draft, next, now);
      Turn(m.(contexts := m.contexts.Put(k, context), versions := m.versions[k := next]), ContextIs(context))
  }

  function ContextAt(m: Memory, k: Key, now: Time): Answer {
    if k in m.contexts.at && !m.contexts.at[k].IsExpired(now) then ContextIs(m.contexts.at[k]) else NoContext
  }

  function PresenceAt(m: Memory, k: Key, now: Time): Answer {
    if k in m.presences.at && !m.presences.at[k].IsExpired(now) then PresenceIs(m.presences.at[k]) else NoPresence
  }

  function Serve(c: Settings, m: Memory, call: Call, now: Time): Turn<Memory> {
    match call
    case Register(identity, lease) => Registered(c, m, identity, lease, now)
    case Renew(lease) => RenewedBy(c, m, lease, now)
    case Unregister(lease) => Unregistered(m, lease)
    case PutContext(lease, expected, draft) => Put(c, m, lease, expected, draft, now)
    case GetContext(k) => Turn(m, ContextAt(m, k, now))
    case GetPresence(k) => Turn(m, PresenceAt(m, k, now))
  }
}
