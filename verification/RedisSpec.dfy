/** The shared Redis keys as a value: each command, and each store operation run without interruption. */
module RedisSpec {
  import opened Prelude
  import opened ActiveModel

  datatype Entry<V> = Entry(value: V, deadline: Time)

  /** The lease key holds its id and the instant it lapses. */
  datatype LeaseValue = LeaseValue(leaseId: string, expiresAt: Time)

  /** Keys of the three kinds, by the token that spells the incarnation. Kinds end in different words, so never
      collide. */
  datatype Keys = Keys(
    presences: map<string, Entry<AgentPresence>>,
    contexts: map<string, Entry<ActiveContext>>,
    leases: map<string, Entry<LeaseValue>>)

  function NoKeys(): Keys {
    Keys(map[], map[], map[])
  }

  /** `SET key value EX seconds`. */
  function Lasting<V>(value: V, seconds: int, now: Time): Entry<V> {
    Entry(value, now + seconds * SECOND)
  }

  function SetPresence(r: Keys, t: string, p: AgentPresence, seconds: int, now: Time): Keys {
    r.(presences := r.presences[t := Lasting(p, seconds, now)])
  }

  function SetLease(r: Keys, t: string, l: LeaseValue, seconds: int, now: Time): Keys {
    r.(leases := r.leases[t := Lasting(l, seconds, now)])
  }

  function Unlink(r: Keys, t: string): Keys {
    Keys(r.presences - {t}, r.contexts - {t}, r.leases - {t})
  }

  /** The keys the server has collected by now: only ones past their deadline, in its own time. */
  datatype Sweep = Sweep(presences: set<string>, contexts: set<string>, leases: set<string>)

  function Collected<V>(keys: map<string, Entry<V>>, swept: set<string>, now: Time): map<string, Entry<V>> {
    map t | t in keys && (t !in swept || now < keys[t].deadline) :: keys[t]
  }

  function Collect(r: Keys, swept: Sweep, now: Time): Keys {
    Keys(Collected(r.presences, swept.presences, now), Collected(r.contexts, swept.contexts, now),
         Collected(r.leases, swept.leases, now))
  }

  /** What the compare-and-swap script returns. */
  datatype ScriptReply = NoPresenceKey | Conflicts(current: nat) | Committed(context: ActiveContext)

  function StoredVersion(r: Keys, t: string): nat {
    if t in r.contexts then r.contexts[t].value.version else 0
  }

  /** The Lua script: one atomic step over the presence and the context key. */
  function Cas(r: Keys, t: string, expected: Option<int>, context: ActiveContext, seconds: int,
               now: Time): (Keys, ScriptReply) {
    if t !in r.presences then (r, NoPresenceKey)
    else if expected.Some? && expected.value != StoredVersion(r, t) then (r, Conflicts(StoredVersion(r, t)))
    else
      var written := context.(version := StoredVersion(r, t) + 1);
      (r.(contexts := r.contexts[t := Lasting(written, seconds, now)]), ScriptReply.Committed(written))
  }

  // ---- the store's operations ----

  /** `max(1, int(seconds))` of a lease's interval, which truncates toward zero. */
  function LeaseSeconds(l: AgentLease): (n: int)
    ensures n >= 1
  {
    if l.Ttl() >= SECOND then l.Ttl() / SECOND else 1
  }

  function ValueOf(l: AgentLease, now: Time): LeaseValue {
    LeaseValue(l.leaseId, now + LeaseSeconds(l) * SECOND)
  }

  predicate HoldsLease(r: Keys, l: AgentLease, now: Time) {
    var t := Token(l.key);
    t in r.leases && r.leases[t].value.leaseId == l.leaseId && now < r.leases[t].value.expiresAt
  }

  function NextPresenceVersion(r: Keys, t: string): nat {
    if t in r.presences then r.presences[t].value.version + 1 else 1
  }

  function Registered(c: Settings, r: Keys, identity: AgentIdentity, lease: AgentLease, now: Time): Turn<Keys> {
    var t := Token(identity.key);
    var p := Started(c, identity, now, NextPresenceVersion(r, t));
    Turn(SetLease(SetPresence(r, t, p, c.presenceTtl, now), t, ValueOf(lease, now), LeaseSeconds(lease), now),
         PresenceIs(p))
  }

  function RenewedBy(c: Settings, r: Keys, lease: AgentLease, now: Time): Turn<Keys> {
    var t := Token(lease.key);
    if !HoldsLease(r, lease, now) || t !in r.presences || r.presences[t].value.IsExpired(now) then
      Turn(r, LeaseExpired(lease.key))
    else
      var p := Renewed(c, r.presences[t].value, now, r.presences[t].value.version + 1);
      Turn(SetPresence(SetLease(r, t, ValueOf(lease, now), LeaseSeconds(lease), now), t, p, c.presenceTtl, now),
           PresenceIs(p))
  }

  function Unregistered(r: Keys, lease: AgentLease): Turn<Keys> {
    var t := Token(lease.key);
    if t in r.leases && r.leases[t].value.leaseId != lease.leaseId then Turn(r, Done) else Turn(Unlink(r, t), Done)
  }

  function PresenceAt(r: Keys, k: Key, now: Time): Answer {
    var t := Token(k);
    if t in r.presences && !r.presences[t].value.IsExpired(now) then PresenceIs(r.presences[t].value) else NoPresence
  }

  function ContextAt(r: Keys, k: Key, now: Time): Answer {
    var t := Token(k);
    if t in r.contexts && !r.contexts[t].value.IsExpired(now) then ContextIs(r.contexts[t].value) else NoContext
  }

  function AnswerOf(k: Key, expected: Option<int>, reply: ScriptReply): Answer
    requires reply.Conflicts? ==> expected.Some?
  {
    match reply
    case NoPresenceKey => LeaseExpired(k)
    case Conflicts(current) => VersionConflict(expected.value, current)
    case Committed(context) => ContextIs(context)
  }

  function Put(c: Settings, r: Keys, lease: AgentLease, expected: Option<int>, draft: Draft, now: Time): Turn<Keys> {
    var t := Token(lease.key);
    var presence := PresenceAt(r, lease.key, now);
    if !HoldsLease(r, lease, now) || presence.NoPresence? then Turn(r, LeaseExpired(lease.key))
    else
      var ran := Cas(r, t, expected, ActiveModel.Committed(c, lease.key, presence.presence, draft, 0, now),
                     c.contextTtl, now);
      Turn(ran.0, AnswerOf(lease.key, expected, ran.1))
  }

  function Serve(c: Settings, r: Keys, call: Call, now: Time): Turn<Keys> {
    match call
    case Register(identity, lease) => Registered(c, r, identity, lease, now)
    case Renew(lease) => RenewedBy(c, r, lease, now)
    case Unregister(lease) => Unregistered(r, lease)
    case PutContext(lease, expected, draft) => Put(c, r, lease, expected, draft, now)
    case GetContext(k) => Turn(r, ContextAt(r, k, now))
    case GetPresence(k) => Turn(r, PresenceAt(r, k, now))
  }
}
