/** A session in front of the reference store. */
module SessionOnMemory {
  import opened Prelude
  import opened Lifecycle
  import opened ActiveModel
  import opened SessionOverStore
  import P = SessionProtocol
  import Mem = ReferenceSpec
  import Renewal

  /** What a session registers beside its lease. */
  function IdentityOf(k: Key, role: string, groups: seq<string>): AgentIdentity {
    AgentIdentity(k, role, groups)
  }

  /** The reference store's operations take one step each; a call that was not served took none or all of it. */
  function StoreOf(c: Settings, role: string, groups: seq<string>): Store<Mem.Memory, Call> {
    Store(1,
          (m: Mem.Memory, l: AgentLease, now: Time, n: nat) =>
            if n == 0 then m else Mem.Registered(c, m, IdentityOf(l.key, role, groups), l, now).state,
          (m: Mem.Memory, l: AgentLease, now: Time, n: nat) => if n == 0 then m else Mem.RenewedBy(c, m, l, now).state,
          (m: Mem.Memory, l: AgentLease, n: nat) => if n == 0 then m else Mem.Unregistered(m, l).state,
          (m: Mem.Memory, l: AgentLease, now: Time) => Mem.RenewedBy(c, m, l, now).answer.PresenceIs?,
          (m: Mem.Memory, k: Key, now: Time) => Mem.PresenceAt(m, k, now).PresenceIs?,
          (m: Mem.Memory, call: Call, now: Time) => Mem.Serve(c, m, call, now).state)
  }

  /** Anyone else may call anything, and register any incarnation but these. */
  ghost function Polite(mine: Key -> bool): Call -> bool {
    (call: Call) => call.Register? ==> !mine(call.identity.key)
  }

  /** Any other session is polite, one of the same agent included: its instances are not this session's own. */
  lemma OtherSessionsArePolite(nm: Naming, agent: string, instance: Uuid, role: string, groups: seq<string>,
                               l: AgentLease)
    requires nm.Injective() && (agent != nm.agent || !nm.own(instance))
    ensures Polite(nm.Mine())(Register(IdentityOf(Key(agent, nm.text(instance)), role, groups), l))
  {
    forall u: Uuid | nm.own(u)
      ensures nm.KeyOf(u) != Key(agent, nm.text(instance))
    {
      assert nm.text(u) == nm.text(instance) ==> u == instance;
    }
  }

  lemma CallsForget(c: Settings, role: string, groups: seq<string>, mine: Key -> bool, m: Mem.Memory, call: Call,
                    was: Time, now: Time)
    requires was <= now && Polite(mine)(call)
    ensures Forgets(StoreOf(c, role, groups), mine, m, Mem.Serve(c, m, call, now).state, was, now)
  {
    var st, r := StoreOf(c, role, groups), Mem.Serve(c, m, call, now).state;
    forall l: AgentLease | mine(l.key)
      ensures st.grants(r, l, now) ==> st.grants(m, l, was)
    {
      Renewal.NothingRevives(c, m, call, l, was, now);
    }
    forall k: Key | mine(k)
      ensures st.shows(r, k, now) ==> st.shows(m, k, was)
    {
      Renewal.NothingRevives(c, m, call, AgentLease("", k, 0, 0), was, now);
    }
  }

  lemma TimeForgets(c: Settings, role: string, groups: seq<string>, mine: Key -> bool, m: Mem.Memory, was: Time,
                    now: Time)
    requires was <= now
    ensures Forgets(StoreOf(c, role, groups), mine, m, m, was, now)
  {
    CallsForget(c, role, groups, mine, m, GetPresence(Key("", "")), was, now);
  }

  lemma RenewForgets(c: Settings, role: string, groups: seq<string>, mine: Key -> bool, m: Mem.Memory, l: AgentLease,
                     now: Time, n: nat)
    ensures Forgets(StoreOf(c, role, groups), mine, m, StoreOf(c, role, groups).renew(m, l, now, n), now, now)
  {
    TimeForgets(c, role, groups, mine, m, now, now);
    CallsForget(c, role, groups, mine, m, Renew(l), now, now);
  }

  lemma UnregisterForgets(c: Settings, role: string, groups: seq<string>, mine: Key -> bool, m: Mem.Memory,
                          l: AgentLease, now: Time, n: nat)
    ensures Forgets(StoreOf(c, role, groups), mine, m, StoreOf(c, role, groups).unregister(m, l, n), now, now)
  {
    TimeForgets(c, role, groups, mine, m, now, now);
    CallsForget(c, role, groups, mine, m, Unregister(l), now, now);
  }

  lemma RegisterAdmits(c: Settings, role: string, groups: seq<string>, mine: Key -> bool, m: Mem.Memory, l: AgentLease,
                       now: Time, n: nat)
    ensures Admits(StoreOf(c, role, groups), mine, m, StoreOf(c, role, groups).register(m, l, now, n), l, now)
  {
    var st, call := StoreOf(c, role, groups), Call.Register(IdentityOf(l.key, role, groups), l);
    var r := st.register(m, l, now, n);
    assert r == if n == 0 then m else Mem.Serve(c, m, call, now).state;
    forall x: AgentLease | x.key != l.key
      ensures st.grants(r, x, now) ==> st.grants(m, x, now)
      ensures st.shows(r, x.key, now) ==> st.shows(m, x.key, now)
    {
      Renewal.NothingRevives(c, m, call, x, now, now);
    }
    forall k: Key | k != l.key
      ensures st.shows(r, k, now) ==> st.shows(m, k, now)
    {
      assert AgentLease("", k, 0, 0).key == k;
    }
  }

  /** The reference store revives nothing, so every session theorem holds in front of it. */
  lemma MemoryIsLawful(c: Settings, role: string, groups: seq<string>, mine: Key -> bool)
    ensures Lawful(StoreOf(c, role, groups), mine, Polite(mine))
  {
    var st := StoreOf(c, role, groups);
    forall m, was, now | was <= now
      ensures Forgets(st, mine, m, m, was, now)
    {
      TimeForgets(c, role, groups, mine, m, was, now);
    }
    forall m, l, now, n
      ensures Forgets(st, mine, m, st.renew(m, l, now, n), now, now)
    {
      RenewForgets(c, role, groups, mine, m, l, now, n);
    }
    forall m, l, n, now
      ensures Forgets(st, mine, m, st.unregister(m, l, n), now, now)
    {
      UnregisterForgets(c, role, groups, mine, m, l, now, n);
    }
    forall m, call, now | Polite(mine)(call)
      ensures Forgets(st, mine, m, st.others(m, call, now), now, now)
    {
      CallsForget(c, role, groups, mine, m, call, now, now);
    }
    forall m, l: AgentLease, now, n | mine(l.key)
      ensures Admits(st, mine, m, st.register(m, l, now, n), l, now)
    {
      RegisterAdmits(c, role, groups, mine, m, l, now, n);
    }
  }

  /** Main result: a session in front of the reference store never attempts an illegal edge, and when ACTIVE holds a
      lease in the name of its current instance whose registration the store served. */
  lemma SessionIsSafeOnMemory(c: Settings, role: string, groups: seq<string>, nm: Naming, w: World<Mem.Memory>,
                              events: seq<Event<Call>>)
    requires nm.Injective() && Initial(nm, w) && Run(nm, StoreOf(c, role, groups), w, events, Polite(nm.Mine()))
    ensures var end := After(nm, StoreOf(c, role, groups), w, events); var s := end.task.session;
            && !s.raised
            && (s.state == Active ==>
                  s.lease.Some? && s.lease.value.instanceId == s.instanceId && s.lease.value.leaseId in end.accepted)
  {
    MemoryIsLawful(c, role, groups, nm.Mine());
    SessionIsSafeOverStore(nm, StoreOf(c, role, groups), w, events, Polite(nm.Mine()));
  }

  // ---- prompt heartbeats ----

  /** At least what the last grant left: an unserved renewal may have extended it further. */
  ghost predicate StillHeld(c: Settings, m: Mem.Memory, l: AgentLease, last: Time) {
    && l.key in m.leases && m.leases[l.key].leaseId == l.leaseId && m.leases[l.key].expiresAt >= last + l.Ttl()
    && l.key in m.leaseTtl && m.leaseTtl[l.key] == l.Ttl()
    && l.key in m.presences.at && m.presences.at[l.key].expiresAt >= last + c.presenceTtl * SECOND
  }

  ghost function HeldAs(c: Settings, l: AgentLease): (Mem.Memory, Time, Time) -> bool {
    (m: Mem.Memory, last: Time, clock: Time) => last <= clock && StillHeld(c, m, l, last)
  }

  ghost function Calm(l: AgentLease): Call -> bool {
    (call: Call) => Renewal.Undisturbed(call, l)
  }

  lemma CallsKeepHeld(c: Settings, m: Mem.Memory, l: AgentLease, call: Call, last: Time, now: Time)
    requires last <= now && StillHeld(c, m, l, last) && Renewal.Undisturbed(call, l)
    ensures StillHeld(c, Mem.Serve(c, m, call, now).state, l, last)
  {
  }

  lemma HeldIsGranted(c: Settings, m: Mem.Memory, l: AgentLease, last: Time, now: Time)
    requires StillHeld(c, m, l, last) && now - last < c.presenceTtl * SECOND
    ensures Mem.PresenceAt(m, l.key, now).PresenceIs?
    ensures now - last < l.Ttl() ==> Mem.RenewedBy(c, m, l, now).answer.PresenceIs?
  {
  }

  lemma GrantingHolds(c: Settings, m: Mem.Memory, l: AgentLease, last: Time, now: Time)
    requires StillHeld(c, m, l, last) && Mem.RenewedBy(c, m, l, now).answer.PresenceIs?
    ensures StillHeld(c, Mem.RenewedBy(c, m, l, now).state, l, now)
  {
  }

  lemma MemoryLasts(c: Settings, role: string, groups: seq<string>, l: AgentLease)
    ensures Lasting(StoreOf(c, role, groups), l, Lesser(l.Ttl(), c.presenceTtl * SECOND), c.presenceTtl * SECOND,
                    HeldAs(c, l), Calm(l))
  {
    var st, held := StoreOf(c, role, groups), HeldAs(c, l);
    forall m, last, now | held(m, last, now) && now - last < c.presenceTtl * SECOND
      ensures st.shows(m, l.key, now) && (now - last < l.Ttl() ==> st.grants(m, l, now))
    {
      HeldIsGranted(c, m, l, last, now);
    }
    forall m, last, now {:trigger held(m, last, now), st.renew(m, l, now, st.commands)} |
        held(m, last, now) && st.grants(m, l, now)
      ensures held(st.renew(m, l, now, st.commands), now, now)
    {
      GrantingHolds(c, m, l, last, now);
    }
    forall m, last, now, n | held(m, last, now)
      ensures held(st.renew(m, l, now, n), last, now)
    {
      CallsKeepHeld(c, m, l, Renew(l), last, now);
    }
    forall m, last, call, now | held(m, last, now) && Calm(l)(call)
      ensures held(st.others(m, call, now), last, now)
    {
      CallsKeepHeld(c, m, l, call, last, now);
    }
  }

  lemma RegistrationHeld(c: Settings, role: string, groups: seq<string>, m: Mem.Memory, l: AgentLease, now: Time)
    requires l.issuedAt == now
    ensures HeldAs(c, l)(StoreOf(c, role, groups).register(m, l, now, 1), now, now)
  {
    var r := StoreOf(c, role, groups).register(m, l, now, 1);
    Renewal.RegistrationHolds(c, m, IdentityOf(l.key, role, groups), l, now);
    assert r == Mem.Registered(c, m, IdentityOf(l.key, role, groups), l, now).state;
    assert StillHeld(c, r, l, now);
  }

  /** Main result: once registered with the reference store, a session whose renewals and presence reads, where they
      reach the store, come within both lifetimes keeps its instance id, over any number of heartbeats, outages, drains
      and other calls. */
  lemma InstanceSurvivesOnMemory(c: Settings, role: string, groups: seq<string>, nm: Naming, w: World<Mem.Memory>,
                                 leaseId: Uuid, expiresAt: Time, now: Time, events: seq<Event<Call>>)
    requires Initial(nm, w) && leaseId !in w.used && w.now <= now
    requires var st, l := StoreOf(c, role, groups), nm.LeaseOf(P.Lease(leaseId, w.task.session.instanceId), now,
                                                               expiresAt);
             var registered := Registered(nm, st, w, leaseId, expiresAt, now);
             && Run(nm, st, registered, events, Calm(l))
             && Timely(nm, st, registered, l, Lesser(l.Ttl(), c.presenceTtl * SECOND), c.presenceTtl * SECOND, now,
                       events)
    ensures var st := StoreOf(c, role, groups);
            After(nm, st, Registered(nm, st, w, leaseId, expiresAt, now),
                  events).task.session.instanceId == w.task.session.instanceId
  {
    var st, l := StoreOf(c, role, groups), nm.LeaseOf(P.Lease(leaseId, w.task.session.instanceId), now, expiresAt);
    MemoryLasts(c, role, groups, l);
    RegistrationHeld(c, role, groups, w.store, l, now);
    RegisteredSessionKeepsInstance(nm, st, w, leaseId, expiresAt, now, Lesser(l.Ttl(), c.presenceTtl * SECOND),
                                   c.presenceTtl * SECOND,
                                   HeldAs(c, l), events, Calm(l));
  }
}
