/** A session in front of Redis, any of whose operations may break off between two commands. */
module SessionOnRedis {
  import opened Prelude
  import opened Lifecycle
  import opened ActiveModel
  import opened SessionOverStore
  import P = SessionProtocol
  import Red = RedisSpec
  import Renewal

  /** What else happens to the keys: other clients' calls, and the server collecting lapsed ones. */
  datatype Action = Called(call: Call) | Collected(swept: Red.Sweep)

  function RegisteredPart(c: Settings, r: Red.Keys, identity: AgentIdentity, l: AgentLease, now: Time,
                          n: nat): Red.Keys {
    var t := Token(identity.key);
    if n == 0 then r
    else if n == 1 then
      Red.SetPresence(r, t, Started(c, identity, now, Red.NextPresenceVersion(r, t)), c.presenceTtl, now)
    else Red.Registered(c, r, identity, l, now).state
  }

  function RenewedPart(c: Settings, r: Red.Keys, l: AgentLease, now: Time, n: nat): Red.Keys {
    if n == 0 || !Red.RenewedBy(c, r, l, now).answer.PresenceIs? then r
    else if n == 1 then Red.SetLease(r, Token(l.key), Red.ValueOf(l, now), Red.LeaseSeconds(l), now)
    else Red.RenewedBy(c, r, l, now).state
  }

  function StoreOf(c: Settings, role: string, groups: seq<string>): Store<Red.Keys, Action> {
    Store(2,
          (r: Red.Keys, l: AgentLease, now: Time, n: nat) => RegisteredPart(c, r, AgentIdentity(l.key, role, groups), l,
                                                                            now, n),
          (r: Red.Keys, l: AgentLease, now: Time, n: nat) => RenewedPart(c, r, l, now, n),
          (r: Red.Keys, l: AgentLease, n: nat) => if n == 0 then r else Red.Unregistered(r, l).state,
          (r: Red.Keys, l: AgentLease, now: Time) => Red.RenewedBy(c, r, l, now).answer.PresenceIs?,
          (r: Red.Keys, k: Key, now: Time) => Red.PresenceAt(r, k, now).PresenceIs?,
          (r: Red.Keys, action: Action, now: Time) => Done(c, r, action, now))
  }

  function Done(c: Settings, r: Red.Keys, action: Action, now: Time): Red.Keys {
    match action
    case Called(call) => Red.Serve(c, r, call, now).state
    case Collected(swept) => Red.Collect(r, swept, now)
  }

  /** Anyone else may call anything, and register any incarnation spelled differently from these. */
  ghost function Polite(mine: Key -> bool): Action -> bool {
    (action: Action) => action.Called? && action.call.Register? ==>
                          forall k :: mine(k) ==> Token(k) != Token(action.call.identity.key)
  }

  ghost predicate OneAgent(mine: Key -> bool) {
    forall j, k :: mine(j) && mine(k) ==> j.agentId == k.agentId
  }

  /** Within one agent, or among instance ids of one length, a token spells one instance. */
  lemma TokensSpellInstances(j: Key, k: Key)
    requires Token(j) == Token(k) && (j.agentId == k.agentId || |j.instanceId| == |k.instanceId|)
    ensures j == k
  {
    var n := |j.agentId|;
    assert Token(j)[..n] == j.agentId && Token(k)[..n] == k.agentId;
    assert Token(j)[n + 1..] == j.instanceId && Token(k)[n + 1..] == k.instanceId;
  }

  /** Any other session is polite, one of the same agent included: its instances are not this session's own, so neither
      are its tokens. Of another agent that is so when its instance id is as long as this session's. */
  lemma OtherSessionsArePolite(nm: Naming, agent: string, instance: Uuid, role: string, groups: seq<string>,
                               l: AgentLease)
    requires nm.Injective() && !nm.own(instance)
    requires agent == nm.agent || forall u: Uuid :: nm.own(u) ==> |nm.text(u)| == |nm.text(instance)|
    ensures Polite(nm.Mine())(Called(Register(AgentIdentity(Key(agent, nm.text(instance)), role, groups), l)))
  {
    var other := Key(agent, nm.text(instance));
    forall k | nm.Mine()(k)
      ensures Token(k) != Token(other)
    {
      var u: Uuid :| nm.own(u) && nm.KeyOf(u) == k;
      assert nm.text(u) != nm.text(instance);
      if Token(k) == Token(other) {
        TokensSpellInstances(k, other);
      }
    }
  }

  lemma ActionsForget(c: Settings, role: string, groups: seq<string>, mine: Key -> bool, r: Red.Keys, action: Action,
                      was: Time, now: Time)
    requires was <= now && Polite(mine)(action)
    ensures Forgets(StoreOf(c, role, groups), mine, r, Done(c, r, action, now), was, now)
  {
    var st, after := StoreOf(c, role, groups), Done(c, r, action, now);
    forall l: AgentLease | mine(l.key)
      ensures st.grants(after, l, now) ==> st.grants(r, l, was)
      ensures st.shows(after, l.key, now) ==> st.shows(r, l.key, was)
    {
      match action
      case Called(call) => Renewal.NothingRevivesInRedis(c, r, call, l, was, now);
      case Collected(swept) => Renewal.CollectingRevivesNothing(c, r, swept, l, was, now);
    }
    forall k: Key | mine(k)
      ensures st.shows(after, k, now) ==> st.shows(r, k, was)
    {
      assert AgentLease("", k, 0, 0).key == k;
    }
  }

  lemma TimeForgets(c: Settings, role: string, groups: seq<string>, mine: Key -> bool, r: Red.Keys, was: Time,
                    now: Time)
    requires was <= now
    ensures Forgets(StoreOf(c, role, groups), mine, r, r, was, now)
  {
    ActionsForget(c, role, groups, mine, r, Called(GetPresence(Key("", ""))), was, now);
  }

  lemma RenewForgets(c: Settings, role: string, groups: seq<string>, mine: Key -> bool, r: Red.Keys, l: AgentLease,
                     now: Time, n: nat)
    ensures Forgets(StoreOf(c, role, groups), mine, r, StoreOf(c, role, groups).renew(r, l, now, n), now, now)
  {
    TimeForgets(c, role, groups, mine, r, now, now);
    ActionsForget(c, role, groups, mine, r, Called(Renew(l)), now, now);
    HalfRenewForgets(c, role, groups, mine, r, l, now);
  }

  lemma HalfRenewForgets(c: Settings, role: string, groups: seq<string>, mine: Key -> bool, r: Red.Keys, l: AgentLease,
                         now: Time)
    ensures Forgets(StoreOf(c, role, groups), mine, r, RenewedPart(c, r, l, now, 1), now, now)
  {
  }

  lemma UnregisterForgets(c: Settings, role: string, groups: seq<string>, mine: Key -> bool, r: Red.Keys, l: AgentLease,
                          now: Time, n: nat)
    ensures Forgets(StoreOf(c, role, groups), mine, r, StoreOf(c, role, groups).unregister(r, l, n), now, now)
  {
    TimeForgets(c, role, groups, mine, r, now, now);
    ActionsForget(c, role, groups, mine, r, Called(Unregister(l)), now, now);
  }

  lemma RegisterAdmits(c: Settings, role: string, groups: seq<string>, mine: Key -> bool, r: Red.Keys, l: AgentLease,
                       now: Time, n: nat)
    requires OneAgent(mine) && mine(l.key)
    ensures Admits(StoreOf(c, role, groups), mine, r, StoreOf(c, role, groups).register(r, l, now, n), l, now)
  {
    var st := StoreOf(c, role, groups);
    var after := st.register(r, l, now, n);
    forall x: AgentLease | mine(x.key) && x.key != l.key && st.grants(after, x, now)
      ensures st.grants(r, x, now)
    {
      if Token(x.key) == Token(l.key) {
        TokensSpellInstances(x.key, l.key);
      }
    }
    forall k: Key | mine(k) && k != l.key && st.shows(after, k, now)
      ensures st.shows(r, k, now)
    {
      if Token(k) == Token(l.key) {
        TokensSpellInstances(k, l.key);
      }
    }
  }

  /** Redis revives nothing either, whatever it collects and wherever an operation breaks off. */
  lemma RedisIsLawful(c: Settings, role: string, groups: seq<string>, mine: Key -> bool)
    requires OneAgent(mine)
    ensures Lawful(StoreOf(c, role, groups), mine, Polite(mine))
  {
    var st := StoreOf(c, role, groups);
    forall r, was, now | was <= now
      ensures Forgets(st, mine, r, r, was, now)
    {
      TimeForgets(c, role, groups, mine, r, was, now);
    }
    forall r, l, now, n
      ensures Forgets(st, mine, r, st.renew(r, l, now, n), now, now)
    {
      RenewForgets(c, role, groups, mine, r, l, now, n);
    }
    forall r, l, n, now
      ensures Forgets(st, mine, r, st.unregister(r, l, n), now, now)
    {
      UnregisterForgets(c, role, groups, mine, r, l, now, n);
    }
    forall r, action, now | Polite(mine)(action)
      ensures Forgets(st, mine, r, st.others(r, action, now), now, now)
    {
      ActionsForget(c, role, groups, mine, r, action, now, now);
    }
    forall r, l: AgentLease, now, n | mine(l.key)
      ensures Admits(st, mine, r, st.register(r, l, now, n), l, now)
    {
      RegisterAdmits(c, role, groups, mine, r, l, now, n);
    }
  }

  lemma MineIsOneAgent(nm: Naming)
    ensures OneAgent(nm.Mine())
  {
    forall k | nm.Mine()(k)
      ensures k.agentId == nm.agent
    {
      var u: Uuid :| nm.own(u) && nm.KeyOf(u) == k;
    }
  }

  /** Main result: the session is as safe in front of Redis. */
  lemma SessionIsSafeOnRedis(c: Settings, role: string, groups: seq<string>, nm: Naming, w: World<Red.Keys>,
                             events: seq<Event<Action>>)
    requires nm.Injective() && Initial(nm, w) && Run(nm, StoreOf(c, role, groups), w, events, Polite(nm.Mine()))
    ensures var end := After(nm, StoreOf(c, role, groups), w, events); var s := end.task.session;
            && !s.raised
            && (s.state == Active ==>
                  s.lease.Some? && s.lease.value.instanceId == s.instanceId && s.lease.value.leaseId in end.accepted)
  {
    MineIsOneAgent(nm);
    RedisIsLawful(c, role, groups, nm.Mine());
    SessionIsSafeOverStore(nm, StoreOf(c, role, groups), w, events, Polite(nm.Mine()));
  }

  // ---- prompt heartbeats ----

  /** The shorter of the two lifetimes, as Redis counts them. */
  function Lifetime(c: Settings, l: AgentLease): int {
    Lesser(Red.LeaseSeconds(l), c.presenceTtl) * SECOND
  }

  /** How long the presence can be read: once the lease has lapsed and been collected, a stranger's unregister clears
      it. */
  function Readable(c: Settings, l: AgentLease, strangers: bool): int {
    if strangers then Lifetime(c, l) else c.presenceTtl * SECOND
  }

  /** Until the first lifetime is over both keys are there, recording at least what the last grant left; the presence
      stays for as long as it is readable. */
  ghost predicate StillHeld(c: Settings, r: Red.Keys, l: AgentLease, strangers: bool, last: Time, clock: Time) {
    var t, until, shown := Token(l.key), last + Red.LeaseSeconds(l) * SECOND, last + c.presenceTtl * SECOND;
    && last <= clock
    && (clock < last + Lifetime(c, l) ==>
          && t in r.leases && r.leases[t].value.leaseId == l.leaseId
          && r.leases[t].value.expiresAt >= until && r.leases[t].deadline >= until)
    && (clock < last + Readable(c, l, strangers) ==>
          && t in r.presences && r.presences[t].value.expiresAt >= shown && r.presences[t].deadline >= shown)
  }

  ghost function HeldAs(c: Settings, l: AgentLease, strangers: bool): (Red.Keys, Time, Time) -> bool {
    (r: Red.Keys, last: Time, clock: Time) => StillHeld(c, r, l, strangers, last, clock)
  }

  /** Nobody registers under this token, nor renews with a shorter lease of the same id, nor unregisters under it,
      unless strangers do. Collecting is free. */
  predicate Undisturbed(action: Action, l: AgentLease, strangers: bool) {
    action.Called? ==>
      && (action.call.Register? ==> Token(action.call.identity.key) != Token(l.key))
      && (action.call.Unregister? && Token(action.call.lease.key) == Token(l.key) ==>
            strangers && action.call.lease.leaseId != l.leaseId)
      && (action.call.Renew? && Token(action.call.lease.key) == Token(l.key)
          && action.call.lease.leaseId == l.leaseId ==>
            Red.LeaseSeconds(action.call.lease) >= Red.LeaseSeconds(l))
  }

  ghost function Calm(l: AgentLease, strangers: bool): Action -> bool {
    (action: Action) => Undisturbed(action, l, strangers)
  }

  lemma ActionsKeepHeld(c: Settings, r: Red.Keys, l: AgentLease, strangers: bool, action: Action, last: Time, now: Time)
    requires StillHeld(c, r, l, strangers, last, now) && Undisturbed(action, l, strangers)
    ensures StillHeld(c, Done(c, r, action, now), l, strangers, last, now)
  {
  }

  lemma HeldIsGranted(c: Settings, r: Red.Keys, l: AgentLease, strangers: bool, last: Time, now: Time)
    requires StillHeld(c, r, l, strangers, last, now) && now - last < Readable(c, l, strangers)
    ensures Red.PresenceAt(r, l.key, now).PresenceIs?
    ensures now - last < Lifetime(c, l) ==> Red.RenewedBy(c, r, l, now).answer.PresenceIs?
  {
  }

  lemma GrantingHolds(c: Settings, r: Red.Keys, l: AgentLease, strangers: bool, last: Time, now: Time)
    requires StillHeld(c, r, l, strangers, last, now) && Red.RenewedBy(c, r, l, now).answer.PresenceIs?
    ensures StillHeld(c, RenewedPart(c, r, l, now, 2), l, strangers, now, now)
    ensures StillHeld(c, RenewedPart(c, r, l, now, 1), l, strangers, last, now)
  {
  }

  lemma RedisLasts(c: Settings, role: string, groups: seq<string>, l: AgentLease, strangers: bool)
    ensures Lasting(StoreOf(c, role, groups), l, Lifetime(c, l), Readable(c, l, strangers), HeldAs(c, l, strangers),
                    Calm(l, strangers))
  {
    var st, held := StoreOf(c, role, groups), HeldAs(c, l, strangers);
    forall r, last, now | held(r, last, now) && now - last < Readable(c, l, strangers)
      ensures st.shows(r, l.key, now) && (now - last < Lifetime(c, l) ==> st.grants(r, l, now))
    {
      HeldIsGranted(c, r, l, strangers, last, now);
    }
    forall r, last, now {:trigger held(r, last, now), st.renew(r, l, now, st.commands)} |
        held(r, last, now) && st.grants(r, l, now)
      ensures held(st.renew(r, l, now, st.commands), now, now)
    {
      GrantingHolds(c, r, l, strangers, last, now);
    }
    forall r, last, now, n | held(r, last, now)
      ensures held(st.renew(r, l, now, n), last, now)
    {
      ActionsKeepHeld(c, r, l, strangers, Called(Renew(l)), last, now);
      if st.grants(r, l, now) {
        GrantingHolds(c, r, l, strangers, last, now);
      }
    }
    forall r, last, action, now | held(r, last, now) && Calm(l, strangers)(action)
      ensures held(st.others(r, action, now), last, now)
    {
      ActionsKeepHeld(c, r, l, strangers, action, last, now);
    }
  }

  /** Main result: the instance id survives in front of Redis too, under any collection of lapsed keys and any
      half-served call. */
  lemma InstanceSurvivesOnRedis(c: Settings, role: string, groups: seq<string>, nm: Naming, w: World<Red.Keys>,
                                leaseId: Uuid, expiresAt: Time, now: Time, strangers: bool,
                                events: seq<Event<Action>>)
    requires Initial(nm, w) && leaseId !in w.used && w.now <= now
    requires var st, l := StoreOf(c, role, groups), nm.LeaseOf(P.Lease(leaseId, w.task.session.instanceId), now,
                                                               expiresAt);
             var registered := Registered(nm, st, w, leaseId, expiresAt, now);
             && Run(nm, st, registered, events, Calm(l, strangers))
             && Timely(nm, st, registered, l, Lifetime(c, l), Readable(c, l, strangers), now, events)
    ensures var st := StoreOf(c, role, groups);
            After(nm, st, Registered(nm, st, w, leaseId, expiresAt, now),
                  events).task.session.instanceId == w.task.session.instanceId
  {
    var st, l := StoreOf(c, role, groups), nm.LeaseOf(P.Lease(leaseId, w.task.session.instanceId), now, expiresAt);
    RedisLasts(c, role, groups, l, strangers);
    RegistrationHeld(c, role, groups, w.store, l, strangers, now);
    RegisteredSessionKeepsInstance(nm, st, w, leaseId, expiresAt, now, Lifetime(c, l), Readable(c, l, strangers),
                                   HeldAs(c, l, strangers), events, Calm(l, strangers));
  }

  lemma RegistrationHeld(c: Settings, role: string, groups: seq<string>, r: Red.Keys, l: AgentLease, strangers: bool,
                         now: Time)
    ensures HeldAs(c, l, strangers)(StoreOf(c, role, groups).register(r, l, now, 2), now, now)
  {
    var after := StoreOf(c, role, groups).register(r, l, now, 2);
    assert after == Red.Registered(c, r, AgentIdentity(l.key, role, groups), l, now).state;
    assert StillHeld(c, after, l, strangers, now, now);
  }
}
