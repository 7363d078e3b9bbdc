/** A session in front of an actual store: every run is a run of the session protocol, and prompt heartbeats keep its
    instance. */
module SessionOverStore {
  import opened Prelude
  import opened Lifecycle
  import opened ActiveModel
  import P = SessionProtocol

  /** A store as a session uses it. Writing operations may break off after some of their `commands` commands; `grants`
      and `shows` are what a renewal and a presence read would now answer; `others` is what anyone else does. */
  datatype Store<!S, !O> = Store(
    commands: nat,
    register: (S, AgentLease, Time, nat) -> S,
    renew: (S, AgentLease, Time, nat) -> S,
    unregister: (S, AgentLease, nat) -> S,
    grants: (S, AgentLease, Time) -> bool,
    shows: (S, Key, Time) -> bool,
    others: (S, O, Time) -> S)

  // ---- what is asked of a store ----

  /** Between two moments a store came to grant and show nothing of these incarnations that it did not before. */
  ghost predicate Forgets<S, O>(st: Store<S, O>, mine: Key -> bool, s: S, r: S, was: Time, now: Time) {
    && (forall l: AgentLease :: mine(l.key) && st.grants(r, l, now) ==> st.grants(s, l, was))
    && (forall k: Key :: mine(k) && st.shows(r, k, now) ==> st.shows(s, k, was))
  }

  /** A registration brings in its own incarnation and no other of these. */
  ghost predicate Admits<S, O>(st: Store<S, O>, mine: Key -> bool, s: S, r: S, l: AgentLease, now: Time) {
    && (forall x: AgentLease :: mine(x.key) && x.key != l.key && st.grants(r, x, now) ==> st.grants(s, x, now))
    && (forall k: Key :: mine(k) && k != l.key && st.shows(r, k, now) ==> st.shows(s, k, now))
  }

  /** What lapsed, or was replaced or cleared, never comes back but by a registration. */
  ghost predicate Lawful<S(!new), O(!new)>(st: Store<S, O>, mine: Key -> bool, polite: O -> bool) {
    && (forall s, was, now :: was <= now ==> Forgets(st, mine, s, s, was, now))
    && (forall s, l, now, n :: Forgets(st, mine, s, st.renew(s, l, now, n), now, now))
    && (forall s, l, n, now :: Forgets(st, mine, s, st.unregister(s, l, n), now, now))
    && (forall s, o, now :: polite(o) ==> Forgets(st, mine, s, st.others(s, o, now), now, now))
    && (forall s, l: AgentLease, now, n :: mine(l.key) ==> Admits(st, mine, s, st.register(s, l, now, n), l, now))
    && (forall s, l: AgentLease, now :: st.grants(s, l, now) ==> st.shows(s, l.key, now))
  }

  // ---- the session in front of it ----

  /** A lease as the session sent it, and the incarnation it was for. */
  datatype Sent = Sent(instance: Uuid, lease: AgentLease)

  datatype World<S> = World(task: P.Task, store: S, now: Time, sent: map<Uuid, Sent>, accepted: set<Uuid>,
                            ghost used: set<Uuid>)

  /** The agent whose session this is, how identifiers are written as text, and which instance identifiers this session
      is given. Other sessions, of this agent too, are given others. */
  datatype Naming = Naming(agent: string, text: Uuid -> string, own: Uuid -> bool) {
    ghost predicate Injective() {
      forall a: Uuid, b: Uuid :: text(a) == text(b) ==> a == b
    }

    function KeyOf(instance: Uuid): Key { Key(agent, text(instance)) }

    /** The incarnations this session can ever be. */
    ghost function Mine(): Key -> bool {
      (k: Key) => exists u: Uuid :: own(u) && KeyOf(u) == k
    }

    function LeaseOf(l: P.Lease, issuedAt: Time, expiresAt: Time): AgentLease {
      AgentLease(text(l.leaseId), KeyOf(l.instanceId), issuedAt, expiresAt)
    }
  }

  datatype Event<O> =
    | Starts(leaseId: Uuid)
    | RegisterReplied(reply: P.Reply, n: nat, issuedAt: Time, expiresAt: Time, now: Time)
    | Announced
    | HeartbeatDue
    | RenewReplied(reply: P.Reply, n: nat, now: Time, newInstance: Uuid)
    | PresenceReplied(reply: P.Reply, now: Time, newInstance: Uuid)
    | UnregisterReplied(n: nat, now: Time, leaseId: Uuid)
    | Drains
    | Others(action: O, now: Time)

  /** The event as the session's own code sees it. */
  function Plain<O>(e: Event<O>): P.Event {
    match e
    case Starts(leaseId) => P.Starts(leaseId)
    case RegisterReplied(reply, _, _, _, _) => P.RegisterReplied(reply, true, true)
    case Announced => P.Announced
    case HeartbeatDue => P.HeartbeatDue
    case RenewReplied(reply, _, _, newInstance) => P.RenewReplied(reply, newInstance)
    case PresenceReplied(reply, _, newInstance) => P.PresenceReplied(reply, newInstance)
    case UnregisterReplied(_, _, leaseId) => P.UnregisterReplied(P.Served, false, false, leaseId)
    case Drains => P.Drains
    case Others(_, _) => P.Lapses({}, {})
  }

  function At<S, O>(w: World<S>, e: Event<O>): Time {
    match e
    case RegisterReplied(_, _, _, _, now) => now
    case RenewReplied(_, _, now, _) => now
    case PresenceReplied(_, now, _) => now
    case UnregisterReplied(_, now, _) => now
    case Others(_, now) => now
    case _ => w.now
  }

  /** The lease the session holds, as it sent it. */
  function Held<S>(w: World<S>): Option<AgentLease> {
    if w.task.session.lease.Some? && w.task.session.lease.value.leaseId in w.sent
    then Some(w.sent[w.task.session.lease.value.leaseId].lease) else None
  }

  /** Events happen where the code waits for them, under a clock that never runs back; a served write is a complete
      one. */
  ghost predicate Enabled<S, O>(nm: Naming, st: Store<S, O>, w: World<S>, e: Event<O>, polite: O -> bool) {
    && w.now <= At(w, e)
    && (e.RenewReplied? || e.PresenceReplied? ==> nm.own(e.newInstance))
    && P.Enabled(P.World(w.task, P.Backend({}, {}, {}), w.used), Plain(e))
    && (e.RegisterReplied? && e.reply == P.Served ==> e.n == st.commands)
    && (e.RenewReplied? && e.reply == P.Served ==> e.n == st.commands)
    && (e.Others? ==> polite(e.action))
  }

  /** The session's reaction to what the store answers. */
  function React<S, O>(nm: Naming, st: Store<S, O>, w: World<S>, e: Event<O>): P.Task {
    var s, pc := w.task.session, w.task.pc;
    match e
    case RenewReplied(reply, _, now, newInstance) =>
      if reply == P.Unavailable then P.RenewUnavailable(s)
      else if Held(w).Some? && st.grants(w.store, Held(w).value, now) then P.RenewSucceeded(s)
      else P.RenewExpired(s, newInstance)
    case PresenceReplied(reply, now, newInstance) =>
      if reply == P.Unavailable then P.StoreUnavailable(s)
      else if st.shows(w.store, nm.KeyOf(s.instanceId), now) then P.PresenceFound(s)
      else P.PresenceMissing(s, newInstance)
    case _ => P.React(s, pc, P.Backend({}, {}, {}), Plain(e))
  }

  predicate Registers(pc: P.Pc) {
    pc.StartRegister? || pc.ReRegister?
  }

  function StoreAfter<S, O>(nm: Naming, st: Store<S, O>, w: World<S>, e: Event<O>): S {
    match e
    case RegisterReplied(_, n, issuedAt, expiresAt, now) =>
      if Registers(w.task.pc) then st.register(w.store, nm.LeaseOf(w.task.pc.pending, issuedAt, expiresAt), now, n)
      else w.store
    case RenewReplied(_, n, now, _) => if Held(w).Some? then st.renew(w.store, Held(w).value, now, n) else w.store
    case UnregisterReplied(n, _, _) => if Held(w).Some? then st.unregister(w.store, Held(w).value, n) else w.store
    case Others(action, now) => st.others(w.store, action, now)
    case _ => w.store
  }

  function Step<S, O>(nm: Naming, st: Store<S, O>, w: World<S>, e: Event<O>): World<S> {
    var registers := e.RegisterReplied? && Registers(w.task.pc);
    World(React(nm, st, w, e), StoreAfter(nm, st, w, e), At(w, e),
          if registers
          then w.sent[w.task.pc.pending.leaseId :=
                        Sent(w.task.pc.pending.instanceId, nm.LeaseOf(w.task.pc.pending, e.issuedAt, e.expiresAt))]
          else w.sent,
          if registers && e.reply == P.Served then w.accepted + {w.task.pc.pending.leaseId} else w.accepted,
          w.used + P.Minted(Plain(e)))
  }

  ghost predicate Run<S, O>(nm: Naming, st: Store<S, O>, w: World<S>, events: seq<Event<O>>, polite: O -> bool)
    decreases |events|
  {
    events != [] ==>
      Enabled(nm, st, w, events[0], polite) && Run(nm, st, Step(nm, st, w, events[0]), events[1..], polite)
  }

  function After<S, O>(nm: Naming, st: Store<S, O>, w: World<S>, events: seq<Event<O>>): World<S>
    decreases |events|
  {
    if events == [] then w else After(nm, st, Step(nm, st, w, events[0]), events[1..])
  }

  // ---- the protocol's view of it ----

  function Live<S, O>(st: Store<S, O>, s: S, sent: map<Uuid, Sent>, now: Time): set<Uuid> {
    set u | u in sent && st.grants(s, sent[u].lease, now)
  }

  function Present<S, O>(st: Store<S, O>, s: S, sent: map<Uuid, Sent>, now: Time): set<Uuid> {
    set u | u in sent && st.shows(s, sent[u].lease.key, now) :: sent[u].instance
  }

  function Observed<S, O>(st: Store<S, O>, s: S, sent: map<Uuid, Sent>, accepted: set<Uuid>, now: Time): P.Backend {
    P.Backend(Live(st, s, sent, now), Present(st, s, sent, now), accepted)
  }

  ghost function Mirror<S, O>(st: Store<S, O>, w: World<S>): P.World {
    P.World(w.task, Observed(st, w.store, w.sent, w.accepted, w.now), w.used)
  }

  /** The current instance has not been registered yet. */
  predicate Unsent(pc: P.Pc) {
    pc.NotStarted? || pc.Unregistering? || Registers(pc)
  }

  /** What was sent is on record under its own names. */
  ghost predicate Named<S>(nm: Naming, w: World<S>) {
    forall u :: u in w.sent ==>
                  w.sent[u].lease.leaseId == nm.text(u) && w.sent[u].lease.key == nm.KeyOf(w.sent[u].instance)
  }

  /** An instance is sent for once, and is this session's own. */
  ghost predicate SentOnce<S>(nm: Naming, w: World<S>) {
    && (forall u :: u in w.sent ==> w.sent[u].instance in w.used && nm.own(w.sent[u].instance))
    && nm.own(w.task.session.instanceId)
    && (Unsent(w.task.pc) ==> forall u :: u in w.sent ==> w.sent[u].instance != w.task.session.instanceId)
  }

  /** The lease held is one that was sent. */
  ghost predicate HeldWasSent<S>(w: World<S>) {
    w.task.session.lease.Some? ==>
      var l := w.task.session.lease.value; l.leaseId in w.sent && w.sent[l.leaseId].instance == l.instanceId
  }

  ghost predicate OnRecord<S>(nm: Naming, w: World<S>) {
    Named(nm, w) && SentOnce(nm, w) && HeldWasSent(w)
  }

  /** The lapse that takes one view of the store to a smaller one. */
  ghost function LapseTo(b: P.Backend, target: P.Backend): P.Event {
    P.Lapses(b.live - target.live, b.present - target.present)
  }

  ghost predicate Within(target: P.Backend, b: P.Backend) {
    target.live <= b.live && target.present <= b.present && target.accepted == b.accepted
  }

  lemma LapsingReaches(w: P.World, target: P.Backend)
    requires Within(target, w.backend)
    ensures P.Enabled(w, LapseTo(w.backend, target))
    ensures P.Step(w, LapseTo(w.backend, target)) == P.World(w.task, target, w.used)
  {
    assert w.backend.live - (w.backend.live - target.live) == target.live;
    assert w.backend.present - (w.backend.present - target.present) == target.present;
    assert w.used + {} == w.used;
  }

  lemma ForgettingShrinks<S(!new), O(!new)>(nm: Naming, st: Store<S, O>, sent: map<Uuid, Sent>, accepted: set<Uuid>,
                                            s: S, r: S, was: Time, now: Time)
    requires Forgets(st, nm.Mine(), s, r, was, now)
    requires forall u :: u in sent ==> nm.own(sent[u].instance) && sent[u].lease.key == nm.KeyOf(sent[u].instance)
    ensures Within(Observed(st, r, sent, accepted, now), Observed(st, s, sent, accepted, was))
  {
  }

  /** A registration shows at most its own lease and incarnation besides what was there. */
  lemma AdmittingGrows<S(!new), O(!new)>(nm: Naming, st: Store<S, O>, w: World<S>, l: P.Lease, lease: AgentLease, r: S,
                                         now: Time)
    requires nm.Injective() && OnRecord(nm, w) && lease.leaseId == nm.text(l.leaseId)
    requires lease.key == nm.KeyOf(l.instanceId)
    requires Admits(st, nm.Mine(), w.store, r, lease, now)
    requires forall u :: u in w.sent ==> w.sent[u].instance != l.instanceId
    ensures var sent := w.sent[l.leaseId := Sent(l.instanceId, lease)];
            && Live(st, r, sent, now) <= Live(st, w.store, w.sent, now) + {l.leaseId}
            && Present(st, r, sent, now) <= Present(st, w.store, w.sent, now) + {l.instanceId}
  {
    var sent := w.sent[l.leaseId := Sent(l.instanceId, lease)];
    forall u | u in sent && st.grants(r, sent[u].lease, now) && u != l.leaseId
      ensures st.grants(w.store, w.sent[u].lease, now)
    {
      assert nm.text(sent[u].instance) != nm.text(l.instanceId);
    }
    forall u | u in sent && st.shows(r, sent[u].lease.key, now) && sent[u].instance != l.instanceId
      ensures u in w.sent && st.shows(w.store, w.sent[u].lease.key, now)
    {
      assert nm.text(sent[u].instance) != nm.text(l.instanceId);
    }
  }

  lemma ReactionsAgree<S(!new), O(!new)>(nm: Naming, st: Store<S, O>, w: World<S>, e: Event<O>, polite: O -> bool)
    requires Lawful(st, nm.Mine(), polite) && OnRecord(nm, w) && P.Good(Mirror(st, w)) && Enabled(nm, st, w, e, polite)
    ensures React(nm, st, w, e)
         == P.React(w.task.session, w.task.pc, Observed(st, w.store, w.sent, w.accepted, At(w, e)), Plain(e))
  {
    var s := w.task.session;
    var b := Observed(st, w.store, w.sent, w.accepted, At(w, e));
    if e.RenewReplied? && s.lease.Some? {
      var u := s.lease.value.leaseId;
      assert w.sent[u].lease.key == nm.KeyOf(s.lease.value.instanceId);
      assert u in b.live ==> s.lease.value.instanceId in b.present;
    }
    if e.PresenceReplied? {
      assert w.sent[s.lease.value.leaseId].lease.key == nm.KeyOf(s.instanceId);
    }
  }

  /** The store after an event shows no more than the protocol's backend after the same event: a registration. */
  lemma RegisteringAgrees<S(!new), O(!new)>(nm: Naming, st: Store<S, O>, w: World<S>, e: Event<O>)
    requires nm.Injective() && OnRecord(nm, w) && e.RegisterReplied? && Registers(w.task.pc)
    requires w.task.pc.pending.instanceId == w.task.session.instanceId
    requires var lease := nm.LeaseOf(w.task.pc.pending, e.issuedAt, e.expiresAt);
             Admits(st, nm.Mine(), w.store, st.register(w.store, lease, e.now, e.n), lease, e.now)
    ensures ShowsNoMore(nm, st, w, e)
  {
    var l := w.task.pc.pending;
    var lease := nm.LeaseOf(l, e.issuedAt, e.expiresAt);
    AdmittingGrows(nm, st, w, l, lease, st.register(w.store, lease, e.now, e.n), e.now);
  }

  /** The same of anything else that happens. */
  lemma ForgettingAgrees<S(!new), O(!new)>(nm: Naming, st: Store<S, O>, w: World<S>, e: Event<O>)
    requires OnRecord(nm, w) && !e.RegisterReplied?
    requires Forgets(st, nm.Mine(), w.store, StoreAfter(nm, st, w, e), At(w, e), At(w, e))
    ensures ShowsNoMore(nm, st, w, e)
  {
    ForgettingShrinks(nm, st, w.sent, w.accepted, w.store, StoreAfter(nm, st, w, e), At(w, e), At(w, e));
  }

  lemma BackendsAgree<S(!new), O(!new)>(nm: Naming, st: Store<S, O>, w: World<S>, e: Event<O>, polite: O -> bool)
    requires nm.Injective() && Lawful(st, nm.Mine(), polite) && OnRecord(nm, w) && P.Good(Mirror(st, w))
    requires Enabled(nm, st, w, e, polite)
    ensures ShowsNoMore(nm, st, w, e)
  {
    if e.RegisterReplied? {
      RegisteringAgrees(nm, st, w, e);
    } else {
      assert Forgets(st, nm.Mine(), w.store, w.store, At(w, e), At(w, e));
      ForgettingAgrees(nm, st, w, e);
    }
  }

  ghost predicate ShowsNoMore<S, O>(nm: Naming, st: Store<S, O>, w: World<S>, e: Event<O>) {
    var b := Observed(st, w.store, w.sent, w.accepted, At(w, e));
    var next := Step(nm, st, w, e);
    Within(Observed(st, next.store, next.sent, next.accepted, next.now),
           P.BackendAfter(w.task.session, w.task.pc, b, Plain(e)))
  }

  lemma StaysSentOnce<S(!new), O(!new)>(nm: Naming, st: Store<S, O>, w: World<S>, e: Event<O>, polite: O -> bool)
    requires SentOnce(nm, w) && P.Good(Mirror(st, w)) && Enabled(nm, st, w, e, polite)
    ensures SentOnce(nm, Step(nm, st, w, e))
  {
    var next := Step(nm, st, w, e);
    assert w.task.session.instanceId in w.used;
    if next.task.session.instanceId != w.task.session.instanceId {
      assert next.task.session.instanceId !in w.used && next.sent == w.sent;
    }
  }

  lemma HeldStaysSent<S(!new), O(!new)>(nm: Naming, st: Store<S, O>, w: World<S>, e: Event<O>, polite: O -> bool)
    requires HeldWasSent(w) && P.Good(Mirror(st, w)) && Enabled(nm, st, w, e, polite)
    ensures HeldWasSent(Step(nm, st, w, e))
  {
    var s, next := w.task.session, Step(nm, st, w, e);
    if next.task.session.lease != s.lease {
      assert next.task.session.lease == Some(w.task.pc.pending);
    } else if next.sent != w.sent && s.lease.Some? {
      assert w.task.pc.pending.leaseId != s.lease.value.leaseId;
    }
  }

  /** The session's record of what it sent stays true. */
  lemma StaysOnRecord<S(!new), O(!new)>(nm: Naming, st: Store<S, O>, w: World<S>, e: Event<O>, polite: O -> bool)
    requires OnRecord(nm, w) && P.Good(Mirror(st, w)) && Enabled(nm, st, w, e, polite)
    ensures OnRecord(nm, Step(nm, st, w, e))
  {
    StaysSentOnce(nm, st, w, e, polite);
    HeldStaysSent(nm, st, w, e, polite);
    StaysNamed(nm, st, w, e);
  }

  lemma StaysNamed<S, O>(nm: Naming, st: Store<S, O>, w: World<S>, e: Event<O>)
    requires Named(nm, w)
    ensures Named(nm, Step(nm, st, w, e))
  {
  }

  lemma ThreeSteps(w: P.World, a: P.Event, b: P.Event, c: P.Event)
    requires P.Enabled(w, a) && P.Enabled(P.Step(w, a), b) && P.Enabled(P.Step(P.Step(w, a), b), c)
    ensures P.Run(w, [a, b, c]) && P.After(w, [a, b, c]) == P.Step(P.Step(P.Step(w, a), b), c)
  {
    var w1 := P.Step(w, a);
    var w2 := P.Step(w1, b);
    var w3 := P.Step(w2, c);
    assert [a, b, c][1..] == [b, c] && [b, c][1..] == [c] && [c][1..] == [];
    assert P.After(w3, []) == w3 && P.Run(w3, []);
    assert P.After(w2, [c]) == w3 && P.Run(w2, [c]);
    assert P.After(w1, [b, c]) == w3 && P.Run(w1, [b, c]);
  }

  /** Main step: one event at the store is a lapse, the session's own event and another lapse of the protocol. */
  lemma StepIsProtocolSteps<S(!new), O(!new)>(nm: Naming, st: Store<S, O>, w: World<S>, e: Event<O>, polite: O -> bool)
    returns (events: seq<P.Event>)
    requires nm.Injective() && Lawful(st, nm.Mine(), polite) && OnRecord(nm, w) && P.Good(Mirror(st, w))
    requires Enabled(nm, st, w, e, polite)
    ensures OnRecord(nm, Step(nm, st, w, e))
    ensures P.Run(Mirror(st, w), events) && P.After(Mirror(st, w), events) == Mirror(st, Step(nm, st, w, e))
  {
    var next, m := Step(nm, st, w, e), Mirror(st, w);
    var b1 := Observed(st, w.store, w.sent, w.accepted, At(w, e));
    assert Forgets(st, nm.Mine(), w.store, w.store, w.now, At(w, e));
    ForgettingShrinks(nm, st, w.sent, w.accepted, w.store, w.store, w.now, At(w, e));
    LapsingReaches(m, b1);
    var m1 := P.World(w.task, b1, w.used);
    ReactionsAgree(nm, st, w, e, polite);
    BackendsAgree(nm, st, w, e, polite);
    var m2 := P.Step(m1, Plain(e));
    LapsingReaches(m2, Mirror(st, next).backend);
    StaysOnRecord(nm, st, w, e, polite);
    events := [LapseTo(m.backend, b1), Plain(e), LapseTo(m2.backend, Mirror(st, next).backend)];
    ThreeSteps(m, events[0], events[1], events[2]);
  }

  lemma {:induction false} RunsJoin(w: P.World, a: seq<P.Event>, b: seq<P.Event>)
    requires P.Run(w, a) && P.Run(P.After(w, a), b)
    ensures P.Run(w, a + b) && P.After(w, a + b) == P.After(P.After(w, a), b)
    decreases |a|
  {
    if a == [] {
      assert a + b == b;
    } else {
      RunsJoin(P.Step(w, a[0]), a[1..], b);
      assert (a + b)[1..] == a[1..] + b;
    }
  }

  /** Main result: every run of a session in front of a lawful store is a run of the session protocol. */
  lemma {:induction false} RunIsProtocolRun<S(!new), O(!new)>(nm: Naming, st: Store<S, O>, w: World<S>,
                                                              events: seq<Event<O>>, polite: O -> bool)
    returns (run: seq<P.Event>)
    requires nm.Injective() && Lawful(st, nm.Mine(), polite) && OnRecord(nm, w) && P.Good(Mirror(st, w))
    requires Run(nm, st, w, events, polite)
    ensures P.Run(Mirror(st, w), run) && P.After(Mirror(st, w), run) == Mirror(st, After(nm, st, w, events))
    decreases |events|
  {
    if events == [] {
      run := [];
    } else {
      var first := StepIsProtocolSteps(nm, st, w, events[0], polite);
      P.GoodAlways(Mirror(st, w), first);
      var rest := RunIsProtocolRun(nm, st, Step(nm, st, w, events[0]), events[1..], polite);
      RunsJoin(Mirror(st, w), first, rest);
      run := first + rest;
    }
  }

  /** A session as constructed, in front of any state of the store. */
  ghost predicate Initial<S>(nm: Naming, w: World<S>) {
    && nm.own(w.task.session.instanceId)
    && w.task.pc.NotStarted? && w.sent == map[] && w.accepted == {}
    && w.task.session == P.Session(New, w.task.session.instanceId, None, 0, w.task.session.threshold, false)
    && w.task.session.instanceId in w.used
  }

  /** Main result: in front of a lawful store no illegal edge is ever attempted, and an ACTIVE session holds a lease in
      the name of its current instance whose registration the store served. */
  lemma SessionIsSafeOverStore<S(!new), O(!new)>(nm: Naming, st: Store<S, O>, w: World<S>, events: seq<Event<O>>,
                                                 polite: O -> bool)
    requires nm.Injective() && Lawful(st, nm.Mine(), polite) && Initial(nm, w) && Run(nm, st, w, events, polite)
    ensures var end := After(nm, st, w, events); var s := end.task.session;
            && !s.raised
            && (s.state == Active ==>
                  s.lease.Some? && s.lease.value.instanceId == s.instanceId && s.lease.value.leaseId in end.accepted)
  {
    P.InitialIsGood(Mirror(st, w));
    var run := RunIsProtocolRun(nm, st, w, events, polite);
    P.SessionIsSafe(Mirror(st, w), run);
  }

  // ---- prompt heartbeats ----

  /** What `held` says of a lease granted or registered at `last`, seen at `clock`: for `renewBy` after it a renewal is
      granted, for `readBy` the presence is shown, and no calm action takes that away. */
  ghost predicate Lasting<S(!new), O(!new)>(st: Store<S, O>, l: AgentLease, renewBy: int, readBy: int,
                                           held: (S, Time, Time) -> bool, calm: O -> bool)
  {
    && (forall s, last, clock, now :: held(s, last, clock) && clock <= now ==> held(s, last, now))
    && (forall s, last, now :: held(s, last, now) && now - last < renewBy ==> st.grants(s, l, now))
    && (forall s, last, now :: held(s, last, now) && now - last < readBy ==> st.shows(s, l.key, now))
    && (forall s, last, now {:trigger held(s, last, now), st.renew(s, l, now, st.commands)} ::
          held(s, last, now) && st.grants(s, l, now) ==> held(st.renew(s, l, now, st.commands), now, now))
    && (forall s, last, now, n :: held(s, last, now) ==> held(st.renew(s, l, now, n), last, now))
    && (forall s, last, o, now :: held(s, last, now) && calm(o) ==> held(st.others(s, o, now), last, now))
  }

  /** The session waits within its current incarnation, the lease kept; or it drains. */
  ghost predicate Settled<S, O>(nm: Naming, st: Store<S, O>, w: World<S>, l: AgentLease, last: Time,
                                held: (S, Time, Time) -> bool) {
    var s, pc := w.task.session, w.task.pc;
    && !s.raised && Held(w) == Some(l) && l.key == nm.KeyOf(s.instanceId)
    && match pc
       case StartAnnounce => s.state == Registering && held(w.store, last, w.now)
       case ReadingPresence => s.state == Resynchronizing && held(w.store, last, w.now)
       case Sleeping => s.state == Draining || (s.state in {Active, Degraded} && held(w.store, last, w.now))
       case Renewing => s.state == Draining || (s.state in {Active, Degraded} && held(w.store, last, w.now))
       case _ => false
  }

  /** When the lease was last granted. */
  function LastGrant<S, O>(st: Store<S, O>, w: World<S>, l: AgentLease, last: Time, e: Event<O>): Time {
    if e.RenewReplied? && e.reply == P.Served && st.grants(w.store, l, e.now) then e.now else last
  }

  /** A renewal or a presence read that reaches the store comes in time after the last granted renewal.
      A draining session need not hurry. */
  predicate InTime<S, O>(w: World<S>, renewBy: int, readBy: int, last: Time, e: Event<O>) {
    && (e.RenewReplied? && e.reply == P.Served && w.task.session.state != Draining ==> e.now - last < renewBy)
    && (e.PresenceReplied? && e.reply == P.Served ==> e.now - last < readBy)
  }

  ghost predicate Timely<S, O>(nm: Naming, st: Store<S, O>, w: World<S>, l: AgentLease, renewBy: int, readBy: int,
                               last: Time, events: seq<Event<O>>)
    decreases |events|
  {
    events != [] ==>
      && InTime(w, renewBy, readBy, last, events[0])
      && Timely(nm, st, Step(nm, st, w, events[0]), l, renewBy, readBy, LastGrant(st, w, l, last, events[0]),
                events[1..])
  }

  lemma StaysHeld<S(!new), O(!new)>(nm: Naming, st: Store<S, O>, w: World<S>, l: AgentLease, renewBy: int, readBy: int,
                                    last: Time, held: (S, Time, Time) -> bool, e: Event<O>, calm: O -> bool)
    requires Lasting(st, l, renewBy, readBy, held, calm) && held(w.store, last, w.now) && Held(w) == Some(l)
    requires Enabled(nm, st, w, e, calm)
    requires !e.RegisterReplied? && !e.UnregisterReplied?
    ensures held(w.store, last, At(w, e))
    ensures held(StoreAfter(nm, st, w, e), LastGrant(st, w, l, last, e), At(w, e))
  {
    assert held(w.store, last, At(w, e));
  }

  lemma RenewalStaysSettled<S(!new), O(!new)>(nm: Naming, st: Store<S, O>, w: World<S>, l: AgentLease, renewBy: int,
                                              readBy: int, last: Time, held: (S, Time, Time) -> bool, e: Event<O>,
                                              calm: O -> bool)
    requires Lasting(st, l, renewBy, readBy, held, calm) && Settled(nm, st, w, l, last, held)
    requires Enabled(nm, st, w, e, calm)
    requires e.RenewReplied? && InTime(w, renewBy, readBy, last, e)
    ensures Settled(nm, st, Step(nm, st, w, e), l, LastGrant(st, w, l, last, e), held)
    ensures Step(nm, st, w, e).task.session.instanceId == w.task.session.instanceId
  {
    if w.task.session.state != Draining {
      StaysHeld(nm, st, w, l, renewBy, readBy, last, held, e, calm);
      assert e.reply == P.Served ==> st.grants(w.store, l, e.now);
    }
  }

  lemma StaysSettled<S(!new), O(!new)>(nm: Naming, st: Store<S, O>, w: World<S>, l: AgentLease, renewBy: int,
                                       readBy: int, last: Time, held: (S, Time, Time) -> bool, e: Event<O>,
                                       calm: O -> bool)
    requires Lasting(st, l, renewBy, readBy, held, calm) && Settled(nm, st, w, l, last, held)
    requires Enabled(nm, st, w, e, calm)
    requires InTime(w, renewBy, readBy, last, e)
    ensures Settled(nm, st, Step(nm, st, w, e), l, LastGrant(st, w, l, last, e), held)
    ensures Step(nm, st, w, e).task.session.instanceId == w.task.session.instanceId
  {
    if e.RenewReplied? {
      RenewalStaysSettled(nm, st, w, l, renewBy, readBy, last, held, e, calm);
    } else if held(w.store, last, w.now) {
      StaysHeld(nm, st, w, l, renewBy, readBy, last, held, e, calm);
      assert e.PresenceReplied? && e.reply == P.Served ==> st.shows(w.store, l.key, e.now);
    }
  }

  /** Main result: whatever outages, drains and other calls come between, prompt heartbeats never change the instance
      id. */
  lemma {:induction false} PromptHeartbeatsKeepInstance<S(!new), O(!new)>(nm: Naming, st: Store<S, O>, w: World<S>,
                                                                          l: AgentLease, renewBy: int, readBy: int,
                                                                          last: Time, held: (S, Time, Time) -> bool,
                                                                          events: seq<Event<O>>, calm: O -> bool)
    requires Lasting(st, l, renewBy, readBy, held, calm) && Settled(nm, st, w, l, last, held)
    requires Run(nm, st, w, events, calm) && Timely(nm, st, w, l, renewBy, readBy, last, events)
    ensures After(nm, st, w, events).task.session.instanceId == w.task.session.instanceId
    decreases |events|
  {
    if events != [] {
      StaysSettled(nm, st, w, l, renewBy, readBy, last, held, events[0], calm);
      PromptHeartbeatsKeepInstance(nm, st, Step(nm, st, w, events[0]), l, renewBy, readBy,
                                   LastGrant(st, w, l, last, events[0]),
                                   held, events[1..], calm);
    }
  }

  /** The same from the session's first call: started, registered by the store at `now`, and prompt from then on. */
  lemma RegisteredSessionKeepsInstance<S(!new), O(!new)>(nm: Naming, st: Store<S, O>, w: World<S>, leaseId: Uuid,
                                                         expiresAt: Time, now: Time, renewBy: int, readBy: int,
                                                         held: (S, Time, Time) -> bool, events: seq<Event<O>>,
                                                         calm: O -> bool)
    requires Initial(nm, w) && leaseId !in w.used && w.now <= now
    requires var l := nm.LeaseOf(P.Lease(leaseId, w.task.session.instanceId), now, expiresAt);
             var registered := Registered(nm, st, w, leaseId, expiresAt, now);
             && Lasting(st, l, renewBy, readBy, held, calm) && held(st.register(w.store, l, now, st.commands), now, now)
             && Run(nm, st, registered, events, calm) && Timely(nm, st, registered, l, renewBy, readBy, now, events)
    ensures After(nm, st, Registered(nm, st, w, leaseId, expiresAt, now), events).task.session.instanceId
            == w.task.session.instanceId
  {
    var l := nm.LeaseOf(P.Lease(leaseId, w.task.session.instanceId), now, expiresAt);
    PromptHeartbeatsKeepInstance(nm, st, Registered(nm, st, w, leaseId, expiresAt, now), l, renewBy, readBy, now, held,
                                 events, calm);
  }

  /** A constructed session after `start` has been called and the store has served its registration. */
  function Registered<S, O>(nm: Naming, st: Store<S, O>, w: World<S>, leaseId: Uuid, expiresAt: Time,
                            now: Time): World<S> {
    Step(nm, st, Step<S, O>(nm, st, w, Starts(leaseId)), RegisterReplied(P.Served, st.commands, now, expiresAt, now))
  }

  /** The instance id changes exactly when the store answers that it is lost: it refuses a renewal of a session that
      does not drain, or shows no presence to one that resynchronizes. */
  lemma InstanceChangesIff<S(!new), O(!new)>(nm: Naming, st: Store<S, O>, w: World<S>, e: Event<O>, polite: O -> bool)
    requires OnRecord(nm, w) && P.Good(Mirror(st, w)) && Enabled(nm, st, w, e, polite)
    ensures Step(nm, st, w, e).task.session.instanceId != w.task.session.instanceId <==>
              || (e.RenewReplied? && e.reply == P.Served && w.task.session.state != Draining
                  && !st.grants(w.store, w.sent[w.task.session.lease.value.leaseId].lease, e.now))
              || (e.PresenceReplied? && e.reply == P.Served
                  && !st.shows(w.store, nm.KeyOf(w.task.session.instanceId), e.now))
  {
    assert w.task.session.instanceId in w.used;
  }
}
