/** The supervised session: every stretch of code between two awaits is one step. */
module SessionProtocol {
  import opened Prelude
  import opened Lifecycle

  datatype Lease = Lease(leaseId: Uuid, instanceId: Uuid)

  /** The session's fields. `raised` records that an illegal transition was attempted. */
  datatype Session = Session(
    state: SessionState,
    instanceId: Uuid,
    lease: Option<Lease>,
    failures: nat,
    threshold: nat,
    raised: bool)

  /** Where the session's own code waits. */
  datatype Pc =
    | NotStarted
    | StartRegister(pending: Lease)
    | StartAnnounce
    | Sleeping
    | Renewing
    | ReadingPresence
    | Unregistering
    | ReRegister(pending: Lease)
    | ReAnnounce
    | Ended

  /** A session and the place it waits at. */
  datatype Task = Task(session: Session, pc: Pc)

  // ---- the code between awaits ----

  /** Take a transition; an edge outside the table raises and leaves the state. */
  function Go(s: Session, target: SessionState): Session {
    if s.raised then s
    else if IsEdge(s.state, target) then s.(state := target)
    else s.(raised := true)
  }

  /** Where an exception in the heartbeat loop leaves the session. */
  function LoopFails(s: Session): Task {
    Task(if s.state == Active then s.(state := Degraded) else s, Ended)
  }

  function Continue(s: Session, pc: Pc): Task {
    if s.raised then LoopFails(s) else Task(s, pc)
  }

  /** An exception in `start` goes to the caller. */
  function Proceed(s: Session, pc: Pc): Task {
    Task(s, if s.raised then Ended else pc)
  }

  function Start(s: Session, leaseId: Uuid): Task {
    Proceed(Go(s, Registering), StartRegister(Lease(leaseId, s.instanceId)))
  }

  function StartRefused(s: Session): Task {
    Task(Go(s, Failed), Ended)
  }

  function Registered(s: Session, lease: Lease): Session {
    s.(lease := Some(lease), failures := 0)
  }

  function StartDone(s: Session): Task {
    Proceed(Go(s, Active), Sleeping)
  }

  /** Give up the current incarnation: a new instance id, the old lease to be unregistered first. */
  function ReRegistration(s: Session, newInstance: Uuid): Task {
    var resynchronizing := if s.state == Degraded then Go(s, Resynchronizing) else s;
    var begun := Go(resynchronizing, SessionState.ReRegistering);
    Continue(if begun.raised then begun else begun.(instanceId := newInstance), Unregistering)
  }

  function RenewSucceeded(s: Session): Task {
    var renewed := s.(failures := 0);
    if renewed.state == Degraded then Continue(Go(renewed, Resynchronizing), ReadingPresence)
    else Task(renewed, Sleeping)
  }

  function RenewExpired(s: Session, newInstance: Uuid): Task {
    if s.state == Draining then Task(s, Sleeping) else ReRegistration(s, newInstance)
  }

  function RenewUnavailable(s: Session): Task {
    var failed := s.(failures := s.failures + 1);
    Continue(if failed.failures >= failed.threshold && failed.state == Active then Go(failed, Degraded) else failed,
             Sleeping)
  }

  function PresenceFound(s: Session): Task {
    Continue(Go(s, Active), Sleeping)
  }

  function PresenceMissing(s: Session, newInstance: Uuid): Task {
    ReRegistration(s, newInstance)
  }

  function StoreUnavailable(s: Session): Task {
    Continue(Go(s, Degraded), Sleeping)
  }

  function ReRegisterDone(s: Session): Task {
    Continue(Go(Go(s, Resynchronizing), Active), Sleeping)
  }

  function Drain(s: Session): Session {
    if s.state == Active || s.state == Degraded then Go(s, Draining) else s
  }

  // ---- the store, as the session can know it ----

  /** Leases the store holds, instances it lists, and leases whose registration it confirmed. */
  datatype Backend = Backend(live: set<Uuid>, present: set<Uuid>, accepted: set<Uuid>)

  predicate Renewable(b: Backend, l: Lease) {
    l.leaseId in b.live && l.instanceId in b.present
  }

  /** How a call ends: served, or not known to be served, possibly after taking part of its effect. */
  datatype Reply = Served | Unavailable

  datatype World = World(task: Task, backend: Backend, ghost used: set<Uuid>)

  datatype Event =
    | Starts(leaseId: Uuid)
    | RegisterReplied(reply: Reply, leaseKept: bool, presenceKept: bool)
    | Announced
    | HeartbeatDue
    | RenewReplied(reply: Reply, newInstance: Uuid)
    | PresenceReplied(reply: Reply, newInstance: Uuid)
    | UnregisterReplied(reply: Reply, leaseDropped: bool, presenceDropped: bool, leaseId: Uuid)
    | Drains
    | Lapses(leases: set<Uuid>, instances: set<Uuid>)

  function Register(b: Backend, l: Lease, e: Event): Backend
    requires e.RegisterReplied?
  {
    if e.reply == Served then Backend(b.live + {l.leaseId}, b.present + {l.instanceId}, b.accepted + {l.leaseId})
    else Backend(if e.leaseKept then b.live + {l.leaseId} else b.live,
                 if e.presenceKept then b.present + {l.instanceId} else b.present, b.accepted)
  }

  function Unregister(b: Backend, l: Lease, e: Event): Backend
    requires e.UnregisterReplied?
  {
    b.(live := if e.leaseDropped then b.live - {l.leaseId} else b.live,
       present := if e.presenceDropped then b.present - {l.instanceId} else b.present)
  }

  /** Events happen where the code waits for them; identifiers they mint are new. */
  ghost predicate Enabled(w: World, e: Event) {
    match e
    case Starts(leaseId) => w.task.pc.NotStarted? && leaseId !in w.used
    case RegisterReplied(_, _, _) => w.task.pc.StartRegister? || w.task.pc.ReRegister?
    case Announced => w.task.pc.StartAnnounce? || w.task.pc.ReAnnounce?
    case HeartbeatDue => w.task.pc.Sleeping?
    case RenewReplied(_, newInstance) => w.task.pc.Renewing? && newInstance !in w.used
    case PresenceReplied(_, newInstance) => w.task.pc.ReadingPresence? && newInstance !in w.used
    case UnregisterReplied(_, _, _, leaseId) => w.task.pc.Unregistering? && leaseId !in w.used
    case Drains => true
    case Lapses(_, _) => true
  }

  /** The session's reaction to a reply, given what the store then held. */
  function React(s: Session, pc: Pc, b: Backend, e: Event): Task {
    match e
    case Starts(leaseId) => Start(s, leaseId)
    case RegisterReplied(reply, _, _) =>
      if pc.StartRegister? then
        if reply == Served then Task(Registered(s, pc.pending), StartAnnounce) else StartRefused(s)
      else if pc.ReRegister? then
        if reply == Served then Task(Registered(s, pc.pending), ReAnnounce) else StoreUnavailable(s)
      else Task(s, pc)
    case Announced =>
      if pc.StartAnnounce? then StartDone(s) else if pc.ReAnnounce? then ReRegisterDone(s) else Task(s, pc)
    case HeartbeatDue => Task(s, Renewing)
    case RenewReplied(reply, newInstance) =>
      if reply == Unavailable then RenewUnavailable(s)
      else if s.lease.Some? && Renewable(b, s.lease.value) then RenewSucceeded(s)
      else RenewExpired(s, newInstance)
    case PresenceReplied(reply, newInstance) =>
      if reply == Unavailable then StoreUnavailable(s)
      else if s.instanceId in b.present then PresenceFound(s)
      else PresenceMissing(s, newInstance)
    case UnregisterReplied(_, _, _, leaseId) => Task(s, ReRegister(Lease(leaseId, s.instanceId)))
    case Drains => Task(Drain(s), pc)
    case Lapses(_, _) => Task(s, pc)
  }

  function BackendAfter(s: Session, pc: Pc, b: Backend, e: Event): Backend {
    match e
    case RegisterReplied(_, _, _) => if pc.StartRegister? || pc.ReRegister? then Register(b, pc.pending, e) else b
    case UnregisterReplied(_, _, _, _) => if s.lease.Some? then Unregister(b, s.lease.value, e) else b
    case Lapses(leases, instances) => b.(live := b.live - leases, present := b.present - instances)
    case _ => b
  }

  ghost function Minted(e: Event): set<Uuid> {
    match e
    case Starts(leaseId) => {leaseId}
    case RenewReplied(_, newInstance) => {newInstance}
    case PresenceReplied(_, newInstance) => {newInstance}
    case UnregisterReplied(_, _, _, leaseId) => {leaseId}
    case _ => {}
  }

  ghost function Step(w: World, e: Event): World {
    var s, pc := w.task.session, w.task.pc;
    World(React(s, pc, w.backend, e), BackendAfter(s, pc, w.backend, e), w.used + Minted(e))
  }

  ghost predicate Run(w: World, events: seq<Event>)
    decreases |events|
  {
    events != [] ==> Enabled(w, events[0]) && Run(Step(w, events[0]), events[1..])
  }

  ghost function After(w: World, events: seq<Event>): World
    decreases |events|
  {
    if events == [] then w else After(Step(w, events[0]), events[1..])
  }

  /** A session as constructed, in front of any store. */
  ghost predicate Initial(w: World) {
    && w.task.pc.NotStarted?
    && w.task.session == Session(New, w.task.session.instanceId, None, 0, w.task.session.threshold, false)
    && w.task.session.instanceId in w.used
    && w.backend.live <= w.used && w.backend.present <= w.used && w.backend.accepted <= w.used
  }

  // ---- the invariant ----

  /** The lease names the current incarnation and the store confirmed it. */
  ghost predicate Holds(s: Session, b: Backend) {
    s.lease.Some? && s.lease.value.instanceId == s.instanceId && s.lease.value.leaseId in b.accepted
  }

  ghost predicate Fits(s: Session, pc: Pc, b: Backend) {
    match pc
    case NotStarted => s.state == New && s.lease.None?
    case StartRegister(l) => s.state == Registering && s.lease.None? && l.instanceId == s.instanceId
    case StartAnnounce => s.state == Registering && Holds(s, b)
    case Sleeping => s.state in {Active, Degraded, Draining} && s.lease.Some?
    case Renewing => s.state in {Active, Degraded, Draining} && s.lease.Some?
    case ReadingPresence => s.state == Resynchronizing && Holds(s, b)
    case Unregistering =>
      s.state == SessionState.ReRegistering && s.lease.Some? && s.lease.value.instanceId != s.instanceId
    case ReRegister(l) =>
      s.state == SessionState.ReRegistering && s.lease.Some? && s.lease.value.instanceId != s.instanceId
      && l.instanceId == s.instanceId && l.leaseId != s.lease.value.leaseId
    case ReAnnounce => s.state == SessionState.ReRegistering && Holds(s, b)
    case Ended => s.state == Failed
  }

  /** Every reachable world. A lease of a past incarnation can no longer be renewed. */
  ghost predicate Good(w: World) {
    var s, pc, b := w.task.session, w.task.pc, w.backend;
    && !s.raised
    && Fits(s, pc, b)
    && (s.state == Active ==> Holds(s, b))
    && (s.lease.Some? ==> s.lease.value.leaseId in b.accepted)
    && (s.lease.Some? && s.lease.value.instanceId != s.instanceId ==> !Renewable(b, s.lease.value))
    && s.instanceId in w.used
    && (s.lease.Some? ==> {s.lease.value.leaseId, s.lease.value.instanceId} <= w.used)
    && (pc.StartRegister? || pc.ReRegister? ==> pc.pending.leaseId in w.used)
    && b.accepted <= w.used
  }

  lemma InitialIsGood(w: World)
    requires Initial(w)
    ensures Good(w)
  {
  }

  /** Main step: no event, whatever the store answers and whenever a drain comes, leaves the invariant. */
  lemma StepKeepsGood(w: World, e: Event)
    requires Good(w) && Enabled(w, e)
    ensures Good(Step(w, e))
  {
    match e
    case Starts(_) =>
    case RegisterReplied(_, _, _) =>
    case Announced =>
    case HeartbeatDue =>
    case RenewReplied(_, _) =>
    case PresenceReplied(_, _) =>
    case UnregisterReplied(_, _, _, _) =>
    case Drains =>
    case Lapses(_, _) =>
  }

  lemma {:induction false} GoodAlways(w: World, events: seq<Event>)
    requires Good(w) && Run(w, events)
    ensures Good(After(w, events))
    decreases |events|
  {
    if events != [] {
      StepKeepsGood(w, events[0]);
      GoodAlways(Step(w, events[0]), events[1..]);
    }
  }

  /** Main result: over every interleaving of heartbeats, drains, lapses and store outcomes, no illegal edge is ever
      attempted, and an ACTIVE session holds a confirmed lease in the name of its current instance. */
  lemma SessionIsSafe(w: World, events: seq<Event>)
    requires Initial(w) && Run(w, events)
    ensures var end := After(w, events);
            && !end.task.session.raised
            && (end.task.session.state == Active ==> Holds(end.task.session, end.backend))
  {
    InitialIsGood(w);
    GoodAlways(w, events);
  }

  // ---- recovery ----

  /** Within one heartbeat against a reachable store. */
  ghost predicate Recovering(w: World) {
    match w.task.pc
    case Sleeping => w.task.session.state == Active
    case Renewing => w.task.session.state == Active || w.task.session.state == Degraded
    case ReadingPresence => true
    case Unregistering => true
    case ReRegister(_) => true
    case ReAnnounce => true
    case _ => false
  }

  predicate Reachable(e: Event) {
    match e
    case RegisterReplied(reply, _, _) => reply == Served
    case RenewReplied(reply, _) => reply == Served
    case PresenceReplied(reply, _) => reply == Served
    case UnregisterReplied(reply, _, _, _) => reply == Served
    case Drains => false
    case _ => true
  }

  lemma {:induction false} RecoveryGoesOn(w: World, events: seq<Event>)
    requires Good(w) && Recovering(w) && Run(w, events) && forall i :: 0 <= i < |events| ==> Reachable(events[i])
    ensures Recovering(After(w, events))
    decreases |events|
  {
    if events != [] {
      StepKeepsGood(w, events[0]);
      assert Reachable(events[0]);
      assert Recovering(Step(w, events[0]));
      RecoveryGoesOn(Step(w, events[0]), events[1..]);
    }
  }

  /** Main result: from ACTIVE or DEGRADED, any number of heartbeats that reach the store, with lapses at any moment,
      always come back to sleep in ACTIVE. */
  lemma OneHeartbeatRecovers(w: World, events: seq<Event>)
    requires Good(w) && w.task.pc.Sleeping? && (w.task.session.state == Active || w.task.session.state == Degraded)
    requires Run(w, [HeartbeatDue] + events) && forall i :: 0 <= i < |events| ==> Reachable(events[i])
    requires After(w, [HeartbeatDue] + events).task.pc.Sleeping?
    ensures After(w, [HeartbeatDue] + events).task.session.state == Active
  {
    assert ([HeartbeatDue] + events)[1..] == events;
    StepKeepsGood(w, HeartbeatDue);
    RecoveryGoesOn(Step(w, HeartbeatDue), events);
  }

  /** The distance, in store replies, from sleeping again. */
  function Distance(pc: Pc): nat {
    match pc
    case Renewing => 5
    case ReadingPresence => 4
    case Unregistering => 3
    case ReRegister(_) => 2
    case ReAnnounce => 1
    case _ => 0
  }

  /** A heartbeat ends: every event of its own brings it closer to sleep, and nothing else takes it back. */
  lemma HeartbeatsEnd(w: World, e: Event)
    requires Good(w) && Enabled(w, e) && Distance(w.task.pc) > 0
    ensures if e.Drains? || e.Lapses? then Step(w, e).task.pc == w.task.pc
            else Distance(Step(w, e).task.pc) < Distance(w.task.pc)
  {
  }

  /** Outages and drains change the incarnation never: only a lease or a presence the store has lost does. */
  lemma InstanceChangesOnlyOnLoss(w: World, e: Event)
    requires Good(w) && Enabled(w, e)
    requires Step(w, e).task.session.instanceId != w.task.session.instanceId
    ensures (e.RenewReplied? && e.reply == Served && !Renewable(w.backend, w.task.session.lease.value)) ||
            (e.PresenceReplied? && e.reply == Served && w.task.session.instanceId !in w.backend.present)
  {
  }

  /** Registered once and never lost since; or not registered yet, or refused at the start. */
  ghost predicate Kept(w: World) {
    var s := w.task.session;
    match w.task.pc
    case NotStarted => true
    case StartRegister(_) => true
    case Ended => true
    case Unregistering => false
    case ReRegister(_) => false
    case ReAnnounce => false
    case _ => s.lease.Some? && s.lease.value.instanceId == s.instanceId && Renewable(w.backend, s.lease.value)
  }

  lemma {:induction false} KeptWithoutLapses(w: World, events: seq<Event>)
    requires Good(w) && Kept(w) && Run(w, events)
    requires forall i :: 0 <= i < |events| ==> !events[i].Lapses?
    ensures After(w, events).task.session.instanceId == w.task.session.instanceId
    decreases |events|
  {
    if events != [] {
      StepKeepsGood(w, events[0]);
      assert !events[0].Lapses?;
      var next := Step(w, events[0]);
      assert Kept(next) && next.task.session.instanceId == w.task.session.instanceId;
      KeptWithoutLapses(next, events[1..]);
    }
  }

  /** Main result: while the store loses nothing, no number of heartbeats, outages and drains ever changes the instance
      id. */
  lemma InstanceIsStableWithoutLapses(w: World, events: seq<Event>)
    requires Initial(w) && Run(w, events)
    requires forall i :: 0 <= i < |events| ==> !events[i].Lapses?
    ensures After(w, events).task.session.instanceId == w.task.session.instanceId
  {
    InitialIsGood(w);
    KeptWithoutLapses(w, events);
  }

  // ---- closing ----

  /** `close()` after the heartbeat task is cancelled: drain if the table allows, unregister, then finish. */
  function Close(s: SessionState): SessionState {
    var drained := if s == Closed || s == New || s == Draining then s else if IsEdge(s, Draining) then Draining else s;
    if drained == Closed then Closed
    else if IsEdge(drained, Closed) then Closed
    else if drained == New then Closed
    else drained
  }

  /** Closing reaches CLOSED exactly when the session is not cut off inside a registration or a recovery. */
  lemma CloseReachesClosedIff(s: SessionState)
    ensures Close(s) == Closed <==> s != Registering && s != Resynchronizing && s != SessionState.ReRegistering
    ensures Close(s) != Closed ==> Close(s) == s
  {
  }

  /** With the heartbeat idle, or waiting for a renewal, closing always reaches CLOSED. */
  lemma IdleCloseReachesClosed(w: World, events: seq<Event>)
    requires Initial(w) && Run(w, events)
    requires var pc := After(w, events).task.pc; pc.Sleeping? || pc.Renewing? || pc.NotStarted? || pc.Ended?
    ensures Close(After(w, events).task.session.state) == Closed
  {
    InitialIsGood(w);
    GoodAlways(w, events);
  }

  /** The excluded case is reachable: a lease lapses, the heartbeat starts over, and closing then stays outside
      CLOSED. */
  lemma CloseCanMissClosed(w: World, leaseId: Uuid, newInstance: Uuid)
    requires Initial(w) && leaseId !in w.used && newInstance !in w.used && leaseId != newInstance
    ensures var events := [Starts(leaseId), RegisterReplied(Served, true, true), Announced, Lapses({leaseId}, {}),
                           HeartbeatDue,
                           RenewReplied(Served, newInstance)];
            Run(w, events) && Close(After(w, events).task.session.state) == SessionState.ReRegistering
  {
    var e1, e2, e3, e4, e5, e6 := Starts(leaseId), RegisterReplied(Served, true, true), Announced,
                                  Lapses({leaseId}, {}),
      HeartbeatDue, RenewReplied(Served, newInstance);
    var w1 := Step(w, e1);
    var w2 := Step(w1, e2);
    var w3 := Step(w2, e3);
    var w4 := Step(w3, e4);
    var w5 := Step(w4, e5);
    var w6 := Step(w5, e6);
    assert w3.task.session.state == Active && w6.task.session.state == SessionState.ReRegistering;
    var events := [e1, e2, e3, e4, e5, e6];
    assert events[1..] == [e2, e3, e4, e5, e6];
    assert [e2, e3, e4, e5, e6][1..] == [e3, e4, e5, e6];
    assert [e3, e4, e5, e6][1..] == [e4, e5, e6];
    assert [e4, e5, e6][1..] == [e5, e6];
    assert [e5, e6][1..] == [e6];
    assert [e6][1..] == [];
    assert After(w5, [e6]) == w6 && Run(w5, [e6]);
    assert After(w4, [e5, e6]) == w6 && Run(w4, [e5, e6]);
    assert After(w3, [e4, e5, e6]) == w6 && Run(w3, [e4, e5, e6]);
    assert After(w2, [e3, e4, e5, e6]) == w6 && Run(w2, [e3, e4, e5, e6]);
    assert After(w1, [e2, e3, e4, e5, e6]) == w6 && Run(w1, [e2, e3, e4, e5, e6]);
  }
}
