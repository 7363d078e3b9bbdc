/** Any number of clients on one Redis: each waits between two commands, and the commands interleave freely. */
module RedisInterleaving {
  import opened Prelude
  import opened ActiveModel
  import Red = RedisSpec

  /** What a client holds while it waits to send its next command. */
  datatype Pc =
    | Idle
    | Asked(call: Call)
    | WritesPresence(presence: AgentPresence, lease: AgentLease, at: Time)
    | WritesLease(presence: AgentPresence, lease: AgentLease, at: Time)
    | ReadsPresence(lease: AgentLease, at: Time)
    | ExtendsLease(held: AgentPresence, lease: AgentLease, at: Time)
    | ExtendsPresence(held: AgentPresence, lease: AgentLease, at: Time)
    | Unlinks(lease: AgentLease)
    | ReadsWriter(lease: AgentLease, expected: Option<int>, draft: Draft)
    | RunsScript(lease: AgentLease, expected: Option<int>, context: ActiveContext)
    | Answered(answer: Answer)

  /** One command and the client code up to the next. */
  function Advance(c: Settings, r: Red.Keys, pc: Pc, now: Time): (Red.Keys, Pc) {
    match pc
    case Idle => (r, pc)
    case Answered(_) => (r, pc)
    case Asked(call) => (r, Begin(c, r, call, now))
    case WritesPresence(p, lease, at) =>
      (Red.SetPresence(r, Token(p.identity.key), p, c.presenceTtl, now), WritesLease(p, lease, at))
    case WritesLease(p, lease, at) =>
      (Red.SetLease(r, Token(p.identity.key), Red.ValueOf(lease, at), Red.LeaseSeconds(lease), now),
       Answered(PresenceIs(p)))
    case ReadsPresence(lease, at) =>
      var t := Token(lease.key);
      if t !in r.presences || r.presences[t].value.IsExpired(at) then (r, Answered(LeaseExpired(lease.key)))
      else (r, ExtendsLease(r.presences[t].value, lease, at))
    case ExtendsLease(held, lease, at) =>
      (Red.SetLease(r, Token(lease.key), Red.ValueOf(lease, at), Red.LeaseSeconds(lease), now),
       ExtendsPresence(held, lease, at))
    case ExtendsPresence(held, lease, at) =>
      var p := Renewed(c, held, at, held.version + 1);
      (Red.SetPresence(r, Token(lease.key), p, c.presenceTtl, now), Answered(PresenceIs(p)))
    case Unlinks(lease) => (Red.Unlink(r, Token(lease.key)), Answered(Done))
    case ReadsWriter(lease, expected, draft) =>
      var seen := Red.PresenceAt(r, lease.key, now);
      if seen.NoPresence? then (r, Answered(LeaseExpired(lease.key)))
      else (r, RunsScript(lease, expected, Committed(c, lease.key, seen.presence, draft, 0, now)))
    case RunsScript(lease, expected, context) =>
      var ran := Red.Cas(r, Token(lease.key), expected, context, c.contextTtl, now);
      (ran.0, Answered(Red.AnswerOf(lease.key, expected, ran.1)))
  }

  /** The first command of a call is always a read. */
  function Begin(c: Settings, r: Red.Keys, call: Call, now: Time): Pc {
    match call
    case Register(identity, lease) =>
      WritesPresence(Started(c, identity, now, Red.NextPresenceVersion(r, Token(identity.key))), lease, now)
    case Renew(lease) =>
      if Red.HoldsLease(r, lease, now) then ReadsPresence(lease, now) else Answered(LeaseExpired(lease.key))
    case Unregister(lease) =>
      var t := Token(lease.key);
      if t in r.leases && r.leases[t].value.leaseId != lease.leaseId then Answered(Done) else Unlinks(lease)
    case PutContext(lease, expected, draft) =>
      if Red.HoldsLease(r, lease, now) then ReadsWriter(lease, expected, draft) else Answered(LeaseExpired(lease.key))
    case GetContext(k) => Answered(Red.ContextAt(r, k, now))
    case GetPresence(k) => Answered(Red.PresenceAt(r, k, now))
  }

  // ---- a client left alone ----

  function Remaining(pc: Pc): nat {
    match pc
    case Asked(_) => 4
    case WritesPresence(_, _, _) => 2
    case WritesLease(_, _, _) => 1
    case ReadsPresence(_, _) => 3
    case ExtendsLease(_, _, _) => 2
    case ExtendsPresence(_, _, _) => 1
    case Unlinks(_) => 1
    case ReadsWriter(_, _, _) => 2
    case RunsScript(_, _, _) => 1
    case _ => 0
  }

  /** Every command brings a client closer to its answer. */
  lemma CallsEnd(c: Settings, r: Red.Keys, pc: Pc, now: Time)
    requires Remaining(pc) > 0
    ensures Remaining(Advance(c, r, pc, now).1) < Remaining(pc)
    ensures Remaining(Advance(c, r, pc, now).1) == 0 ==> Advance(c, r, pc, now).1.Answered?
  {
  }

  function Steps(c: Settings, r: Red.Keys, pc: Pc, now: Time, n: nat): (Red.Keys, Pc)
    decreases n
  {
    if n == 0 then (r, pc) else var next := Advance(c, r, pc, now); Steps(c, next.0, next.1, now, n - 1)
  }

  /** Without interruption, command by command is the one-step operation. */
  lemma AloneIsServe(c: Settings, r: Red.Keys, call: Call, now: Time)
    ensures var turn := Red.Serve(c, r, call, now);
            Steps(c, r, Asked(call), now, 4) == (turn.state, Answered(turn.answer))
  {
  }

  /** The clock a call reads first is the one it stamps with, however long its later commands take and whatever the keys
      hold by then: a grant beats at that instant and its lease lapses from that instant. */
  lemma GrantsAreStampedAtTheStart(c: Settings, r: Red.Keys, call: Call, now: Time, r1: Red.Keys, now1: Time,
                                   r2: Red.Keys, now2: Time, r3: Red.Keys, now3: Time)
    requires call.Register? || call.Renew?
    ensures var first := Advance(c, r, Asked(call), now).1;
            var second := Advance(c, r1, first, now1);
            var third := Advance(c, r2, second.1, now2);
            var last := Advance(c, r3, third.1, now3);
            var l, t := call.lease, Token(if call.Register? then call.identity.key else call.lease.key);
            last.1.Answered? && last.1.answer.PresenceIs? ==>
              && last.1.answer.presence.heartbeatAt == now
              && last.1.answer.presence.expiresAt == now + c.presenceTtl * SECOND
              && t in third.0.leases
              && third.0.leases[t].value == Red.LeaseValue(l.leaseId, now + Red.LeaseSeconds(l) * SECOND)
  {
  }

  // ---- many clients ----

  datatype World = World(keys: Red.Keys, clients: map<nat, Pc>)

  /** Clocks are arbitrary; the server may collect lapsed keys at any moment. */
  datatype Event =
    | Begins(client: nat, call: Call)
    | Advances(client: nat, now: Time)
    | Collects(swept: Red.Sweep, now: Time)

  predicate Enabled(w: World, e: Event) {
    match e
    case Begins(client, _) => client !in w.clients || w.clients[client].Idle? || w.clients[client].Answered?
    case Advances(client, _) => client in w.clients
    case Collects(_, _) => true
  }

  function Step(c: Settings, w: World, e: Event): World
    requires Enabled(w, e)
  {
    match e
    case Begins(client, call) => w.(clients := w.clients[client := Asked(call)])
    case Advances(client, now) =>
      var next := Advance(c, w.keys, w.clients[client], now);
      World(next.0, w.clients[client := next.1])
    case Collects(swept, now) => w.(keys := Red.Collect(w.keys, swept, now))
  }

  /** A successful script run on a context key: the version it was asked for, and the one it wrote. */
  datatype Win = Win(expected: Option<int>, version: nat)

  function WinOf(c: Settings, w: World, e: Event, t: string): Option<Win>
    requires Enabled(w, e)
  {
    if e.Advances? && w.clients[e.client].RunsScript? && Token(w.clients[e.client].lease.key) == t then
      var script := w.clients[e.client];
      match Red.Cas(w.keys, t, script.expected, script.context, c.contextTtl, e.now).1
      case Committed(context) => Some(Win(script.expected, context.version))
      case _ => None
    else None
  }

  predicate Runs(c: Settings, w: World, events: seq<Event>)
    decreases |events|
  {
    events != [] ==> Enabled(w, events[0]) && Runs(c, Step(c, w, events[0]), events[1..])
  }

  function After(c: Settings, w: World, events: seq<Event>): World
    requires Runs(c, w, events)
    decreases |events|
  {
    if events == [] then w else After(c, Step(c, w, events[0]), events[1..])
  }

  function Wins(c: Settings, w: World, events: seq<Event>, t: string): seq<Win>
    requires Runs(c, w, events)
    decreases |events|
  {
    if events == [] then []
    else
      (match WinOf(c, w, events[0], t)
       case Some(win) => [win]
       case None => []) + Wins(c, Step(c, w, events[0]), events[1..], t)
  }

  /** The context key, once there, is neither unlinked nor collected. */
  predicate Survives(c: Settings, w: World, events: seq<Event>, t: string)
    requires Runs(c, w, events)
    decreases |events|
  {
    events != [] ==>
      var next := Step(c, w, events[0]);
      (t in w.keys.contexts ==> t in next.keys.contexts) && Survives(c, next, events[1..], t)
  }

  /** Only a won script moves a version, and by one; it answers its caller with the context it wrote. */
  lemma StepMovesVersion(c: Settings, w: World, e: Event, t: string)
    requires Enabled(w, e)
    requires t in w.keys.contexts ==> t in Step(c, w, e).keys.contexts
    ensures var v, next := Red.StoredVersion(w.keys, t), Step(c, w, e);
            match WinOf(c, w, e, t)
            case None => Red.StoredVersion(next.keys, t) == v
            case Some(win) =>
              && Red.StoredVersion(next.keys, t) == v + 1 == win.version
              && (win.expected.Some? ==> win.expected.value == v)
              && t in w.keys.presences
              && next.clients[e.client] == Answered(ContextIs(next.keys.contexts[t].value))
  {
  }

  /** A stored version falls back exactly when the key is lost: unlinked with its registration, or collected. */
  lemma VersionFallsIff(c: Settings, w: World, e: Event, t: string)
    requires Enabled(w, e) && t in w.keys.contexts && w.keys.contexts[t].value.version >= 1
    ensures Red.StoredVersion(Step(c, w, e).keys, t) < Red.StoredVersion(w.keys, t) <==>
                t !in Step(c, w, e).keys.contexts
  {
    if t in Step(c, w, e).keys.contexts {
      StepMovesVersion(c, w, e, t);
    }
  }

  /** Main result: however clients interleave, while a context key survives its version rises by exactly one per won
      script: the i-th writes version v + i + 1, and had asked for v + i if it asked at all. */
  lemma {:induction false} VersionsRiseByOne(c: Settings, w: World, events: seq<Event>, t: string)
    requires Runs(c, w, events) && Survives(c, w, events, t)
    ensures var wins, v := Wins(c, w, events, t), Red.StoredVersion(w.keys, t);
            && Red.StoredVersion(After(c, w, events).keys, t) == v + |wins|
            && (forall i :: 0 <= i < |wins| ==> wins[i].version == v + i + 1)
            && (forall i :: 0 <= i < |wins| && wins[i].expected.Some? ==> wins[i].expected.value == v + i)
    decreases |events|
  {
    if events != [] {
      StepMovesVersion(c, w, events[0], t);
      VersionsRiseByOne(c, Step(c, w, events[0]), events[1..], t);
    }
  }

  /** Main result: no expected version wins twice in the life of a context key. */
  lemma EachExpectedVersionWinsOnce(c: Settings, w: World, events: seq<Event>, t: string, i: nat, j: nat)
    requires Runs(c, w, events) && Survives(c, w, events, t)
    requires i < j < |Wins(c, w, events, t)|
    ensures var wins := Wins(c, w, events, t);
            wins[i].expected.Some? ==> wins[i].expected != wins[j].expected
    ensures Wins(c, w, events, t)[i].version < Wins(c, w, events, t)[j].version
  {
    VersionsRiseByOne(c, w, events, t);
  }

  // ---- who gets to write ----

  /** The lease an event finds held, if it is the lease check of a write. */
  ghost function Passed(w: World, e: Event): set<AgentLease>
    requires Enabled(w, e)
  {
    if e.Advances? && w.clients[e.client].Asked? && w.clients[e.client].call.PutContext?
       && Red.HoldsLease(w.keys, w.clients[e.client].call.lease, e.now)
    then {w.clients[e.client].call.lease} else {}
  }

  /** The leases found held by the write checks of a run. */
  ghost function PassedIn(c: Settings, w: World, events: seq<Event>): set<AgentLease>
    requires Runs(c, w, events)
    decreases |events|
  {
    if events == [] then {} else Passed(w, events[0]) + PassedIn(c, Step(c, w, events[0]), events[1..])
  }

  /** Every client between its lease check and its script holds one of these leases. */
  ghost predicate Vouched(w: World, leases: set<AgentLease>) {
    forall client :: client in w.clients ==>
      && (w.clients[client].ReadsWriter? ==> w.clients[client].lease in leases)
      && (w.clients[client].RunsScript? ==> w.clients[client].lease in leases)
  }

  lemma {:induction false} StaysVouched(c: Settings, w: World, events: seq<Event>, leases: set<AgentLease>)
    requires Runs(c, w, events) && Vouched(w, leases)
    ensures Vouched(After(c, w, events), leases + PassedIn(c, w, events))
    decreases |events|
  {
    if events != [] {
      var next := Step(c, w, events[0]);
      assert Vouched(next, leases + Passed(w, events[0]));
      StaysVouched(c, next, events[1..], leases + Passed(w, events[0]));
      assert leases + Passed(w, events[0]) + PassedIn(c, next, events[1..]) == leases + PassedIn(c, w, events);
    } else {
      assert leases + PassedIn(c, w, events) == leases;
    }
  }

  /** Main result: no script ever runs for a lease that Redis did not hold at some moment of the same run. */
  lemma ScriptsRunForHeldLeases(c: Settings, w: World, events: seq<Event>, client: nat)
    requires Runs(c, w, events) && forall k :: k in w.clients ==> w.clients[k].Idle?
    requires client in After(c, w, events).clients && After(c, w, events).clients[client].RunsScript?
    ensures After(c, w, events).clients[client].lease in PassedIn(c, w, events)
  {
    StaysVouched(c, w, events, {});
  }

  // ---- how far the lease check reaches ----

  /** The event ends what is held under this lease at `now`: another lease written over its key, the key unlinked, or
      the key collected past its deadline. */
  predicate Takes(w: World, e: Event, l: AgentLease, now: Time)
    requires Enabled(w, e)
  {
    var t := Token(l.key);
    match e
    case Begins(_, _) => false
    case Collects(swept, at) => t in swept.leases && t in w.keys.leases && w.keys.leases[t].deadline <= at
    case Advances(client, _) =>
      match w.clients[client]
      case WritesLease(p, lease, at) => Token(p.identity.key) == t && !Covers(lease, at, l, now)
      case ExtendsLease(_, lease, at) => Token(lease.key) == t && !Covers(lease, at, l, now)
      case Unlinks(lease) => Token(lease.key) == t
      case _ => false
  }

  /** Written at `at`, this lease is the same one and lasts beyond `now`. */
  predicate Covers(lease: AgentLease, at: Time, l: AgentLease, now: Time) {
    lease.leaseId == l.leaseId && now < Red.ValueOf(lease, at).expiresAt
  }

  /** A held lease is lost over one event exactly when the event takes it. */
  lemma LeaseLostIff(c: Settings, w: World, e: Event, l: AgentLease, now: Time)
    requires Enabled(w, e) && Red.HoldsLease(w.keys, l, now)
    ensures !Red.HoldsLease(Step(c, w, e).keys, l, now) <==> Takes(w, e, l, now)
  {
  }

  predicate Untaken(c: Settings, w: World, events: seq<Event>, l: AgentLease, now: Time)
    requires Runs(c, w, events)
    decreases |events|
  {
    events != [] ==> !Takes(w, events[0], l, now) && Untaken(c, Step(c, w, events[0]), events[1..], l, now)
  }

  /** Main result: a write whose lease check passed runs its script under a lease Redis still holds, if at that later
      moment the lease has not expired and no event in between took it. */
  lemma {:induction false} UntakenLeaseIsHeld(c: Settings, w: World, events: seq<Event>, l: AgentLease, now: Time)
    requires Red.HoldsLease(w.keys, l, now) && Runs(c, w, events) && Untaken(c, w, events, l, now)
    ensures Red.HoldsLease(After(c, w, events).keys, l, now)
    decreases |events|
  {
    if events != [] {
      LeaseLostIff(c, w, events[0], l, now);
      UntakenLeaseIsHeld(c, Step(c, w, events[0]), events[1..], l, now);
    }
  }

  lemma {:induction false} RunsJoin(c: Settings, w: World, a: seq<Event>, b: seq<Event>)
    requires Runs(c, w, a) && Runs(c, After(c, w, a), b)
    ensures Runs(c, w, a + b) && After(c, w, a + b) == After(c, After(c, w, a), b)
    decreases |a|
  {
    if a == [] {
      assert a + b == b;
    } else {
      assert (a + b)[1..] == a[1..] + b;
      RunsJoin(c, Step(c, w, a[0]), a[1..], b);
    }
  }

  /** The client's next so many commands, uninterrupted. */
  function Burst(client: nat, now: Time, n: nat): seq<Event> {
    if n == 0 then [] else [Advances(client, now)] + Burst(client, now, n - 1)
  }

  lemma {:induction false} BurstRuns(c: Settings, w: World, client: nat, now: Time, n: nat)
    requires client in w.clients
    ensures Runs(c, w, Burst(client, now, n))
    ensures var alone := Steps(c, w.keys, w.clients[client], now, n);
            After(c, w, Burst(client, now, n)) == World(alone.0, w.clients[client := alone.1])
    decreases n
  {
    if n == 0 {
      assert w.clients[client := w.clients[client]] == w.clients;
    } else {
      var next := Step(c, w, Advances(client, now));
      BurstRuns(c, next, client, now, n - 1);
      assert Burst(client, now, n)[1..] == Burst(client, now, n - 1);
      var alone := Steps(c, w.keys, w.clients[client], now, n);
      assert next.clients[client := alone.1] == w.clients[client := alone.1];
    }
  }

  lemma CallRuns(c: Settings, w: World, client: nat, call: Call, now: Time, n: nat)
    requires client !in w.clients || w.clients[client].Answered?
    ensures Runs(c, w, [Begins(client, call)] + Burst(client, now, n))
    ensures var alone := Steps(c, w.keys, Asked(call), now, n);
            After(c, w, [Begins(client, call)] + Burst(client, now, n)) == World(alone.0, w.clients[client := alone.1])
  {
    var begun := Step(c, w, Begins(client, call));
    BurstRuns(c, begun, client, now, n);
    var events, alone := [Begins(client, call)] + Burst(client, now, n), Steps(c, w.keys, Asked(call), now, n);
    assert events[1..] == Burst(client, now, n);
    assert begun.clients[client := alone.1] == w.clients[client := alone.1];
  }

  /** A first holder registers and starts to write; a second registers the same incarnation before the script is
      sent. */
  function OvertakenRun(identity: AgentIdentity, first: AgentLease, second: AgentLease, draft: Draft,
                        now: Time): seq<Event> {
    ([Begins(0, Register(identity, first))] + Burst(0, now, 3))
    + (([Begins(0, PutContext(first, None, draft))] + Burst(0, now, 2))
       + ([Begins(1, Register(identity, second))] + Burst(1, now, 3)))
  }

  function TwiceRegistered(c: Settings, identity: AgentIdentity, first: AgentLease, second: AgentLease,
                           now: Time): Red.Keys {
    Red.Registered(c, Red.Registered(c, Red.NoKeys(), identity, first, now).state, identity, second, now).state
  }

  /** The run up to the moment the script is sent. */
  lemma OvertakenRunEnds(c: Settings, identity: AgentIdentity, first: AgentLease, second: AgentLease, draft: Draft,
                         now: Time)
    requires c.Positive() && first.key == identity.key
    ensures var start := World(Red.NoKeys(), map[]); var events := OvertakenRun(identity, first, second, draft, now);
            && Runs(c, start, events)
            && var end := After(c, start, events);
               && 0 in end.clients && end.clients[0].RunsScript?
               && end.clients[0].lease == first && end.clients[0].expected == None
               && end.keys == TwiceRegistered(c, identity, first, second, now)
  {
    var w0 := World(Red.NoKeys(), map[]);
    var r1 := Red.Registered(c, w0.keys, identity, first, now);
    var registers := [Begins(0, Register(identity, first))] + Burst(0, now, 3);
    var writes := [Begins(0, PutContext(first, None, draft))] + Burst(0, now, 2);
    var overtakes := [Begins(1, Register(identity, second))] + Burst(1, now, 3);
    CallRuns(c, w0, 0, Register(identity, first), now, 3);
    var w1 := After(c, w0, registers);
    assert w1.keys == r1.state && w1.clients[0] == Answered(r1.answer);
    CallRuns(c, w1, 0, PutContext(first, None, draft), now, 2);
    var w2 := After(c, w1, writes);
    assert w2.keys == r1.state && w2.clients[0].RunsScript? && w2.clients[0].lease == first;
    CallRuns(c, w2, 1, Register(identity, second), now, 3);
    RunsJoin(c, w1, writes, overtakes);
    RunsJoin(c, w0, registers, writes + overtakes);
  }

  /** Main result: the check is not repeated by the script. From empty keys a holder can be replaced between the two,
      its lease held at no moment any more, and its script still wins. */
  lemma ReplacedHolderCanStillWin(c: Settings, identity: AgentIdentity, first: AgentLease, second: AgentLease,
                                  draft: Draft, now: Time)
    requires c.Positive() && first.key == identity.key && first.leaseId != second.leaseId
    ensures var start := World(Red.NoKeys(), map[]); var events := OvertakenRun(identity, first, second, draft, now);
            && Runs(c, start, events)
            && var end := After(c, start, events);
               && (forall at :: !Red.HoldsLease(end.keys, first, at))
               && Enabled(end, Advances(0, now))
               && WinOf(c, end, Advances(0, now), Token(first.key)) == Some(Win(None, 1))
  {
    OvertakenRunEnds(c, identity, first, second, draft, now);
  }
}
