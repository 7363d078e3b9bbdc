/** Redis against the reference store: the same answers on every sequential trace, and exactly where they part. */
module ActiveSimulation {
  import opened Prelude
  import opened OrderedDict
  import opened ActiveModel
  import Mem = ReferenceSpec
  import Red = RedisSpec

  /** One call, its clock reading, and the keys Redis happens to have collected just before it. */
  datatype Timed = Timed(now: Time, call: Call, swept: Red.Sweep)

  /** Everything an answer says except the presence version, which the two stores number differently. */
  function Essence(a: Answer): Answer {
    if a.PresenceIs? then PresenceIs(a.presence.(version := 0)) else a
  }

  function OnMemory(c: Settings, m: Mem.Memory, step: Timed): Turn<Mem.Memory> {
    Mem.Serve(c, m, step.call, step.now)
  }

  function OnRedis(c: Settings, r: Red.Keys, step: Timed): Turn<Red.Keys> {
    Red.Serve(c, Red.Collect(r, step.swept, step.now), step.call, step.now)
  }

  // ---- the relation ----

  ghost predicate TokensDiffer(keys: set<Key>) {
    forall j, k :: j in keys && k in keys && j != k ==> Token(j) != Token(k)
  }

  /** Leases as sessions issue them: one id each, a whole number of seconds, no longer than a presence lasts. */
  ghost predicate WellIssued(c: Settings, leases: set<AgentLease>) {
    && (forall a, b :: a in leases && b in leases && a.leaseId == b.leaseId ==> a == b)
    && (forall a :: a in leases ==> 0 < a.Ttl() <= c.presenceTtl * SECOND && a.Ttl() % SECOND == 0)
  }

  /** Redis may have dropped what lapsed; what it still has, and all that is live, is what the reference store has. */
  ghost predicate LeasesAgree(m: Mem.Memory, r: Red.Keys, k: Key, now: Time) {
    var t := Token(k);
    && (t in r.leases ==>
          && k in m.leases && r.leases[t].deadline == m.leases[k].expiresAt
          && r.leases[t].value == Red.LeaseValue(m.leases[k].leaseId, m.leases[k].expiresAt))
    && (k in m.leases && !m.leases[k].IsExpired(now) ==> t in r.leases)
  }

  ghost predicate PresencesAgree(m: Mem.Memory, r: Red.Keys, k: Key, now: Time) {
    var t := Token(k);
    && (t in r.presences ==> k in m.presences.at
                             && r.presences[t].value.(version := 0) == m.presences.at[k].(version := 0)
                             && r.presences[t].deadline == m.presences.at[k].expiresAt)
    && (k in m.presences.at && !m.presences.at[k].IsExpired(now) ==> t in r.presences)
  }

  ghost predicate ContextsAgree(m: Mem.Memory, r: Red.Keys, k: Key, now: Time) {
    var t := Token(k);
    && (t in r.contexts ==>
          k in m.contexts.at && r.contexts[t] == Red.Entry(m.contexts.at[k], m.contexts.at[k].expiresAt))
    && (k in m.contexts.at && !m.contexts.at[k].IsExpired(now) ==> t in r.contexts)
  }

  /** Lease and presence come and go together, the presence never the first to lapse; the counter is the context's
      version. */
  ghost predicate Coherent(leases: set<AgentLease>, m: Mem.Memory, k: Key) {
    && (k in m.leases <==> k in m.presences.at)
    && (k in m.leases ==> m.leases[k].expiresAt <= m.presences.at[k].expiresAt)
    && (k in m.leases ==> k in m.leaseTtl
                          && forall l :: l in leases && l.leaseId == m.leases[k].leaseId ==> m.leaseTtl[k] == l.Ttl())
    && (k in m.versions <==> k in m.contexts.at)
    && (k in m.versions ==> m.versions[k] == m.contexts.at[k].version >= 1)
  }

  ghost predicate KeyAgrees(leases: set<AgentLease>, m: Mem.Memory, r: Red.Keys, k: Key, now: Time) {
    LeasesAgree(m, r, k, now) && PresencesAgree(m, r, k, now) && ContextsAgree(m, r, k, now) && Coherent(leases, m, k)
  }

  ghost predicate Agree(keys: set<Key>, leases: set<AgentLease>, m: Mem.Memory, r: Red.Keys, now: Time) {
    forall k :: k in keys ==> KeyAgrees(leases, m, r, k, now)
  }

  lemma EmptyStoresAgree(keys: set<Key>, leases: set<AgentLease>, now: Time)
    ensures Agree(keys, leases, Mem.Fresh(), Red.NoKeys(), now)
  {
  }

  /** Time and the garbage collector never break agreement. */
  lemma CollectingIsInvisible(keys: set<Key>, leases: set<AgentLease>, m: Mem.Memory, r: Red.Keys, swept: Red.Sweep,
                              was: Time, now: Time)
    requires Agree(keys, leases, m, r, was) && was <= now
    ensures Agree(keys, leases, m, Red.Collect(r, swept, now), now)
  {
    forall k | k in keys
      ensures KeyAgrees(leases, m, Red.Collect(r, swept, now), k, now)
    {
      assert KeyAgrees(leases, m, r, k, was);
    }
  }

  // ---- the hypotheses of a trace ----

  /** The incarnation a call is about. */
  function Subject(call: Call): Key {
    match call
    case Register(identity, _) => identity.key
    case Renew(lease) => lease.key
    case Unregister(lease) => lease.key
    case PutContext(lease, _, _) => lease.key
    case GetContext(k) => k
    case GetPresence(k) => k
  }

  ghost predicate Presents(call: Call, leases: set<AgentLease>) {
    match call
    case Register(_, lease) => lease in leases
    case Renew(lease) => lease in leases
    case Unregister(lease) => lease in leases
    case PutContext(lease, _, _) => lease in leases
    case _ => true
  }

  /** Registered at the instant it was issued. */
  predicate OnTime(call: Call, now: Time) {
    call.Register? ==> call.lease.issuedAt == now
  }

  /** Something of this incarnation can still be read. */
  predicate Visible(m: Mem.Memory, k: Key, now: Time) {
    Mem.PresenceAt(m, k, now) != NoPresence || Mem.ContextAt(m, k, now) != NoContext
  }

  /** A write comes before the context it replaces has lapsed. */
  predicate NoLapsedContext(m: Mem.Memory, call: Call, now: Time) {
    call.PutContext? && call.lease.key in m.contexts.at ==> !m.contexts.at[call.lease.key].IsExpired(now)
  }

  /** Nobody unregisters with a foreign lease over a stored one that lapsed. */
  predicate NoLateStranger(m: Mem.Memory, call: Call, now: Time) {
    call.Unregister? && call.lease.key in m.leases && m.leases[call.lease.key].leaseId != call.lease.leaseId
    ==> !m.leases[call.lease.key].IsExpired(now)
  }

  /** The two stores can answer this call alike: no valid lease writes over a lapsed context, and no late stranger
      unregisters while there is something left to read. */
  predicate Unambiguous(m: Mem.Memory, call: Call, now: Time) {
    && (call.PutContext? && Mem.Valid(m, call.lease, now) ==> NoLapsedContext(m, call, now))
    && (NoLateStranger(m, call, now) || !Visible(m, Subject(call), now))
  }

  ghost predicate Admissible(keys: set<Key>, leases: set<AgentLease>, m: Mem.Memory, step: Timed) {
    && Subject(step.call) in keys
    && Presents(step.call, leases)
    && OnTime(step.call, step.now)
    && Unambiguous(m, step.call, step.now)
  }

  /** A sequential trace under one clock that never runs back. */
  ghost predicate AdmissibleTrace(c: Settings, keys: set<Key>, leases: set<AgentLease>, m: Mem.Memory, was: Time,
                                  trace: seq<Timed>)
    decreases |trace|
  {
    trace != [] ==>
      && was <= trace[0].now
      && Admissible(keys, leases, m, trace[0])
      && AdmissibleTrace(c, keys, leases, OnMemory(c, m, trace[0]).state, trace[0].now, trace[1..])
  }

  function MemoryAnswers(c: Settings, m: Mem.Memory, trace: seq<Timed>): seq<Answer>
    decreases |trace|
  {
    if trace == [] then []
    else
      var turn := OnMemory(c, m, trace[0]);
      [Essence(turn.answer)] + MemoryAnswers(c, turn.state, trace[1..])
  }

  function RedisAnswers(c: Settings, r: Red.Keys, trace: seq<Timed>): seq<Answer>
    decreases |trace|
  {
    if trace == [] then []
    else
      var turn := OnRedis(c, r, trace[0]);
      [Essence(turn.answer)] + RedisAnswers(c, turn.state, trace[1..])
  }

  // ---- one call ----

  /** What a call leaves alone on the reference store: every other incarnation. */
  lemma MemoryFrame(c: Settings, m: Mem.Memory, call: Call, now: Time, k: Key)
    requires k != Subject(call)
    ensures var after := Mem.Serve(c, m, call, now).state;
            && (k in after.leases <==> k in m.leases) && (k in m.leases ==> after.leases[k] == m.leases[k])
            && (k in after.leaseTtl <==> k in m.leaseTtl) && (k in m.leaseTtl ==> after.leaseTtl[k] == m.leaseTtl[k])
            && (k in after.versions <==> k in m.versions) && (k in m.versions ==> after.versions[k] == m.versions[k])
            && (k in after.presences.at <==> k in m.presences.at)
            && (k in m.presences.at ==> after.presences.at[k] == m.presences.at[k])
            && (k in after.contexts.at <==> k in m.contexts.at)
            && (k in m.contexts.at ==> after.contexts.at[k] == m.contexts.at[k])
  {
  }

  lemma RedisFrame(c: Settings, r: Red.Keys, call: Call, now: Time, t: string)
    requires t != Token(Subject(call))
    ensures var after := Red.Serve(c, r, call, now).state;
            && (t in after.leases <==> t in r.leases) && (t in r.leases ==> after.leases[t] == r.leases[t])
            && (t in after.presences <==> t in r.presences)
            && (t in r.presences ==> after.presences[t] == r.presences[t])
            && (t in after.contexts <==> t in r.contexts) && (t in r.contexts ==> after.contexts[t] == r.contexts[t])
  {
  }

  /** A whole number of seconds survives Redis's truncation. */
  lemma WholeSecondsKept(l: AgentLease)
    requires l.Ttl() > 0 && l.Ttl() % SECOND == 0
    ensures Red.LeaseSeconds(l) * SECOND == l.Ttl()
  {
  }

  ghost predicate AnswersAgree(c: Settings, m: Mem.Memory, r: Red.Keys, call: Call, now: Time) {
    Essence(Mem.Serve(c, m, call, now).answer) == Essence(Red.Serve(c, r, call, now).answer)
  }

  ghost predicate StatesAgree(c: Settings, leases: set<AgentLease>, m: Mem.Memory, r: Red.Keys, call: Call, now: Time) {
    KeyAgrees(leases, Mem.Serve(c, m, call, now).state, Red.Serve(c, r, call, now).state, Subject(call), now)
  }

  lemma RegisterAgrees(c: Settings, leases: set<AgentLease>, m: Mem.Memory, r: Red.Keys, call: Call, now: Time)
    requires WellIssued(c, leases) && KeyAgrees(leases, m, r, Subject(call), now)
    requires call.Register? && call.lease in leases && OnTime(call, now)
    ensures AnswersAgree(c, m, r, call, now) && StatesAgree(c, leases, m, r, call, now)
  {
    WholeSecondsKept(call.lease);
  }

  lemma RenewAgrees(c: Settings, leases: set<AgentLease>, m: Mem.Memory, r: Red.Keys, call: Call, now: Time)
    requires WellIssued(c, leases) && KeyAgrees(leases, m, r, Subject(call), now)
    requires call.Renew? && call.lease in leases
    ensures AnswersAgree(c, m, r, call, now)
    ensures StatesAgree(c, leases, m, r, call, now)
  {
    WholeSecondsKept(call.lease);
  }

  lemma UnregisterAgrees(c: Settings, leases: set<AgentLease>, m: Mem.Memory, r: Red.Keys, call: Call, now: Time)
    requires KeyAgrees(leases, m, r, Subject(call), now)
    requires call.Unregister? && Unambiguous(m, call, now)
    ensures AnswersAgree(c, m, r, call, now) && StatesAgree(c, leases, m, r, call, now)
  {
  }

  lemma PutAnswersAgree(c: Settings, leases: set<AgentLease>, m: Mem.Memory, r: Red.Keys, call: Call, now: Time)
    requires KeyAgrees(leases, m, r, Subject(call), now)
    requires call.PutContext? && Unambiguous(m, call, now)
    ensures AnswersAgree(c, m, r, call, now)
  {
  }

  lemma PutStatesAgree(c: Settings, leases: set<AgentLease>, m: Mem.Memory, r: Red.Keys, call: Call, now: Time)
    requires KeyAgrees(leases, m, r, Subject(call), now)
    requires call.PutContext? && Unambiguous(m, call, now)
    ensures StatesAgree(c, leases, m, r, call, now)
  {
    PutAnswersAgree(c, leases, m, r, call, now);
  }

  lemma SubjectAgrees(c: Settings, leases: set<AgentLease>, m: Mem.Memory, r: Red.Keys, call: Call, now: Time)
    requires WellIssued(c, leases) && KeyAgrees(leases, m, r, Subject(call), now)
    requires Presents(call, leases) && OnTime(call, now) && Unambiguous(m, call, now)
    ensures AnswersAgree(c, m, r, call, now) && StatesAgree(c, leases, m, r, call, now)
  {
    match call
    case Register(_, _) => RegisterAgrees(c, leases, m, r, call, now);
    case Renew(_) => RenewAgrees(c, leases, m, r, call, now);
    case Unregister(_) => UnregisterAgrees(c, leases, m, r, call, now);
    case PutContext(_, _, _) =>
      PutAnswersAgree(c, leases, m, r, call, now);
      PutStatesAgree(c, leases, m, r, call, now);
    case GetContext(_) =>
    case GetPresence(_) =>
  }

  /** Main step: one admissible call gets the same answer from both stores and leaves them in agreement. */
  lemma {:induction false} StepAgrees(c: Settings, keys: set<Key>, leases: set<AgentLease>, m: Mem.Memory, r: Red.Keys,
                                      step: Timed, was: Time)
    requires TokensDiffer(keys) && WellIssued(c, leases)
    requires Agree(keys, leases, m, r, was) && was <= step.now && Admissible(keys, leases, m, step)
    ensures Essence(OnMemory(c, m, step).answer) == Essence(OnRedis(c, r, step).answer)
    ensures Agree(keys, leases, OnMemory(c, m, step).state, OnRedis(c, r, step).state, step.now)
  {
    var swept := Red.Collect(r, step.swept, step.now);
    CollectingIsInvisible(keys, leases, m, r, step.swept, was, step.now);
    var subject := Subject(step.call);
    SubjectAgrees(c, leases, m, swept, step.call, step.now);
    forall k | k in keys
      ensures KeyAgrees(leases, OnMemory(c, m, step).state, OnRedis(c, r, step).state, k, step.now)
    {
      assert KeyAgrees(leases, m, swept, k, step.now);
      if k != subject {
        MemoryFrame(c, m, step.call, step.now, k);
        RedisFrame(c, swept, step.call, step.now, Token(k));
      }
    }
  }

  lemma {:induction false} TraceAgrees(c: Settings, keys: set<Key>, leases: set<AgentLease>, m: Mem.Memory, r: Red.Keys,
                                       trace: seq<Timed>, was: Time)
    requires TokensDiffer(keys) && WellIssued(c, leases)
    requires Agree(keys, leases, m, r, was) && AdmissibleTrace(c, keys, leases, m, was, trace)
    ensures MemoryAnswers(c, m, trace) == RedisAnswers(c, r, trace)
    decreases |trace|
  {
    if trace != [] {
      StepAgrees(c, keys, leases, m, r, trace[0], was);
      TraceAgrees(c, keys, leases, OnMemory(c, m, trace[0]).state, OnRedis(c, r, trace[0]).state, trace[1..],
                  trace[0].now);
    }
  }

  /** Main result: on every admissible trace from empty stores, whatever Redis collects and when, the two stores answer
      alike. */
  lemma StoresAnswerAlike(c: Settings, keys: set<Key>, leases: set<AgentLease>, trace: seq<Timed>, start: Time)
    requires TokensDiffer(keys) && WellIssued(c, leases)
    requires AdmissibleTrace(c, keys, leases, Mem.Fresh(), start, trace)
    ensures MemoryAnswers(c, Mem.Fresh(), trace) == RedisAnswers(c, Red.NoKeys(), trace)
  {
    EmptyStoresAgree(keys, leases, start);
    TraceAgrees(c, keys, leases, Mem.Fresh(), Red.NoKeys(), trace, start);
  }

  // ---- each hypothesis is exact ----

  /** Two writers part over one incarnation exactly when a valid lease writes after its last context lapsed: the
      reference store counts on, Redis may start over. */
  lemma PutAgreesIff(c: Settings, leases: set<AgentLease>, m: Mem.Memory, r: Red.Keys, call: Call, now: Time)
    requires call.PutContext? && KeyAgrees(leases, m, r, Subject(call), now)
    ensures (forall swept :: AnswersAgree(c, m, Red.Collect(r, swept, now), call, now))
            <==> (Mem.Valid(m, call.lease, now) ==> NoLapsedContext(m, call, now))
  {
    var k := call.lease.key;
    forall swept
      ensures KeyAgrees(leases, m, Red.Collect(r, swept, now), k, now)
    {
      CollectingIsInvisible({k}, leases, m, r, swept, now, now);
    }
    if Mem.Valid(m, call.lease, now) && !NoLapsedContext(m, call, now) {
      LapsedContextDiverges(c, leases, m, r, call, now);
    } else {
      forall swept
        ensures AnswersAgree(c, m, Red.Collect(r, swept, now), call, now)
      {
        PutAnswersAgree(c, leases, m, Red.Collect(r, swept, now), call, now);
      }
    }
  }

  lemma LapsedContextDiverges(c: Settings, leases: set<AgentLease>, m: Mem.Memory, r: Red.Keys, call: Call, now: Time)
    requires call.PutContext? && KeyAgrees(leases, m, r, Subject(call), now)
    requires Mem.Valid(m, call.lease, now) && !NoLapsedContext(m, call, now)
    ensures var swept := Red.Sweep({}, {Token(call.lease.key)}, {});
            !AnswersAgree(c, m, Red.Collect(r, swept, now), call, now)
  {
    var swept := Red.Sweep({}, {Token(call.lease.key)}, {});
    var after := Red.Collect(r, swept, now);
    CollectingIsInvisible({call.lease.key}, leases, m, r, swept, now, now);
    assert KeyAgrees(leases, m, after, call.lease.key, now);
    assert Token(call.lease.key) !in after.contexts;
  }

  /** What is read of an incarnation after a call gets the same answers from both stores. */
  ghost predicate ReadsAgree(c: Settings, m: Mem.Memory, r: Red.Keys, call: Call, now: Time) {
    var k, after, reds := Subject(call), Mem.Serve(c, m, call, now).state, Red.Serve(c, r, call, now).state;
    AnswersAgree(c, after, reds, GetPresence(k), now) && AnswersAgree(c, after, reds, GetContext(k), now)
  }

  /** Unregistering is told apart exactly when a foreign lease arrives after the stored one lapsed and something can
      still be read: the reference store stays inert, Redis may have forgotten whose it was and clears it, and a read
      shows it. */
  lemma UnregisterAgreesIff(c: Settings, leases: set<AgentLease>, m: Mem.Memory, r: Red.Keys, call: Call, now: Time)
    requires call.Unregister? && KeyAgrees(leases, m, r, Subject(call), now)
    ensures (forall swept :: StatesAgree(c, leases, m, Red.Collect(r, swept, now), call, now))
            <==> (NoLateStranger(m, call, now) || !Visible(m, call.lease.key, now))
    ensures (forall swept :: ReadsAgree(c, m, Red.Collect(r, swept, now), call, now))
            <==> (NoLateStranger(m, call, now) || !Visible(m, call.lease.key, now))
  {
    var k := call.lease.key;
    forall swept
      ensures NoLateStranger(m, call, now) || !Visible(m, k, now) ==>
                && StatesAgree(c, leases, m, Red.Collect(r, swept, now), call, now)
                && ReadsAgree(c, m, Red.Collect(r, swept, now), call, now)
    {
      CollectingIsInvisible({k}, leases, m, r, swept, now, now);
      assert KeyAgrees(leases, m, Red.Collect(r, swept, now), k, now);
      if NoLateStranger(m, call, now) || !Visible(m, k, now) {
        UnregisterAgrees(c, leases, m, Red.Collect(r, swept, now), call, now);
      }
      if StatesAgree(c, leases, m, Red.Collect(r, swept, now), call, now) {
        AgreeingStatesReadAlike(c, leases, m, Red.Collect(r, swept, now), call, now);
      }
    }
    if !NoLateStranger(m, call, now) && Visible(m, k, now) {
      var swept := Red.Sweep({}, {}, {Token(k)});
      LateStrangerDiverges(c, leases, m, r, call, now);
      if StatesAgree(c, leases, m, Red.Collect(r, swept, now), call, now) {
        AgreeingStatesReadAlike(c, leases, m, Red.Collect(r, swept, now), call, now);
      }
    }
  }

  lemma AgreeingStatesReadAlike(c: Settings, leases: set<AgentLease>, m: Mem.Memory, r: Red.Keys, call: Call, now: Time)
    requires StatesAgree(c, leases, m, r, call, now)
    ensures ReadsAgree(c, m, r, call, now)
  {
  }

  lemma LateStrangerDiverges(c: Settings, leases: set<AgentLease>, m: Mem.Memory, r: Red.Keys, call: Call, now: Time)
    requires call.Unregister? && KeyAgrees(leases, m, r, Subject(call), now)
    requires !NoLateStranger(m, call, now) && Visible(m, call.lease.key, now)
    ensures !ReadsAgree(c, m, Red.Collect(r, Red.Sweep({}, {}, {Token(call.lease.key)}), now), call, now)
  {
    var swept := Red.Collect(r, Red.Sweep({}, {}, {Token(call.lease.key)}), now);
    assert Token(call.lease.key) !in swept.leases;
    assert Mem.Serve(c, m, call, now).state == m;
  }

  /** Register, then make one more call `later` microseconds on: do both stores answer it alike? */
  ghost predicate AlikeAfterRegister(c: Settings, identity: AgentIdentity, lease: AgentLease, now: Time, call: Call,
                                     later: nat) {
    AnswersAgree(c, Mem.Registered(c, Mem.Fresh(), identity, lease, now).state,
                 Red.Registered(c, Red.NoKeys(), identity, lease, now).state, call, now + later)
  }

  lemma LongLeaseDiverges(c: Settings, identity: AgentIdentity, lease: AgentLease, expected: Option<int>, draft: Draft)
    requires c.Positive() && identity.key == lease.key && lease.Ttl() > c.presenceTtl * SECOND
    requires lease.Ttl() % SECOND == 0
    ensures !AlikeAfterRegister(c, identity, lease, lease.issuedAt, PutContext(lease, expected, draft),
                                c.presenceTtl * SECOND)
  {
    WholeSecondsKept(lease);
  }

  lemma ShortLeaseAgrees(c: Settings, identity: AgentIdentity, lease: AgentLease, expected: Option<int>, draft: Draft,
                         later: nat)
    requires c.Positive() && identity.key == lease.key && 0 < lease.Ttl() <= c.presenceTtl * SECOND
    requires lease.Ttl() % SECOND == 0
    ensures AlikeAfterRegister(c, identity, lease, lease.issuedAt, PutContext(lease, expected, draft), later)
  {
    WholeSecondsKept(lease);
  }

  /** Redis refuses a write once the presence lapsed, the reference store does not look: they agree at every delay
      exactly when leases do not outlast presences. */
  lemma LeaseMustNotOutlastPresence(c: Settings, identity: AgentIdentity, lease: AgentLease, expected: Option<int>,
                                    draft: Draft)
    requires c.Positive() && identity.key == lease.key && 0 < lease.Ttl() && lease.Ttl() % SECOND == 0
    ensures (forall later: nat :: AlikeAfterRegister(c, identity, lease, lease.issuedAt,
                                                     PutContext(lease, expected, draft), later))
            <==> lease.Ttl() <= c.presenceTtl * SECOND
  {
    var call := PutContext(lease, expected, draft);
    if lease.Ttl() > c.presenceTtl * SECOND {
      LongLeaseDiverges(c, identity, lease, expected, draft);
    } else {
      forall later: nat
        ensures AlikeAfterRegister(c, identity, lease, lease.issuedAt, call, later)
      {
        ShortLeaseAgrees(c, identity, lease, expected, draft, later);
      }
    }
  }

  /** The reference store keeps the expiry the lease carries, Redis dates it from the registration in whole seconds:
      they renew alike at every delay exactly when the two instants coincide. */
  lemma ExpiryMustMatchRegistration(c: Settings, identity: AgentIdentity, lease: AgentLease, now: Time)
    requires c.Positive() && identity.key == lease.key && 0 < lease.Ttl() <= c.presenceTtl * SECOND
    requires lease.issuedAt <= now
    ensures (forall later: nat :: AlikeAfterRegister(c, identity, lease, now, Renew(lease), later))
            <==> lease.expiresAt == now + Red.LeaseSeconds(lease) * SECOND
  {
    var call := Renew(lease);
    var other := now + Red.LeaseSeconds(lease) * SECOND;
    assert Red.LeaseSeconds(lease) <= c.presenceTtl;
    if lease.expiresAt < other {
      var later: nat := if lease.expiresAt <= now then 0 else lease.expiresAt - now;
      assert !AlikeAfterRegister(c, identity, lease, now, call, later);
    } else if other < lease.expiresAt {
      assert !AlikeAfterRegister(c, identity, lease, now, call, other - now);
    } else {
      forall later: nat
        ensures AlikeAfterRegister(c, identity, lease, now, call, later)
      {
      }
    }
  }

  /** Another incarnation's presence shows through in Redis exactly when the tokens collide. */
  lemma TokensMustDiffer(c: Settings, identity: AgentIdentity, lease: AgentLease, now: Time, other: Key)
    requires c.Positive() && other != identity.key
    ensures AlikeAfterRegister(c, identity, lease, now, GetPresence(other), 0) <==> Token(other) != Token(identity.key)
  {
  }

  /** Ids may contain ':', so different incarnations can share a token. */
  lemma TokensCanCollide()
    ensures var j, k := Key("a", "b:c"), Key("a:b", "c"); j != k && Token(j) == Token(k)
  {
    assert "a" + ":" + "b:c" == "a:b" + ":" + "c";
  }

  // ---- traces from empty stores on which the answers part ----

  /** Stores that part later part on the whole trace. */
  lemma PartingLater(c: Settings, m: Mem.Memory, r: Red.Keys, first: Timed, rest: seq<Timed>)
    requires MemoryAnswers(c, OnMemory(c, m, first).state, rest) != RedisAnswers(c, OnRedis(c, r, first).state, rest)
    ensures MemoryAnswers(c, m, [first] + rest) != RedisAnswers(c, r, [first] + rest)
  {
    assert ([first] + rest)[1..] == rest;
    assert MemoryAnswers(c, m, [first] + rest)[1..] == MemoryAnswers(c, OnMemory(c, m, first).state, rest);
    assert RedisAnswers(c, r, [first] + rest)[1..] == RedisAnswers(c, OnRedis(c, r, first).state, rest);
  }

  lemma PartingNow(c: Settings, m: Mem.Memory, r: Red.Keys, last: Timed)
    requires Essence(OnMemory(c, m, last).answer) != Essence(OnRedis(c, r, last).answer)
    ensures MemoryAnswers(c, m, [last]) != RedisAnswers(c, r, [last])
  {
    assert MemoryAnswers(c, m, [last])[0] != RedisAnswers(c, r, [last])[0];
  }

  function Untouched(): Red.Sweep {
    Red.Sweep({}, {}, {})
  }

  /** Collecting nothing changes nothing. */
  lemma UntouchedKeys(r: Red.Keys, now: Time)
    ensures Red.Collect(r, Untouched(), now) == r
  {
    assert Red.Collect(r, Untouched(), now).presences == r.presences;
    assert Red.Collect(r, Untouched(), now).contexts == r.contexts;
    assert Red.Collect(r, Untouched(), now).leases == r.leases;
  }

  /** With the default lifetimes: a session registers, writes, renews twice past its context's minute, and writes
      again. */
  function LapsedContextTrace(identity: AgentIdentity, lease: AgentLease, draft: Draft): seq<Timed> {
    var put := PutContext(lease, None, draft);
    [Timed(0, Register(identity, lease), Untouched()),
     Timed(0, put, Untouched()),
     Timed(29 * SECOND, Renew(lease), Untouched()),
     Timed(58 * SECOND, Renew(lease), Untouched()),
     Timed(60 * SECOND, put, Red.Sweep({}, {Token(lease.key)}, {}))]
  }

  /** Both stores hold a half-minute lease granted at `last`, and a context of this version until then. */
  ghost predicate HalfMinute(m: Mem.Memory, r: Red.Keys, lease: AgentLease, last: Time, version: nat, until: Time) {
    var k, t := lease.key, Token(lease.key);
    && k in m.leases && m.leases[k].leaseId == lease.leaseId && m.leases[k].expiresAt == last + 30 * SECOND
    && k in m.leaseTtl && m.leaseTtl[k] == 30 * SECOND
    && k in m.presences.at && m.presences.at[k].expiresAt == last + 30 * SECOND
    && Mem.VersionOf(m, k) == version
    && t in r.leases && r.leases[t].value == Red.LeaseValue(lease.leaseId, last + 30 * SECOND)
    && t in r.presences && r.presences[t].value.expiresAt == last + 30 * SECOND
    && Red.StoredVersion(r, t) == version
    && (version > 0 ==> t in r.contexts && r.contexts[t].deadline == until)
  }

  lemma RegisterReaches(c: Settings, identity: AgentIdentity, lease: AgentLease)
    requires c.presenceTtl == 30 && lease.key == identity.key && lease.issuedAt == 0 && lease.expiresAt == 30 * SECOND
    ensures var step := Timed(0, Register(identity, lease), Untouched());
            HalfMinute(OnMemory(c, Mem.Fresh(), step).state, OnRedis(c, Red.NoKeys(), step).state, lease, 0, 0, 0)
  {
    UntouchedKeys(Red.NoKeys(), 0);
  }

  lemma PutReaches(c: Settings, m: Mem.Memory, r: Red.Keys, lease: AgentLease, draft: Draft)
    requires c.contextTtl == 60 && HalfMinute(m, r, lease, 0, 0, 0)
    ensures var step := Timed(0, PutContext(lease, None, draft), Untouched());
            HalfMinute(OnMemory(c, m, step).state, OnRedis(c, r, step).state, lease, 0, 1, 60 * SECOND)
  {
    UntouchedKeys(r, 0);
  }

  lemma RenewReaches(c: Settings, m: Mem.Memory, r: Red.Keys, lease: AgentLease, last: Time, version: nat, until: Time,
                     now: Time)
    requires c.presenceTtl == 30 && HalfMinute(m, r, lease, last, version, until) && last <= now < last + 30 * SECOND
    requires lease.issuedAt == 0 && lease.expiresAt == 30 * SECOND
    ensures var step := Timed(now, Renew(lease), Untouched());
            HalfMinute(OnMemory(c, m, step).state, OnRedis(c, r, step).state, lease, now, version, until)
  {
    UntouchedKeys(r, now);
  }

  lemma LastPutParts(c: Settings, m: Mem.Memory, r: Red.Keys, lease: AgentLease, draft: Draft)
    requires HalfMinute(m, r, lease, 58 * SECOND, 1, 60 * SECOND)
    ensures var step := Timed(60 * SECOND, PutContext(lease, None, draft), Red.Sweep({}, {Token(lease.key)}, {}));
            Essence(OnMemory(c, m, step).answer) != Essence(OnRedis(c, r, step).answer)
  {
    var step := Timed(60 * SECOND, PutContext(lease, None, draft), Red.Sweep({}, {Token(lease.key)}, {}));
    var swept := Red.Collect(r, step.swept, step.now);
    assert Token(lease.key) !in swept.contexts;
    assert OnMemory(c, m, step).answer.ContextIs? && OnMemory(c, m, step).answer.context.version == 2;
  }

  /** Main result: from empty stores, with the default lifetimes, that trace is answered differently. */
  lemma LapsedContextIsReachable(deployment: string, identity: AgentIdentity, leaseId: string, draft: Draft)
    ensures var c, lease := Settings(deployment, 60, 30), AgentLease(leaseId, identity.key, 0, 30 * SECOND);
            var trace := LapsedContextTrace(identity, lease, draft);
            MemoryAnswers(c, Mem.Fresh(), trace) != RedisAnswers(c, Red.NoKeys(), trace)
  {
    var c, lease := Settings(deployment, 60, 30), AgentLease(leaseId, identity.key, 0, 30 * SECOND);
    var trace := LapsedContextTrace(identity, lease, draft);
    var m0, r0 := Mem.Fresh(), Red.NoKeys();
    var m1, r1 := OnMemory(c, m0, trace[0]).state, OnRedis(c, r0, trace[0]).state;
    RegisterReaches(c, identity, lease);
    PartsFromSecond(c, m1, r1, identity, lease, draft);
    PartingLater(c, m0, r0, trace[0], trace[1..]);
    assert [trace[0]] + trace[1..] == trace;
  }

  lemma PartsFromSecond(c: Settings, m: Mem.Memory, r: Red.Keys, identity: AgentIdentity, lease: AgentLease,
                        draft: Draft)
    requires c.contextTtl == 60 && c.presenceTtl == 30 && lease.issuedAt == 0 && lease.expiresAt == 30 * SECOND
    requires HalfMinute(m, r, lease, 0, 0, 0)
    ensures var trace := LapsedContextTrace(identity, lease, draft);
            MemoryAnswers(c, m, trace[1..]) != RedisAnswers(c, r, trace[1..])
  {
    var trace := LapsedContextTrace(identity, lease, draft);
    var m2, r2 := OnMemory(c, m, trace[1]).state, OnRedis(c, r, trace[1]).state;
    PutReaches(c, m, r, lease, draft);
    PartsFromThird(c, m2, r2, identity, lease, draft);
    PartingLater(c, m, r, trace[1], trace[2..]);
    assert [trace[1]] + trace[2..] == trace[1..];
  }

  lemma PartsFromThird(c: Settings, m: Mem.Memory, r: Red.Keys, identity: AgentIdentity, lease: AgentLease,
                       draft: Draft)
    requires c.contextTtl == 60 && c.presenceTtl == 30 && lease.issuedAt == 0 && lease.expiresAt == 30 * SECOND
    requires HalfMinute(m, r, lease, 0, 1, 60 * SECOND)
    ensures var trace := LapsedContextTrace(identity, lease, draft);
            MemoryAnswers(c, m, trace[2..]) != RedisAnswers(c, r, trace[2..])
  {
    var trace := LapsedContextTrace(identity, lease, draft);
    var m3, r3 := OnMemory(c, m, trace[2]).state, OnRedis(c, r, trace[2]).state;
    RenewReaches(c, m, r, lease, 0, 1, 60 * SECOND, 29 * SECOND);
    var m4, r4 := OnMemory(c, m3, trace[3]).state, OnRedis(c, r3, trace[3]).state;
    RenewReaches(c, m3, r3, lease, 29 * SECOND, 1, 60 * SECOND, 58 * SECOND);
    LastPutParts(c, m4, r4, lease, draft);
    PartingNow(c, m4, r4, trace[4]);
    PartingLater(c, m3, r3, trace[3], [trace[4]]);
    PartingLater(c, m, r, trace[2], [trace[3]] + [trace[4]]);
    assert [trace[2]] + ([trace[3]] + [trace[4]]) == trace[2..];
  }

  /** One incarnation registered twice; the first holder unregisters once the second's lease has lapsed and been
      collected. */
  function LateStrangerTrace(identity: AgentIdentity, first: AgentLease, second: AgentLease): seq<Timed> {
    [Timed(0, Register(identity, first), Untouched()),
     Timed(0, Register(identity, second), Untouched()),
     Timed(10 * SECOND, Unregister(first), Red.Sweep({}, {}, {Token(identity.key)})),
     Timed(10 * SECOND, GetPresence(identity.key), Untouched())]
  }

  /** Both stores hold the second registration, of time 0. */
  ghost predicate SecondRegistered(m: Mem.Memory, r: Red.Keys, k: Key, second: AgentLease) {
    && k in m.leases && m.leases[k] == second
    && k in m.presences.at && m.presences.at[k].expiresAt == 30 * SECOND
    && Token(k) in r.leases && r.leases[Token(k)].deadline == 10 * SECOND
  }

  lemma TwiceRegistered(c: Settings, identity: AgentIdentity, first: AgentLease, second: AgentLease)
    requires c.presenceTtl == 30 && second.issuedAt == 0 && second.expiresAt == 10 * SECOND
    ensures var trace := LateStrangerTrace(identity, first, second);
            SecondRegistered(OnMemory(c, OnMemory(c, Mem.Fresh(), trace[0]).state, trace[1]).state,
                             OnRedis(c, OnRedis(c, Red.NoKeys(), trace[0]).state, trace[1]).state, identity.key, second)
  {
    var trace := LateStrangerTrace(identity, first, second);
    var r1 := OnRedis(c, Red.NoKeys(), trace[0]).state;
    UntouchedKeys(r1, 0);
  }

  lemma ReadParts(c: Settings, m: Mem.Memory, r: Red.Keys, identity: AgentIdentity, first: AgentLease,
                  second: AgentLease)
    requires SecondRegistered(m, r, identity.key, second) && first.key == identity.key
    requires first.leaseId != second.leaseId
    ensures var trace := LateStrangerTrace(identity, first, second);
            MemoryAnswers(c, m, trace[2..]) != RedisAnswers(c, r, trace[2..])
  {
    var k, trace := identity.key, LateStrangerTrace(identity, first, second);
    assert Token(k) !in Red.Collect(r, trace[2].swept, 10 * SECOND).leases;
    var m3, r3 := OnMemory(c, m, trace[2]).state, OnRedis(c, r, trace[2]).state;
    assert m3 == m && Token(k) !in r3.presences;
    UntouchedKeys(r3, 10 * SECOND);
    PartingNow(c, m3, r3, trace[3]);
    PartingLater(c, m, r, trace[2], [trace[3]]);
    assert [trace[2]] + [trace[3]] == trace[2..];
  }

  /** Main result: from empty stores, with the default lifetimes, that trace too is answered differently. */
  lemma LateStrangerIsReachable(deployment: string, identity: AgentIdentity, firstId: string, secondId: string)
    requires firstId != secondId
    ensures var c := Settings(deployment, 60, 30);
            var first := AgentLease(firstId, identity.key, 0, 10 * SECOND);
            var second := AgentLease(secondId, identity.key, 0, 10 * SECOND);
            var trace := LateStrangerTrace(identity, first, second);
            MemoryAnswers(c, Mem.Fresh(), trace) != RedisAnswers(c, Red.NoKeys(), trace)
  {
    var c := Settings(deployment, 60, 30);
    var first := AgentLease(firstId, identity.key, 0, 10 * SECOND);
    var second := AgentLease(secondId, identity.key, 0, 10 * SECOND);
    var trace, m0, r0 := LateStrangerTrace(identity, first, second), Mem.Fresh(), Red.NoKeys();
    var m1, r1 := OnMemory(c, m0, trace[0]).state, OnRedis(c, r0, trace[0]).state;
    TwiceRegistered(c, identity, first, second);
    ReadParts(c, OnMemory(c, m1, trace[1]).state, OnRedis(c, r1, trace[1]).state, identity, first, second);
    PartingLater(c, m1, r1, trace[1], trace[2..]);
    PartingLater(c, m0, r0, trace[0], [trace[1]] + trace[2..]);
    assert [trace[0]] + ([trace[1]] + trace[2..]) == trace;
  }
}
