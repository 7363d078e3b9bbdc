/** A lease kept alive: renewals succeed for as long as none comes too late. */
module Renewal {
  import opened Prelude
  import opened ActiveModel
  import opened ActiveSimulation
  import Mem = ReferenceSpec
  import Red = RedisSpec

  /** The holder renews. */
  predicate IsHeartbeat(call: Call, l: AgentLease) {
    call.Renew? && call.lease.key == l.key && call.lease.leaseId == l.leaseId
  }

  /** Nobody registers this incarnation anew, nor does the holder unregister it. Anything else may happen. */
  predicate Undisturbed(call: Call, l: AgentLease) {
    && (call.Register? ==> call.identity.key != l.key)
    && (call.Unregister? && call.lease.key == l.key ==> call.lease.leaseId != l.leaseId)
  }

  ghost predicate Quiet(l: AgentLease, was: Time, trace: seq<Timed>)
    decreases |trace|
  {
    trace != [] ==> was <= trace[0].now && Undisturbed(trace[0].call, l) && Quiet(l, trace[0].now, trace[1..])
  }

  /** Every heartbeat comes within the lease's and the presence's lifetime of the one before. */
  ghost predicate Prompt(c: Settings, l: AgentLease, last: Time, trace: seq<Timed>)
    decreases |trace|
  {
    trace != [] ==>
      if IsHeartbeat(trace[0].call, l)
      then
        && trace[0].now - last < l.Ttl() && trace[0].now - last < c.presenceTtl * SECOND
        && Prompt(c, l, trace[0].now, trace[1..])
      else Prompt(c, l, last, trace[1..])
  }

  ghost predicate AllRenewed(l: AgentLease, trace: seq<Timed>, answers: seq<Answer>) {
    |answers| == |trace| && forall i :: 0 <= i < |trace| && IsHeartbeat(trace[i].call, l) ==> answers[i].PresenceIs?
  }

  /** The store as the last heartbeat, or the registration, left it for this lease. */
  ghost predicate Held(c: Settings, m: Mem.Memory, l: AgentLease, last: Time) {
    && l.key in m.leases && m.leases[l.key].leaseId == l.leaseId && m.leases[l.key].expiresAt == last + l.Ttl()
    && l.key in m.leaseTtl && m.leaseTtl[l.key] == l.Ttl()
    && l.key in m.presences.at && m.presences.at[l.key].expiresAt == last + c.presenceTtl * SECOND
  }

  lemma RegistrationHolds(c: Settings, m: Mem.Memory, identity: AgentIdentity, l: AgentLease, now: Time)
    requires identity.key == l.key && l.issuedAt == now
    ensures Held(c, Mem.Registered(c, m, identity, l, now).state, l, now)
  {
  }

  lemma OthersLeaveItHeld(c: Settings, m: Mem.Memory, l: AgentLease, last: Time, call: Call, now: Time)
    requires Held(c, m, l, last) && Undisturbed(call, l) && !IsHeartbeat(call, l)
    ensures Held(c, Mem.Serve(c, m, call, now).state, l, last)
  {
    if Subject(call) != l.key {
      MemoryFrame(c, m, call, now, l.key);
    }
  }

  lemma HeartbeatServedIff(c: Settings, m: Mem.Memory, l: AgentLease, last: Time, call: Call, now: Time)
    requires Held(c, m, l, last) && IsHeartbeat(call, l)
    ensures Mem.Serve(c, m, call, now).answer.PresenceIs? <==>
                now - last < l.Ttl() && now - last < c.presenceTtl * SECOND
    ensures Mem.Serve(c, m, call, now).answer.PresenceIs? ==> Held(c, Mem.Serve(c, m, call, now).state, l, now)
  {
  }

  lemma {:induction false} AnswersFollowTrace(c: Settings, m: Mem.Memory, trace: seq<Timed>)
    ensures |MemoryAnswers(c, m, trace)| == |trace|
    decreases |trace|
  {
    if trace != [] {
      AnswersFollowTrace(c, OnMemory(c, m, trace[0]).state, trace[1..]);
    }
  }

  lemma AllRenewedUnfolds(l: AgentLease, trace: seq<Timed>, first: Answer, rest: seq<Answer>)
    requires trace != [] && |rest| == |trace| - 1
    ensures AllRenewed(l, trace, [first] + rest)
            <==> (IsHeartbeat(trace[0].call, l) ==> first.PresenceIs?) && AllRenewed(l, trace[1..], rest)
  {
  }

  /** Main result: over any run of other calls, every renewal is granted if and only if every gap between renewals stays
      below both lifetimes. */
  lemma {:induction false} RenewalsNeverFailIff(c: Settings, m: Mem.Memory, l: AgentLease, last: Time, was: Time,
                                                trace: seq<Timed>)
    requires Held(c, m, l, last) && Quiet(l, was, trace)
    ensures AllRenewed(l, trace, MemoryAnswers(c, m, trace)) <==> Prompt(c, l, last, trace)
    decreases |trace|
  {
    if trace != [] {
      var step := trace[0];
      var turn := OnMemory(c, m, step);
      AnswersFollowTrace(c, turn.state, trace[1..]);
      AllRenewedUnfolds(l, trace, Essence(turn.answer), MemoryAnswers(c, turn.state, trace[1..]));
      if !IsHeartbeat(step.call, l) {
        OthersLeaveItHeld(c, m, l, last, step.call, step.now);
        RenewalsNeverFailIff(c, turn.state, l, last, step.now, trace[1..]);
      } else {
        HeartbeatServedIff(c, m, l, last, step.call, step.now);
        if turn.answer.PresenceIs? {
          RenewalsNeverFailIff(c, turn.state, l, step.now, step.now, trace[1..]);
        }
      }
    }
  }

  /** Main result: the same holds of Redis, on the traces where the two stores answer alike. */
  lemma RedisRenewalsNeverFailIff(c: Settings, keys: set<Key>, leases: set<AgentLease>, m: Mem.Memory, r: Red.Keys,
                                  l: AgentLease, last: Time, was: Time, trace: seq<Timed>)
    requires TokensDiffer(keys) && WellIssued(c, leases) && Agree(keys, leases, m, r, was)
    requires AdmissibleTrace(c, keys, leases, m, was, trace)
    requires Held(c, m, l, last) && Quiet(l, was, trace)
    ensures AllRenewed(l, trace, RedisAnswers(c, r, trace)) <==> Prompt(c, l, last, trace)
  {
    TraceAgrees(c, keys, leases, m, r, trace, was);
    RenewalsNeverFailIff(c, m, l, last, was, trace);
  }

  // ---- what lapsed does not come back ----

  /** A renewal now would be granted. */
  predicate Granted(c: Settings, m: Mem.Memory, l: AgentLease, now: Time) {
    Mem.RenewedBy(c, m, l, now).answer.PresenceIs?
  }

  predicate GrantedByRedis(c: Settings, r: Red.Keys, l: AgentLease, now: Time) {
    Red.RenewedBy(c, r, l, now).answer.PresenceIs?
  }

  /** A lease or a presence that lapsed, was replaced or was cleared is revived by no call but a registration of its
      key. */
  lemma NothingRevives(c: Settings, m: Mem.Memory, call: Call, l: AgentLease, was: Time, now: Time)
    requires was <= now && (call.Register? ==> call.identity.key != l.key)
    ensures var after := Mem.Serve(c, m, call, now).state;
            && (Granted(c, after, l, now) ==> Granted(c, m, l, was))
            && (Mem.PresenceAt(after, l.key, now).PresenceIs? ==> Mem.PresenceAt(m, l.key, was).PresenceIs?)
  {
    if Subject(call) != l.key {
      MemoryFrame(c, m, call, now, l.key);
    }
  }

  /** The same of Redis, where the key is spelled by its token. */
  lemma NothingRevivesInRedis(c: Settings, r: Red.Keys, call: Call, l: AgentLease, was: Time, now: Time)
    requires was <= now && (call.Register? ==> Token(call.identity.key) != Token(l.key))
    ensures var after := Red.Serve(c, r, call, now).state;
            && (GrantedByRedis(c, after, l, now) ==> GrantedByRedis(c, r, l, was))
            && (Red.PresenceAt(after, l.key, now).PresenceIs? ==>
              Red.PresenceAt(r, l.key, was).PresenceIs?)
  {
    if Token(Subject(call)) != Token(l.key) {
      RedisFrame(c, r, call, now, Token(l.key));
    }
  }

  lemma CollectingRevivesNothing(c: Settings, r: Red.Keys, swept: Red.Sweep, l: AgentLease, was: Time, now: Time)
    requires was <= now
    ensures GrantedByRedis(c, Red.Collect(r, swept, now), l, now) ==> GrantedByRedis(c, r, l, was)
    ensures Red.PresenceAt(Red.Collect(r, swept, now), l.key, now).PresenceIs? ==>
              Red.PresenceAt(r, l.key, was).PresenceIs?
  {
  }

  /** Main result: once a renewal would be refused, none is ever granted again, over any run under a forward clock,
      until the incarnation is registered anew. */
  lemma {:induction false} LapsedForGood(c: Settings, m: Mem.Memory, l: AgentLease, was: Time, trace: seq<Timed>)
    requires !Granted(c, m, l, was)
    requires forall i :: 0 <= i < |trace| ==> trace[i].call.Register? ==> trace[i].call.identity.key != l.key
    requires forall i :: 0 <= i < |trace| ==> was <= trace[i].now
    requires forall i, j :: 0 <= i < j < |trace| ==> trace[i].now <= trace[j].now
    ensures |MemoryAnswers(c, m, trace)| == |trace|
    ensures forall i :: 0 <= i < |trace| && IsHeartbeat(trace[i].call, l) ==> !MemoryAnswers(c, m, trace)[i].PresenceIs?
    decreases |trace|
  {
    AnswersFollowTrace(c, m, trace);
    if trace != [] {
      var step := trace[0];
      NothingRevives(c, m, step.call, l, was, step.now);
      NothingRevives(c, m, GetPresence(l.key), l, was, step.now);
      var rest := MemoryAnswers(c, OnMemory(c, m, step).state, trace[1..]);
      LapsedForGood(c, OnMemory(c, m, step).state, l, step.now, trace[1..]);
      AnswersFollowTrace(c, OnMemory(c, m, step).state, trace[1..]);
      forall i | 0 <= i < |trace| && IsHeartbeat(trace[i].call, l)
        ensures !MemoryAnswers(c, m, trace)[i].PresenceIs?
      {
        if i > 0 {
          assert trace[1..][i - 1] == trace[i] && MemoryAnswers(c, m, trace)[i] == rest[i - 1];
        }
      }
    }
  }
}
