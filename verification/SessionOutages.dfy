/** Outages: the session counts renewals that cannot reach the store, and stops writing exactly at its threshold. */
module SessionOutages {
  import opened Prelude
  import opened Lifecycle
  import opened SessionProtocol

  predicate RenewalLost(e: Event) {
    e.RenewReplied? && e.reply == Unavailable
  }

  /** The store granted a renewal of the lease held, or confirmed a registration. */
  predicate Contact(w: World, e: Event) {
    || (e.RegisterReplied? && e.reply == Served)
    || (e.RenewReplied? && e.reply == Served
        && w.task.session.lease.Some? && Renewable(w.backend, w.task.session.lease.value))
  }

  /** The renewals lost since the store was last in contact; `before` of them precede the run. */
  ghost function LostSinceContact(w: World, events: seq<Event>, before: nat): nat
    decreases |events|
  {
    if events == [] then before
    else
      var e := events[0];
      LostSinceContact(Step(w, e), events[1..],
                       if Contact(w, e) then 0 else if RenewalLost(e) then before + 1 else before)
  }

  lemma StepCountsLosses(w: World, e: Event)
    requires Good(w) && Enabled(w, e)
    ensures var n := w.task.session.failures;
            Step(w, e).task.session.failures == if Contact(w, e) then 0 else if RenewalLost(e) then n + 1 else n
    ensures Step(w, e).task.session.threshold == w.task.session.threshold
  {
  }

  /** The failure count is the number of renewals lost since the store was last in contact, over every run. */
  lemma {:induction false} FailuresAreCounted(w: World, events: seq<Event>)
    requires Good(w) && Run(w, events)
    ensures After(w, events).task.session.failures == LostSinceContact(w, events, w.task.session.failures)
    ensures After(w, events).task.session.threshold == w.task.session.threshold
    decreases |events|
  {
    if events != [] {
      StepKeepsGood(w, events[0]);
      StepCountsLosses(w, events[0]);
      FailuresAreCounted(Step(w, events[0]), events[1..]);
    }
  }

  /** An ACTIVE session is below its threshold, and one about to become ACTIVE has no losses to its name. */
  ghost predicate BelowThreshold(w: World) {
    var s, pc := w.task.session, w.task.pc;
    && s.threshold >= 1
    && (s.state == Active ==> s.failures < s.threshold)
    && (pc.StartAnnounce? || pc.ReadingPresence? || pc.ReAnnounce? ==> s.failures == 0)
  }

  lemma StepStaysBelow(w: World, e: Event)
    requires Good(w) && BelowThreshold(w) && Enabled(w, e)
    ensures BelowThreshold(Step(w, e))
  {
  }

  lemma {:induction false} RunStaysBelow(w: World, events: seq<Event>)
    requires Good(w) && BelowThreshold(w) && Run(w, events)
    ensures Good(After(w, events)) && BelowThreshold(After(w, events))
    decreases |events|
  {
    if events != [] {
      StepKeepsGood(w, events[0]);
      StepStaysBelow(w, events[0]);
      RunStaysBelow(Step(w, events[0]), events[1..]);
    }
  }

  /** Main result: over every run, a session that can write has lost fewer renewals in a row than its threshold. */
  lemma ActiveMeansInContact(w: World, events: seq<Event>)
    requires Initial(w) && w.task.session.threshold >= 1 && Run(w, events)
    requires After(w, events).task.session.state == Active
    ensures LostSinceContact(w, events, 0) < w.task.session.threshold
  {
    InitialIsGood(w);
    FailuresAreCounted(w, events);
    RunStaysBelow(w, events);
  }

  // ---- one outage ----

  /** Nothing comes through: heartbeats fall due, leases lapse, and every renewal is lost. */
  ghost predicate Outage(events: seq<Event>) {
    forall i :: 0 <= i < |events| ==> events[i].HeartbeatDue? || events[i].Lapses? || RenewalLost(events[i])
  }

  function LostRenewals(events: seq<Event>): nat {
    if events == [] then 0 else (if RenewalLost(events[0]) then 1 else 0) + LostRenewals(events[1..])
  }

  /** Main result: through an outage an ACTIVE session stays ACTIVE exactly as long as the renewals lost in a row are
      fewer than the threshold; from then on it is DEGRADED, as is one that was DEGRADED before. */
  lemma {:induction false} OutageDegradesIff(w: World, events: seq<Event>)
    requires Good(w) && BelowThreshold(w) && Run(w, events) && Outage(events)
    requires w.task.session.state == Active || w.task.session.state == Degraded
    requires w.task.pc.Sleeping? || w.task.pc.Renewing?
    ensures var s, end := w.task.session, After(w, events).task.session;
            && end.failures == s.failures + LostRenewals(events)
            && end.state == if s.state == Active && end.failures < s.threshold then Active else Degraded
    decreases |events|
  {
    if events != [] {
      var e := events[0];
      assert e.HeartbeatDue? || e.Lapses? || RenewalLost(e);
      StepKeepsGood(w, e);
      StepStaysBelow(w, e);
      OutageDegradesIff(Step(w, e), events[1..]);
    }
  }

  /** A drain, or losses already past the threshold, may come in between: no outage that long leaves a session
      ACTIVE. */
  lemma {:induction false} LongOutageStopsWrites(w: World, events: seq<Event>)
    requires Good(w) && BelowThreshold(w) && Run(w, events)
    requires w.task.pc.Sleeping? || w.task.pc.Renewing?
    requires forall i :: 0 <= i < |events| ==>
               events[i].HeartbeatDue? || events[i].Lapses? || events[i].Drains? || RenewalLost(events[i])
    requires w.task.session.failures + LostRenewals(events) >= w.task.session.threshold
    ensures After(w, events).task.session.state in {Degraded, Draining}
    decreases |events|
  {
    if events != [] {
      var e := events[0];
      assert e.HeartbeatDue? || e.Lapses? || e.Drains? || RenewalLost(e);
      StepKeepsGood(w, e);
      StepStaysBelow(w, e);
      LongOutageStopsWrites(Step(w, e), events[1..]);
    }
  }

  // ---- draining ----

  /** Main result: a drain reaches an ACTIVE or DEGRADED session at once, and whatever is answered afterwards it never
      writes again: every later run leaves it DRAINING under the same instance id. */
  lemma DrainedNeverWritesAgain(w: World, later: seq<Event>)
    requires Good(w) && (w.task.session.state == Active || w.task.session.state == Degraded)
    requires Run(Step(w, Drains), later)
    ensures var end := After(Step(w, Drains), later).task.session;
            end.state == Draining && end.instanceId == w.task.session.instanceId
  {
    StepKeepsGood(w, Drains);
    DrainingStays(Step(w, Drains), later);
  }

  lemma {:induction false} DrainingStays(w: World, events: seq<Event>)
    requires Good(w) && w.task.session.state == Draining && Run(w, events)
    ensures var end := After(w, events).task.session;
            end.state == Draining && end.instanceId == w.task.session.instanceId
    decreases |events|
  {
    if events != [] {
      StepKeepsGood(w, events[0]);
      DrainingStays(Step(w, events[0]), events[1..]);
    }
  }

  /** A drain that comes at any other moment changes nothing. */
  lemma DrainElsewhereIsInert(w: World)
    requires w.task.session.state != Active && w.task.session.state != Degraded
    ensures Step(w, Drains).task == w.task
  {
  }

  /** An error in the heartbeat ends it, and never leaves a session ACTIVE; in any other state it is left as it is. */
  lemma FailedHeartbeatStopsWrites(s: Session, pc: Pc)
    ensures s.raised ==>
              var t := Continue(s, pc);
              && t.pc.Ended? && t.session.state != Active && (s.state != Active ==> t.session.state == s.state)
              && (s.state == Active ==> t.session.state == Degraded) && t.session.(state := s.state) == s
  {
  }
}
