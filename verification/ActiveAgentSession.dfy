/** The session object: each method is the code between two awaits. */
module AgentSessions {
  import opened Prelude
  import opened Lifecycle
  import opened SessionProtocol

  class ActiveAgentSession {
    const lifecycle: SessionLifecycle
    const threshold: nat
    var instanceId: Uuid
    var lease: Option<Lease>
    var failures: nat
    /** A transition error is on its way out. */
    var raised: bool

    ghost function View(): Session
      reads this, lifecycle
    {
      Session(lifecycle.state, instanceId, lease, failures, threshold, raised)
    }

    constructor (instanceId: Uuid, threshold: nat)
      ensures View() == Session(New, instanceId, None, 0, threshold, false)
      ensures fresh(lifecycle)
    {
      this.lifecycle := new SessionLifecycle();
      this.threshold := threshold;
      this.instanceId := instanceId;
      lease, failures, raised := None, 0, false;
    }

    /** Take a transition unless an error is already propagating. */
    method MoveTo(target: SessionState)
      modifies this`raised, lifecycle
      ensures View() == Go(old(View()), target)
    {
      if !raised {
        var accepted := lifecycle.TransitionTo(target);
        raised := !accepted;
      }
    }

    /** Go on waiting at `pc`; an error ends the heartbeat loop, which degrades an ACTIVE session. */
    method Wait(pc: Pc) returns (next: Pc)
      modifies lifecycle
      ensures Task(View(), next) == Continue(old(View()), pc)
    {
      if !raised {
        return pc;
      }
      if lifecycle.state == Active {
        var _ := lifecycle.TransitionTo(Degraded);
      }
      next := Ended;
    }

    method BeginStart(leaseId: Uuid) returns (next: Pc)
      modifies this`raised, lifecycle
      ensures Task(View(), next) == Start(old(View()), leaseId)
    {
      MoveTo(Registering);
      next := if raised then Ended else StartRegister(Lease(leaseId, instanceId));
    }

    method RefuseStart() returns (next: Pc)
      modifies this`raised, lifecycle
      ensures Task(View(), next) == StartRefused(old(View()))
    {
      MoveTo(Failed);
      next := Ended;
    }

    /** The store confirmed a registration. */
    method AdoptLease(confirmed: Lease)
      modifies this`lease, this`failures
      ensures View() == SessionProtocol.Registered(old(View()), confirmed)
    {
      lease := Some(confirmed);
      failures := 0;
    }

    method FinishStart() returns (next: Pc)
      modifies this`raised, lifecycle
      ensures Task(View(), next) == StartDone(old(View()))
    {
      MoveTo(Active);
      next := if raised then Ended else Sleeping;
    }

    /** Up to the unregister of the old lease. */
    method BeginReRegistration(newInstance: Uuid) returns (next: Pc)
      modifies this, lifecycle
      ensures Task(View(), next) == ReRegistration(old(View()), newInstance)
    {
      if lifecycle.state == Degraded {
        MoveTo(Resynchronizing);
      }
      MoveTo(SessionState.ReRegistering);
      if !raised {
        instanceId := newInstance;
      }
      next := Wait(Unregistering);
    }

    method OnRenewed() returns (next: Pc)
      modifies this, lifecycle
      ensures Task(View(), next) == RenewSucceeded(old(View()))
    {
      failures := 0;
      if lifecycle.state == Degraded {
        MoveTo(Resynchronizing);
        next := Wait(ReadingPresence);
      } else {
        next := Sleeping;
      }
    }

    method OnLeaseExpired(newInstance: Uuid) returns (next: Pc)
      modifies this, lifecycle
      ensures Task(View(), next) == RenewExpired(old(View()), newInstance)
    {
      if lifecycle.state == Draining {
        return Sleeping;
      }
      next := BeginReRegistration(newInstance);
    }

    method OnRenewUnavailable() returns (next: Pc)
      modifies this, lifecycle
      ensures Task(View(), next) == RenewUnavailable(old(View()))
    {
      failures := failures + 1;
      if failures >= threshold && lifecycle.state == Active {
        MoveTo(Degraded);
      }
      next := Wait(Sleeping);
    }

    method OnPresence(found: bool, newInstance: Uuid) returns (next: Pc)
      modifies this, lifecycle
      ensures Task(View(), next)
              == if found then PresenceFound(old(View())) else PresenceMissing(old(View()), newInstance)
    {
      if !found {
        next := BeginReRegistration(newInstance);
        return;
      }
      MoveTo(Active);
      next := Wait(Sleeping);
    }

    /** While resynchronizing or registering again. */
    method OnStoreUnavailable() returns (next: Pc)
      modifies this`raised, lifecycle
      ensures Task(View(), next) == StoreUnavailable(old(View()))
    {
      MoveTo(Degraded);
      next := Wait(Sleeping);
    }

    method FinishReRegistration() returns (next: Pc)
      modifies this`raised, lifecycle
      ensures Task(View(), next) == ReRegisterDone(old(View()))
    {
      MoveTo(Resynchronizing);
      MoveTo(Active);
      next := Wait(Sleeping);
    }

    /** Callable at any await of the heartbeat. */
    method BeginDrain()
      modifies this`raised, lifecycle
      ensures View() == Drain(old(View()))
    {
      if lifecycle.state == Active || lifecycle.state == Degraded {
        MoveTo(Draining);
      }
    }

    /** The lease a context write goes out with; refused in any state but ACTIVE. In any world a session can reach,
        there is one exactly when it is ACTIVE, in the name of its current instance, and the store confirmed it. */
    method WriterLease() returns (writer: Option<Lease>)
      ensures writer == if lifecycle.state == Active then lease else None
      ensures forall w: World :: Good(w) && w.task.session == View() ==>
                                   && (writer.Some? <==> lifecycle.state == Active)
                                   && (writer.Some? ==> writer.value.instanceId == instanceId
                                                        && writer.value.leaseId in w.backend.accepted)
    {
      if !lifecycle.CanWrite() {
        return None;
      }
      writer := lease;
    }

    /** Close with the heartbeat stopped; illegal edges are swallowed. */
    method Finish()
      modifies lifecycle
      ensures lifecycle.state == Close(old(lifecycle.state))
    {
      if lifecycle.state != Closed && lifecycle.state != New {
        if lifecycle.state != Draining {
          var _ := lifecycle.TransitionTo(Draining);
        }
      }
      if lifecycle.state == Closed {
        return;
      }
      var accepted := lifecycle.TransitionTo(Closed);
      if !accepted && lifecycle.state == New {
        lifecycle.state := Closed;
      }
    }
  }
}
