/** The Redis adapter as an object: every operation a sequence of commands to a shared server. */
module RedisStores {
  import opened Prelude
  import opened ActiveModel
  import Red = RedisSpec

  /** The server's keyspace, changed one command at a time. */
  class RedisServer {
    var presences: map<string, Red.Entry<AgentPresence>>
    var contexts: map<string, Red.Entry<ActiveContext>>
    var leases: map<string, Red.Entry<Red.LeaseValue>>

    ghost function View(): Red.Keys
      reads this
    {
      Red.Keys(presences, contexts, leases)
    }

    constructor ()
      ensures View() == Red.NoKeys()
    {
      presences, contexts, leases := map[], map[], map[];
    }

    method SetPresence(t: string, p: AgentPresence, seconds: int, now: Time)
      modifies this
      ensures View() == Red.SetPresence(old(View()), t, p, seconds, now)
    {
      presences := presences[t := Red.Lasting(p, seconds, now)];
    }

    method SetLease(t: string, l: Red.LeaseValue, seconds: int, now: Time)
      modifies this
      ensures View() == Red.SetLease(old(View()), t, l, seconds, now)
    {
      leases := leases[t := Red.Lasting(l, seconds, now)];
    }

    method Unlink(t: string)
      modifies this
      ensures View() == Red.Unlink(old(View()), t)
    {
      presences := presences - {t};
      contexts := contexts - {t};
      leases := leases - {t};
    }

    /** The Lua script. */
    method EvalCas(t: string, expected: Option<int>, context: ActiveContext, seconds: int, now: Time)
      returns (reply: Red.ScriptReply)
      modifies this
      ensures (View(), reply) == Red.Cas(old(View()), t, expected, context, seconds, now)
    {
      if t !in presences {
        return Red.NoPresenceKey;
      }
      var version := 0;
      if t in contexts {
        version := contexts[t].value.version;
      }
      if expected.Some? && expected.value != version {
        return Red.Conflicts(version);
      }
      var written := context.(version := version + 1);
      contexts := contexts[t := Red.Lasting(written, seconds, now)];
      reply := Red.ScriptReply.Committed(written);
    }
  }

  class RedisActiveStore {
    const server: RedisServer
    const settings: Settings

    constructor (server: RedisServer, settings: Settings)
      ensures this.server == server && this.settings == settings
    {
      this.server := server;
      this.settings := settings;
    }

    method Register(identity: AgentIdentity, lease: AgentLease, now: Time) returns (answer: Answer)
      modifies server
      ensures Turn(server.View(), answer) == Red.Registered(settings, old(server.View()), identity, lease, now)
    {
      var t := Token(identity.key);
      var version := 1;
      if t in server.presences {
        version := server.presences[t].value.version + 1;
      }
      var presence := Started(settings, identity, now, version);
      server.SetPresence(t, presence, settings.presenceTtl, now);
      server.SetLease(t, Red.ValueOf(lease, now), Red.LeaseSeconds(lease), now);
      answer := PresenceIs(presence);
    }

    method RequireLease(lease: AgentLease, now: Time) returns (held: bool)
      ensures held == Red.HoldsLease(server.View(), lease, now)
    {
      var t := Token(lease.key);
      if t !in server.leases {
        return false;
      }
      var stored := server.leases[t].value;
      held := stored.leaseId == lease.leaseId && !(stored.expiresAt <= now);
    }

    method Renew(lease: AgentLease, now: Time) returns (answer: Answer)
      modifies server
      ensures Turn(server.View(), answer) == Red.RenewedBy(settings, old(server.View()), lease, now)
    {
      var held := RequireLease(lease, now);
      var t := Token(lease.key);
      if !held || t !in server.presences {
        return LeaseExpired(lease.key);
      }
      var existing := server.presences[t].value;
      if existing.IsExpired(now) {
        return LeaseExpired(lease.key);
      }
      server.SetLease(t, Red.ValueOf(lease, now), Red.LeaseSeconds(lease), now);
      var presence := Renewed(settings, existing, now, existing.version + 1);
      server.SetPresence(t, presence, settings.presenceTtl, now);
      answer := PresenceIs(presence);
    }

    method Unregister(lease: AgentLease) returns (answer: Answer)
      modifies server
      ensures Turn(server.View(), answer) == Red.Unregistered(old(server.View()), lease)
    {
      var t := Token(lease.key);
      if t in server.leases && server.leases[t].value.leaseId != lease.leaseId {
        return Done;
      }
      server.Unlink(t);
      answer := Done;
    }

    method GetPresence(k: Key, now: Time) returns (answer: Answer)
      ensures answer == Red.PresenceAt(server.View(), k, now)
    {
      var t := Token(k);
      if t !in server.presences || server.presences[t].value.IsExpired(now) {
        return NoPresence;
      }
      answer := PresenceIs(server.presences[t].value);
    }

    method GetContext(k: Key, now: Time) returns (answer: Answer)
      ensures answer == Red.ContextAt(server.View(), k, now)
    {
      var t := Token(k);
      if t !in server.contexts || server.contexts[t].value.IsExpired(now) {
        return NoContext;
      }
      answer := ContextIs(server.contexts[t].value);
    }

    method PutContext(lease: AgentLease, expected: Option<int>, draft: Draft, now: Time) returns (answer: Answer)
      modifies server
      ensures Turn(server.View(), answer) == Red.Put(settings, old(server.View()), lease, expected, draft, now)
    {
      var held := RequireLease(lease, now);
      if !held {
        return LeaseExpired(lease.key);
      }
      var seen := GetPresence(lease.key, now);
      if seen.NoPresence? {
        return LeaseExpired(lease.key);
      }
      var context := Committed(settings, lease.key, seen.presence, draft, 0, now);
      var reply := server.EvalCas(Token(lease.key), expected, context, settings.contextTtl, now);
      match reply {
        case NoPresenceKey => answer := LeaseExpired(lease.key);
        case Conflicts(current) => answer := VersionConflict(expected.value, current);
        case Committed(written) => answer := ContextIs(written);
      }
    }
  }
}
