/** The reference active store as an object: its dictionaries, changed in place by each operation. */
module ActiveStores {
  import opened Prelude
  import opened OrderedDict
  import opened Sorting
  import opened ActiveModel
  import opened Paging
  import Mem = ReferenceSpec

  class InMemoryActiveStore {
    const settings: Settings
    var presences: Dict<Key, AgentPresence>
    var contexts: Dict<Key, ActiveContext>
    var leases: map<Key, AgentLease>
    var leaseTtl: map<Key, int>
    var versions: map<Key, nat>
    var counter: nat

    ghost function View(): Mem.Memory
      reads this
    {
      Mem.Memory(presences, contexts, leases, leaseTtl, versions, counter)
    }

    ghost predicate Valid()
      reads this
    {
      Filed(View()) && contexts.Valid()
    }

    constructor (settings: Settings)
      ensures Valid() && View() == Mem.Fresh() && this.settings == settings
    {
      this.settings := settings;
      presences, contexts := Empty(), Empty();
      leases, leaseTtl, versions, counter := map[], map[], map[], 1;
    }

    method Register(identity: AgentIdentity, lease: AgentLease, now: Time) returns (answer: Answer)
      requires Valid()
      modifies this
      ensures Valid()
      ensures Turn(View(), answer) == Mem.Registered(settings, old(View()), identity, lease, now)
    {
      ghost var was := View();
      var presence := Started(settings, identity, now, counter);
      counter := counter + 1;
      presences := presences.Put(identity.key, presence);
      leases := leases[identity.key := lease];
      leaseTtl := leaseTtl[identity.key := lease.Ttl()];
      answer := PresenceIs(presence);
      ServingKeepsFiled(settings, was, Call.Register(identity, lease), now);
    }

    /** The lease check every holder's operation starts with. */
    method ValidLease(lease: AgentLease, now: Time) returns (stored: Option<AgentLease>)
      ensures stored.Some? <==> Mem.Valid(View(), lease, now)
      ensures stored.Some? ==> stored.value == leases[lease.key]
    {
      stored := if lease.key in leases then Some(leases[lease.key]) else None;
      if stored.None? || stored.value.leaseId != lease.leaseId || stored.value.IsExpired(now) {
        return None;
      }
    }

    method Renew(lease: AgentLease, now: Time) returns (answer: Answer)
      requires Valid()
      modifies this
      ensures Valid()
      ensures Turn(View(), answer) == Mem.RenewedBy(settings, old(View()), lease, now)
    {
      ghost var was := View();
      var stored := ValidLease(lease, now);
      if stored.None? || lease.key !in presences.at {
        return LeaseExpired(lease.key);
      }
      var existing := presences.at[lease.key];
      if existing.IsExpired(now) {
        return LeaseExpired(lease.key);
      }
      var extension := if lease.key in leaseTtl then leaseTtl[lease.key] else stored.value.expiresAt - now;
      leases := leases[lease.key := stored.value.(expiresAt := now + extension)];
      var renewed := Renewed(settings, existing, now, counter);
      counter := counter + 1;
      presences := presences.Put(lease.key, renewed);
      answer := PresenceIs(renewed);
      ServingKeepsFiled(settings, was, Call.Renew(lease), now);
    }

    method Unregister(lease: AgentLease) returns (answer: Answer)
      requires Valid()
      modifies this
      ensures Valid()
      ensures Turn(View(), answer) == Mem.Unregistered(old(View()), lease)
    {
      ghost var was := View();
      if lease.key in leases && leases[lease.key].leaseId != lease.leaseId {
        return Done;
      }
      DeleteKeepsValid(contexts, lease.key);
      presences := presences.Delete(lease.key);
      contexts := contexts.Delete(lease.key);
      leases := leases - {lease.key};
      leaseTtl := leaseTtl - {lease.key};
      versions := versions - {lease.key};
      answer := Done;
      ServingKeepsFiled(settings, was, Call.Unregister(lease), 0);
    }

    method PutContext(lease: AgentLease, expected: Option<int>, draft: Draft, now: Time) returns (answer: Answer)
      requires Valid()
      modifies this
      ensures Valid()
      ensures Turn(View(), answer) == Mem.Put(settings, old(View()), lease, expected, draft, now)
    {
      var stored := ValidLease(lease, now);
      if stored.None? || lease.key !in presences.at {
        return LeaseExpired(lease.key);
      }
      var current := if lease.key in versions then versions[lease.key] else 0;
      if expected.Some? && expected.value != current {
        return VersionConflict(expected.value, current);
      }
      var next := current + 1;
      versions := versions[lease.key := next];
      var context := Committed(settings, lease.key, presences.at[lease.key], draft, next, now);
      PutKeepsValid(contexts, lease.key, context);
      contexts := contexts.Put(lease.key, context);
      answer := ContextIs(context);
    }

    ghost predicate LiveContext(k: Key, agentId: string, now: Time)
      reads this
    {
      k in contexts.at && k.agentId == agentId && !contexts.at[k].IsExpired(now)
    }

    /** One incarnation's context, or the latest live one of any incarnation of the agent. */
    method GetContext(agentId: string, instanceId: Option<string>, now: Time) returns (answer: Answer)
      requires Valid()
      ensures instanceId.Some? ==> answer == Mem.ContextAt(View(), Key(agentId, instanceId.value), now)
      ensures answer.ContextIs? || answer == NoContext
      ensures instanceId.None? && answer == NoContext ==> forall k :: !LiveContext(k, agentId, now)
      ensures instanceId.None? && answer.ContextIs? ==>
                && (exists k :: LiveContext(k, agentId, now) && contexts.at[k] == answer.context)
                && (forall k :: LiveContext(k, agentId, now) ==> contexts.at[k].updatedAt <= answer.context.updatedAt)
    {
      answer := NoContext;
      if instanceId.Some? {
        var k := Key(agentId, instanceId.value);
        if k in contexts.at && !contexts.at[k].IsExpired(now) {
          answer := ContextIs(contexts.at[k]);
        }
        return;
      }
      for i := 0 to |contexts.order|
        invariant answer.ContextIs? || answer == NoContext
        invariant answer == NoContext ==> forall k :: k in contexts.order[..i] ==> !LiveContext(k, agentId, now)
        invariant answer.ContextIs? ==>
                    && (exists k :: LiveContext(k, agentId, now) && contexts.at[k] == answer.context)
                    && (forall k :: k in contexts.order[..i] && LiveContext(k, agentId, now) ==>
                          contexts.at[k].updatedAt <= answer.context.updatedAt)
      {
        var k := contexts.order[i];
        assert contexts.order[..i + 1] == contexts.order[..i] + [k];
        if k.agentId == agentId && !contexts.at[k].IsExpired(now) {
          assert LiveContext(k, agentId, now);
          if answer == NoContext || answer.context.updatedAt < contexts.at[k].updatedAt {
            answer := ContextIs(contexts.at[k]);
          }
        }
      }
      assert contexts.order[..|contexts.order|] == contexts.order;
    }

    ghost predicate LivePresence(k: Key, agentId: string, now: Time)
      reads this
    {
      k in presences.at && k.agentId == agentId && !presences.at[k].IsExpired(now)
    }

    /** One incarnation's presence, or the live one of the agent with the latest heartbeat. */
    method GetPresence(agentId: string, instanceId: Option<string>, now: Time) returns (answer: Answer)
      requires Valid()
      ensures instanceId.Some? ==> answer == Mem.PresenceAt(View(), Key(agentId, instanceId.value), now)
      ensures answer.PresenceIs? || answer == NoPresence
      ensures instanceId.None? && answer == NoPresence ==> forall k :: !LivePresence(k, agentId, now)
      ensures instanceId.None? && answer.PresenceIs? ==>
                && (exists k :: LivePresence(k, agentId, now) && presences.at[k] == answer.presence)
                && (forall k :: LivePresence(k, agentId, now) ==>
                                  presences.at[k].heartbeatAt <= answer.presence.heartbeatAt)
    {
      answer := NoPresence;
      if instanceId.Some? {
        var k := Key(agentId, instanceId.value);
        if k in presences.at && !presences.at[k].IsExpired(now) {
          answer := PresenceIs(presences.at[k]);
        }
        return;
      }
      for i := 0 to |presences.order|
        invariant answer.PresenceIs? || answer == NoPresence
        invariant answer == NoPresence ==> forall k :: k in presences.order[..i] ==> !LivePresence(k, agentId, now)
        invariant answer.PresenceIs? ==>
                    && (exists k :: LivePresence(k, agentId, now) && presences.at[k] == answer.presence)
                    && (forall k :: k in presences.order[..i] && LivePresence(k, agentId, now) ==>
                          presences.at[k].heartbeatAt <= answer.presence.heartbeatAt)
      {
        var k := presences.order[i];
        assert presences.order[..i + 1] == presences.order[..i] + [k];
        if k.agentId == agentId && !presences.at[k].IsExpired(now) {
          assert LivePresence(k, agentId, now);
          if answer == NoPresence || answer.presence.heartbeatAt < presences.at[k].heartbeatAt {
            answer := PresenceIs(presences.at[k]);
          }
        }
      }
      assert presences.order[..|presences.order|] == presences.order;
    }

    /** Where the page after `cursor` starts. */
    static method CursorStartIndex(ms: seq<AgentPresence>, cursor: Option<string>) returns (start: nat)
      ensures start == StartIndex(ms, cursor)
    {
      if cursor.None? {
        return 0;
      }
      for i := 0 to |ms|
        invariant FirstFrom(ms, cursor.value, i) == FirstFrom(ms, cursor.value, 0)
      {
        if TokenOf(ms[i]) == cursor.value {
          return i + 1;
        }
      }
      start := 0;
    }

    /** One page of the live presences in scope; a limit below one is refused. */
    method ListActive(scope: AgentScope, cursor: Option<string>, limit: int, now: Time) returns (page: Option<Page>)
      requires Valid()
      ensures page == if limit >= 1 then Some(PageOf(Matches(View(), scope, now), cursor, limit)) else None
    {
      if limit < 1 {
        return None;
      }
      var all := presences.Values();
      var kept: seq<AgentPresence> := [];
      for i := 0 to |all|
        invariant kept == Filtered(all[..i], scope, now)
      {
        assert all[..i + 1][..i] == all[..i];
        if Listed(all[i], scope, now) {
          kept := kept + [all[i]];
        }
      }
      assert all[..|all|] == all;
      var ms := SortBy(PresenceLeq, kept);
      var start := CursorStartIndex(ms, cursor);
      var items := Take(ms[start..], limit);
      var next: Option<string> := None;
      if start + limit < |ms| {
        next := Some(TokenOf(items[|items| - 1]));
      }
      page := Some(Page(items, next));
    }
  }
}
