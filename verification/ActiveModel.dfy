/** What the active-memory stores hold, and the answers they give. */
module ActiveModel {
  import opened Prelude

  datatype AgentStatus = Starting | Idle | Working | Blocked | Waiting | DegradedStatus | DrainingStatus | Stopped

  /** One process incarnation of one agent. */
  datatype Key = Key(agentId: string, instanceId: string)

  datatype AgentIdentity = AgentIdentity(key: Key, role: string, groups: seq<string>)

  datatype AgentLease = AgentLease(leaseId: string, key: Key, issuedAt: Time, expiresAt: Time)
  {
    predicate IsExpired(now: Time) { now >= expiresAt }

    function Ttl(): int { expiresAt - issuedAt }
  }

  datatype AgentPresence = AgentPresence(
    identity: AgentIdentity,
    status: AgentStatus,
    deploymentId: string,
    startedAt: Time,
    heartbeatAt: Time,
    expiresAt: Time,
    version: nat)
  {
    predicate IsExpired(now: Time) { now >= expiresAt }
  }

  datatype Draft = Draft(objective: Option<string>, status: AgentStatus, workingOn: seq<string>, blockers: seq<string>)

  datatype ActiveContext = ActiveContext(
    key: Key,
    role: string,
    deploymentId: string,
    groupId: string,
    draft: Draft,
    version: nat,
    updatedAt: Time,
    expiresAt: Time)
  {
    predicate IsExpired(now: Time) { now >= expiresAt }
  }

  datatype AgentScope = AgentScope(deploymentId: string, groupId: Option<string>, role: Option<string>)

  /** How a store is configured; lifetimes in whole seconds. */
  datatype Settings = Settings(deploymentId: string, contextTtl: int, presenceTtl: int)
  {
    predicate Positive() { contextTtl >= 1 && presenceTtl >= 1 }
  }

  datatype Answer =
    | PresenceIs(presence: AgentPresence)
    | NoPresence
    | ContextIs(context: ActiveContext)
    | NoContext
    | LeaseExpired(key: Key)
    | VersionConflict(expected: int, current: nat)
    | Done

  /** A state and the answer given on the way to it. */
  datatype Turn<S> = Turn(state: S, answer: Answer)

  datatype Call =
    | Register(identity: AgentIdentity, lease: AgentLease)
    | Renew(lease: AgentLease)
    | Unregister(lease: AgentLease)
    | PutContext(lease: AgentLease, expected: Option<int>, draft: Draft)
    | GetContext(key: Key)
    | GetPresence(key: Key)

  /** The text both the page cursor and the Redis keys spell an incarnation with. Ids may contain ':'. */
  function Token(k: Key): string {
    k.agentId + ":" + k.instanceId
  }

  function Started(c: Settings, identity: AgentIdentity, now: Time, version: nat): AgentPresence {
    AgentPresence(identity, Starting, c.deploymentId, now, now, now + c.presenceTtl * SECOND, version)
  }

  function Renewed(c: Settings, p: AgentPresence, now: Time, version: nat): AgentPresence {
    p.(heartbeatAt := now, expiresAt := now + c.presenceTtl * SECOND, version := version)
  }

  function GroupOf(identity: AgentIdentity): string {
    if identity.groups != [] then identity.groups[0] else "default"
  }

  function Committed(c: Settings, k: Key, p: AgentPresence, draft: Draft, version: nat, now: Time): ActiveContext {
    ActiveContext(k, p.identity.role, c.deploymentId, GroupOf(p.identity), draft, version, now,
                  now + c.contextTtl * SECOND)
  }
}
