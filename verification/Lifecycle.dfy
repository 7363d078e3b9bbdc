/** The session lifecycle: its states and the edges between them. */
module Lifecycle {

  datatype SessionState =
    | New | Registering | Active | Degraded | Resynchronizing | ReRegistering | Draining | Failed | Closed

  function AllowedTargets(s: SessionState): set<SessionState> {
    match s
    case New => {Registering}
    case Registering => {Active, Failed}
    case Active => {Degraded, Draining, ReRegistering}
    case Degraded => {Resynchronizing, Draining, Failed}
    case Resynchronizing => {Active, ReRegistering, Degraded}
    case ReRegistering => {Resynchronizing, Degraded}
    case Draining => {Closed}
    case Failed => {Closed}
    case Closed => {}
  }

  predicate IsEdge(from: SessionState, to: SessionState) {
    to in AllowedTargets(from)
  }

  /** A path of states each following the one before by an edge of the table. */
  ghost predicate Path(states: seq<SessionState>) {
    forall i, j :: 0 <= i && j == i + 1 && j < |states| ==> IsEdge(states[i], states[j])
  }

  lemma EdgeAt(states: seq<SessionState>, i: nat)
    requires Path(states) && i + 1 < |states|
    ensures IsEdge(states[i], states[i + 1])
  {
  }

  /** Once a session drains or fails it never writes again: what follows can only be CLOSED, and then nothing. */
  lemma {:induction false} ShutdownIsFinal(states: seq<SessionState>, i: nat, j: nat)
    requires Path(states) && i < j < |states|
    requires states[i] == Draining || states[i] == Failed || states[i] == Closed
    ensures states[i] != Closed && states[j] == Closed && j == i + 1 == |states| - 1
    decreases j - i
  {
    EdgeAt(states, i);
    if i + 2 < |states| {
      EdgeAt(states, i + 1);
      assert false;
    }
  }

  /** How each state is entered: the table read backwards. */
  lemma EnteredOnlyFrom(from: SessionState, to: SessionState)
    ensures IsEdge(from, to) <==>
              match to
              case New => false
              case Registering => from == New
              case Active => from == Registering || from == Resynchronizing
              case Degraded => from == Active || from == Resynchronizing || from == SessionState.ReRegistering
              case Resynchronizing => from == Degraded || from == SessionState.ReRegistering
              case ReRegistering => from == Active || from == Resynchronizing
              case Draining => from == Active || from == Degraded
              case Failed => from == Registering || from == Degraded
              case Closed => from == Draining || from == Failed
  {
  }

  /** A session that stopped writing, degraded or without a registration, writes again only through RESYNCHRONIZING. */
  lemma WritesAgainOnlyAfterResynchronizing(states: seq<SessionState>, i: nat, j: nat)
    requires Path(states) && i < j < |states| && states[j] == Active
    requires states[i] == Degraded || states[i] == SessionState.ReRegistering
    ensures i < j - 1 && states[j - 1] == Resynchronizing
  {
    EdgeAt(states, j - 1);
    EnteredOnlyFrom(states[j - 1], Active);
    if states[j - 1] == Registering {
      EdgeAt(states, j - 2);
      EnteredOnlyFrom(states[j - 2], Registering);
      if j - 2 > i {
        EdgeAt(states, j - 3);
        EnteredOnlyFrom(states[j - 3], New);
      }
    }
  }

  class SessionLifecycle {
    var state: SessionState

    constructor ()
      ensures state == New
    {
      state := New;
    }

    /** An illegal target raises: `accepted` is false and the state stays. */
    method TransitionTo(target: SessionState) returns (accepted: bool)
      modifies this
      ensures accepted == IsEdge(old(state), target)
      ensures state == if accepted then target else old(state)
    {
      var allowed := AllowedTargets(state);
      if target !in allowed {
        return false;
      }
      state := target;
      accepted := true;
    }

    predicate CanWrite()
      reads this
    {
      state == Active
    }
  }
}
