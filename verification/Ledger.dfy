/** Status transitions: the records and the append-only log they are evidenced in. */
module Ledgers {
  import opened Prelude
  import opened OrderedDict
  import opened MemoryModel

  datatype Ledger = Ledger(records: Dict<Uuid, MemoryRecord>, log: seq<StatusEvent>)

  datatype LedgerStep = LedgerStep(ledger: Ledger, outcome: Outcome)

  function Check(records: Dict<Uuid, MemoryRecord>, e: StatusEvent): Outcome {
    if e.recordId !in records.at then Raised(TargetNotFound)
    else if e.previous.Some? && records.at[e.recordId].state != e.previous.value then Raised(UnexpectedState)
    else Ok
  }

  /** The first failing check, if any. */
  function CheckAll(records: Dict<Uuid, MemoryRecord>, events: seq<StatusEvent>): Outcome {
    if events == [] then Ok
    else
      var before := CheckAll(records, events[..|events| - 1]);
      if before.Raised? then before else Check(records, events[|events| - 1])
  }

  function Moved(r: MemoryRecord, e: StatusEvent): MemoryRecord {
    r.(state := e.newState,
       supersededAt := if e.newState == Superseded then Some(e.occurredAt) else r.supersededAt)
  }

  function Apply(l: Ledger, e: StatusEvent): LedgerStep {
    var checked := Check(l.records, e);
    if e.recordId !in l.records.at || checked.Raised? then LedgerStep(l, checked)
    else LedgerStep(Ledger(l.records.Put(e.recordId, Moved(l.records.at[e.recordId], e)), l.log + [e]), Ok)
  }

  /** Apply in order and stop at the first failure, keeping what was applied before it. */
  function ApplyAll(l: Ledger, events: seq<StatusEvent>): LedgerStep {
    if events == [] then LedgerStep(l, Ok)
    else
      var before := ApplyAll(l, events[..|events| - 1]);
      if before.outcome.Raised? then before else Apply(before.ledger, events[|events| - 1])
  }

  /** The state a log leaves a record in, from the state it started in. */
  function Replay(start: MemoryState, log: seq<StatusEvent>, id: Uuid): MemoryState {
    if log == [] then start
    else
      var n := |log| - 1;
      if log[n].recordId == id then log[n].newState else Replay(start, log[..n], id)
  }

  /** Every event names a known record and, where it states one, the state left by the events before it. */
  ghost predicate Chained(start: map<Uuid, MemoryState>, log: seq<StatusEvent>) {
    forall j :: 0 <= j < |log| ==>
      && log[j].recordId in start
      && (log[j].previous.Some? ==> log[j].previous.value == Replay(start[log[j].recordId], log[..j], log[j].recordId))
  }

  ghost function States(records: Dict<Uuid, MemoryRecord>): map<Uuid, MemoryState> {
    map id | id in records.at :: records.at[id].state
  }

  /** Read off the events alone: what each event expects survives the events listed before it. */
  ghost predicate SelfConsistent(events: seq<StatusEvent>) {
    forall j :: 0 <= j < |events| && events[j].previous.Some? ==>
      Replay(events[j].previous.value, events[..j], events[j].recordId) == events[j].previous.value
  }

  ghost predicate DistinctTargets(events: seq<StatusEvent>) {
    forall i, j :: 0 <= i < j < |events| ==> events[i].recordId != events[j].recordId
  }

  /** A record as far as transitions cannot touch it. */
  function Identity(r: MemoryRecord): MemoryRecord {
    r.(state := Active, supersededAt := None)
  }

  /** The same records in the same order, up to their state. */
  ghost predicate SameRecords(a: Dict<Uuid, MemoryRecord>, b: Dict<Uuid, MemoryRecord>) {
    && a.order == b.order
    && a.at.Keys == b.at.Keys
    && (forall id :: id in a.at && id in b.at ==> Identity(a.at[id]) == Identity(b.at[id]))
  }

  lemma {:induction false} CheckAllMeansEach(records: Dict<Uuid, MemoryRecord>, events: seq<StatusEvent>)
    ensures CheckAll(records, events) == Ok || CheckAll(records, events).Raised?
    ensures CheckAll(records, events).Ok? <==> forall j :: 0 <= j < |events| ==> Check(records, events[j]).Ok?
  {
    if events != [] {
      var n := |events| - 1;
      CheckAllMeansEach(records, events[..n]);
      assert forall j :: 0 <= j < n ==> events[..n][j] == events[j];
    }
  }

  lemma {:induction false} CheckFailureSticks(records: Dict<Uuid, MemoryRecord>, events: seq<StatusEvent>, k: nat)
    requires k <= |events| && CheckAll(records, events[..k]).Raised?
    ensures CheckAll(records, events) == CheckAll(records, events[..k])
  {
    if k < |events| {
      var n := |events| - 1;
      assert events[..n][..k] == events[..k];
      CheckFailureSticks(records, events[..n], k);
    } else {
      assert events[..k] == events;
    }
  }

  lemma {:induction false} ApplyFailureSticks(l: Ledger, events: seq<StatusEvent>, k: nat)
    requires k <= |events| && ApplyAll(l, events[..k]).outcome.Raised?
    ensures ApplyAll(l, events) == ApplyAll(l, events[..k])
  {
    if k < |events| {
      var n := |events| - 1;
      assert events[..n][..k] == events[..k];
      ApplyFailureSticks(l, events[..n], k);
    } else {
      assert events[..k] == events;
    }
  }

  lemma {:induction false} ReplayConcat(start: MemoryState, a: seq<StatusEvent>, b: seq<StatusEvent>, id: Uuid)
    ensures Replay(start, a + b, id) == Replay(Replay(start, a, id), b, id)
  {
    if b == [] {
      assert a + b == a;
    } else {
      var n := |b| - 1;
      ReplayConcat(start, a, b[..n], id);
      assert (a + b)[..|a + b| - 1] == a + b[..n];
    }
  }

  lemma {:induction false} ReplayUntouched(start: MemoryState, log: seq<StatusEvent>, id: Uuid)
    requires forall j :: 0 <= j < |log| ==> log[j].recordId != id
    ensures Replay(start, log, id) == start
  {
    if log != [] {
      ReplayUntouched(start, log[..|log| - 1], id);
    }
  }

  lemma ChainedExtends(start: map<Uuid, MemoryState>, log: seq<StatusEvent>, e: StatusEvent)
    ensures Chained(start, log + [e]) <==>
              && Chained(start, log)
              && e.recordId in start
              && (e.previous.Some? ==> e.previous.value == Replay(start[e.recordId], log, e.recordId))
  {
    var all := log + [e];
    assert forall j :: 0 <= j <= |log| ==> all[..j] == log[..j];
    assert log[..|log|] == log;
    assert all[|log|] == e;
    assert forall j :: 0 <= j < |log| ==> all[j] == log[j];
  }

  lemma ApplyEffect(l: Ledger, e: StatusEvent)
    requires l.records.Valid()
    ensures var r := Apply(l, e);
            && r.ledger.records.Valid()
            && SameRecords(l.records, r.ledger.records)
            && (r.outcome.Ok? || (r.outcome.Raised? && r.ledger == l))
            && (r.outcome.Ok? ==> r.ledger.log == l.log + [e] && e.recordId in l.records.at &&
                                  (e.previous.Some? ==> l.records.at[e.recordId].state == e.previous.value))
            && (forall id :: id in l.records.at ==>
                  r.ledger.records.at[id].state ==
                  if r.outcome.Ok? && id == e.recordId then e.newState else l.records.at[id].state)
  {
  }

  lemma {:induction false} ApplyAllKeepsRecords(l: Ledger, events: seq<StatusEvent>)
    requires l.records.Valid()
    ensures var r := ApplyAll(l, events);
            && r.ledger.records.Valid()
            && SameRecords(l.records, r.ledger.records)
            && (r.outcome.Ok? || r.outcome.Raised?)
  {
    if events != [] {
      var n := |events| - 1;
      ApplyAllKeepsRecords(l, events[..n]);
      ApplyEffect(ApplyAll(l, events[..n]).ledger, events[n]);
    }
  }

  lemma {:induction false} ApplyingEnds(l: Ledger, events: seq<StatusEvent>)
    ensures ApplyAll(l, events).outcome.Ok? || ApplyAll(l, events).outcome.Raised?
  {
    if events != [] {
      ApplyingEnds(l, events[..|events| - 1]);
    }
  }

  /** On success every event is logged; on failure a proper prefix of them is. */
  lemma {:induction false} ApplyAllLogs(l: Ledger, events: seq<StatusEvent>)
    ensures var r := ApplyAll(l, events);
            var applied := |r.ledger.log| - |l.log|;
            && 0 <= applied <= |events|
            && (r.outcome.Raised? ==> applied < |events|)
            && (r.outcome.Ok? ==> applied == |events|)
            && r.ledger.log == l.log + events[..applied]
  {
    if events != [] {
      var n := |events| - 1;
      ApplyAllLogs(l, events[..n]);
      var before := ApplyAll(l, events[..n]);
      var k := |before.ledger.log| - |l.log|;
      assert events[..n][..k] == events[..k];
      LogAppends(l.log, events, k);
    }
  }

  lemma LogAppends(log: seq<StatusEvent>, events: seq<StatusEvent>, k: nat)
    requires k < |events|
    ensures (log + events[..k]) + [events[k]] == log + events[..k + 1]
  {
  }

  /** One more applied event: the record's state still is what its share of the log replays to. */
  lemma ApplyReplays(start: MemoryState, base: nat, before: Ledger, e: StatusEvent, id: Uuid)
    requires before.records.Valid() && id in before.records.at && base <= |before.log|
    requires before.records.at[id].state == Replay(start, before.log[base..], id)
    ensures var r := Apply(before, e).ledger;
            base <= |r.log| && id in r.records.at && r.records.at[id].state == Replay(start, r.log[base..], id)
  {
    ApplyEffect(before, e);
    var r := Apply(before, e);
    if r.outcome.Ok? {
      var tail := r.ledger.log[base..];
      assert tail[|tail| - 1] == e && tail[..|tail| - 1] == before.log[base..];
    }
  }

  /** Whatever was applied, a record's state is the one its share of the log replays to. */
  lemma {:induction false} ApplyAllReplays(l: Ledger, events: seq<StatusEvent>, id: Uuid)
    requires l.records.Valid() && id in l.records.at
    ensures var r := ApplyAll(l, events).ledger;
            && |l.log| <= |r.log| && id in r.records.at
            && r.records.at[id].state == Replay(l.records.at[id].state, r.log[|l.log|..], id)
  {
    if events != [] {
      var n := |events| - 1;
      ApplyAllReplays(l, events[..n], id);
      ApplyAllKeepsRecords(l, events[..n]);
      ApplyReplays(l.records.at[id].state, |l.log|, ApplyAll(l, events[..n]).ledger, events[n], id);
    } else {
      assert l.log[|l.log|..] == [];
    }
  }

  /** A transition is refused exactly for an unknown record, or for a stated previous state the record is not in;
      otherwise it is logged, and nothing of the record but its state and the date of its supersession changes. */
  lemma TransitionRefusedIff(l: Ledger, e: StatusEvent)
    ensures Apply(l, e).outcome == Raised(TargetNotFound) <==> e.recordId !in l.records.at
    ensures Apply(l, e).outcome == Raised(UnexpectedState)
            <==> e.recordId in l.records.at && e.previous.Some? && l.records.at[e.recordId].state != e.previous.value
    ensures var r := Apply(l, e);
            || (r.outcome.Raised? && r.ledger == l)
            || (&& r.outcome.Ok? && r.ledger.log == l.log + [e] && e.recordId in r.ledger.records.at
                && var was, now := l.records.at[e.recordId], r.ledger.records.at[e.recordId];
                   now.state == e.newState && now.(state := was.state, supersededAt := was.supersededAt) == was)
  {
  }

  /** When a log last superseded the record, or what it started with. */
  function LastSuperseded(start: Option<Time>, log: seq<StatusEvent>, id: Uuid): Option<Time> {
    if log == [] then start
    else
      var n := |log| - 1;
      if log[n].recordId == id && log[n].newState == Superseded then Some(log[n].occurredAt)
      else LastSuperseded(start, log[..n], id)
  }

  /** A record is dated by the last event that superseded it, and by no other. */
  lemma {:induction false} ApplyAllDatesSupersession(l: Ledger, events: seq<StatusEvent>, id: Uuid)
    requires l.records.Valid() && id in l.records.at && ApplyAll(l, events).outcome.Ok?
    ensures var r := ApplyAll(l, events).ledger.records;
            id in r.at && r.at[id].supersededAt == LastSuperseded(l.records.at[id].supersededAt, events, id)
  {
    if events != [] {
      ApplyAllDatesSupersession(l, events[..|events| - 1], id);
    }
  }

  /** After a successful prefix, the next event applies exactly when it follows from the states the prefix left. */
  lemma NextApplies(l: Ledger, done: seq<StatusEvent>, e: StatusEvent)
    requires l.records.Valid() && ApplyAll(l, done).outcome.Ok?
    ensures Apply(ApplyAll(l, done).ledger, e).outcome.Ok? <==>
              && e.recordId in States(l.records)
              && (e.previous.Some? ==> e.previous.value == Replay(States(l.records)[e.recordId], done, e.recordId))
  {
    ApplyAllKeepsRecords(l, done);
    ApplyAllLogs(l, done);
    assert ApplyAll(l, done).ledger.log[|l.log|..] == done;
    if e.recordId in l.records.at {
      ApplyAllReplays(l, done, e.recordId);
    }
  }

  /** A commit's apply phase succeeds exactly when its events chain from the states the records are in. */
  lemma {:induction false} ApplyAllSucceedsIffChained(l: Ledger, events: seq<StatusEvent>)
    requires l.records.Valid()
    ensures ApplyAll(l, events).outcome.Ok? <==> Chained(States(l.records), events)
  {
    if events != [] {
      var n := |events| - 1;
      ApplyAllSucceedsIffChained(l, events[..n]);
      ChainedExtends(States(l.records), events[..n], events[n]);
      assert events == events[..n] + [events[n]];
      if ApplyAll(l, events[..n]).outcome.Ok? {
        NextApplies(l, events[..n], events[n]);
      } else {
        ApplyAllKeepsRecords(l, events[..n]);
      }
    }
  }

  /** After all checks pass, chaining is a property of the events alone. */
  lemma CheckedChainIsSelfConsistency(records: Dict<Uuid, MemoryRecord>, events: seq<StatusEvent>)
    requires CheckAll(records, events).Ok?
    ensures Chained(States(records), events) <==> SelfConsistent(events)
  {
    CheckAllMeansEach(records, events);
    assert forall j :: 0 <= j < |events| ==> Check(records, events[j]).Ok?;
  }

  lemma DistinctTargetsAreSelfConsistent(events: seq<StatusEvent>)
    requires DistinctTargets(events)
    ensures SelfConsistent(events)
  {
    forall j | 0 <= j < |events| && events[j].previous.Some?
      ensures Replay(events[j].previous.value, events[..j], events[j].recordId) == events[j].previous.value
    {
      ReplayUntouched(events[j].previous.value, events[..j], events[j].recordId);
    }
  }

  /** Main result: once every check has passed, applying fails exactly when the events contradict each other. */
  lemma CheckedApplyFailsIffSelfContradictory(l: Ledger, events: seq<StatusEvent>)
    requires l.records.Valid() && CheckAll(l.records, events).Ok?
    ensures ApplyAll(l, events).outcome.Ok? <==> SelfConsistent(events)
  {
    ApplyAllSucceedsIffChained(l, events);
    CheckedChainIsSelfConsistency(l.records, events);
  }
}
