/** The circuit breaker guarding optional external projections, as values and histories. */
module BreakerSpec {
  import opened Prelude

  datatype CircuitState = Closed | Open | HalfOpen

  datatype Breaker = Breaker(
    threshold: int,
    timeout: real,
    state: CircuitState,
    failures: int,
    lastFailure: Option<real>,
    probeAt: Option<real>)

  /** A call on the breaker, with the clock reading it takes (a success reads no clock). */
  datatype Call = Succeeded | Failed(at: real) | Asked(at: real)

  predicate Configured(threshold: int, timeout: real) {
    threshold >= 1 && timeout > 0.0
  }

  function New(threshold: int, timeout: real): Breaker {
    Breaker(threshold, timeout, Closed, 0, None, None)
  }

  function Success(b: Breaker): Breaker {
    b.(failures := 0, lastFailure := None, probeAt := None, state := Closed)
  }

  function Failure(b: Breaker, now: real): Breaker {
    var failures := b.failures + 1;
    b.(failures := failures, lastFailure := Some(now), probeAt := None,
       state := if failures >= b.threshold then Open else b.state)
  }

  predicate Admits(b: Breaker, now: real) {
    match b.state
    case Closed => true
    case Open => b.lastFailure.Some? && now - b.lastFailure.value >= b.timeout
    case HalfOpen => b.probeAt.None? || now - b.probeAt.value >= b.timeout
  }

  function Ask(b: Breaker, now: real): Breaker {
    if b.state == Closed || !Admits(b, now) then b
    else b.(state := HalfOpen, probeAt := Some(now))
  }

  function Step(b: Breaker, c: Call): Breaker {
    match c
    case Succeeded => Success(b)
    case Failed(at) => Failure(b, at)
    case Asked(at) => Ask(b, at)
  }

  function Run(b: Breaker, calls: seq<Call>): Breaker
    decreases |calls|
  {
    if calls == [] then b else Run(Step(b, calls[0]), calls[1..])
  }

  /** The times of the calls admitted while the breaker was not CLOSED. */
  function Probes(b: Breaker, calls: seq<Call>): seq<real>
    decreases |calls|
  {
    if calls == [] then []
    else
      var rest := Probes(Step(b, calls[0]), calls[1..]);
      if calls[0].Asked? && b.state != Closed && Admits(b, calls[0].at) then [calls[0].at] + rest else rest
  }

  /** Failures reported since the last success. */
  function FailuresSinceSuccess(calls: seq<Call>): nat {
    if calls == [] then 0
    else match calls[|calls| - 1]
      case Succeeded => 0
      case Failed(_) => FailuresSinceSuccess(calls[..|calls| - 1]) + 1
      case Asked(_) => FailuresSinceSuccess(calls[..|calls| - 1])
  }

  /** Clock readings never go backwards. */
  ghost predicate Monotone(calls: seq<Call>) {
    forall i, j :: 0 <= i < j < |calls| && !calls[i].Succeeded? && !calls[j].Succeeded? ==> calls[i].at <= calls[j].at
  }

  ghost predicate NoSuccess(calls: seq<Call>) {
    forall i :: 0 <= i < |calls| ==> !calls[i].Succeeded?
  }

  /** What holds of every reachable breaker. */
  ghost predicate Valid(b: Breaker) {
    && Configured(b.threshold, b.timeout)
    && b.failures >= 0
    && (b.lastFailure.None? <==> b.failures == 0)
    && (b.state != Closed <==> b.failures >= b.threshold)
    && (b.state == Closed ==> b.probeAt.None?)
    && (b.state != Closed ==> b.lastFailure.Some?)
    && (b.state == HalfOpen <==> b.probeAt.Some?)
  }

  /** The instant from which the recovery timeout is counted while not CLOSED. */
  ghost function Gate(b: Breaker): real
    requires Valid(b) && b.state != Closed
  {
    if b.state == HalfOpen then b.probeAt.value else b.lastFailure.value
  }

  /** Neighbouring times lie at least `gap` apart. */
  ghost predicate Spaced(p: seq<real>, gap: real) {
    forall i, j :: 0 <= i && j == i + 1 && j < |p| ==> p[j] - p[i] >= gap
  }

  lemma StepKeepsValid(b: Breaker, c: Call)
    requires Valid(b)
    ensures Valid(Step(b, c))
    ensures Step(b, c).threshold == b.threshold && Step(b, c).timeout == b.timeout
  {
  }

  lemma {:induction false} RunKeepsValid(b: Breaker, calls: seq<Call>)
    requires Valid(b)
    ensures Valid(Run(b, calls))
    ensures Run(b, calls).threshold == b.threshold && Run(b, calls).timeout == b.timeout
    decreases |calls|
  {
    if calls != [] {
      StepKeepsValid(b, calls[0]);
      RunKeepsValid(Step(b, calls[0]), calls[1..]);
    }
  }

  lemma {:induction false} RunSplits(b: Breaker, pre: seq<Call>, post: seq<Call>)
    ensures Run(b, pre + post) == Run(Run(b, pre), post)
    ensures Probes(b, pre + post) == Probes(b, pre) + Probes(Run(b, pre), post)
    decreases |pre|
  {
    if pre == [] {
      assert pre + post == post;
    } else {
      assert (pre + post)[1..] == pre[1..] + post;
      RunSplits(Step(b, pre[0]), pre[1..], post);
    }
  }

  /** A breaker is out of CLOSED exactly when the failures since the last success reach the threshold. */
  lemma {:induction false} OpenExactlyAtThreshold(threshold: int, timeout: real, calls: seq<Call>)
    requires Configured(threshold, timeout)
    ensures var b := Run(New(threshold, timeout), calls);
            b.failures == FailuresSinceSuccess(calls) &&
            (b.state != Closed <==> FailuresSinceSuccess(calls) >= threshold)
  {
    var b0 := New(threshold, timeout);
    RunKeepsValid(b0, calls);
    if calls != [] {
      var n := |calls| - 1;
      OpenExactlyAtThreshold(threshold, timeout, calls[..n]);
      RunSplits(b0, calls[..n], calls[n..]);
      assert calls[..n] + calls[n..] == calls && calls[n..] == [calls[n]];
      assert Run(b0, calls) == Step(Run(b0, calls[..n]), calls[n]);
    }
  }

  /** Consecutive probes of a success-free stretch lie a full timeout apart, whatever failures arrive late. */
  lemma {:induction false} ProbesFollowTheGate(b: Breaker, calls: seq<Call>)
    requires Valid(b) && NoSuccess(calls) && Monotone(calls)
    requires b.state != Closed ==> forall i :: 0 <= i < |calls| ==> calls[i].at >= Gate(b)
    ensures var p := Probes(b, calls);
            && (b.state != Closed && |p| > 0 ==> p[0] - Gate(b) >= b.timeout)
            && Spaced(p, b.timeout)
    decreases |calls|
  {
    if calls != [] {
      var b' := Step(b, calls[0]);
      StepKeepsValid(b, calls[0]);
      assert forall i :: 0 <= i < |calls[1..]| ==> calls[1..][i] == calls[i + 1];
      ProbesFollowTheGate(b', calls[1..]);
      assert calls[0].Asked? && b.state != Closed && Admits(b, calls[0].at) ==> Gate(b') == calls[0].at;
    }
  }

  lemma {:induction false} GapsAddUp(p: seq<real>, gap: real, i: nat, j: nat)
    requires i <= j < |p|
    requires Spaced(p, gap)
    ensures p[j] - p[i] >= (j - i) as real * gap
    decreases j - i
  {
    if i < j {
      GapsAddUp(p, gap, i, j - 1);
      assert (j - i) as real * gap == (j - 1 - i) as real * gap + gap;
    }
  }

  /** Main result: after any history, n probes of a success-free stretch span at least n - 1 timeouts. */
  lemma ProbeSpacing(threshold: int, timeout: real, before: seq<Call>, stretch: seq<Call>, i: nat, j: nat)
    requires Configured(threshold, timeout)
    requires Monotone(before + stretch) && NoSuccess(stretch)
    requires i <= j < |Probes(Run(New(threshold, timeout), before), stretch)|
    ensures var p := Probes(Run(New(threshold, timeout), before), stretch);
            p[j] - p[i] >= (j - i) as real * timeout
  {
    var b := Run(New(threshold, timeout), before);
    RunKeepsValid(New(threshold, timeout), before);
    forall k, m | 0 <= k < m < |stretch|
      ensures stretch[k].at <= stretch[m].at
    {
      assert stretch[k] == (before + stretch)[|before| + k] && stretch[m] == (before + stretch)[|before| + m];
    }
    if b.state != Closed {
      StampsComeFromTheHistory(New(threshold, timeout), before);
      forall m | 0 <= m < |stretch|
        ensures stretch[m].at >= Gate(b)
      {
        var n :| 0 <= n < |before| && !before[n].Succeeded? && before[n].at == Gate(b);
        assert before[n] == (before + stretch)[n] && stretch[m] == (before + stretch)[|before| + m];
      }
    }
    ProbesFollowTheGate(b, stretch);
    GapsAddUp(Probes(b, stretch), timeout, i, j);
  }

  /** Every stamp a breaker carries was either there at the start or read during a call. */
  lemma {:induction false} StampsComeFromTheHistory(b: Breaker, calls: seq<Call>)
    ensures var e := Run(b, calls);
            && (e.lastFailure.Some? ==>
                  e.lastFailure == b.lastFailure ||
                  exists n :: 0 <= n < |calls| && calls[n].Failed? && calls[n].at == e.lastFailure.value)
            && (e.probeAt.Some? ==>
                  e.probeAt == b.probeAt ||
                  exists n :: 0 <= n < |calls| && calls[n].Asked? && calls[n].at == e.probeAt.value)
            && (e.probeAt.Some? ==> e.probeAt == b.probeAt || e.probeAt.value in Probes(b, calls))
  {
    if calls != [] {
      var n := |calls| - 1;
      StampsComeFromTheHistory(b, calls[..n]);
      RunSplits(b, calls[..n], calls[n..]);
      assert calls[..n] + calls[n..] == calls && calls[n..] == [calls[n]];
      var d := Run(b, calls[..n]);
      assert Run(b, calls) == Step(d, calls[n]);
      assert calls[n] == calls[n..][0];
      assert Probes(d, [calls[n]]) ==
        if calls[n].Asked? && d.state != Closed && Admits(d, calls[n].at) then [calls[n].at] else [];
    }
  }

  /** Main result: no wedge. A call one timeout after every failure and every probe so far is admitted. */
  lemma NeverWedged(threshold: int, timeout: real, calls: seq<Call>, now: real)
    requires Configured(threshold, timeout)
    requires forall n :: 0 <= n < |calls| && calls[n].Failed? ==> now - calls[n].at >= timeout
    requires forall p :: p in Probes(New(threshold, timeout), calls) ==> now - p >= timeout
    ensures Admits(Run(New(threshold, timeout), calls), now)
  {
    RunKeepsValid(New(threshold, timeout), calls);
    StampsComeFromTheHistory(New(threshold, timeout), calls);
  }

  /** Right after a probe is admitted nobody else is, until it is reported or its own window expires. */
  lemma OneProbeAtATime(b: Breaker, first: real, second: real)
    requires Valid(b) && b.state != Closed && Admits(b, first) && first <= second
    ensures Admits(Ask(b, first), second) <==> second - first >= b.timeout
    ensures Admits(Success(Ask(b, first)), second)
  {
  }
  // ---- the breaker as its history alone ----

  /** The instant the recovery timeout is counted from: the last failure since the last success, or the probe admitted
      after it. */
  function Mark(threshold: int, timeout: real, calls: seq<Call>): Option<real>
    decreases |calls|, 0
  {
    if calls == [] then None
    else
      var before := calls[..|calls| - 1];
      match calls[|calls| - 1]
      case Succeeded => None
      case Failed(at) => Some(at)
      case Asked(at) =>
        if FailuresSinceSuccess(before) >= threshold && Due(threshold, timeout, before, at) then Some(at)
        else Mark(threshold, timeout, before)
  }

  /** A full timeout has passed since the mark. */
  predicate Due(threshold: int, timeout: real, calls: seq<Call>, now: real)
    decreases |calls|, 1
  {
    var mark := Mark(threshold, timeout, calls);
    mark.Some? && now - mark.value >= timeout
  }

  lemma {:induction false} MarkIsGate(threshold: int, timeout: real, calls: seq<Call>)
    requires Configured(threshold, timeout)
    ensures var b := Run(New(threshold, timeout), calls);
            && Valid(b) && b.threshold == threshold && b.timeout == timeout
            && (b.state != Closed <==> FailuresSinceSuccess(calls) >= threshold)
            && (b.state != Closed ==> Mark(threshold, timeout, calls) == Some(Gate(b)))
  {
    var b0 := New(threshold, timeout);
    RunKeepsValid(b0, calls);
    OpenExactlyAtThreshold(threshold, timeout, calls);
    if calls != [] {
      var n := |calls| - 1;
      MarkIsGate(threshold, timeout, calls[..n]);
      RunSplits(b0, calls[..n], calls[n..]);
      assert calls[..n] + calls[n..] == calls && calls[n..] == [calls[n]];
      assert Run(b0, calls) == Step(Run(b0, calls[..n]), calls[n]);
    }
  }

  /** Main result: after any history a call is admitted exactly when the failures since the last success are below the
      threshold, or a timeout has passed since the last failure and since the probe admitted after it. */
  lemma AdmittedIff(threshold: int, timeout: real, calls: seq<Call>, now: real)
    requires Configured(threshold, timeout)
    ensures Admits(Run(New(threshold, timeout), calls), now)
            <==> FailuresSinceSuccess(calls) < threshold || Due(threshold, timeout, calls, now)
  {
    MarkIsGate(threshold, timeout, calls);
  }
}

/** The breaker object: its fields, changed under its lock. */
module CircuitBreakers {
  import opened Prelude
  import opened BreakerSpec

  class CircuitBreaker {
    const failureThreshold: int
    const recoveryTimeout: real
    var failureCount: int
    var lastFailure: Option<real>
    var probeAt: Option<real>
    var state: CircuitState

    ghost function View(): Breaker
      reads this
    {
      Breaker(failureThreshold, recoveryTimeout, state, failureCount, lastFailure, probeAt)
    }

    constructor Init(threshold: int, timeout: real)
      ensures View() == New(threshold, timeout)
    {
      failureThreshold, recoveryTimeout := threshold, timeout;
      failureCount, lastFailure, probeAt, state := 0, None, None, Closed;
    }

    /** Refuses a threshold below one and a timeout that is not positive. */
    static method Create(threshold: int, timeout: real) returns (breaker: CircuitBreaker?)
      ensures breaker != null <==> threshold >= 1 && timeout > 0.0
      ensures breaker != null ==> fresh(breaker) && breaker.View() == New(threshold, timeout) && Valid(breaker.View())
    {
      breaker := null;
      if threshold >= 1 && timeout > 0.0 {
        breaker := new CircuitBreaker.Init(threshold, timeout);
      }
    }

    method RecordSuccess()
      modifies this
      ensures View() == Success(old(View()))
    {
      failureCount := 0;
      lastFailure := None;
      probeAt := None;
      state := Closed;
    }

    method RecordFailure(now: real)
      modifies this
      ensures View() == Failure(old(View()), now)
    {
      failureCount := failureCount + 1;
      lastFailure := Some(now);
      probeAt := None;
      if failureCount >= failureThreshold {
        state := Open;
      }
    }

    method CanExecute(now: real) returns (admitted: bool)
      modifies this
      ensures admitted == Admits(old(View()), now)
      ensures View() == Ask(old(View()), now)
    {
      if state == Closed {
        return true;
      }
      if state == Open {
        if lastFailure.Some? && now - lastFailure.value >= recoveryTimeout {
          state := HalfOpen;
          probeAt := Some(now);
          return true;
        }
        return false;
      }
      if probeAt.None? || now - probeAt.value >= recoveryTimeout {
        probeAt := Some(now);
        return true;
      }
      return false;
    }
  }
}
