/** The sliding-window rate limiter: its two pruned windows against the full call history. */
module LimiterSpec {

  const MINUTE: real := 60.0
  const HOUR: real := 3600.0

  datatype Limiter = Limiter(perMinute: int, perHour: int, minute: seq<real>, hour: seq<real>)

  /** A call with the clock reading it takes. Asking and reporting status only prune. */
  datatype Call = Asked(at: real) | Recorded(at: real)

  /** A limiter beside the times of every call it ever accepted. */
  datatype Log = Log(limiter: Limiter, history: seq<real>)

  predicate Configured(perMinute: int, perHour: int) {
    1 <= perMinute <= perHour
  }

  /** Entries leave from the front while they are at least `span` old. */
  function DropStale(w: seq<real>, now: real, span: real): (r: seq<real>) {
    if w != [] && now - w[0] >= span then DropStale(w[1..], now, span) else w
  }

  function Prune(l: Limiter, now: real): Limiter {
    l.(minute := DropStale(l.minute, now, MINUTE), hour := DropStale(l.hour, now, HOUR))
  }

  predicate HasRoom(l: Limiter) {
    |l.minute| < l.perMinute && |l.hour| < l.perHour
  }

  function Record(l: Limiter, now: real): Limiter {
    var p := Prune(l, now);
    if HasRoom(p) then p.(minute := p.minute + [now], hour := p.hour + [now]) else p
  }

  function New(perMinute: int, perHour: int): Limiter {
    Limiter(perMinute, perHour, [], [])
  }

  function Step(g: Log, c: Call): Log {
    match c
    case Asked(at) => g.(limiter := Prune(g.limiter, at))
    case Recorded(at) =>
      Log(Record(g.limiter, at), if HasRoom(Prune(g.limiter, at)) then g.history + [at] else g.history)
  }

  function Replay(perMinute: int, perHour: int, calls: seq<Call>): Log {
    if calls == [] then Log(New(perMinute, perHour), [])
    else Step(Replay(perMinute, perHour, calls[..|calls| - 1]), calls[|calls| - 1])
  }

  /** The naive answer: every accepted call less than `span` old. */
  function Recent(h: seq<real>, now: real, span: real): (r: seq<real>) {
    if h == [] then []
    else
      var n := |h| - 1;
      Recent(h[..n], now, span) + if now - h[n] < span then [h[n]] else []
  }

  /** The accepted calls of one window, its end excluded. */
  function Window(h: seq<real>, start: real, span: real): (r: seq<real>) {
    if h == [] then []
    else
      var n := |h| - 1;
      Window(h[..n], start, span) + if start <= h[n] < start + span then [h[n]] else []
  }

  ghost predicate Sorted(h: seq<real>) {
    forall i, j :: 0 <= i < j < |h| ==> h[i] <= h[j]
  }

  ghost predicate UpTo(h: seq<real>, now: real) {
    forall i :: 0 <= i < |h| ==> h[i] <= now
  }

  ghost predicate Monotone(calls: seq<Call>) {
    forall i, j :: 0 <= i < j < |calls| ==> calls[i].at <= calls[j].at
  }

  lemma {:induction false} RecentOfSuffix(h: seq<real>, now: real, span: real)
    requires h != []
    ensures Recent(h, now, span) == (if now - h[0] < span then [h[0]] else []) + Recent(h[1..], now, span)
  {
    var n := |h| - 1;
    if n > 0 {
      RecentOfSuffix(h[..n], now, span);
      assert h[..n][1..] == h[1..][..n - 1];
      assert h[1..][n - 1] == h[n];
    }
  }

  lemma {:induction false} DropStaleIsSuffix(w: seq<real>, now: real, span: real)
    ensures var r := DropStale(w, now, span); |r| <= |w| && r == w[|w| - |r|..]
  {
    if w != [] && now - w[0] >= span {
      DropStaleIsSuffix(w[1..], now, span);
    }
  }

  lemma {:induction false} AllRecent(h: seq<real>, now: real, span: real)
    requires forall i :: 0 <= i < |h| ==> now - h[i] < span
    ensures Recent(h, now, span) == h
  {
    if h != [] {
      AllRecent(h[..|h| - 1], now, span);
    }
  }

  /** On a sorted window, dropping the stale front is filtering the whole. */
  lemma {:induction false} DropStaleIsRecent(w: seq<real>, now: real, span: real)
    requires Sorted(w)
    ensures DropStale(w, now, span) == Recent(w, now, span)
  {
    if w != [] {
      if now - w[0] >= span {
        DropStaleIsRecent(w[1..], now, span);
        RecentOfSuffix(w, now, span);
      } else {
        AllRecent(w, now, span);
      }
    }
  }

  /** Pruning early with a wider or older cutoff changes nothing for a later, tighter one. */
  lemma {:induction false} RecentOfRecent(h: seq<real>, earlier: real, wide: real, now: real, span: real)
    requires earlier <= now && span <= wide
    ensures Recent(Recent(h, earlier, wide), now, span) == Recent(h, now, span)
  {
    if h != [] {
      var n := |h| - 1;
      RecentOfRecent(h[..n], earlier, wide, now, span);
      if earlier - h[n] < wide {
        var r := Recent(h[..n], earlier, wide);
        assert (r + [h[n]])[..|r|] == r;
      } else {
        assert Recent(h[..n], earlier, wide) + [] == Recent(h[..n], earlier, wide);
      }
    }
  }

  lemma {:induction false} RecentIsSorted(h: seq<real>, now: real, span: real)
    requires Sorted(h)
    ensures Sorted(Recent(h, now, span))
    ensures forall x :: x in Recent(h, now, span) ==> x in h
  {
    if h != [] {
      var n := |h| - 1;
      RecentIsSorted(h[..n], now, span);
      var r := Recent(h[..n], now, span);
      forall i | 0 <= i < |r|
        ensures r[i] <= h[n]
      {
        assert r[i] in r;
      }
    }
  }

  /** Both windows are the naive filters of the history, as of the last call. */
  ghost predicate Faithful(g: Log, now: real) {
    && Sorted(g.history) && UpTo(g.history, now)
    && g.limiter.minute == Recent(g.history, now, MINUTE)
    && g.limiter.hour == Recent(g.history, now, HOUR)
  }

  lemma PruneIsFaithful(g: Log, earlier: real, now: real)
    requires Faithful(g, earlier) && earlier <= now
    ensures Faithful(g.(limiter := Prune(g.limiter, now)), now)
  {
    RecentIsSorted(g.history, earlier, MINUTE);
    RecentIsSorted(g.history, earlier, HOUR);
    DropStaleIsRecent(g.limiter.minute, now, MINUTE);
    DropStaleIsRecent(g.limiter.hour, now, HOUR);
    RecentOfRecent(g.history, earlier, MINUTE, now, MINUTE);
    RecentOfRecent(g.history, earlier, HOUR, now, HOUR);
  }

  lemma StepIsFaithful(g: Log, earlier: real, c: Call)
    requires Faithful(g, earlier) && earlier <= c.at
    ensures Faithful(Step(g, c), c.at)
  {
    PruneIsFaithful(g, earlier, c.at);
    if c.Recorded? && HasRoom(Prune(g.limiter, c.at)) {
      var h := g.history + [c.at];
      assert h[..|h| - 1] == g.history;
    }
  }

  /** Main result: after any run under a monotone clock both windows equal the naive filters. */
  lemma {:induction false} WindowsAreNaiveFilters(perMinute: int, perHour: int, calls: seq<Call>)
    requires Monotone(calls) && calls != []
    ensures Faithful(Replay(perMinute, perHour, calls), calls[|calls| - 1].at)
  {
    var n := |calls| - 1;
    if n > 0 {
      assert calls[..n][n - 1] == calls[n - 1];
      WindowsAreNaiveFilters(perMinute, perHour, calls[..n]);
      StepIsFaithful(Replay(perMinute, perHour, calls[..n]), calls[n - 1].at, calls[n]);
    } else {
      assert calls[..n] == [];
      StepIsFaithful(Replay(perMinute, perHour, []), calls[n].at, calls[n]);
    }
  }

  /** The minute window is always the tail of the hour window. */
  lemma MinuteIsSuffixOfHour(perMinute: int, perHour: int, calls: seq<Call>)
    requires Monotone(calls)
    ensures var l := Replay(perMinute, perHour, calls).limiter;
            |l.minute| <= |l.hour| && l.minute == l.hour[|l.hour| - |l.minute|..]
  {
    if calls != [] {
      var g, now := Replay(perMinute, perHour, calls), calls[|calls| - 1].at;
      WindowsAreNaiveFilters(perMinute, perHour, calls);
      RecentIsSorted(g.history, now, HOUR);
      RecentOfRecent(g.history, now, HOUR, now, MINUTE);
      DropStaleIsRecent(g.limiter.hour, now, MINUTE);
      DropStaleIsSuffix(g.limiter.hour, now, MINUTE);
    }
  }

  /** A call is accepted exactly when the full history leaves room in both trailing windows. */
  lemma AcceptedExactlyWithRoom(perMinute: int, perHour: int, calls: seq<Call>, now: real)
    requires Monotone(calls + [Recorded(now)])
    ensures var g := Replay(perMinute, perHour, calls);
            HasRoom(Prune(g.limiter, now)) <==>
              |Recent(g.history, now, 60.0)| < perMinute && |Recent(g.history, now, 3600.0)| < perHour
  {
    var all := calls + [Recorded(now)];
    assert all[|calls|].at == now;
    assert forall i :: 0 <= i < |calls| ==> all[i] == calls[i];
    LimitsAreKept(perMinute, perHour, calls);
    if calls != [] {
      WindowsAreNaiveFilters(perMinute, perHour, calls);
      PruneIsFaithful(Replay(perMinute, perHour, calls), calls[|calls| - 1].at, now);
    }
  }

  lemma {:induction false} LimitsAreKept(perMinute: int, perHour: int, calls: seq<Call>)
    ensures var l := Replay(perMinute, perHour, calls).limiter; l.perMinute == perMinute && l.perHour == perHour
  {
    if calls != [] {
      LimitsAreKept(perMinute, perHour, calls[..|calls| - 1]);
    }
  }

  /** A window that reaches `now` holds only calls recent at `now`. */
  lemma {:induction false} WindowWithinRecent(h: seq<real>, start: real, span: real, now: real)
    requires now < start + span
    ensures |Window(h, start, span)| <= |Recent(h, now, span)|
  {
    if h != [] {
      WindowWithinRecent(h[..|h| - 1], start, span, now);
    }
  }

  lemma AcceptedKeepsBound(h: seq<real>, start: real, span: real, now: real, limit: int)
    requires |Window(h, start, span)| <= limit && |Recent(h, now, span)| < limit
    ensures |Window(h + [now], start, span)| <= limit
  {
    var h' := h + [now];
    assert h'[..|h'| - 1] == h;
    if now < start + span {
      WindowWithinRecent(h, start, span, now);
    }
  }

  /** Main result: no window of the full history, wherever it starts, exceeds its limit. */
  lemma {:induction false} EveryWindowIsBounded(perMinute: int, perHour: int, calls: seq<Call>, start: real)
    requires Configured(perMinute, perHour) && Monotone(calls)
    ensures |Window(Replay(perMinute, perHour, calls).history, start, 60.0)| <= perMinute
    ensures |Window(Replay(perMinute, perHour, calls).history, start, 3600.0)| <= perHour
  {
    if calls != [] {
      var n := |calls| - 1;
      EveryWindowIsBounded(perMinute, perHour, calls[..n], start);
      var g, c := Replay(perMinute, perHour, calls[..n]), calls[n];
      if c.Recorded? && HasRoom(Prune(g.limiter, c.at)) {
        assert calls[..n] + [Recorded(c.at)] == calls;
        AcceptedExactlyWithRoom(perMinute, perHour, calls[..n], c.at);
        AcceptedKeepsBound(g.history, start, MINUTE, c.at, perMinute);
        AcceptedKeepsBound(g.history, start, HOUR, c.at, perHour);
      }
    }
  }
}

/** The limiter object: two deques popped and appended in place. */
module RateLimiters {
  import opened LimiterSpec

  class RateLimiter {
    const perMinute: int
    const perHour: int
    var minuteWindow: seq<real>
    var hourWindow: seq<real>

    ghost function View(): Limiter
      reads this
    {
      Limiter(perMinute, perHour, minuteWindow, hourWindow)
    }

    constructor Init(perMinute: int, perHour: int)
      ensures View() == New(perMinute, perHour)
    {
      this.perMinute, this.perHour := perMinute, perHour;
      minuteWindow, hourWindow := [], [];
    }

    /** Refuses limits below one and an hourly limit below the minute limit. */
    static method Create(perMinute: int, perHour: int) returns (limiter: RateLimiter?)
      ensures limiter != null <==> perMinute >= 1 && perHour >= 1 && perHour >= perMinute
      ensures limiter != null ==> fresh(limiter) && limiter.View() == New(perMinute, perHour)
    {
      limiter := null;
      if !(perMinute < 1 || perHour < 1) && perHour >= perMinute {
        limiter := new RateLimiter.Init(perMinute, perHour);
      }
    }

    method PruneWindows(now: real)
      modifies this`minuteWindow, this`hourWindow
      ensures View() == Prune(old(View()), now)
    {
      while minuteWindow != [] && now - minuteWindow[0] >= MINUTE
        invariant hourWindow == old(hourWindow)
        invariant DropStale(minuteWindow, now, MINUTE) == DropStale(old(minuteWindow), now, MINUTE)
        decreases |minuteWindow|
      {
        minuteWindow := minuteWindow[1..];
      }
      while hourWindow != [] && now - hourWindow[0] >= HOUR
        invariant minuteWindow == DropStale(old(minuteWindow), now, MINUTE)
        invariant DropStale(hourWindow, now, HOUR) == DropStale(old(hourWindow), now, HOUR)
        decreases |hourWindow|
      {
        hourWindow := hourWindow[1..];
      }
    }

    method Allow(now: real) returns (allowed: bool)
      modifies this`minuteWindow, this`hourWindow
      ensures View() == Prune(old(View()), now)
      ensures allowed == HasRoom(View())
    {
      PruneWindows(now);
      allowed := |minuteWindow| < perMinute && |hourWindow| < perHour;
    }

    /** Refusal is reported as `false`; the windows are then only pruned. */
    method RecordCall(now: real) returns (accepted: bool)
      modifies this`minuteWindow, this`hourWindow
      ensures View() == Record(old(View()), now)
      ensures accepted == HasRoom(Prune(old(View()), now))
    {
      PruneWindows(now);
      if |minuteWindow| >= perMinute || |hourWindow| >= perHour {
        return false;
      }
      minuteWindow := minuteWindow + [now];
      hourWindow := hourWindow + [now];
      accepted := true;
    }
  }
}
