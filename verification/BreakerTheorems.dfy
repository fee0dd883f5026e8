/** What every concurrent run of the circuit breaker guarantees. */
module BreakerTheorems {
  import opened CircuitBreaker
  import opened BreakerRuns

  lemma InvFromStart(cfg: ValidConfig, now: real, ticks: seq<Tick>)
    requires CanRun(cfg, Init(now), ticks)
    ensures Inv(cfg, Run(cfg, Init(now), ticks))
  {
    InvHolds(cfg, Init(now), ticks);
  }

  // ---------------------------------------------------------------- half-open capacity

  /**
   The half-open counter against the trials really in flight. It never exceeds them, and it falls
   short by at most the calls of earlier phases that finished during this one; so it is exact when
   none did, and the trials exceed HalfOpenMaxCalls by at most that number.
   */
  lemma SlotAccounting(cfg: ValidConfig, now: real, ticks: seq<Tick>)
    requires CanRun(cfg, Init(now), ticks)
    ensures var s := Run(cfg, Init(now), ticks); var older := Tally(s.history, Older(Phase(s)));
      s.b.state == HalfOpen ==>
        && |Trials(s)| - older <= s.b.halfOpenActive
        && s.b.halfOpenActive <= |Trials(s)| && s.b.halfOpenActive <= cfg.halfOpenMaxCalls
        && |Trials(s)| <= cfg.halfOpenMaxCalls + older
        && (older == 0 ==> s.b.halfOpenActive == |Trials(s)|)
  {
    InvFromStart(cfg, now, ticks);
  }

  ghost predicate Admits(cfg: ValidConfig, s: System, t: Tick)
    requires Enabled(s, t)
  {
    t.event.Begin? && t.event.id in Step(cfg, s, t).inflight
  }

  /**
   A new call is turned away only inside the open timeout or while a trial of the current
   half-open phase is in flight: the breaker never wedges.
   */
  lemma NeverWedges(cfg: ValidConfig, now: real, ticks: seq<Tick>, t: Tick)
    requires CanRun(cfg, Init(now), ticks)
    requires Enabled(Run(cfg, Init(now), ticks), t) && t.event.Begin?
    requires !Admits(cfg, Run(cfg, Init(now), ticks), t)
    ensures var s := Run(cfg, Init(now), ticks);
      || (s.b.state == Open && t.r.test - s.b.openedAt < cfg.openTimeout)
      || (s.b.state == HalfOpen && s.b.halfOpenActive == cfg.halfOpenMaxCalls <= |Trials(s)|)
  {
    InvFromStart(cfg, now, ticks);
  }

  /**
   "At most HalfOpenMaxCalls trials in flight" is broken by any call of an earlier phase that is
   still in flight once the trials fill the slots: let it be cancelled and one more trial enters.
   */
  lemma OlderCallFreesATrialSlot(cfg: ValidConfig, s: System, older: CallId, newer: CallId, r1: Readings, r2: Readings)
    requires Inv(cfg, s) && s.b.state == HalfOpen && |Trials(s)| >= cfg.halfOpenMaxCalls
    requires older in s.inflight && s.inflight[older] < Phase(s) && newer !in s.inflight
    requires s.clock <= r1.test && r1.Ordered() && r1.reset <= r2.test && r2.Ordered()
    ensures var ticks := [Tick(End(older, Cancelled), r1), Tick(Begin(newer), r2)];
      CanRun(cfg, s, ticks) && |Trials(Run(cfg, s, ticks))| == |Trials(s)| + 1 > cfg.halfOpenMaxCalls
  {
    var t1, t2 := Tick(End(older, Cancelled), r1), Tick(Begin(newer), r2);
    var s1 := Step(cfg, s, t1);
    TrialsMove(cfg, s, t1);
    assert Trials(s1) == Trials(s);
    TrialsMove(cfg, s1, t2);
    RunTwo(cfg, s, t1, t2);
  }

  // ---------------------------------------------------------------- tripping

  /** The verdicts that count towards a trip decided by tick `t`: those of the window it sees. */
  ghost predicate CountsFor(cfg: ValidConfig, s: System, t: Tick, e: Entry) {
    && e.Finished? && e.phase == Phase(s) && !e.outcome.Cancelled?
    && e.at >= RollWindow(cfg, s.b, t.r).windowStart
  }

  /** A call leaves a closed breaker with a verdict. */
  ghost predicate IsVerdict(s: System, t: Tick) {
    Enabled(s, t) && s.b.state == Closed && t.event.End? && t.event.outcome != Cancelled
  }

  datatype Counts = Counts(ok: nat, bad: nat)

  /** The counters as the verdict makes them, before any trip clears them. */
  ghost function Seen(cfg: ValidConfig, s: System, t: Tick): Counts
    requires IsVerdict(s, t)
  {
    var b := RollWindow(cfg, s.b, t.r);
    if t.event.outcome == Success then Counts(b.successes + 1, b.failures) else Counts(b.successes, b.failures + 1)
  }

  /** They are the verdicts of the window, this one included. */
  lemma SeenIsWindowed(cfg: ValidConfig, s: System, t: Tick)
    requires IsVerdict(s, t) && Timed(s) && Counted(cfg, s)
    ensures
      var h, since := Step(cfg, s, t).history, RollWindow(cfg, s.b, t.r).windowStart;
      && Tally(h, Windowed(Phase(s), Success, since)) == Seen(cfg, s, t).ok
      && Tally(h, Windowed(Phase(s), Failure, since)) == Seen(cfg, s, t).bad
  {
    hide Tally, Next;
    var since := RollWindow(cfg, s.b, t.r).windowStart;
    TallyNews(cfg, s, t);
    if Rolls(cfg, s.b, t.r) {
      TallyNone(s.history, Windowed(Phase(s), Success, since));
      TallyNone(s.history, Windowed(Phase(s), Failure, since));
    }
  }

  /** A closed breaker opens exactly at a failure that passes the trip test. */
  lemma TripsAt(cfg: ValidConfig, s: System, t: Tick)
    requires Enabled(s, t) && s.b.state == Closed
    ensures Step(cfg, s, t).b.state == Open
       <==> t.event.End? && t.event.outcome == Failure && ShouldTrip(cfg, Seen(cfg, s, t).ok, Seen(cfg, s, t).bad)
    ensures IsVerdict(s, t) && Step(cfg, s, t).b.state == Closed ==>
      Counts(Step(cfg, s, t).b.successes, Step(cfg, s, t).b.failures) == Seen(cfg, s, t)
    ensures Step(cfg, s, t).b.state != HalfOpen
  {
    hide ShouldTrip;
  }

  lemma TripFitsWindow(cfg: ValidConfig, s: System, t: Tick, i: int)
    requires Enabled(s, t) && Counted(cfg, s)
    requires s.b.state == Closed && Step(cfg, s, t).b.state == Open
    requires 0 <= i < |Step(cfg, s, t).history| && CountsFor(cfg, s, t, Step(cfg, s, t).history[i])
    ensures var since := RollWindow(cfg, s.b, t.r).windowStart;
      since <= Step(cfg, s, t).history[i].at < since + cfg.window
  {
    var h := Step(cfg, s, t).history;
    if i < |s.history| {
      assert h[i] == s.history[i];
    }
  }

  /** Enough verdicts, the required share of failures, and all within one window. */
  ghost predicate TripJustified(cfg: ValidConfig, s: System, t: Tick)
    requires Enabled(s, t)
  {
    var h := Step(cfg, s, t).history;
    var since := RollWindow(cfg, s.b, t.r).windowStart;
    var ok := Tally(h, Windowed(Phase(s), Success, since));
    var bad := Tally(h, Windowed(Phase(s), Failure, since));
    && ok + bad >= cfg.minimumRequests
    && bad as real >= Quota(cfg, ok + bad)
    && (forall i, j | 0 <= i < |h| && 0 <= j < |h| && CountsFor(cfg, s, t, h[i]) && CountsFor(cfg, s, t, h[j]) ::
          h[i].at - h[j].at < cfg.window)
  }

  lemma TripIsJustified(cfg: ValidConfig, s: System, t: Tick)
    requires Enabled(s, t) && Timed(s) && Counted(cfg, s)
    requires s.b.state == Closed && Step(cfg, s, t).b.state == Open
    ensures t.event.End? && t.event.outcome == Failure && TripJustified(cfg, s, t)
  {
    hide Quota, ShouldTrip, Tally, Step;
    var h := Step(cfg, s, t).history;
    TripsAt(cfg, s, t);
    SeenIsWindowed(cfg, s, t);
    ShouldTripByQuota(cfg, Seen(cfg, s, t).ok, Seen(cfg, s, t).bad);
    forall i, j | 0 <= i < |h| && 0 <= j < |h| && CountsFor(cfg, s, t, h[i]) && CountsFor(cfg, s, t, h[j])
      ensures h[i].at - h[j].at < cfg.window
    {
      TripFitsWindow(cfg, s, t, i);
      TripFitsWindow(cfg, s, t, j);
    }
  }

  /**
   A closed breaker trips only when a call fails, and the verdicts counted then are enough, share
   the required proportion of failures, and lie pairwise less than Window apart.
   */
  lemma TripIsSound(cfg: ValidConfig, now: real, ticks: seq<Tick>, t: Tick)
    requires CanRun(cfg, Init(now), ticks) && Enabled(Run(cfg, Init(now), ticks), t)
    requires Run(cfg, Init(now), ticks).b.state == Closed
    requires Step(cfg, Run(cfg, Init(now), ticks), t).b.state == Open
    ensures t.event.End? && t.event.outcome == Failure
    ensures TripJustified(cfg, Run(cfg, Init(now), ticks), t)
  {
    InvFromStart(cfg, now, ticks);
    TripIsJustified(cfg, Run(cfg, Init(now), ticks), t);
  }

  /**
   No trip is missed: in every reachable closed state the failures are fewer than MinimumRequests
   or fewer than FailureRatio of the verdicts counted in the window.
   */
  lemma NoTripIsMissed(cfg: ValidConfig, now: real, ticks: seq<Tick>)
    requires CanRun(cfg, Init(now), ticks)
    ensures
      var s := Run(cfg, Init(now), ticks);
      var ok := Tally(s.history, Windowed(Phase(s), Success, s.b.windowStart));
      var bad := Tally(s.history, Windowed(Phase(s), Failure, s.b.windowStart));
      s.b.state == Closed ==> !Due(cfg, ok, bad)
  {
    hide Run, CanRun, Tally, Due;
    InvFromStart(cfg, now, ticks);
  }

  /**
   A closed phase starts with a window of its own: nothing of it is forgotten before Window has passed
   since the breaker closed, so until then the counters are all the verdicts of the phase.
   */
  lemma FirstWindowCountsAll(cfg: ValidConfig, now: real, ticks: seq<Tick>)
    requires CanRun(cfg, Init(now), ticks)
    ensures var s := Run(cfg, Init(now), ticks);
      s.b.state == Closed && s.clock < s.began + cfg.window ==>
        && s.b.windowStart == s.began
        && s.b.successes == Tally(s.history, Verdicts(Phase(s), Success))
        && s.b.failures == Tally(s.history, Verdicts(Phase(s), Failure))
  {
    hide Run, CanRun, Tally;
    InvFromStart(cfg, now, ticks);
    var s := Run(cfg, Init(now), ticks);
    if s.b.state == Closed && s.clock < s.began + cfg.window {
      SameTally(s.history, Verdicts(Phase(s), Success), Windowed(Phase(s), Success, s.began));
      SameTally(s.history, Verdicts(Phase(s), Failure), Windowed(Phase(s), Failure, s.began));
    }
  }

  /**
   So MinimumRequests failures and no success within Window of the moment the breaker closed leave it
   closed no longer.
   */
  lemma EarlyFailuresTrip(cfg: ValidConfig, now: real, ticks: seq<Tick>)
    requires CanRun(cfg, Init(now), ticks)
    ensures var s := Run(cfg, Init(now), ticks);
      s.clock < s.began + cfg.window
      && Tally(s.history, Verdicts(Phase(s), Failure)) >= cfg.minimumRequests
      && Tally(s.history, Verdicts(Phase(s), Success)) == 0
      ==> s.b.state != Closed
  {
    hide Run, CanRun, Tally, Quota;
    InvFromStart(cfg, now, ticks);
    FirstWindowCountsAll(cfg, now, ticks);
    var s := Run(cfg, Init(now), ticks);
    AllFailuresReachQuota(cfg, s.b.failures);
  }

  lemma {:induction false} SameTally(h: seq<Entry>, k: Kind, k': Kind)
    requires forall i | 0 <= i < |h| :: Matches(h[i], k) <==> Matches(h[i], k')
    ensures Tally(h, k) == Tally(h, k')
  {
    if h != [] {
      SameTally(h[..|h| - 1], k, k');
    }
  }

  // ---------------------------------------------------------------- recovery

  /**
   The notified state changes form a walk closed -> open -> half-open -> {closed, open}; nothing is
   admitted within OpenTimeout of an earlier trip; and a half-open phase closed the breaker exactly
   when it saw HalfOpenSuccesses successes and no failure, and re-opened it at its first failure.
   */
  lemma RecoveryPath(cfg: ValidConfig, now: real, ticks: seq<Tick>)
    requires CanRun(cfg, Init(now), ticks)
    ensures var s := Run(cfg, Init(now), ticks);
      Walk(s.b) && CoolsDown(cfg, s.history) && PhasesEndWell(cfg, s)
  {
    InvFromStart(cfg, now, ticks);
  }

  // ---------------------------------------------------------------- load during an outage

  /** Every call that finishes is a recorded failure. */
  ghost predicate AllFail(ticks: seq<Tick>) {
    forall i | 0 <= i < |ticks| && ticks[i].event.End? :: ticks[i].event.outcome == Failure
  }

  /**
   `k` half-open phases have begun since the trip seen in `s0`, and `extra` is the number of
   admissions made since then in time: at most HalfOpenMaxCalls for each of the phases that can
   begin in time, of which there are `m`.
   */
  ghost predicate OutageBound(cfg: ValidConfig, s0: System, s: System, k: nat, m: nat, extra: int) {
    match s.b.state
    case Closed => false
    case Open =>
      && PhaseStart(cfg, s0, k) <= s.b.openedAt <= s.clock
      && extra <= Capacity(cfg, if k <= m then k else m)
    case HalfOpen =>
      && k > 0
      && PhaseStart(cfg, s0, k) <= s.clock
      && s.b.halfOpenActive <= cfg.halfOpenMaxCalls
      && extra <= if k <= m then Capacity(cfg, k - 1) + s.b.halfOpenActive else Capacity(cfg, m)
  }

  /** The k-th half-open phase after the trip in `s0` cannot begin before this. */
  function PhaseStart(cfg: ValidConfig, s0: System, k: nat): real {
    if k == 0 then s0.b.openedAt else PhaseStart(cfg, s0, k - 1) + cfg.openTimeout
  }

  function Capacity(cfg: ValidConfig, k: nat): nat {
    if k == 0 then 0 else Capacity(cfg, k - 1) + cfg.halfOpenMaxCalls
  }

  lemma PhaseStartIsLinear(cfg: ValidConfig, s0: System, k: nat)
    ensures PhaseStart(cfg, s0, k) == s0.b.openedAt + k as real * cfg.openTimeout
  {
  }

  lemma CapacityIsLinear(cfg: ValidConfig, k: nat)
    ensures Capacity(cfg, k) == cfg.halfOpenMaxCalls * k
  {
  }

  lemma PhaseStartIncreases(cfg: ValidConfig, s0: System, m: nat, k: nat)
    requires m <= k
    ensures PhaseStart(cfg, s0, m) <= PhaseStart(cfg, s0, k)
  {
  }

  lemma OutageStep(cfg: ValidConfig, s0: System, s: System, t: Tick, k: nat, m: nat, extra: int, until: real)
    returns (k': nat)
    requires Enabled(s, t) && (t.event.End? ==> t.event.outcome == Failure)
    requires OutageBound(cfg, s0, s, k, m, extra) && PhaseStart(cfg, s0, m + 1) > until
    ensures var s' := Step(cfg, s, t);
      OutageBound(cfg, s0, s', k', m,
                  extra + Tally(s'.history, Admissions(until)) - Tally(s.history, Admissions(until)))
  {
    hide Tally;
    var s' := Step(cfg, s, t);
    TallyNews(cfg, s, t);
    k' := if s.b.state == Open && s'.b.state == HalfOpen then k + 1 else k;
    if k' > m {
      PhaseStartIncreases(cfg, s0, m + 1, k');
    }
  }

  lemma {:induction false} OutageRun(cfg: ValidConfig, s0: System, s: System, ticks: seq<Tick>, k: nat, m: nat,
                                     extra: int, until: real)
    returns (k': nat)
    requires CanRun(cfg, s, ticks) && AllFail(ticks)
    requires OutageBound(cfg, s0, s, k, m, extra) && PhaseStart(cfg, s0, m + 1) > until
    ensures var s' := Run(cfg, s, ticks);
      OutageBound(cfg, s0, s', k', m,
                  extra + Tally(s'.history, Admissions(until)) - Tally(s.history, Admissions(until)))
    decreases |ticks|
  {
    k' := k;
    if ticks != [] {
      var t := ticks[0];
      k' := OutageStep(cfg, s0, s, t, k, m, extra, until);
      var s1 := Step(cfg, s, t);
      k' := OutageRun(cfg, s0, s1, ticks[1..], k', m,
                      extra + Tally(s1.history, Admissions(until)) - Tally(s.history, Admissions(until)), until);
    }
  }

  lemma PhasesThatFit(cfg: ValidConfig, s0: System, T: real) returns (m: nat)
    requires T >= 0.0
    ensures Capacity(cfg, m) == LoadWithin(cfg, T)
    ensures PhaseStart(cfg, s0, m) <= s0.b.openedAt + T < PhaseStart(cfg, s0, m + 1)
  {
    hide Capacity, PhaseStart;
    m := WholePart(T, cfg.openTimeout);
    PhaseStartIsLinear(cfg, s0, m);
    PhaseStartIsLinear(cfg, s0, m + 1);
    CapacityIsLinear(cfg, m);
  }

  lemma WholePart(x: real, y: real) returns (m: nat)
    requires x >= 0.0 && y > 0.0
    ensures m == (x / y).Floor && m as real * y <= x < (m + 1) as real * y
  {
    var q := x / y;
    assert q * y == x;
    assert q >= 0.0;
    m := q.Floor;
    assert ((m + 1) as real - q) * y > 0.0;
    assert (q - m as real) * y >= 0.0;
  }

  lemma OutageBoundCaps(cfg: ValidConfig, s0: System, s: System, k: nat, m: nat, extra: int)
    requires OutageBound(cfg, s0, s, k, m, extra)
    ensures extra <= Capacity(cfg, m)
  {
    CapacityIsLinear(cfg, k);
    CapacityIsLinear(cfg, m);
  }

  /**
   Load during an outage. Once the breaker is open, and as long as every call that finishes fails,
   the calls admitted within time T of the trip number at most
   HalfOpenMaxCalls * floor(T / OpenTimeout), whatever the interleaving.
   */
  lemma OutageLoadBound(cfg: ValidConfig, now: real, before: seq<Tick>, after: seq<Tick>, T: real)
    requires CanRun(cfg, Init(now), before) && Run(cfg, Init(now), before).b.state == Open
    requires CanRun(cfg, Run(cfg, Init(now), before), after) && AllFail(after)
    requires T >= 0.0
    ensures
      var s0 := Run(cfg, Init(now), before);
      var s := Run(cfg, s0, after);
      var within := Admissions(s0.b.openedAt + T);
      Tally(s.history, within) - Tally(s0.history, within)
        <= LoadWithin(cfg, T)
  {
    hide Run, CanRun, Tally, LoadWithin, AllFail;
    hide Tagged, Walk, Counted, Paced, Tidy, NotDue, Probing, Slots, PhasesEndWell, CoolsDown, TripsPassed;
    InvFromStart(cfg, now, before);
    OutageFrom(cfg, Run(cfg, Init(now), before), after, T);
  }

  /** The longest stretch of load within T of a trip. */
  function LoadWithin(cfg: ValidConfig, T: real): int {
    cfg.halfOpenMaxCalls * (T / cfg.openTimeout).Floor
  }

  lemma OutageFrom(cfg: ValidConfig, s0: System, after: seq<Tick>, T: real)
    requires s0.b.state == Open && Timed(s0) && T >= 0.0
    requires CanRun(cfg, s0, after) && AllFail(after)
    ensures var within := Admissions(s0.b.openedAt + T);
      Tally(Run(cfg, s0, after).history, within) - Tally(s0.history, within) <= LoadWithin(cfg, T)
  {
    hide Run, CanRun, Tally, LoadWithin, OutageBound, Capacity;
    var m := PhasesThatFit(cfg, s0, T);
    OutageStart(cfg, s0, m);
    var k := OutageRun(cfg, s0, s0, after, 0, m, 0, s0.b.openedAt + T);
    var s := Run(cfg, s0, after);
    var within := Admissions(s0.b.openedAt + T);
    OutageBoundCaps(cfg, s0, s, k, m, Tally(s.history, within) - Tally(s0.history, within));
  }

  lemma OutageStart(cfg: ValidConfig, s0: System, m: nat)
    requires s0.b.state == Open && Timed(s0)
    ensures OutageBound(cfg, s0, s0, 0, m, 0)
  {
  }
}
