/**
 The window of counted verdicts.

 The configuration documents Window as a rolling period. The code clears both counters when the first
 section after the end of a window runs, so a verdict is judged by the verdicts since that moment and
 not by those of the last Window of time. This module says when the two agree, and what comes of it
 when they do not.
 */
module BreakerWindow {
  import opened CircuitBreaker
  import opened BreakerRuns
  import opened BreakerTheorems
  import opened BreakerScenarios

  /** The time of a verdict, less one Window: what a rolling window would look back to. */
  ghost function Horizon(cfg: ValidConfig, s: System, t: Tick): real
    requires IsVerdict(s, t)
  {
    VerdictTime(cfg, s.b, t.event.outcome, t.r) - cfg.window
  }

  /** What a rolling window would count: the verdicts of the phase in the last Window of time. */
  ghost function Rolling(cfg: ValidConfig, s: System, t: Tick): Counts
    requires IsVerdict(s, t)
  {
    var h, after := Step(cfg, s, t).history, Horizon(cfg, s, t);
    Counts(Tally(h, Recent(Phase(s), Success, after)), Tally(h, Recent(Phase(s), Failure, after)))
  }

  /** The verdicts in the last Window of time that came before the counters were last cleared. */
  ghost function Forgotten(cfg: ValidConfig, s: System, t: Tick): Counts
    requires IsVerdict(s, t)
  {
    var after, since := Horizon(cfg, s, t), RollWindow(cfg, s.b, t.r).windowStart;
    Counts(Tally(s.history, Dropped(Phase(s), Success, after, since)),
           Tally(s.history, Dropped(Phase(s), Failure, after, since)))
  }

  /** Such a verdict. */
  ghost predicate IsForgotten(cfg: ValidConfig, s: System, t: Tick, e: Entry)
    requires IsVerdict(s, t)
  {
    && e.Finished? && e.phase == Phase(s) && e.outcome != Cancelled
    && Horizon(cfg, s, t) < e.at < RollWindow(cfg, s.b, t.r).windowStart
  }

  lemma {:induction false} RecentSplits(h: seq<Entry>, p: nat, o: Outcome, after: real, since: real)
    requires after < since
    ensures Tally(h, Recent(p, o, after)) == Tally(h, Windowed(p, o, since)) + Tally(h, Dropped(p, o, after, since))
  {
    if h != [] {
      RecentSplits(h[..|h| - 1], p, o, after, since);
    }
  }

  /** A rolling window would count what the counters hold and what they have forgotten. */
  lemma RollingIsSeenAndForgotten(cfg: ValidConfig, s: System, t: Tick)
    requires IsVerdict(s, t) && Timed(s) && Counted(cfg, s)
    ensures Rolling(cfg, s, t).ok == Seen(cfg, s, t).ok + Forgotten(cfg, s, t).ok
    ensures Rolling(cfg, s, t).bad == Seen(cfg, s, t).bad + Forgotten(cfg, s, t).bad
  {
    hide Tally, Next;
    var h := Step(cfg, s, t).history;
    var after, since := Horizon(cfg, s, t), RollWindow(cfg, s.b, t.r).windowStart;
    SeenIsWindowed(cfg, s, t);
    RecentSplits(h, Phase(s), Success, after, since);
    RecentSplits(h, Phase(s), Failure, after, since);
    TallyNews(cfg, s, t);
  }

  lemma NothingForgottenIff(cfg: ValidConfig, s: System, t: Tick)
    requires IsVerdict(s, t)
    ensures Forgotten(cfg, s, t) == Counts(0, 0)
       <==> forall i | 0 <= i < |s.history| :: !IsForgotten(cfg, s, t, s.history[i])
  {
    hide Tally;
    var h, after, since := s.history, Horizon(cfg, s, t), RollWindow(cfg, s.b, t.r).windowStart;
    if i :| 0 <= i < |h| && IsForgotten(cfg, s, t, h[i]) {
      TallySome(h, Dropped(Phase(s), h[i].outcome, after, since), i);
    } else {
      forall i | 0 <= i < |h|
        ensures !Matches(h[i], Dropped(Phase(s), Success, after, since))
             && !Matches(h[i], Dropped(Phase(s), Failure, after, since))
      {
        assert !IsForgotten(cfg, s, t, h[i]);
      }
      TallyNone(h, Dropped(Phase(s), Success, after, since));
      TallyNone(h, Dropped(Phase(s), Failure, after, since));
    }
  }

  /**
   The exact condition for the documented window. In every reachable closed state the counters that a
   verdict produces are those of a rolling window if and only if no verdict of the phase lies both in
   the last Window of time and before the moment the counters were last cleared.
   */
  lemma WindowRollsIff(cfg: ValidConfig, now: real, ticks: seq<Tick>, t: Tick)
    requires CanRun(cfg, Init(now), ticks) && IsVerdict(Run(cfg, Init(now), ticks), t)
    ensures var s := Run(cfg, Init(now), ticks);
      Seen(cfg, s, t) == Rolling(cfg, s, t)
      <==> forall i | 0 <= i < |s.history| :: !IsForgotten(cfg, s, t, s.history[i])
  {
    hide Run, CanRun, Seen, Rolling, Forgotten, IsForgotten;
    InvFromStart(cfg, now, ticks);
    var s := Run(cfg, Init(now), ticks);
    RollingIsSeenAndForgotten(cfg, s, t);
    NothingForgottenIff(cfg, s, t);
  }

  // ---------------------------------------------------------------- trips missed

  ghost predicate RollingDue(cfg: ValidConfig, s: System, t: Tick)
    requires IsVerdict(s, t)
  {
    ShouldTrip(cfg, Rolling(cfg, s, t).ok, Rolling(cfg, s, t).bad)
  }

  /** A failure is due by a rolling window and leaves the breaker closed. */
  ghost predicate Misses(cfg: ValidConfig, s: System, t: Tick) {
    IsVerdict(s, t) && t.event.outcome == Failure && RollingDue(cfg, s, t) && Step(cfg, s, t).b.state == Closed
  }

  /** A failure is not due by a rolling window and trips the breaker. */
  ghost predicate TripsEarly(cfg: ValidConfig, s: System, t: Tick) {
    IsVerdict(s, t) && t.event.outcome == Failure && !RollingDue(cfg, s, t) && Step(cfg, s, t).b.state == Open
  }

  /**
   A failure that is due by the rolling counts leaves the breaker closed exactly when the counts
   without the forgotten verdicts do not pass the test, and trips it too early exactly when they alone
   do. Neither happens unless some verdict is forgotten.
   */
  lemma WrongDecisionIff(cfg: ValidConfig, now: real, ticks: seq<Tick>, t: Tick)
    requires CanRun(cfg, Init(now), ticks) && IsVerdict(Run(cfg, Init(now), ticks), t)
    requires t.event.outcome == Failure
    ensures
      var s := Run(cfg, Init(now), ticks);
      var all, gone := Rolling(cfg, s, t), Forgotten(cfg, s, t);
      && gone.ok <= all.ok && gone.bad <= all.bad
      && (Misses(cfg, s, t)
          <==> ShouldTrip(cfg, all.ok, all.bad) && !ShouldTrip(cfg, all.ok - gone.ok, all.bad - gone.bad))
      && (TripsEarly(cfg, s, t)
          <==> !ShouldTrip(cfg, all.ok, all.bad) && ShouldTrip(cfg, all.ok - gone.ok, all.bad - gone.bad))
      && (Misses(cfg, s, t) || TripsEarly(cfg, s, t) ==>
            exists i :: 0 <= i < |s.history| && IsForgotten(cfg, s, t, s.history[i]))
  {
    hide Run, CanRun, Step, Seen, Rolling, Forgotten, IsForgotten, ShouldTrip;
    InvFromStart(cfg, now, ticks);
    var s := Run(cfg, Init(now), ticks);
    RollingIsSeenAndForgotten(cfg, s, t);
    NothingForgottenIff(cfg, s, t);
    TripsAt(cfg, s, t);
  }

  // ---------------------------------------------------------------- scenarios

  lemma Multiple(x: real, y: real) returns (n: nat)
    requires x > 0.0
    ensures n as real * x > y
  {
    var q := y / x;
    assert q * x == y;
    n := if q < 0.0 then 1 else q.Floor + 1;
    assert (n as real - q) * x > 0.0;
  }

  /** A call that began in the window is about to fail, with nobody else about. */
  lemma Poised(cfg: ValidConfig, s: System) returns (ticks: seq<Tick>, t: Tick)
    requires CountingAt(cfg, s, s.clock)
    ensures CanRun(cfg, s, ticks) && IsVerdict(Run(cfg, s, ticks), t) && t.event.outcome == Failure
    ensures var s' := Run(cfg, s, ticks);
      && Seen(cfg, s', t) == Counts(s.b.successes, s.b.failures + 1)
      && Horizon(cfg, s', t) == s.clock - cfg.window
      && Rolling(cfg, s', t) == Counts(Tally(s.history, Recent(Phase(s), Success, s.clock - cfg.window)),
                                       Tally(s.history, Recent(Phase(s), Failure, s.clock - cfg.window)) + 1)
  {
    hide Tally;
    var id := Bounded(s.inflight.Keys);
    var begin := Tick(Begin(id), Now(s));
    ticks, t := [begin], Tick(End(id, Failure), Now(s));
    RunOne(cfg, s, begin);
    TallyNews(cfg, s, begin);
    TallyNews(cfg, Step(cfg, s, begin), t);
  }

  /**
   The scenario of every wrong decision: `early` successes as the window begins, then `late` verdicts
   in the middle of it; the window ends, and `after` verdicts follow before a call is about to fail.
   The rolling window of that failure still holds the late verdicts, but no longer the early ones.
   */
  lemma Straddle(cfg: ValidConfig, now: real, early: nat, late: nat, o1: Outcome, after: nat, o2: Outcome)
    returns (ticks: seq<Tick>, t: Tick)
    requires o1 != Cancelled && o2 != Cancelled
    requires forall f: nat | o1 == Failure && f <= late :: !ShouldTrip(cfg, early, f)
    requires forall f: nat | o2 == Failure && f <= after :: !ShouldTrip(cfg, 0, f)
    ensures CanRun(cfg, Init(now), ticks)
    ensures var s := Run(cfg, Init(now), ticks);
      && IsVerdict(s, t) && t.event.outcome == Failure
      && Seen(cfg, s, t) == Counts(if o2 == Success then after else 0, if o2 == Success then 1 else after + 1)
      && Rolling(cfg, s, t) == Counts((if o1 == Success then late else 0) + (if o2 == Success then after else 0),
                                      (if o1 == Failure then late else 0) + (if o2 == Success then 1 else after + 1))
  {
    hide Tally, ShouldTrip, Step, Seen, Rolling;
    var s0 := Init(now);
    TallyNone(s0.history, Recent(0, Success, now));
    TallyNone(s0.history, Recent(0, Failure, now));
    var end := now + cfg.window;
    var a := Calls(cfg, s0, early, Success, now);
    var s1 := Run(cfg, s0, a);
    var b := Calls(cfg, s1, late, o1, now + cfg.window / 2.0);
    var s2 := Run(cfg, s1, b);
    RunConcat(cfg, s0, a, b);
    var c := RollOver(cfg, s2, end);
    var s3 := Run(cfg, s2, c);
    RunConcat(cfg, s0, a + b, c);
    var d := Calls(cfg, s3, after, o2, end);
    var s4 := Run(cfg, s3, d);
    RunConcat(cfg, s0, a + b + c, d);
    var e;
    e, t := Poised(cfg, s4);
    RunConcat(cfg, s0, a + b + c + d, e);
    ticks := a + b + c + d + e;
  }

  // ---------------------------------------------------------------- every configuration decides wrongly

  /** With a minimum of two or more, failures on both sides of the end of a window do not add up. */
  lemma MissedByMinimum(cfg: ValidConfig, now: real) returns (ticks: seq<Tick>, t: Tick)
    requires cfg.minimumRequests >= 2
    ensures CanRun(cfg, Init(now), ticks) && Misses(cfg, Run(cfg, Init(now), ticks), t)
  {
    hide Seen, Rolling, ShouldTrip, Step, Run, CanRun;
    forall f: nat
      ensures ShouldTrip(cfg, 0, f) <==> f >= cfg.minimumRequests
    {
      AllFailuresTrip(cfg, f);
    }
    ticks, t := Straddle(cfg, now, 0, cfg.minimumRequests - 1, Failure, 0, Success);
    TripsAt(cfg, Run(cfg, Init(now), ticks), t);
  }

  /** The failures that `ok` successes can hide: too few for the ratio. */
  lemma TooFew(cfg: ValidConfig, ok: nat, bad: nat)
    requires cfg.failureRatio * ok as real > (1.0 - cfg.failureRatio) * bad as real
    ensures forall f: nat | f <= bad :: !ShouldTrip(cfg, ok, f)
  {
    hide ShouldTrip;
    forall f: nat | f <= bad
      ensures !ShouldTrip(cfg, ok, f)
    {
      ShouldTripByQuota(cfg, ok, f);
      assert (1.0 - cfg.failureRatio) * (bad - f) as real >= 0.0;
      assert Quota(cfg, ok + f) == cfg.failureRatio * ok as real + cfg.failureRatio * f as real;
    }
  }

  lemma Enough(cfg: ValidConfig, ok: nat, bad: nat)
    requires cfg.failureRatio * ok as real <= (1.0 - cfg.failureRatio) * bad as real
    requires ok + bad >= cfg.minimumRequests
    ensures ShouldTrip(cfg, ok, bad)
  {
    hide ShouldTrip;
    ShouldTripByQuota(cfg, ok, bad);
    assert Quota(cfg, ok + bad) == cfg.failureRatio * ok as real + cfg.failureRatio * bad as real;
  }

  /**
   With a ratio below one, failures that early successes have kept from tripping the breaker are
   forgotten, and so outweighed by a few new successes.
   */
  lemma MissedByRatio(cfg: ValidConfig, now: real) returns (ticks: seq<Tick>, t: Tick)
    requires cfg.failureRatio < 1.0
    ensures CanRun(cfg, Init(now), ticks) && Misses(cfg, Run(cfg, Init(now), ticks), t)
  {
    hide Seen, Rolling, ShouldTrip, Step, Run, CanRun;
    var r := cfg.failureRatio;
    var ok := Multiple(r, 1.0 - r);
    var n := Multiple(1.0 - r, r * ok as real);
    var late := n + cfg.minimumRequests;
    assert (1.0 - r) * (late + 1) as real >= (1.0 - r) * n as real by {
      assert (1.0 - r) * (late + 1 - n) as real >= 0.0;
    }
    var early := Multiple(r, (1.0 - r) * late as real);
    TooFew(cfg, early, late);
    TooFew(cfg, ok, 1);
    Enough(cfg, ok, late + 1);
    ticks, t := Straddle(cfg, now, early, late, Failure, ok, Success);
    TripsAt(cfg, Run(cfg, Init(now), ticks), t);
  }

  /** If one failure is enough, a success of the window is one of the rolling window, too. */
  lemma NeverMissedAtOne(cfg: ValidConfig, now: real, ticks: seq<Tick>, t: Tick)
    requires cfg.minimumRequests == 1 && cfg.failureRatio == 1.0
    requires CanRun(cfg, Init(now), ticks)
    ensures !Misses(cfg, Run(cfg, Init(now), ticks), t)
  {
    hide Seen, Rolling, Forgotten, ShouldTrip, Run, CanRun, Step;
    var s := Run(cfg, Init(now), ticks);
    if IsVerdict(s, t) && t.event.outcome == Failure {
      WrongDecisionIff(cfg, now, ticks, t);
      var all, gone := Rolling(cfg, s, t), Forgotten(cfg, s, t);
      ShouldTripByQuota(cfg, all.ok, all.bad);
      ShouldTripByQuota(cfg, all.ok - gone.ok, all.bad - gone.bad);
      InvFromStart(cfg, now, ticks);
      RollingIsSeenAndForgotten(cfg, s, t);
      SeenSomething(cfg, s, t);
    }
  }

  lemma SeenSomething(cfg: ValidConfig, s: System, t: Tick)
    requires IsVerdict(s, t) && t.event.outcome == Failure
    ensures Seen(cfg, s, t).bad >= 1
  {
  }

  /** Some run misses a trip that a rolling window would make. */
  ghost predicate CanMiss(cfg: ValidConfig) {
    exists now, ticks, t :: CanRun(cfg, Init(now), ticks) && Misses(cfg, Run(cfg, Init(now), ticks), t)
  }

  /**
   A trip that a rolling window would make can be missed under every configuration but one: when a
   single verdict suffices and only a spotless record of failures trips the breaker.
   */
  lemma CanMissIff(cfg: ValidConfig)
    ensures CanMiss(cfg) <==> cfg.minimumRequests >= 2 || cfg.failureRatio < 1.0
  {
    hide Misses, CanRun, Run;
    if cfg.minimumRequests >= 2 {
      var ticks, t := MissedByMinimum(cfg, 0.0);
    } else if cfg.failureRatio < 1.0 {
      var ticks, t := MissedByRatio(cfg, 0.0);
    } else if CanMiss(cfg) {
      var now, ticks, t :| CanRun(cfg, Init(now), ticks) && Misses(cfg, Run(cfg, Init(now), ticks), t);
      NeverMissedAtOne(cfg, now, ticks, t);
    }
  }

  /** Under every configuration some run trips on a failure that a rolling window would let pass. */
  lemma EveryConfigurationCanTripEarly(cfg: ValidConfig, now: real) returns (ticks: seq<Tick>, t: Tick)
    ensures CanRun(cfg, Init(now), ticks) && TripsEarly(cfg, Run(cfg, Init(now), ticks), t)
  {
    hide Seen, Rolling, ShouldTrip, Step, Run, CanRun;
    forall f: nat
      ensures ShouldTrip(cfg, 0, f) <==> f >= cfg.minimumRequests
    {
      AllFailuresTrip(cfg, f);
    }
    var r, bad := cfg.failureRatio, cfg.minimumRequests;
    var late := Multiple(r, (1.0 - r) * bad as real);
    TooFew(cfg, late, bad);
    ticks, t := Straddle(cfg, now, 0, late, Success, bad - 1, Failure);
    TripsAt(cfg, Run(cfg, Init(now), ticks), t);
  }
}
