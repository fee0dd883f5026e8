/**
 Closed although a trip is due.

 The configuration documents that the failure ratio trips the breaker once MinimumRequests is met, but
 the code runs the test only when a call fails. This module says in which closed states the test would
 pass all the same, and which configurations have such states.
 */
module BreakerDue {
  import opened CircuitBreaker
  import opened BreakerRuns
  import opened BreakerTheorems
  import opened BreakerScenarios

  predicate IsCounted(e: Entry, phase: nat, since: real) {
    e.Finished? && e.phase == phase && e.outcome != Cancelled && e.at >= since
  }

  /** The counted verdicts of a window, in the order in which they came. */
  function Outcomes(h: seq<Entry>, phase: nat, since: real): seq<Outcome> {
    if h == [] then []
    else
      var e := h[|h| - 1];
      Outcomes(h[..|h| - 1], phase, since) + if IsCounted(e, phase, since) then [e.outcome] else []
  }

  ghost function Window(s: System): seq<Outcome> {
    Outcomes(s.history, Phase(s), s.b.windowStart)
  }

  function FailuresIn(os: seq<Outcome>): nat {
    if os == [] then 0 else FailuresIn(os[..|os| - 1]) + if os[|os| - 1] == Failure then 1 else 0
  }

  lemma FailuresAppend(os: seq<Outcome>, o: Outcome)
    ensures FailuresIn(os + [o]) == FailuresIn(os) + if o == Failure then 1 else 0
  {
    assert (os + [o])[..|os|] == os;
  }

  lemma {:induction false} OutcomesTally(h: seq<Entry>, phase: nat, since: real)
    ensures var os := Outcomes(h, phase, since);
      && |os| == Tally(h, Windowed(phase, Success, since)) + Tally(h, Windowed(phase, Failure, since))
      && FailuresIn(os) == Tally(h, Windowed(phase, Failure, since))
      && forall i | 0 <= i < |os| :: os[i] == Success || os[i] == Failure
  {
    if h != [] {
      OutcomesTally(h[..|h| - 1], phase, since);
      if IsCounted(h[|h| - 1], phase, since) {
        FailuresAppend(Outcomes(h[..|h| - 1], phase, since), h[|h| - 1].outcome);
      } else {
        assert Outcomes(h, phase, since) == Outcomes(h[..|h| - 1], phase, since);
      }
    }
  }

  lemma {:induction false} OutcomesNone(h: seq<Entry>, phase: nat, since: real)
    requires forall i | 0 <= i < |h| :: !IsCounted(h[i], phase, since)
    ensures Outcomes(h, phase, since) == []
  {
    if h != [] {
      OutcomesNone(h[..|h| - 1], phase, since);
    }
  }

  lemma OutcomesAppend(h: seq<Entry>, e: Entry, phase: nat, since: real)
    ensures Outcomes(h + [e], phase, since)
         == Outcomes(h, phase, since) + if IsCounted(e, phase, since) then [e.outcome] else []
  {
    assert (h + [e])[..|h|] == h;
  }

  /** What a step that stays closed does to the window: it may empty it, and it may add a verdict. */
  lemma WindowStep(cfg: ValidConfig, s: System, t: Tick)
    requires Enabled(s, t) && Tagged(s) && Timed(s) && Counted(cfg, s)
    requires s.b.state == Closed && Step(cfg, s, t).b.state == Closed
    ensures var os, os' := Window(s), Window(Step(cfg, s, t));
      if IsVerdict(s, t) then os' == os + [t.event.outcome] || os' == [t.event.outcome]
      else os' == os || os' == []
  {
    hide Next, Outcomes, Allow;
    var s' := Step(cfg, s, t);
    ClosedNext(cfg, s.b, t.event, t.r);
    if s'.b.windowStart != s.b.windowStart {
      OutcomesNone(s.history, Phase(s), s'.b.windowStart);
    }
    var news := News(cfg, s, t);
    if news == [] {
      assert s'.history == s.history;
    } else {
      assert news == [news[0]];
      OutcomesAppend(s.history, news[0], Phase(s), s'.b.windowStart);
    }
  }

  lemma WindowStarts(cfg: ValidConfig, s: System, t: Tick)
    requires Enabled(s, t) && Tagged(s) && s.b.state != Closed && Step(cfg, s, t).b.state == Closed
    ensures Window(Step(cfg, s, t)) == []
  {
    hide Next, Outcomes;
    var s' := Step(cfg, s, t);
    ReopenedNext(cfg, s.b, t.event, t.r);
    OutcomesNone(s'.history, Phase(s'), s'.b.windowStart);
  }

  // ---------------------------------------------------------------- every failure was tested

  /** No failure from the MinimumRequests-th verdict on found the ratio reached. */
  ghost predicate Passed(cfg: ValidConfig, os: seq<Outcome>) {
    forall n | cfg.minimumRequests <= n <= |os| && os[n - 1] == Failure ::
      FailuresIn(os[..n]) as real < Quota(cfg, n)
  }

  lemma PassedAppend(cfg: ValidConfig, os: seq<Outcome>, o: Outcome)
    requires Passed(cfg, os)
    requires o == Failure && |os| + 1 >= cfg.minimumRequests ==>
      FailuresIn(os + [o]) as real < Quota(cfg, |os| + 1)
    ensures Passed(cfg, os + [o])
  {
    hide Quota, FailuresIn;
    forall n | cfg.minimumRequests <= n <= |os| + 1 && (os + [o])[n - 1] == Failure
      ensures FailuresIn((os + [o])[..n]) as real < Quota(cfg, n)
    {
      if n <= |os| {
        assert (os + [o])[..n] == os[..n];
      } else {
        assert (os + [o])[..n] == os + [o];
      }
    }
  }

  lemma PassedKept(cfg: ValidConfig, s: System, t: Tick)
    requires Enabled(s, t) && Tagged(s) && Timed(s) && Counted(cfg, s)
    requires s.b.state == Closed ==> Passed(cfg, Window(s))
    ensures var s' := Step(cfg, s, t); s'.b.state == Closed ==> Passed(cfg, Window(s'))
  {
    hide Quota, FailuresIn, Outcomes, ShouldTrip, Next, Tally;
    var s' := Step(cfg, s, t);
    if s'.b.state == Closed {
      if s.b.state != Closed {
        WindowStarts(cfg, s, t);
      } else {
        WindowStep(cfg, s, t);
        if IsVerdict(s, t) {
          CountedKept(cfg, s, t);
          OutcomesTally(s'.history, Phase(s'), s'.b.windowStart);
          TripsAt(cfg, s, t);
          ShouldTripByQuota(cfg, s'.b.successes, s'.b.failures);
          var before := if Window(s') == [t.event.outcome] then [] else Window(s);
          assert Window(s') == before + [t.event.outcome];
          PassedAppend(cfg, before, t.event.outcome);
        }
      }
    }
  }

  lemma {:induction false} PassedHolds(cfg: ValidConfig, s: System, ticks: seq<Tick>)
    requires Inv(cfg, s) && CanRun(cfg, s, ticks) && (s.b.state == Closed ==> Passed(cfg, Window(s)))
    ensures var s' := Run(cfg, s, ticks); s'.b.state == Closed ==> Passed(cfg, Window(s'))
    decreases |ticks|
  {
    hide Step, Passed, Window, Tagged, Timed, Walk, Counted;
    hide NotDue, Probing, Slots, PhasesEndWell, CoolsDown, TripsPassed;
    if ticks != [] {
      PassedKept(cfg, s, ticks[0]);
      RunOneInv(cfg, s, ticks[0]);
      PassedHolds(cfg, Step(cfg, s, ticks[0]), ticks[1..]);
    }
  }

  lemma PassedFromStart(cfg: ValidConfig, now: real, ticks: seq<Tick>)
    requires CanRun(cfg, Init(now), ticks)
    ensures var s := Run(cfg, Init(now), ticks); s.b.state == Closed ==> Passed(cfg, Window(s))
  {
    PassedHolds(cfg, Init(now), ticks);
  }

  lemma RunOneInv(cfg: ValidConfig, s: System, t: Tick)
    requires Inv(cfg, s) && Enabled(s, t)
    ensures Inv(cfg, Step(cfg, s, t))
  {
    hide Inv, Step;
    RunOne(cfg, s, t);
    InvHolds(cfg, s, [t]);
  }

  // ---------------------------------------------------------------- due and closed

  lemma {:induction false} NoFailureAfter(os: seq<Outcome>, n: nat)
    requires n <= |os| && forall i | n <= i < |os| :: os[i] != Failure
    ensures FailuresIn(os) == FailuresIn(os[..n]) <= n
    decreases |os|
  {
    if n < |os| {
      assert os[..|os| - 1][..n] == os[..n];
      NoFailureAfter(os[..|os| - 1], n);
    } else {
      assert os[..n] == os;
      FewerFailures(os);
    }
  }

  lemma FewerFailures(os: seq<Outcome>)
    ensures FailuresIn(os) <= |os|
  {
  }

  /** A window whose failures reach the ratio ended with successes, if every failure was tested. */
  lemma {:induction false} TailSucceeds(cfg: ValidConfig, os: seq<Outcome>, n: nat)
    requires Passed(cfg, os) && n <= |os| && FailuresIn(os[..n]) as real >= Quota(cfg, n)
    ensures forall i | cfg.minimumRequests - 1 <= i < n :: os[i] != Failure
  {
    hide Quota;
    if n >= cfg.minimumRequests {
      assert os[..n][..n - 1] == os[..n - 1];
      QuotaStep(cfg, n - 1);
      TailSucceeds(cfg, os, n - 1);
    }
  }

  /**
   The exact states in which the trip test would pass although the breaker is closed: the window holds
   at least MinimumRequests verdicts, all of them from the MinimumRequests-th on are successes, and the
   failures among the earlier ones reach FailureRatio of the whole window.
   */
  lemma DueButClosedIff(cfg: ValidConfig, now: real, ticks: seq<Tick>)
    requires CanRun(cfg, Init(now), ticks) && Run(cfg, Init(now), ticks).b.state == Closed
    ensures
      var s := Run(cfg, Init(now), ticks);
      var os, first := Window(s), cfg.minimumRequests - 1;
      ShouldTrip(cfg, s.b.successes, s.b.failures)
      <==> && |os| >= cfg.minimumRequests
           && (forall i | first <= i < |os| :: os[i] == Success)
           && FailuresIn(os[..first]) as real >= Quota(cfg, |os|)
  {
    hide Run, CanRun, Quota, ShouldTrip, Outcomes, FailuresIn, Tally;
    InvFromStart(cfg, now, ticks);
    PassedFromStart(cfg, now, ticks);
    var s := Run(cfg, Init(now), ticks);
    var os := Window(s);
    OutcomesTally(s.history, Phase(s), s.b.windowStart);
    ShouldTripByQuota(cfg, s.b.successes, s.b.failures);
    assert os[..|os|] == os;
    if |os| >= cfg.minimumRequests {
      if FailuresIn(os) as real >= Quota(cfg, |os|) {
        TailSucceeds(cfg, os, |os|);
      }
      if forall i | cfg.minimumRequests - 1 <= i < |os| :: os[i] != Failure {
        NoFailureAfter(os, cfg.minimumRequests - 1);
      }
    }
  }

  // ---------------------------------------------------------------- which configurations

  /** Some run is closed with the trip due. */
  ghost predicate CanBeDue(cfg: ValidConfig) {
    exists now, ticks :: CanRun(cfg, Init(now), ticks) && IsDue(cfg, Run(cfg, Init(now), ticks).b)
  }

  predicate IsDue(cfg: ValidConfig, b: Fields) {
    b.state == Closed && ShouldTrip(cfg, b.successes, b.failures)
  }

  /** One failure fewer than the minimum, and then a success. */
  lemma MakeDue(cfg: ValidConfig, now: real) returns (ticks: seq<Tick>)
    requires (cfg.minimumRequests - 1) as real >= Quota(cfg, cfg.minimumRequests)
    ensures CanRun(cfg, Init(now), ticks) && IsDue(cfg, Run(cfg, Init(now), ticks).b)
  {
    hide Quota, ShouldTrip, Gained, Step;
    var s0, n := Init(now), cfg.minimumRequests - 1;
    forall f: nat
      ensures ShouldTrip(cfg, 0, f) <==> f >= cfg.minimumRequests
    {
      AllFailuresTrip(cfg, f);
    }
    var fail := Calls(cfg, s0, n, Failure, now);
    var succeed := OneCall(cfg, Run(cfg, s0, fail), Success, now);
    RunConcat(cfg, s0, fail, succeed);
    ticks := fail + succeed;
    ShouldTripByQuota(cfg, 1, n);
  }

  lemma {:induction false} QuotaGrows(cfg: ValidConfig, n: int, m: int)
    requires n <= m
    ensures Quota(cfg, n) <= Quota(cfg, m)
    decreases m - n
  {
    hide Quota;
    if n < m {
      QuotaStep(cfg, m - 1);
      QuotaGrows(cfg, n, m - 1);
    }
  }

  /**
   A configuration has such states exactly when MinimumRequests - 1 failures are enough for the ratio
   among MinimumRequests verdicts.
   */
  lemma CanBeDueIff(cfg: ValidConfig)
    ensures CanBeDue(cfg) <==> (cfg.minimumRequests - 1) as real >= Quota(cfg, cfg.minimumRequests)
  {
    hide Run, CanRun, Quota, ShouldTrip, Outcomes, FailuresIn;
    if CanBeDue(cfg) {
      var now, ticks :| CanRun(cfg, Init(now), ticks) && IsDue(cfg, Run(cfg, Init(now), ticks).b);
      var os := Window(Run(cfg, Init(now), ticks));
      DueButClosedIff(cfg, now, ticks);
      FewerFailures(os[..cfg.minimumRequests - 1]);
      QuotaGrows(cfg, cfg.minimumRequests, |os|);
    }
    if (cfg.minimumRequests - 1) as real >= Quota(cfg, cfg.minimumRequests) {
      var ticks := MakeDue(cfg, 0.0);
    }
  }
}
