/**
 How a half-open breaker returns to closed: it always can, and it need not be by trials alone.
 */
module BreakerRecovery {
  import opened CircuitBreaker
  import opened BreakerRuns
  import opened BreakerTheorems
  import opened BreakerScenarios

  /** The half-open phase of s has ended, and the breaker is closed. */
  ghost predicate ClosedFrom(s: System, b: Fields) {
    b.state == Closed && b.changes == s.b.changes + [Change(HalfOpen, Closed)]
  }

  /** A half-open breaker can always get one more success: from a call in flight, or from a new one. */
  lemma OneSuccess(cfg: ValidConfig, s: System) returns (ticks: seq<Tick>)
    requires Inv(cfg, s) && s.b.state == HalfOpen
    ensures CanRun(cfg, s, ticks)
    ensures var b := Run(cfg, s, ticks).b;
      if s.b.halfOpenOK + 1 >= cfg.halfOpenSuccesses then ClosedFrom(s, b)
      else b.state == HalfOpen && b.halfOpenOK == s.b.halfOpenOK + 1 && b.changes == s.b.changes
  {
    hide Tally, CoolsDown, TripsPassed, PhasesEndWell, Counted, Tagged, Walk, NotDue;
    if s.inflight != map[] {
      assert s.inflight.Keys != {};
      var id :| id in s.inflight.Keys;
      var t := Tick(End(id, Success), Now(s));
      ticks := [t];
      assert Run(cfg, Step(cfg, s, t), []) == Step(cfg, s, t);
    } else {
      assert Trials(s) == {};
      var t1, t2 := Tick(Begin(0), Now(s)), Tick(End(0, Success), Now(s));
      ticks := [t1, t2];
      RunTwo(cfg, s, t1, t2);
    }
  }

  lemma {:induction false} SucceedUntilClosed(cfg: ValidConfig, s: System) returns (ticks: seq<Tick>)
    requires Inv(cfg, s) && s.b.state == HalfOpen
    ensures CanRun(cfg, s, ticks) && ClosedFrom(s, Run(cfg, s, ticks).b)
    decreases cfg.halfOpenSuccesses - s.b.halfOpenOK
  {
    hide Inv, Step;
    ticks := OneSuccess(cfg, s);
    var s1 := Run(cfg, s, ticks);
    if s1.b.state == HalfOpen {
      InvHolds(cfg, s, ticks);
      var rest := SucceedUntilClosed(cfg, s1);
      RunConcat(cfg, s, ticks, rest);
      ticks := ticks + rest;
    }
  }

  /** No reachable state is a dead end: some continuation closes the breaker. */
  lemma AlwaysRecoverable(cfg: ValidConfig, now: real, ticks: seq<Tick>) returns (more: seq<Tick>)
    requires CanRun(cfg, Init(now), ticks)
    ensures CanRun(cfg, Run(cfg, Init(now), ticks), more)
    ensures Run(cfg, Run(cfg, Init(now), ticks), more).b.state == Closed
  {
    hide Step, CoolsDown, TripsPassed, PhasesEndWell, Counted, Tagged, Walk, NotDue, Slots, Probing;
    InvFromStart(cfg, now, ticks);
    var s := Run(cfg, Init(now), ticks);
    more := [];
    if s.b.state == HalfOpen {
      more := SucceedUntilClosed(cfg, s);
    } else if s.b.state == Open {
      var wait := WaitUntilHalfOpen(cfg, s);
      InvHolds(cfg, s, wait);
      var rest := SucceedUntilClosed(cfg, Run(cfg, s, wait));
      RunConcat(cfg, s, wait, rest);
      more := wait + rest;
    }
  }

  // ---------------------------------------------------------------- whose successes

  lemma {:induction false} SuccessesSplit(h: seq<Entry>, p: nat)
    requires forall i | 0 <= i < |h| && h[i].Finished? :: h[i].admittedIn <= h[i].phase
    ensures Tally(h, Verdicts(p, Success)) == Tally(h, TrialVerdicts(p, Success)) + Tally(h, OlderVerdicts(p, Success))
  {
    if h != [] {
      SuccessesSplit(h[..|h| - 1], p);
    }
  }

  /** The half-open phase number p has ended by closing the breaker. */
  ghost predicate ClosedAt(s: System, p: nat) {
    p < Phase(s) && s.b.changes[p] == Change(HalfOpen, Closed)
  }

  /**
   HalfOpenSuccesses is documented as the trial successes that close the breaker, but a call admitted
   before the phase counts as well. The trials that succeeded in a phase that closed the breaker fall
   short of HalfOpenSuccesses by just the older calls that succeeded in it.
   */
  lemma ClosingSuccesses(cfg: ValidConfig, s: System, p: nat)
    requires Inv(cfg, s) && ClosedAt(s, p)
    ensures Tally(s.history, TrialVerdicts(p, Success)) + Tally(s.history, OlderVerdicts(p, Success))
         == cfg.halfOpenSuccesses
  {
    hide Tally;
    assert EndedWell(cfg, s, p);
    SuccessesSplit(s.history, p);
  }

  /** Nothing of an earlier phase is in flight, nor has succeeded in this one. */
  ghost predicate OnlyTrials(s: System) {
    s.inflight.Keys == Trials(s) && Tally(s.history, OlderVerdicts(Phase(s), Success)) == 0
  }

  /** Every continuation in which this phase closes the breaker has HalfOpenSuccesses successful trials in it. */
  ghost predicate ClosesByTrials(cfg: ValidConfig, s: System) {
    forall ticks | CanRun(cfg, s, ticks) && ClosedAt(Run(cfg, s, ticks), Phase(s)) ::
      Tally(Run(cfg, s, ticks).history, TrialVerdicts(Phase(s), Success)) == cfg.halfOpenSuccesses
  }

  lemma {:induction false} TallyGrows(cfg: ValidConfig, s: System, ticks: seq<Tick>, k: Kind)
    requires CanRun(cfg, s, ticks)
    ensures Tally(Run(cfg, s, ticks).history, k) >= Tally(s.history, k)
    decreases |ticks|
  {
    hide Tally, Step;
    if ticks != [] {
      TallyNews(cfg, s, ticks[0]);
      TallyGrows(cfg, Step(cfg, s, ticks[0]), ticks[1..], k);
    }
  }

  /** A phase that is over gets no more verdicts. */
  lemma {:induction false} PastIsPast(cfg: ValidConfig, s: System, ticks: seq<Tick>, p: nat)
    requires CanRun(cfg, s, ticks) && p < Phase(s)
    ensures var older := OlderVerdicts(p, Success);
      Tally(Run(cfg, s, ticks).history, older) == Tally(s.history, older)
    decreases |ticks|
  {
    hide Tally, Next, Allow;
    if ticks != [] {
      TallyNews(cfg, s, ticks[0]);
      StepChanges(cfg, s, ticks[0]);
      PastIsPast(cfg, Step(cfg, s, ticks[0]), ticks[1..], p);
    }
  }

  lemma OnlyTrialsStep(cfg: ValidConfig, s: System, t: Tick)
    requires Enabled(s, t) && s.b.state == HalfOpen && OnlyTrials(s)
    ensures var s1 := Step(cfg, s, t);
      && Tally(s1.history, OlderVerdicts(Phase(s), Success)) == 0
      && (Phase(s1) > Phase(s) || (Phase(s1) == Phase(s) && s1.b.state == HalfOpen && OnlyTrials(s1)))
  {
    hide Tally, Next, Allow;
    var s1 := Step(cfg, s, t);
    StepChanges(cfg, s, t);
    TallyNews(cfg, s, t);
    if t.event.End? {
      assert t.event.id in Trials(s);
    }
    if s1.b.state == HalfOpen {
      TrialsMove(cfg, s, t);
      assert s1.inflight.Keys == Trials(s1);
    }
  }

  lemma {:induction false} OnlyTrialsRun(cfg: ValidConfig, s: System, ticks: seq<Tick>)
    requires CanRun(cfg, s, ticks) && s.b.state == HalfOpen && OnlyTrials(s)
    ensures Tally(Run(cfg, s, ticks).history, OlderVerdicts(Phase(s), Success)) == 0
    decreases |ticks|
  {
    hide Tally, Step;
    if ticks != [] {
      var s1 := Step(cfg, s, ticks[0]);
      OnlyTrialsStep(cfg, s, ticks[0]);
      if Phase(s1) > Phase(s) {
        PastIsPast(cfg, s1, ticks[1..], Phase(s));
      } else {
        OnlyTrialsRun(cfg, s1, ticks[1..]);
      }
    }
  }

  /** An older call in flight can succeed in this phase. */
  lemma OlderSuccess(cfg: ValidConfig, s: System) returns (t: Tick)
    requires Inv(cfg, s) && s.b.state == HalfOpen && s.inflight.Keys != Trials(s)
    ensures Enabled(s, t)
    ensures var s1 := Step(cfg, s, t);
      && Tally(s1.history, OlderVerdicts(Phase(s), Success)) > 0
      && if s1.b.state == HalfOpen then s1.b.changes == s.b.changes else ClosedFrom(s, s1.b)
  {
    hide Tally, Next, Allow;
    assert Trials(s) <= s.inflight.Keys;
    assert s.inflight.Keys == Trials(s) + (s.inflight.Keys - Trials(s));
    var id :| id in s.inflight.Keys - Trials(s);
    t := Tick(End(id, Success), Now(s));
    StepChanges(cfg, s, t);
    HalfOpenNext(cfg, s.b, t.event, t.r);
    TallyNews(cfg, s, t);
  }

  /** If an older call has succeeded in the phase or still can, the phase can close with one counted. */
  lemma CloseWithOlder(cfg: ValidConfig, s: System) returns (ticks: seq<Tick>)
    requires Inv(cfg, s) && s.b.state == HalfOpen && !OnlyTrials(s)
    ensures CanRun(cfg, s, ticks) && ClosedFrom(s, Run(cfg, s, ticks).b)
    ensures Tally(Run(cfg, s, ticks).history, OlderVerdicts(Phase(s), Success)) > 0
  {
    hide Inv, Tally, Step, Run, CanRun;
    var older := OlderVerdicts(Phase(s), Success);
    if Tally(s.history, older) > 0 {
      ticks := SucceedUntilClosed(cfg, s);
      TallyGrows(cfg, s, ticks, older);
    } else {
      var t := OlderSuccess(cfg, s);
      RunOne(cfg, s, t);
      ticks := [t];
      var s1 := Step(cfg, s, t);
      if s1.b.state == HalfOpen {
        InvHolds(cfg, s, ticks);
        var rest := SucceedUntilClosed(cfg, s1);
        TallyGrows(cfg, s1, rest, older);
        RunConcat(cfg, s, ticks, rest);
        ticks := ticks + rest;
      }
    }
  }

  /**
   The exact condition for the documented meaning. From a reachable half-open state, the phase can only
   close the breaker by HalfOpenSuccesses successful trials if and only if no call of an earlier phase
   is in flight and none has succeeded in this phase so far.
   */
  lemma ClosesByTrialsIff(cfg: ValidConfig, now: real, ticks: seq<Tick>)
    requires CanRun(cfg, Init(now), ticks) && Run(cfg, Init(now), ticks).b.state == HalfOpen
    ensures var s := Run(cfg, Init(now), ticks); ClosesByTrials(cfg, s) <==> OnlyTrials(s)
  {
    hide Run, CanRun, Tally, Inv, Step;
    InvFromStart(cfg, now, ticks);
    var s := Run(cfg, Init(now), ticks);
    if OnlyTrials(s) {
      forall more | CanRun(cfg, s, more) && ClosedAt(Run(cfg, s, more), Phase(s))
        ensures Tally(Run(cfg, s, more).history, TrialVerdicts(Phase(s), Success)) == cfg.halfOpenSuccesses
      {
        InvHolds(cfg, s, more);
        OnlyTrialsRun(cfg, s, more);
        ClosingSuccesses(cfg, Run(cfg, s, more), Phase(s));
      }
    } else {
      var more := CloseWithOlder(cfg, s);
      InvHolds(cfg, s, more);
      ClosingSuccesses(cfg, Run(cfg, s, more), Phase(s));
    }
  }

  /** Calls of earlier phases are in flight, just as many as are needed to close the breaker. */
  ghost predicate OlderCallsSuffice(cfg: ValidConfig, s: System) {
    && s.b.state == HalfOpen && Tagged(s) && Trials(s) == {}
    && s.b.halfOpenOK < cfg.halfOpenSuccesses == s.b.halfOpenOK + |s.inflight|
  }

  /** One of them succeeds. */
  lemma OlderCallSucceeds(cfg: ValidConfig, s: System) returns (t: Tick)
    requires OlderCallsSuffice(cfg, s)
    ensures Enabled(s, t)
    ensures var s1 := Step(cfg, s, t); var trials := TrialVerdicts(Phase(s), Success);
      && Tally(s1.history, trials) == Tally(s.history, trials)
      && |s1.inflight| < |s.inflight|
      && if s1.b.state == HalfOpen then OlderCallsSuffice(cfg, s1) && s1.b.changes == s.b.changes
         else ClosedFrom(s, s1.b)
  {
    hide Tally, Next, Allow;
    var id :| id in s.inflight.Keys;
    assert id !in Trials(s);
    t := Tick(End(id, Success), Now(s));
    var s1 := Step(cfg, s, t);
    StepChanges(cfg, s, t);
    HalfOpenNext(cfg, s.b, t.event, t.r);
    TallyNews(cfg, s, t);
    assert |s1.inflight| == |s.inflight| - 1 by { assert s.inflight.Keys == s1.inflight.Keys + {id}; }
    if s1.b.state == HalfOpen {
      TaggedKept(cfg, s, t);
      TrialsMove(cfg, s, t);
    }
  }

  lemma {:induction false} OlderCallsSucceed(cfg: ValidConfig, s: System) returns (ticks: seq<Tick>)
    requires OlderCallsSuffice(cfg, s)
    ensures CanRun(cfg, s, ticks)
    ensures var s' := Run(cfg, s, ticks); var trials := TrialVerdicts(Phase(s), Success);
      && ClosedFrom(s, s'.b)
      && Tally(s'.history, trials) == Tally(s.history, trials)
    decreases |s.inflight|
  {
    hide Tally, Step, Enabled, OlderCallsSuffice, CanRun, Run;
    var t := OlderCallSucceeds(cfg, s);
    ticks := [t];
    RunOne(cfg, s, t);
    if Step(cfg, s, t).b.state == HalfOpen {
      var rest := OlderCallsSucceed(cfg, Step(cfg, s, t));
      RunConcat(cfg, s, ticks, rest);
      ticks := ticks + rest;
    }
  }

  /** Under every configuration some half-open phase closes the breaker without any successful trial. */
  lemma EveryConfigurationCanCloseWithoutTrials(cfg: ValidConfig, now: real) returns (ticks: seq<Tick>)
    ensures CanRun(cfg, Init(now), ticks)
    ensures var s := Run(cfg, Init(now), ticks);
      && s.b.state == Closed && Phase(s) == 3 && s.b.changes[2] == Change(HalfOpen, Closed)
      && Tally(s.history, TrialVerdicts(2, Success)) == 0
  {
    hide Run, CanRun, Tally, Step;
    ticks := HalfOpenAmidCalls(cfg, now, cfg.halfOpenSuccesses);
    InvFromStart(cfg, now, ticks);
    var s := Run(cfg, Init(now), ticks);
    SuccessesSplit(s.history, 2);
    var rest := OlderCallsSucceed(cfg, s);
    RunConcat(cfg, Init(now), ticks, rest);
    ticks := ticks + rest;
  }
}
