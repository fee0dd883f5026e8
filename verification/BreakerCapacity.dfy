/**
 When the half-open state really bounds concurrent trials.

 The configuration documents HalfOpenMaxCalls as a bound on concurrent trial calls. A call admitted
 before the half-open phase gives a slot back that it never took, so the bound can be exceeded; this
 module characterises exactly the states from which it cannot.
 */
module BreakerCapacity {
  import opened CircuitBreaker
  import opened BreakerRuns
  import opened BreakerTheorems
  import opened BreakerScenarios

  /** The counter is exact and no call of an earlier phase is still in flight. */
  ghost predicate Undisturbed(s: System) {
    s.b.halfOpenActive == |Trials(s)| && s.inflight.Keys == Trials(s)
  }

  /** No continuation within the current half-open phase has more than HalfOpenMaxCalls trials. */
  ghost predicate TrialsStayBounded(cfg: ValidConfig, s: System) {
    forall ticks | CanRun(cfg, s, ticks) && Phase(Run(cfg, s, ticks)) == Phase(s) ::
      |Trials(Run(cfg, s, ticks))| <= cfg.halfOpenMaxCalls
  }

  lemma UndisturbedStep(cfg: ValidConfig, s: System, t: Tick)
    requires Enabled(s, t) && s.b.state == HalfOpen && Undisturbed(s) && s.b.halfOpenActive <= cfg.halfOpenMaxCalls
    requires Phase(Step(cfg, s, t)) == Phase(s)
    ensures var s' := Step(cfg, s, t);
      s'.b.state == HalfOpen && Undisturbed(s') && s'.b.halfOpenActive <= cfg.halfOpenMaxCalls
  {
    StepChanges(cfg, s, t);
    TrialsMove(cfg, s, t);
    if t.event.End? {
      assert t.event.id in Trials(s);
    }
  }

  lemma {:induction false} UndisturbedRun(cfg: ValidConfig, s: System, ticks: seq<Tick>)
    requires s.b.state == HalfOpen && Undisturbed(s) && s.b.halfOpenActive <= cfg.halfOpenMaxCalls
    requires CanRun(cfg, s, ticks) && Phase(Run(cfg, s, ticks)) == Phase(s)
    ensures |Trials(Run(cfg, s, ticks))| <= cfg.halfOpenMaxCalls
    decreases |ticks|
  {
    if ticks != [] {
      var s1 := Step(cfg, s, ticks[0]);
      StepChanges(cfg, s, ticks[0]);
      PhaseNeverFalls(cfg, s1, ticks[1..]);
      UndisturbedStep(cfg, s, ticks[0]);
      UndisturbedRun(cfg, s1, ticks[1..]);
    }
  }

  /** New calls can always fill the free slots. */
  lemma {:induction false} FillSlots(cfg: ValidConfig, s: System) returns (ticks: seq<Tick>)
    requires s.b.state == HalfOpen && s.b.halfOpenActive <= cfg.halfOpenMaxCalls
    ensures CanRun(cfg, s, ticks)
    ensures var s' := Run(cfg, s, ticks);
      && s'.b.state == HalfOpen && Phase(s') == Phase(s)
      && s'.b.halfOpenActive == cfg.halfOpenMaxCalls
      && |Trials(s')| == |Trials(s)| + cfg.halfOpenMaxCalls - s.b.halfOpenActive
      && (forall id | id in s.inflight :: id in s'.inflight && s'.inflight[id] == s.inflight[id])
    decreases cfg.halfOpenMaxCalls - s.b.halfOpenActive
  {
    if s.b.halfOpenActive == cfg.halfOpenMaxCalls {
      ticks := [];
    } else {
      var id := Bounded(s.inflight.Keys);
      var t := Tick(Begin(id), Now(s));
      var s1 := Step(cfg, s, t);
      TrialsMove(cfg, s, t);
      var rest := FillSlots(cfg, s1);
      ticks := [t] + rest;
      assert ticks[1..] == rest;
    }
  }

  lemma Overfill(cfg: ValidConfig, s: System) returns (ticks: seq<Tick>)
    requires Inv(cfg, s) && s.b.state == HalfOpen && !Undisturbed(s)
    ensures CanRun(cfg, s, ticks) && Phase(Run(cfg, s, ticks)) == Phase(s)
    ensures |Trials(Run(cfg, s, ticks))| > cfg.halfOpenMaxCalls
  {
    var fill := FillSlots(cfg, s);
    var s1 := Run(cfg, s, fill);
    ticks := fill;
    if |Trials(s1)| <= cfg.halfOpenMaxCalls {
      assert Trials(s) <= s.inflight.Keys;
      assert s.inflight.Keys == Trials(s) + (s.inflight.Keys - Trials(s));
      var older :| older in s.inflight.Keys - Trials(s);
      InvHolds(cfg, s, fill);
      var id := Bounded(s1.inflight.Keys);
      OlderCallFreesATrialSlot(cfg, s1, older, id, Now(s1), Now(s1));
      var two := [Tick(End(older, Cancelled), Now(s1)), Tick(Begin(id), Now(s1))];
      RunConcat(cfg, s, fill, two);
      ticks := fill + two;
      SamePhase(cfg, s1, older, id);
    }
  }

  lemma SamePhase(cfg: ValidConfig, s: System, older: CallId, id: CallId)
    requires s.b.state == HalfOpen && older in s.inflight && id !in s.inflight
    ensures var ticks := [Tick(End(older, Cancelled), Now(s)), Tick(Begin(id), Now(s))];
      CanRun(cfg, s, ticks) && Phase(Run(cfg, s, ticks)) == Phase(s)
  {
    var t1, t2 := Tick(End(older, Cancelled), Now(s)), Tick(Begin(id), Now(s));
    RunTwo(cfg, s, t1, t2);
  }

  /**
   The exact condition for the documented bound. From a reachable half-open state, trials stay
   within HalfOpenMaxCalls for the rest of the phase if and only if the counter is exact and no call
   of an earlier phase is still in flight.
   */
  lemma TrialBoundIffUndisturbed(cfg: ValidConfig, now: real, ticks: seq<Tick>)
    requires CanRun(cfg, Init(now), ticks) && Run(cfg, Init(now), ticks).b.state == HalfOpen
    ensures var s := Run(cfg, Init(now), ticks); TrialsStayBounded(cfg, s) <==> Undisturbed(s)
  {
    InvFromStart(cfg, now, ticks);
    var s := Run(cfg, Init(now), ticks);
    if Undisturbed(s) {
      forall more | CanRun(cfg, s, more) && Phase(Run(cfg, s, more)) == Phase(s)
        ensures |Trials(Run(cfg, s, more))| <= cfg.halfOpenMaxCalls
      {
        UndisturbedRun(cfg, s, more);
      }
    } else {
      var more := Overfill(cfg, s);
    }
  }

  // ---------------------------------------------------------------- the bound fails for every configuration

  /** Whatever the configuration, some run has more than HalfOpenMaxCalls trials in flight at once. */
  lemma EveryConfigurationCanExceedTheBound(cfg: ValidConfig, now: real) returns (ticks: seq<Tick>)
    ensures CanRun(cfg, Init(now), ticks)
    ensures var s := Run(cfg, Init(now), ticks); s.b.state == HalfOpen && |Trials(s)| > cfg.halfOpenMaxCalls
  {
    var toHalfOpen := HalfOpenAmidCalls(cfg, now, 1);
    var s := Run(cfg, Init(now), toHalfOpen);
    assert s.inflight.Keys != Trials(s);
    InvFromStart(cfg, now, toHalfOpen);
    var more := Overfill(cfg, s);
    RunConcat(cfg, Init(now), toHalfOpen, more);
    ticks := toHalfOpen + more;
    SameState(cfg, s, more);
  }
}
