/** The bound on the load during an outage is met: for every configuration and every stretch of time. */
module BreakerLoad {
  import opened CircuitBreaker
  import opened BreakerRuns
  import opened BreakerTheorems
  import opened BreakerScenarios

  /** How many of n admissions at the given time lie in time. */
  function InTime(n: nat, at: real, until: real): nat { if at <= until then n else 0 }

  /** Trials that begin at this moment, as many as there are slots. */
  lemma {:induction false} BeginTrials(cfg: ValidConfig, s: System, n: nat) returns (ticks: seq<Tick>)
    requires s.b.state == HalfOpen && s.b.halfOpenActive + n == cfg.halfOpenMaxCalls
    ensures CanRun(cfg, s, ticks) && AllFail(ticks)
    ensures var s' := Run(cfg, s, ticks);
      && s'.b.state == HalfOpen && s'.clock == s.clock && |s'.inflight| == |s.inflight| + n
      && forall until :: Tally(s'.history, Admissions(until))
                      == Tally(s.history, Admissions(until)) + InTime(n, s.clock, until)
    decreases n
  {
    hide Tally;
    ticks := [];
    if n > 0 {
      var id := Bounded(s.inflight.Keys);
      var t := Tick(Begin(id), Now(s));
      TallyNews(cfg, s, t);
      RunOne(cfg, s, t);
      var rest := BeginTrials(cfg, Step(cfg, s, t), n - 1);
      RunConcat(cfg, s, [t], rest);
      ticks := [t] + rest;
    }
  }

  /** The breaker opened at this very moment. */
  ghost predicate JustOpened(s: System) { s.b.state == Open && s.b.openedAt == s.clock }

  lemma FirstTrial(cfg: ValidConfig, s: System) returns (t: Tick)
    requires JustOpened(s)
    ensures Enabled(s, t) && t.event.Begin?
    ensures var s' := Step(cfg, s, t);
      && s'.b.state == HalfOpen && s'.b.halfOpenActive == 1 && s'.clock == s.clock + cfg.openTimeout
      && s'.inflight != map[]
      && forall until :: Tally(s'.history, Admissions(until))
                      == Tally(s.history, Admissions(until)) + InTime(1, s'.clock, until)
  {
    hide Tally;
    var id := Bounded(s.inflight.Keys);
    t := Tick(Begin(id), At(s.clock + cfg.openTimeout));
    TallyNews(cfg, s, t);
    assert id in Step(cfg, s, t).inflight;
  }

  lemma FailedTrial(cfg: ValidConfig, s: System) returns (t: Tick)
    requires s.b.state == HalfOpen && |s.inflight| > 0
    ensures Enabled(s, t) && t.event.End? && t.event.outcome == Failure
    ensures var s' := Step(cfg, s, t);
      && JustOpened(s') && s'.clock == s.clock
      && forall until :: Tally(s'.history, Admissions(until)) == Tally(s.history, Admissions(until))
  {
    hide Tally;
    var id :| id in s.inflight.Keys;
    t := Tick(End(id, Failure), Now(s));
    TallyNews(cfg, s, t);
  }

  /** As soon as the open timeout allows, a full set of trials begins, and one of them fails at once. */
  lemma OneRound(cfg: ValidConfig, s: System) returns (ticks: seq<Tick>)
    requires JustOpened(s)
    ensures CanRun(cfg, s, ticks) && AllFail(ticks)
    ensures var s' := Run(cfg, s, ticks);
      && JustOpened(s') && s'.clock == s.clock + cfg.openTimeout
      && forall until :: Tally(s'.history, Admissions(until))
                      == Tally(s.history, Admissions(until)) + InTime(cfg.halfOpenMaxCalls, s'.clock, until)
  {
    hide Tally, Step, Enabled, Run, CanRun;
    var t := FirstTrial(cfg, s);
    var s1 := Step(cfg, s, t);
    RunOne(cfg, s, t);
    var more := BeginTrials(cfg, s1, cfg.halfOpenMaxCalls - 1);
    RunConcat(cfg, s, [t], more);
    var s2 := Run(cfg, s1, more);
    var fail := FailedTrial(cfg, s2);
    RunOne(cfg, s2, fail);
    RunConcat(cfg, s, [t] + more, [fail]);
    ticks := [t] + more + [fail];
  }

  lemma {:induction false} Rounds(cfg: ValidConfig, s0: System, s: System, k: nat, m: nat, until: real)
    returns (ticks: seq<Tick>)
    requires JustOpened(s) && s.clock == PhaseStart(cfg, s0, k) && k <= m && PhaseStart(cfg, s0, m) <= until
    ensures CanRun(cfg, s, ticks) && AllFail(ticks)
    ensures Tally(Run(cfg, s, ticks).history, Admissions(until)) + Capacity(cfg, k)
         == Tally(s.history, Admissions(until)) + Capacity(cfg, m)
    decreases m - k
  {
    hide Tally, Step, Enabled;
    ticks := [];
    if k < m {
      ticks := OneRound(cfg, s);
      PhaseStartIncreases(cfg, s0, k + 1, m);
      var rest := Rounds(cfg, s0, Run(cfg, s, ticks), k + 1, m, until);
      RunConcat(cfg, s, ticks, rest);
      ticks := ticks + rest;
    }
  }

  /**
   The bound of `OutageLoadBound` cannot be lowered: for every configuration and every T some run in
   which every finishing call fails admits HalfOpenMaxCalls * floor(T / OpenTimeout) calls within T of
   the trip.
   */
  lemma OutageLoadIsAttained(cfg: ValidConfig, now: real, T: real) returns (before: seq<Tick>, after: seq<Tick>)
    requires T >= 0.0
    ensures CanRun(cfg, Init(now), before) && Run(cfg, Init(now), before).b.state == Open
    ensures CanRun(cfg, Run(cfg, Init(now), before), after) && AllFail(after)
    ensures
      var s0 := Run(cfg, Init(now), before);
      var within := Admissions(s0.b.openedAt + T);
      Tally(Run(cfg, s0, after).history, within) - Tally(s0.history, within) == LoadWithin(cfg, T)
  {
    hide Tally, Step, Run, CanRun, LoadWithin;
    before := FailUntilOpen(cfg, Init(now));
    var s0 := Run(cfg, Init(now), before);
    var m := PhasesThatFit(cfg, s0, T);
    after := Rounds(cfg, s0, s0, 0, m, s0.b.openedAt + T);
  }
}
