/** Building runs of the circuit breaker: joining them, and the stretches that scenarios are made of. */
module BreakerScenarios {
  import opened CircuitBreaker
  import opened BreakerRuns

  lemma {:induction false} RunConcat(cfg: ValidConfig, s: System, a: seq<Tick>, b: seq<Tick>)
    requires CanRun(cfg, s, a) && CanRun(cfg, Run(cfg, s, a), b)
    ensures CanRun(cfg, s, a + b) && Run(cfg, s, a + b) == Run(cfg, Run(cfg, s, a), b)
    decreases |a|
  {
    hide Step;
    if a == [] {
      assert a + b == b;
    } else {
      RunConcat(cfg, Step(cfg, s, a[0]), a[1..], b);
      assert (a + b)[1..] == a[1..] + b;
    }
  }

  lemma RunOne(cfg: ValidConfig, s: System, t: Tick)
    requires Enabled(s, t)
    ensures CanRun(cfg, s, [t]) && Run(cfg, s, [t]) == Step(cfg, s, t)
  {
    hide Step;
    var s1 := Step(cfg, s, t);
    assert [t][1..] == [];
    assert CanRun(cfg, s1, []) && Run(cfg, s1, []) == s1;
  }

  lemma {:induction false} PhaseNeverFalls(cfg: ValidConfig, s: System, ticks: seq<Tick>)
    requires CanRun(cfg, s, ticks)
    ensures Phase(s) <= Phase(Run(cfg, s, ticks))
    decreases |ticks|
  {
    if ticks != [] {
      StepChanges(cfg, s, ticks[0]);
      PhaseNeverFalls(cfg, Step(cfg, s, ticks[0]), ticks[1..]);
    }
  }

  /** A run that stays in its phase stays in its state. */
  lemma {:induction false} SameState(cfg: ValidConfig, s: System, ticks: seq<Tick>)
    requires CanRun(cfg, s, ticks) && Phase(Run(cfg, s, ticks)) == Phase(s)
    ensures Run(cfg, s, ticks).b.state == s.b.state
    decreases |ticks|
  {
    if ticks != [] {
      StepChanges(cfg, s, ticks[0]);
      PhaseNeverFalls(cfg, Step(cfg, s, ticks[0]), ticks[1..]);
      SameState(cfg, Step(cfg, s, ticks[0]), ticks[1..]);
    }
  }

  lemma {:induction false} Bounded(ids: set<CallId>) returns (top: CallId)
    ensures forall id | id in ids :: id < top
    decreases |ids|
  {
    top := 0;
    if ids != {} {
      var id :| id in ids;
      top := Bounded(ids - {id});
      assert forall x | x in ids :: x == id || x in ids - {id};
      if top <= id {
        top := id + 1;
      }
    }
  }

  /** Every reading of a section gives the same time. */
  function At(time: real): Readings { Readings(time, time, time, time) }

  function Now(s: System): Readings { At(s.clock) }

  // ---------------------------------------------------------------- calls of a closed breaker

  /** The breaker is closed, and at the given time its window is still open. */
  ghost predicate CountingAt(cfg: ValidConfig, s: System, at: real) {
    s.b.state == Closed && s.clock <= at < s.b.windowStart + cfg.window
  }

  function Plus(b: Fields, n: nat, outcome: Outcome): Fields {
    b.(successes := b.successes + (if outcome == Success then n else 0),
       failures := b.failures + (if outcome == Failure then n else 0))
  }

  /** The history has gained n verdicts, all of the given outcome and time. */
  ghost predicate Gained(h: seq<Entry>, h': seq<Entry>, phase: nat, n: nat, outcome: Outcome, at: real) {
    forall p, o, after | o != Cancelled ::
      Tally(h', Recent(p, o, after))
      == Tally(h, Recent(p, o, after)) + if p == phase && o == outcome && at > after then n else 0
  }

  /** One call that begins and ends at the given time. */
  lemma OneCall(cfg: ValidConfig, s: System, outcome: Outcome, at: real) returns (ticks: seq<Tick>)
    requires CountingAt(cfg, s, at) && outcome != Cancelled
    ensures CanRun(cfg, s, ticks)
    ensures var s' := Run(cfg, s, ticks);
      && s'.inflight == s.inflight && s'.clock == at
      && if outcome == Failure && ShouldTrip(cfg, s.b.successes, s.b.failures + 1)
         then s'.b.state == Open && s'.b.openedAt == at && Phase(s') == Phase(s) + 1
         else s'.b == Plus(s.b, 1, outcome) && Gained(s.history, s'.history, Phase(s), 1, outcome, at)
  {
    hide ShouldTrip, Tally;
    var id := Bounded(s.inflight.Keys);
    var t1, t2 := Tick(Begin(id), At(at)), Tick(End(id, outcome), At(at));
    ticks := [t1, t2];
    var s1 := Step(cfg, s, t1);
    var s2 := Step(cfg, s1, t2);
    assert s2.inflight == s.inflight;
    TallyNews(cfg, s, t1);
    TallyNews(cfg, s1, t2);
    RunTwo(cfg, s, t1, t2);
  }

  /** Several calls in turn, none of which trips the breaker. */
  lemma {:induction false} Calls(cfg: ValidConfig, s: System, n: nat, outcome: Outcome, at: real)
    returns (ticks: seq<Tick>)
    requires CountingAt(cfg, s, at) && outcome != Cancelled
    requires forall f: nat | outcome == Failure && s.b.failures < f <= s.b.failures + n ::
      !ShouldTrip(cfg, s.b.successes, f)
    ensures CanRun(cfg, s, ticks)
    ensures var s' := Run(cfg, s, ticks);
      && s'.inflight == s.inflight && s.clock <= s'.clock <= at && s'.b == Plus(s.b, n, outcome)
      && Gained(s.history, s'.history, Phase(s), n, outcome, at)
    decreases n
  {
    hide ShouldTrip, Tally;
    ticks := [];
    if n > 0 {
      ticks := OneCall(cfg, s, outcome, at);
      var s1 := Run(cfg, s, ticks);
      var rest := Calls(cfg, s1, n - 1, outcome, at);
      RunConcat(cfg, s, ticks, rest);
      ticks := ticks + rest;
    }
  }

  /** A call without a verdict that begins once the window is over empties the window. */
  lemma RollOver(cfg: ValidConfig, s: System, at: real) returns (ticks: seq<Tick>)
    requires s.b.state == Closed && s.clock <= at && s.b.windowStart + cfg.window <= at
    ensures CanRun(cfg, s, ticks)
    ensures var s' := Run(cfg, s, ticks);
      && s'.inflight == s.inflight && s'.clock == at
      && s'.b == s.b.(windowStart := at, successes := 0, failures := 0)
      && Gained(s.history, s'.history, Phase(s), 0, Success, at)
  {
    hide Tally;
    var id := Bounded(s.inflight.Keys);
    var t1, t2 := Tick(Begin(id), At(at)), Tick(End(id, Cancelled), At(at));
    ticks := [t1, t2];
    var s1 := Step(cfg, s, t1);
    var s2 := Step(cfg, s1, t2);
    assert s2.inflight == s.inflight;
    TallyNews(cfg, s, t1);
    TallyNews(cfg, s1, t2);
    RunTwo(cfg, s, t1, t2);
  }

  // ---------------------------------------------------------------- to open and half-open

  lemma FailUntilOpen(cfg: ValidConfig, s: System) returns (ticks: seq<Tick>)
    requires CountingAt(cfg, s, s.clock) && s.b.successes == 0 && s.b.failures < cfg.minimumRequests
    ensures CanRun(cfg, s, ticks)
    ensures var s' := Run(cfg, s, ticks);
      s'.b.state == Open && s'.b.openedAt == s'.clock && s'.inflight == s.inflight && Phase(s') == Phase(s) + 1
  {
    hide ShouldTrip, Gained;
    forall failures: nat
      ensures ShouldTrip(cfg, 0, failures) <==> failures >= cfg.minimumRequests
    {
      AllFailuresTrip(cfg, failures);
    }
    ticks := Calls(cfg, s, cfg.minimumRequests - 1 - s.b.failures, Failure, s.clock);
    var s1 := Run(cfg, s, ticks);
    var last := OneCall(cfg, s1, Failure, s.clock);
    RunConcat(cfg, s, ticks, last);
    ticks := ticks + last;
  }

  lemma WaitUntilHalfOpen(cfg: ValidConfig, s: System) returns (ticks: seq<Tick>)
    requires s.b.state == Open && s.b.openedAt <= s.clock
    ensures CanRun(cfg, s, ticks)
    ensures Run(cfg, s, ticks).b.state == HalfOpen && Run(cfg, s, ticks).inflight == s.inflight
    ensures Phase(Run(cfg, s, ticks)) == Phase(s) + 1 && Run(cfg, s, ticks).b.halfOpenOK == 0
  {
    var t := Tick(Query, At(s.clock + cfg.openTimeout));
    ticks := [t];
    RunOne(cfg, s, t);
  }

  /** Any number of calls can be in flight. */
  lemma {:induction false} BeginMany(cfg: ValidConfig, s: System, n: nat) returns (ticks: seq<Tick>)
    requires CountingAt(cfg, s, s.clock)
    ensures CanRun(cfg, s, ticks)
    ensures var s' := Run(cfg, s, ticks);
      s'.b == s.b && s'.clock == s.clock && |s'.inflight| == |s.inflight| + n
    decreases n
  {
    ticks := [];
    if n > 0 {
      var id := Bounded(s.inflight.Keys);
      var t := Tick(Begin(id), Now(s));
      RunOne(cfg, s, t);
      var rest := BeginMany(cfg, Step(cfg, s, t), n - 1);
      RunConcat(cfg, s, [t], rest);
      ticks := [t] + rest;
    }
  }

  /** A half-open phase can begin with any number of calls of the first closed phase still in flight. */
  lemma HalfOpenAmidCalls(cfg: ValidConfig, now: real, n: nat) returns (ticks: seq<Tick>)
    ensures CanRun(cfg, Init(now), ticks)
    ensures var s := Run(cfg, Init(now), ticks);
      s.b.state == HalfOpen && Phase(s) == 2 && s.b.halfOpenOK == 0 && |s.inflight| == n && Trials(s) == {}
  {
    hide Step;
    var s0 := Init(now);
    var begin := BeginMany(cfg, s0, n);
    var s1 := Run(cfg, s0, begin);
    TagsHold(cfg, s0, begin);
    var trip := FailUntilOpen(cfg, s1);
    RunConcat(cfg, s0, begin, trip);
    var wait := WaitUntilHalfOpen(cfg, Run(cfg, s1, trip));
    RunConcat(cfg, s0, begin + trip, wait);
    ticks := begin + trip + wait;
  }

  lemma {:induction false} TagsHold(cfg: ValidConfig, s: System, ticks: seq<Tick>)
    requires CanRun(cfg, s, ticks) && Tagged(s)
    ensures Tagged(Run(cfg, s, ticks))
    decreases |ticks|
  {
    if ticks != [] {
      TaggedKept(cfg, s, ticks[0]);
      TagsHold(cfg, Step(cfg, s, ticks[0]), ticks[1..]);
    }
  }
}
