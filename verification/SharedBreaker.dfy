/**
 The upstream client on a breaker that others use at the same time.

 `BreakerRuns` lets a call leave only if it is in flight. This module derives that discipline from the
 client: whatever other callers do between its critical sections, the sections of its attempts and
 theirs together are a run, and between attempts the client has no call in flight.
 */
module SharedBreaker {
  import opened Options
  import opened Errors
  import opened CircuitBreaker
  import opened BreakerRuns
  import opened BreakerTheorems
  import opened BreakerScenarios
  import opened Upstream
  import Backoff
  import Retry

  type Span = x: real | x >= 0.0

  /** How far the clock advances before each reading of a section. */
  datatype Lags = Lags(test: Span, roll: Span, trip: Span, reset: Span)

  function Later(clock: real, l: Lags): (r: Readings)
    ensures r.Ordered() && clock <= r.test
  {
    var test := clock + l.test;
    var roll := test + l.roll;
    var trip := roll + l.trip;
    Readings(test, roll, trip, trip + l.reset)
  }

  /** A section that somebody means to run. */
  datatype Wish = Wish(event: Event, lags: Lags)

  function TickOf(s: System, w: Wish): Tick { Tick(w.event, Later(s.clock, w.lags)) }

  /** What others do before attempt n enters and before it leaves, and the clock at its own sections. */
  datatype Plan = Plan(
    beforeEnter: nat -> seq<Wish>,
    enter: nat -> Lags,
    beforeLeave: nat -> seq<Wish>,
    leave: nat -> Lags
  )

  /** The system, and every section run on it so far. */
  datatype Shared = Shared(sys: System, ticks: seq<Tick>)

  /** Somebody else can run this section now: it is not one of `me`, and its call can begin or end. */
  predicate Foreign(me: CallId, s: System, w: Wish) {
    (w.event.Query? || w.event.id != me) && Enabled(s, TickOf(s, w))
  }

  /** The others run, in turn, those of their sections that they can. */
  function Meanwhile(cfg: ValidConfig, me: CallId, g: Shared, wishes: seq<Wish>): Shared
    decreases |wishes|
  {
    if wishes == [] then g
    else if Foreign(me, g.sys, wishes[0]) then
      var t := TickOf(g.sys, wishes[0]);
      Meanwhile(cfg, me, Shared(Step(cfg, g.sys, t), g.ticks + [t]), wishes[1..])
    else Meanwhile(cfg, me, g, wishes[1..])
  }

  /** A section of the client is run and listed whether or not the discipline allows it. */
  function Act(cfg: ValidConfig, g: Shared, event: Event, lags: Lags): Shared {
    var t := TickOf(g.sys, Wish(event, lags));
    Shared(if Enabled(g.sys, t) then Step(cfg, g.sys, t) else g.sys, g.ticks + [t])
  }

  function EnterShared(cfg: ValidConfig, me: CallId, plan: Plan, g: Shared, n: nat): (Shared, bool) {
    var g1 := Meanwhile(cfg, me, g, plan.beforeEnter(n));
    (Act(cfg, g1, Begin(me), plan.enter(n)), Allow(cfg, g1.sys.b, Later(g1.sys.clock, plan.enter(n))).1)
  }

  function LeaveShared(cfg: ValidConfig, me: CallId, plan: Plan, g: Shared, n: nat, o: Outcome): Shared {
    Act(cfg, Meanwhile(cfg, me, g, plan.beforeLeave(n)), End(me, o), plan.leave(n))
  }

  function SharedGate(cfg: ValidConfig, me: CallId, plan: Plan): Gate<Shared> {
    Gate((g: Shared, n: nat) => EnterShared(cfg, me, plan, g, n),
         (g: Shared, n: nat, o: Outcome) => LeaveShared(cfg, me, plan, g, n, o))
  }

  // ---------------------------------------------------------------- everything listed is a run

  /** The sections listed are a run from s0 that ends in the system as it is. */
  ghost predicate IsHistory(cfg: ValidConfig, s0: System, g: Shared) {
    CanRun(cfg, s0, g.ticks) && Run(cfg, s0, g.ticks) == g.sys
  }

  lemma HistoryGrows(cfg: ValidConfig, s0: System, g: Shared, t: Tick)
    requires IsHistory(cfg, s0, g) && Enabled(g.sys, t)
    ensures IsHistory(cfg, s0, Shared(Step(cfg, g.sys, t), g.ticks + [t]))
  {
    hide Step;
    RunOne(cfg, g.sys, t);
    RunConcat(cfg, s0, g.ticks, [t]);
  }

  lemma {:induction false} MeanwhileIsARun(cfg: ValidConfig, me: CallId, s0: System, g: Shared, wishes: seq<Wish>)
    requires IsHistory(cfg, s0, g)
    ensures var g' := Meanwhile(cfg, me, g, wishes);
      IsHistory(cfg, s0, g') && (me in g'.sys.inflight <==> me in g.sys.inflight)
    decreases |wishes|
  {
    hide IsHistory, Allow, Next;
    if wishes != [] {
      if Foreign(me, g.sys, wishes[0]) {
        var t := TickOf(g.sys, wishes[0]);
        HistoryGrows(cfg, s0, g, t);
        MeanwhileIsARun(cfg, me, s0, Shared(Step(cfg, g.sys, t), g.ticks + [t]), wishes[1..]);
      } else {
        MeanwhileIsARun(cfg, me, s0, g, wishes[1..]);
      }
    }
  }

  /** Between attempts: a run so far, and nothing of the client in flight. */
  ghost predicate AtRest(cfg: ValidConfig, me: CallId, s0: System, g: Shared) {
    IsHistory(cfg, s0, g) && me !in g.sys.inflight
  }

  lemma EnterKeepsHistory(cfg: ValidConfig, me: CallId, plan: Plan, s0: System, g: Shared, n: nat)
    requires AtRest(cfg, me, s0, g)
    ensures var (g', admitted) := EnterShared(cfg, me, plan, g, n);
      IsHistory(cfg, s0, g') && (admitted <==> me in g'.sys.inflight)
  {
    hide IsHistory, Allow, Next, Meanwhile;
    MeanwhileIsARun(cfg, me, s0, g, plan.beforeEnter(n));
    var g1 := Meanwhile(cfg, me, g, plan.beforeEnter(n));
    HistoryGrows(cfg, s0, g1, TickOf(g1.sys, Wish(Begin(me), plan.enter(n))));
  }

  lemma LeaveKeepsHistory(cfg: ValidConfig, me: CallId, plan: Plan, s0: System, g: Shared, n: nat, o: Outcome)
    requires IsHistory(cfg, s0, g) && me in g.sys.inflight
    ensures AtRest(cfg, me, s0, LeaveShared(cfg, me, plan, g, n, o))
  {
    hide IsHistory, Allow, Next, Meanwhile;
    MeanwhileIsARun(cfg, me, s0, g, plan.beforeLeave(n));
    var g1 := Meanwhile(cfg, me, g, plan.beforeLeave(n));
    HistoryGrows(cfg, s0, g1, TickOf(g1.sys, Wish(End(me, o), plan.leave(n))));
  }

  lemma OnceRests(cfg: ValidConfig, me: CallId, plan: Plan, script: Script, s0: System, c: Client<Shared>, n: nat)
    requires AtRest(cfg, me, s0, c.gate)
    ensures AtRest(cfg, me, s0, Once(SharedGate(cfg, me, plan), script, c, n).0.gate)
  {
    hide AtRest, IsHistory, EnterShared, LeaveShared, Attempt;
    EnterKeepsHistory(cfg, me, plan, s0, c.gate, n);
    var (g, admitted) := EnterShared(cfg, me, plan, c.gate, n);
    if admitted {
      var err := ErrorOf(Attempt(script.exchange(n)));
      LeaveKeepsHistory(cfg, me, plan, s0, g, n, Verdict(err, script.ctxErr(n)));
    } else {
      Rests(cfg, me, s0, g);
    }
  }

  lemma Rests(cfg: ValidConfig, me: CallId, s0: System, g: Shared)
    requires IsHistory(cfg, s0, g) && me !in g.sys.inflight
    ensures AtRest(cfg, me, s0, g)
  {
  }

  /**
   For every plan of the others and every outcome of the exchanges, all sections run during k attempts
   form a run, and no call of the client is left in flight: each Begin that was admitted was followed
   by exactly one End before the next.
   */
  lemma {:induction false} AttemptsAreARun(cfg: ValidConfig, me: CallId, plan: Plan, script: Script, s0: System, k: nat)
    requires me !in s0.inflight
    ensures
      var fn := Closure(SharedGate(cfg, me, plan), script);
      AtRest(cfg, me, s0, Retry.StateAfter(fn, Client(Shared(s0, []), None), k).gate)
  {
    hide Once;
    if k > 0 {
      var fn := Closure(SharedGate(cfg, me, plan), script);
      AttemptsAreARun(cfg, me, plan, script, s0, k - 1);
      OnceRests(cfg, me, plan, script, s0, Retry.StateAfter(fn, Client(Shared(s0, []), None), k - 1), k);
    }
  }

  // ---------------------------------------------------------------- the record is what was run

  /** The sections of one caller. */
  function EventsOf(ticks: seq<Tick>, me: CallId): seq<Event> {
    if ticks == [] then []
    else
      var e := ticks[|ticks| - 1].event;
      EventsOf(ticks[..|ticks| - 1], me) + if !e.Query? && e.id == me then [e] else []
  }

  lemma EventsAppend(ticks: seq<Tick>, t: Tick, me: CallId)
    ensures EventsOf(ticks + [t], me)
         == EventsOf(ticks, me) + if !t.event.Query? && t.event.id == me then [t.event] else []
  {
    assert (ticks + [t])[..|ticks|] == ticks;
  }

  function EventOf(p: Passage, me: CallId): Event {
    if p.Left? then End(me, p.outcome) else Begin(me)
  }

  function LoggedEvents(log: seq<Passage>, me: CallId): (es: seq<Event>)
    ensures |es| == |log| && forall i | 0 <= i < |log| :: es[i] == EventOf(log[i], me)
  {
    seq(|log|, i requires 0 <= i < |log| => EventOf(log[i], me))
  }

  lemma {:induction false} MeanwhileIsForeign(cfg: ValidConfig, me: CallId, g: Shared, wishes: seq<Wish>)
    ensures EventsOf(Meanwhile(cfg, me, g, wishes).ticks, me) == EventsOf(g.ticks, me)
    decreases |wishes|
  {
    hide EventsOf, Enabled, Step;
    if wishes != [] {
      var t := TickOf(g.sys, wishes[0]);
      EventsAppend(g.ticks, t, me);
      if Foreign(me, g.sys, wishes[0]) {
        MeanwhileIsForeign(cfg, me, Shared(Step(cfg, g.sys, t), g.ticks + [t]), wishes[1..]);
      } else {
        MeanwhileIsForeign(cfg, me, g, wishes[1..]);
      }
    }
  }

  lemma PassageIsSection(cfg: ValidConfig, me: CallId, plan: Plan, g: Shared, n: nat, o: Outcome)
    ensures EventsOf(EnterShared(cfg, me, plan, g, n).0.ticks, me) == EventsOf(g.ticks, me) + [Begin(me)]
    ensures EventsOf(LeaveShared(cfg, me, plan, g, n, o).ticks, me) == EventsOf(g.ticks, me) + [End(me, o)]
  {
    hide Meanwhile, EventsOf, Enabled, Step, Allow;
    var g1, g2 := Meanwhile(cfg, me, g, plan.beforeEnter(n)), Meanwhile(cfg, me, g, plan.beforeLeave(n));
    MeanwhileIsForeign(cfg, me, g, plan.beforeEnter(n));
    MeanwhileIsForeign(cfg, me, g, plan.beforeLeave(n));
    EventsAppend(g1.ticks, TickOf(g1.sys, Wish(Begin(me), plan.enter(n))), me);
    EventsAppend(g2.ticks, TickOf(g2.sys, Wish(End(me, o), plan.leave(n))), me);
  }

  /** The client's sections are those in its record. */
  ghost predicate Faithful(me: CallId, w: Recorded<Shared>) {
    EventsOf(w.inner.ticks, me) == LoggedEvents(w.log, me)
  }

  lemma OnceIsFaithful(cfg: ValidConfig, me: CallId, plan: Plan, script: Script, c: Client<Recorded<Shared>>, n: nat)
    requires Faithful(me, c.gate)
    ensures Faithful(me, Once(Recording(SharedGate(cfg, me, plan)), script, c, n).0.gate)
  {
    hide EnterShared, LeaveShared, EventsOf, Attempt;
    var outcome := Verdict(ErrorOf(Attempt(script.exchange(n))), script.ctxErr(n));
    PassageIsSection(cfg, me, plan, c.gate.inner, n, outcome);
    var (g, admitted) := EnterShared(cfg, me, plan, c.gate.inner, n);
    PassageIsSection(cfg, me, plan, g, n, outcome);
  }

  lemma {:induction false} AttemptsAreFaithful(cfg: ValidConfig, me: CallId, plan: Plan, script: Script, s0: System,
                                               k: nat)
    ensures
      var fn := Closure(Recording(SharedGate(cfg, me, plan)), script);
      Faithful(me, Retry.StateAfter(fn, Start(Shared(s0, [])), k).gate)
  {
    hide Once, Recording;
    if k > 0 {
      var fn := Closure(Recording(SharedGate(cfg, me, plan)), script);
      AttemptsAreFaithful(cfg, me, plan, script, s0, k - 1);
      OnceIsFaithful(cfg, me, plan, script, Retry.StateAfter(fn, Start(Shared(s0, [])), k - 1), k);
    }
  }

  // ---------------------------------------------------------------- the whole call

  /**
   A whole call of the client, on a breaker in any reachable state and whatever other callers do on it
   meanwhile. The critical sections of all of them are a run, so everything proved of runs holds; those
   of the client are the ones on its record, in which every admitted attempt is matched by exactly one
   record or release; and it leaves nothing in flight.
   */
  lemma CallIsPartOfARun(cfg: ValidConfig, me: CallId, plan: Plan, script: Script, now: real, before: seq<Tick>,
                         retry: Backoff.ValidConfig, world: Retry.World, run: Retry.Outcome<Client<Recorded<Shared>>>)
    requires CanRun(cfg, Init(now), before) && me !in Run(cfg, Init(now), before).inflight
    requires Retry.IsRun(retry, world, Closure(Recording(SharedGate(cfg, me, plan)), script),
                         Start(Shared(Run(cfg, Init(now), before), [])), run)
    ensures
      var g := run.state.gate.inner;
      && CanRun(cfg, Init(now), before + g.ticks) && Run(cfg, Init(now), before + g.ticks) == g.sys
      && me !in g.sys.inflight && Inv(cfg, g.sys)
      && EventsOf(g.ticks, me) == LoggedEvents(run.state.gate.log, me)
      && Paired(run.state.gate.log, run.results, script)
  {
    hide Once, Recording, SharedGate, Inv, EventsOf, Paired, Retry.Continues, Retry.Sleeps;
    var s0, gate := Run(cfg, Init(now), before), SharedGate(cfg, me, plan);
    var k := |run.results|;
    AttemptsAreARun(cfg, me, plan, script, s0, k);
    RecordingIsSilent(gate, script, Shared(s0, []), k);
    AttemptsAreFaithful(cfg, me, plan, script, s0, k);
    AttemptsArePaired(gate, script, Shared(s0, []), run.results);
    RunConcat(cfg, Init(now), before, run.state.gate.inner.ticks);
    InvFromStart(cfg, now, before + run.state.gate.inner.ticks);
  }

  // ---------------------------------------------------------------- the others are not restricted

  function LagsOf(clock: real, r: Readings): Lags
    requires clock <= r.test && r.Ordered()
  {
    Lags(r.test - clock, r.roll - r.test, r.trip - r.roll, r.reset - r.trip)
  }

  /** Every run of the others is what some of their wishes come to. */
  lemma {:induction false} OthersAreArbitrary(cfg: ValidConfig, me: CallId, g: Shared, ticks: seq<Tick>)
    returns (wishes: seq<Wish>)
    requires CanRun(cfg, g.sys, ticks)
    requires forall i | 0 <= i < |ticks| :: ticks[i].event.Query? || ticks[i].event.id != me
    ensures Meanwhile(cfg, me, g, wishes) == Shared(Run(cfg, g.sys, ticks), g.ticks + ticks)
    decreases |ticks|
  {
    hide Step;
    wishes := [];
    if ticks == [] {
      assert g.ticks + ticks == g.ticks;
    } else {
      var t := ticks[0];
      var w := Wish(t.event, LagsOf(g.sys.clock, t.r));
      assert TickOf(g.sys, w) == t;
      var rest := OthersAreArbitrary(cfg, me, Shared(Step(cfg, g.sys, t), g.ticks + [t]), ticks[1..]);
      wishes := [w] + rest;
      assert wishes[1..] == rest;
      assert g.ticks + ticks == g.ticks + [t] + ticks[1..];
    }
  }
}
