/**
 Concurrent runs of the circuit breaker.

 A call is not atomic: it enters through `allow`, works without the lock, and leaves through
 `record` or `release`. A run is therefore a sequence of critical sections of many calls in any
 order, under one monotone clock. Phases are numbered by the state changes made before them, and
 every call in flight carries the number of the phase that admitted it.
 */
module BreakerRuns {
  import opened CircuitBreaker

  type CallId = nat

  /** One critical section: a call enters, a call leaves, or somebody asks for the state. */
  datatype Event = Begin(id: CallId) | End(id: CallId, outcome: Outcome) | Query

  datatype Tick = Tick(event: Event, r: Readings)

  /** What happened: admissions, calls that left (with their verdict), and trips. */
  datatype Entry =
    | Admitted(id: CallId, phase: nat, at: real)
    | Finished(id: CallId, admittedIn: nat, phase: nat, outcome: Outcome, at: real)
    | Tripped(at: real)

  /** `began` is the moment at which the current phase began. */
  datatype System = System(b: Fields, clock: real, began: real, inflight: map<CallId, nat>, history: seq<Entry>)

  function Init(now: real): System {
    System(Fresh(now), now, now, map[], [])
  }

  function Phase(s: System): nat { |s.b.changes| }

  predicate Enabled(s: System, t: Tick) {
    && s.clock <= t.r.test && t.r.Ordered()
    && (t.event.Begin? ==> t.event.id !in s.inflight)
    && (t.event.End? ==> t.event.id in s.inflight)
  }

  /** The last clock reading made before a verdict is counted. */
  function VerdictTime(cfg: ValidConfig, b: Fields, outcome: Outcome, r: Readings): real {
    if b.state == Closed && outcome != Cancelled && Rolls(cfg, b, r) then r.roll else r.test
  }

  /** The guarded fields after a critical section. */
  function Next(cfg: ValidConfig, b: Fields, e: Event, r: Readings): Fields {
    match e
    case Begin(_) => Allow(cfg, b, r).0
    case End(_, outcome) => Leave(cfg, b, outcome, r)
    case Query => MaybeHalfOpen(cfg, b, r.test)
  }

  /** What a critical section adds to the history. */
  function News(cfg: ValidConfig, s: System, t: Tick): seq<Entry>
    requires Enabled(s, t)
  {
    var b := Next(cfg, s.b, t.event, t.r);
    match t.event
    case Begin(id) =>
      if Allow(cfg, s.b, t.r).1 then [Admitted(id, |b.changes|, t.r.test)] else []
    case End(id, outcome) =>
      [Finished(id, s.inflight[id], Phase(s), outcome, VerdictTime(cfg, s.b, outcome, t.r))]
      + if s.b.state != Open && b.state == Open then [Tripped(b.openedAt)] else []
    case Query => []
  }

  function Step(cfg: ValidConfig, s: System, t: Tick): System
    requires Enabled(s, t)
  {
    var b := Next(cfg, s.b, t.event, t.r);
    System(b, t.r.reset, if b.state == s.b.state then s.began else t.r.reset,
           match t.event
           case Begin(id) => if Allow(cfg, s.b, t.r).1 then s.inflight[id := |b.changes|] else s.inflight
           case End(id, _) => s.inflight - {id}
           case Query => s.inflight,
           s.history + News(cfg, s, t))
  }

  ghost predicate CanRun(cfg: ValidConfig, s: System, ticks: seq<Tick>)
    decreases |ticks|
  {
    ticks == [] || (Enabled(s, ticks[0]) && CanRun(cfg, Step(cfg, s, ticks[0]), ticks[1..]))
  }

  ghost function Run(cfg: ValidConfig, s: System, ticks: seq<Tick>): System
    requires CanRun(cfg, s, ticks)
    decreases |ticks|
  {
    if ticks == [] then s else Run(cfg, Step(cfg, s, ticks[0]), ticks[1..])
  }

  lemma RunTwo(cfg: ValidConfig, s: System, t1: Tick, t2: Tick)
    requires Enabled(s, t1) && Enabled(Step(cfg, s, t1), t2)
    ensures CanRun(cfg, s, [t1, t2]) && Run(cfg, s, [t1, t2]) == Step(cfg, Step(cfg, s, t1), t2)
  {
    hide Step;
    var s1 := Step(cfg, s, t1);
    assert [t1, t2][1..] == [t2] && [t2][1..] == [];
    assert CanRun(cfg, Step(cfg, s1, t2), []) && CanRun(cfg, s1, [t2]);
    assert Run(cfg, s1, [t2]) == Run(cfg, Step(cfg, s1, t2), []);
  }

  // ---------------------------------------------------------------- counting the history

  datatype Kind =
    | Verdicts(phase: nat, outcome: Outcome)
    | Windowed(phase: nat, outcome: Outcome, since: real)
    | Recent(phase: nat, outcome: Outcome, after: real)
    | Dropped(phase: nat, outcome: Outcome, after: real, before: real)
    | Older(phase: nat)
    | OlderVerdicts(phase: nat, outcome: Outcome)
    | TrialVerdicts(phase: nat, outcome: Outcome)
    | Admissions(until: real)

  predicate Matches(e: Entry, k: Kind) {
    match k
    case Verdicts(p, o) => e.Finished? && e.phase == p && e.outcome == o
    case Windowed(p, o, since) => e.Finished? && e.phase == p && e.outcome == o && e.at >= since
    case Recent(p, o, after) => e.Finished? && e.phase == p && e.outcome == o && e.at > after
    case Dropped(p, o, after, before) => e.Finished? && e.phase == p && e.outcome == o && after < e.at < before
    case Older(p) => e.Finished? && e.phase == p && e.admittedIn < p
    case OlderVerdicts(p, o) => e.Finished? && e.phase == p && e.outcome == o && e.admittedIn < p
    case TrialVerdicts(p, o) => e.Finished? && e.phase == p && e.outcome == o && e.admittedIn == p
    case Admissions(until) => e.Admitted? && e.at <= until
  }

  /** How many entries of the history are of the given kind. */
  function Tally(h: seq<Entry>, k: Kind): nat {
    if h == [] then 0
    else Tally(h[..|h| - 1], k) + if Matches(h[|h| - 1], k) then 1 else 0
  }

  lemma TallyAppend(h: seq<Entry>, e: Entry)
    ensures forall k :: Tally(h + [e], k) == Tally(h, k) + if Matches(e, k) then 1 else 0
  {
    assert (h + [e])[..|h|] == h;
  }

  lemma {:induction false} TallyNone(h: seq<Entry>, k: Kind)
    requires forall i | 0 <= i < |h| :: !Matches(h[i], k)
    ensures Tally(h, k) == 0
  {
    if h != [] {
      TallyNone(h[..|h| - 1], k);
    }
  }

  lemma {:induction false} TallySome(h: seq<Entry>, k: Kind, i: int)
    requires 0 <= i < |h| && Matches(h[i], k)
    ensures Tally(h, k) > 0
  {
    if i < |h| - 1 {
      TallySome(h[..|h| - 1], k, i);
    }
  }

  ghost function Trials(s: System): set<CallId> {
    set id | id in s.inflight && s.inflight[id] == Phase(s)
  }

  // ---------------------------------------------------------------- invariants

  /** Calls and history entries carry phases that have already begun. */
  ghost predicate Tagged(s: System) {
    && (forall id | id in s.inflight :: s.inflight[id] <= Phase(s))
    && (forall i | 0 <= i < |s.history| && s.history[i].Finished? ::
          s.history[i].admittedIn <= s.history[i].phase <= Phase(s))
  }

  ghost predicate Timed(s: System) {
    && s.b.windowStart <= s.clock && s.began <= s.clock
    && (s.b.state == Open ==> s.b.openedAt <= s.clock)
  }

  /** The allowed moves: closed to open, open to half-open, half-open to either. */
  predicate Legal(c: Change) {
    c in {Change(Closed, Open), Change(Open, HalfOpen), Change(HalfOpen, Closed), Change(HalfOpen, Open)}
  }

  ghost predicate Walk(b: Fields) {
    var cs := b.changes;
    && (forall i | 0 <= i < |cs| :: Legal(cs[i]))
    && (forall i | 0 < i < |cs| :: cs[i].from == cs[i - 1].to)
    && (if cs == [] then b.state == Closed else cs[0].from == Closed && b.state == cs[|cs| - 1].to)
  }

  /** In a closed phase the counters are the verdicts of the current window, all inside it. */
  ghost predicate Counted(cfg: ValidConfig, s: System) {
    s.b.state == Closed ==>
      && s.b.successes == Tally(s.history, Windowed(Phase(s), Success, s.b.windowStart))
      && s.b.failures == Tally(s.history, Windowed(Phase(s), Failure, s.b.windowStart))
      && (forall i | 0 <= i < |s.history| && s.history[i].Finished? && s.history[i].phase == Phase(s)
                     && !s.history[i].outcome.Cancelled? ::
            s.history[i].at < s.b.windowStart + cfg.window)
  }

  /**
   The window of a closed phase begins with the phase, and does not begin again before it has lasted
   for Window; and the verdicts of a phase come after its beginning.
   */
  ghost predicate Paced(cfg: ValidConfig, s: System) {
    && (s.b.state == Closed ==> s.b.windowStart == s.began || s.b.windowStart >= s.began + cfg.window)
    && (forall i | 0 <= i < |s.history| && s.history[i].Finished? && s.history[i].phase == Phase(s) ::
          s.history[i].at >= s.began)
  }

  /** Only the current phase has counters. */
  ghost predicate Tidy(b: Fields) {
    && (b.state != HalfOpen ==> b.halfOpenActive == b.halfOpenOK == 0)
    && (b.state != Closed ==> b.successes == b.failures == 0)
  }

  /** Failures enough in number and in share. */
  predicate Due(cfg: ValidConfig, successes: nat, failures: nat) {
    && failures >= cfg.minimumRequests
    && failures as real >= Quota(cfg, successes + failures)
  }

  /** No closed state has missed a trip that was due at a failure. */
  predicate NotDue(cfg: ValidConfig, b: Fields) {
    b.state == Closed ==> !Due(cfg, b.successes, b.failures)
  }

  ghost predicate Probing(cfg: ValidConfig, s: System) {
    s.b.state == HalfOpen ==>
      && s.b.halfOpenOK == Tally(s.history, Verdicts(Phase(s), Success)) < cfg.halfOpenSuccesses
      && Tally(s.history, Verdicts(Phase(s), Failure)) == 0
  }

  ghost predicate Slots(cfg: ValidConfig, s: System) {
    s.b.state == HalfOpen ==>
      && |Trials(s)| - Tally(s.history, Older(Phase(s))) <= s.b.halfOpenActive
      && s.b.halfOpenActive <= |Trials(s)|
      && s.b.halfOpenActive <= cfg.halfOpenMaxCalls
  }

  /** How the half-open phase number `p` ended, read off the history. */
  ghost predicate EndedWell(cfg: ValidConfig, s: System, p: nat)
    requires p < Phase(s)
  {
    s.b.changes[p].from == HalfOpen ==>
      if s.b.changes[p].to == Closed
      then && Tally(s.history, Verdicts(p, Success)) == cfg.halfOpenSuccesses
           && Tally(s.history, Verdicts(p, Failure)) == 0
      else && Tally(s.history, Verdicts(p, Success)) < cfg.halfOpenSuccesses
           && Tally(s.history, Verdicts(p, Failure)) == 1
  }

  ghost predicate PhasesEndWell(cfg: ValidConfig, s: System) {
    forall p: nat | p < Phase(s) :: EndedWell(cfg, s, p)
  }

  /** Every admission lies at least the open timeout after every earlier trip. */
  ghost predicate CoolsDown(cfg: ValidConfig, h: seq<Entry>) {
    forall i, j | 0 <= i < j < |h| && h[i].Tripped? && h[j].Admitted? :: h[j].at - h[i].at >= cfg.openTimeout
  }

  ghost predicate TripsPassed(cfg: ValidConfig, s: System) {
    forall i | 0 <= i < |s.history| && s.history[i].Tripped? ::
      if s.b.state == Open then s.history[i].at <= s.b.openedAt else s.history[i].at + cfg.openTimeout <= s.clock
  }

  ghost predicate Inv(cfg: ValidConfig, s: System) {
    && Tagged(s) && Timed(s) && Walk(s.b)
    && Counted(cfg, s) && Paced(cfg, s) && Tidy(s.b) && NotDue(cfg, s.b)
    && Probing(cfg, s) && Slots(cfg, s) && PhasesEndWell(cfg, s)
    && CoolsDown(cfg, s.history) && TripsPassed(cfg, s)
  }

  // ---------------------------------------------------------------- preservation, one invariant at a time

  lemma TaggedKept(cfg: ValidConfig, s: System, t: Tick)
    requires Enabled(s, t) && Tagged(s)
    ensures Tagged(Step(cfg, s, t))
  {
  }

  lemma TimedKept(cfg: ValidConfig, s: System, t: Tick)
    requires Enabled(s, t) && Timed(s)
    ensures Timed(Step(cfg, s, t))
  {
  }

  /** A step changes the state at most once, legally, and notifies exactly that change. */
  lemma StepChanges(cfg: ValidConfig, s: System, t: Tick)
    requires Enabled(s, t)
    ensures var b, b' := s.b, Step(cfg, s, t).b;
      if b'.state == b.state then b'.changes == b.changes
      else Legal(Change(b.state, b'.state)) && b'.changes == b.changes + [Change(b.state, b'.state)]
  {
  }

  lemma WalkKept(cfg: ValidConfig, s: System, t: Tick)
    requires Enabled(s, t) && Walk(s.b)
    ensures Walk(Step(cfg, s, t).b)
  {
    StepChanges(cfg, s, t);
    WalkExtends(s.b, Step(cfg, s, t).b);
  }

  lemma WalkExtends(b: Fields, b': Fields)
    requires Walk(b)
    requires
      if b'.state == b.state then b'.changes == b.changes
      else Legal(Change(b.state, b'.state)) && b'.changes == b.changes + [Change(b.state, b'.state)]
    ensures Walk(b')
  {
  }

  lemma NotDueKept(cfg: ValidConfig, s: System, t: Tick)
    requires Enabled(s, t) && NotDue(cfg, s.b)
    ensures NotDue(cfg, Step(cfg, s, t).b)
  {
    hide Quota, ShouldTrip;
    var b, b' := s.b, Step(cfg, s, t).b;
    ShouldTripByQuota(cfg, b'.successes, b'.failures);
    QuotaStep(cfg, b.successes + b.failures);
    QuotaStep(cfg, 0);
  }

  /** Only the first entry of the news can be counted. */
  lemma TallyNews(cfg: ValidConfig, s: System, t: Tick)
    requires Enabled(s, t)
    ensures forall k ::
      Tally(Step(cfg, s, t).history, k) == Tally(s.history, k)
        + if News(cfg, s, t) != [] && Matches(News(cfg, s, t)[0], k) then 1 else 0
  {
    hide Next, Allow;
    var h, news := s.history, News(cfg, s, t);
    if news == [] {
      assert h + news == h;
    } else {
      TallyAppend(h, news[0]);
      if |news| == 2 {
        TallyAppend(h + [news[0]], news[1]);
        assert h + news == h + [news[0]] + [news[1]];
      } else {
        assert h + news == h + [news[0]];
      }
    }
  }

  /** The counters of a closed phase, by what the section did to the window. */
  lemma ClosedNext(cfg: ValidConfig, b: Fields, e: Event, r: Readings)
    requires Next(cfg, b, e, r).state == Closed && b.state == Closed
    ensures var b' := Next(cfg, b, e, r);
      var rolled := !e.Query? && !(e.End? && e.outcome == Cancelled) && Rolls(cfg, b, r);
      && b'.changes == b.changes
      && b'.windowStart == (if rolled then r.roll else b.windowStart)
      && b'.successes == (if rolled then 0 else b.successes) + (if e.End? && e.outcome == Success then 1 else 0)
      && b'.failures == (if rolled then 0 else b.failures) + (if e.End? && e.outcome == Failure then 1 else 0)
  {
  }

  lemma ReopenedNext(cfg: ValidConfig, b: Fields, e: Event, r: Readings)
    requires Next(cfg, b, e, r).state == Closed && b.state != Closed
    ensures var b' := Next(cfg, b, e, r);
      b'.successes == b'.failures == 0 && b'.windowStart == r.reset && e.End? && |b'.changes| == |b.changes| + 1
  {
  }

  lemma CountedKept(cfg: ValidConfig, s: System, t: Tick)
    requires Enabled(s, t) && Tagged(s) && Timed(s) && Counted(cfg, s)
    ensures Counted(cfg, Step(cfg, s, t))
  {
    hide Next, Tally;
    var s' := Step(cfg, s, t);
    TallyNews(cfg, s, t);
    if s'.b.state == Closed {
      if s.b.state == Closed {
        ClosedNext(cfg, s.b, t.event, t.r);
      } else {
        ReopenedNext(cfg, s.b, t.event, t.r);
      }
      if s.b.state != Closed || s'.b.windowStart != s.b.windowStart {
        TallyNone(s.history, Windowed(Phase(s'), Success, s'.b.windowStart));
        TallyNone(s.history, Windowed(Phase(s'), Failure, s'.b.windowStart));
      }
    }
  }

  lemma PacedKept(cfg: ValidConfig, s: System, t: Tick)
    requires Enabled(s, t) && Tagged(s) && Timed(s) && Paced(cfg, s)
    ensures Paced(cfg, Step(cfg, s, t))
  {
    hide Next, Allow;
    var s' := Step(cfg, s, t);
    StepChanges(cfg, s, t);
    if s'.b.state == Closed {
      if s.b.state == Closed {
        ClosedNext(cfg, s.b, t.event, t.r);
      } else {
        ReopenedNext(cfg, s.b, t.event, t.r);
      }
    }
  }

  lemma TidyKept(cfg: ValidConfig, s: System, t: Tick)
    requires Enabled(s, t) && Tidy(s.b)
    ensures Tidy(Step(cfg, s, t).b)
  {
    hide ShouldTrip;
  }

  /** A section that begins or ends in a half-open phase. */
  lemma HalfOpenNext(cfg: ValidConfig, b: Fields, e: Event, r: Readings)
    ensures var b' := Next(cfg, b, e, r);
      && (b.state == HalfOpen ==>
            if e.End? && e.outcome == Failure then b'.state == Open
            else if e.End? && e.outcome == Success then
              b'.state == if b.halfOpenOK + 1 >= cfg.halfOpenSuccesses then Closed else HalfOpen
            else b'.state == HalfOpen)
      && (b'.state == HalfOpen ==>
            b'.halfOpenOK == if b.state != HalfOpen then 0
                             else b.halfOpenOK + if e.End? && e.outcome == Success then 1 else 0)
      && (b'.state == HalfOpen && b.state != HalfOpen ==> !e.End?)
  {
  }

  lemma ProbingKept(cfg: ValidConfig, s: System, t: Tick)
    requires Enabled(s, t) && Tagged(s) && Probing(cfg, s)
    ensures Probing(cfg, Step(cfg, s, t))
  {
    hide Next, Tally;
    var s' := Step(cfg, s, t);
    StepChanges(cfg, s, t);
    HalfOpenNext(cfg, s.b, t.event, t.r);
    TallyNews(cfg, s, t);
    if s'.b.state == HalfOpen && s.b.state != HalfOpen {
      TallyNone(s.history, Verdicts(Phase(s'), Success));
      TallyNone(s.history, Verdicts(Phase(s'), Failure));
    }
  }

  lemma PhasesEndWellKept(cfg: ValidConfig, s: System, t: Tick)
    requires Enabled(s, t) && Tagged(s) && Probing(cfg, s) && PhasesEndWell(cfg, s)
    ensures PhasesEndWell(cfg, Step(cfg, s, t))
  {
    hide Next, Tally;
    var s' := Step(cfg, s, t);
    StepChanges(cfg, s, t);
    HalfOpenNext(cfg, s.b, t.event, t.r);
    TallyNews(cfg, s, t);
    forall p: nat | p < Phase(s')
      ensures EndedWell(cfg, s', p)
    {
      if p < Phase(s) {
        assert EndedWell(cfg, s, p);
      }
    }
  }

  /** Times of admissions and trips against the open timeout. */
  lemma CooldownNext(cfg: ValidConfig, b: Fields, e: Event, r: Readings)
    requires r.Ordered()
    ensures var b' := Next(cfg, b, e, r);
      && (b.state == Open && b'.state == Open ==> b'.openedAt == b.openedAt)
      && (b.state == Open && b'.state != Open ==> r.test - b.openedAt >= cfg.openTimeout)
      && (b.state != Open && b'.state == Open ==> b'.openedAt == r.trip)
      && (e.Begin? && Allow(cfg, b, r).1 ==> b'.state != Open)
  {
  }

  lemma CoolsDownKept(cfg: ValidConfig, s: System, t: Tick)
    requires Enabled(s, t) && Timed(s) && CoolsDown(cfg, s.history) && TripsPassed(cfg, s)
    ensures CoolsDown(cfg, Step(cfg, s, t).history) && TripsPassed(cfg, Step(cfg, s, t))
  {
    hide Next, Allow;
    CooldownNext(cfg, s.b, t.event, t.r);
  }

  /** What a step that stays half-open does to the trials and the counter. */
  lemma TrialsMove(cfg: ValidConfig, s: System, t: Tick)
    requires Enabled(s, t) && s.b.state == HalfOpen && Step(cfg, s, t).b.state == HalfOpen
    ensures var s' := Step(cfg, s, t);
      match t.event
      case Begin(id) =>
        if s.b.halfOpenActive < cfg.halfOpenMaxCalls
        then Trials(s') == Trials(s) + {id} && id !in Trials(s) && s'.b.halfOpenActive == s.b.halfOpenActive + 1
        else Trials(s') == Trials(s) && s'.b.halfOpenActive == s.b.halfOpenActive
      case End(id, _) => Trials(s') == Trials(s) - {id} && s'.b.halfOpenActive == FreeSlot(s.b).halfOpenActive
      case Query => Trials(s') == Trials(s) && s'.b.halfOpenActive == s.b.halfOpenActive
  {
    StepChanges(cfg, s, t);
    assert Phase(Step(cfg, s, t)) == Phase(s);
  }

  lemma TrialsStart(cfg: ValidConfig, s: System, t: Tick)
    requires Enabled(s, t) && Tagged(s) && s.b.state != HalfOpen && Step(cfg, s, t).b.state == HalfOpen
    ensures var s' := Step(cfg, s, t);
      if t.event.Begin? then Trials(s') == {t.event.id} && s'.b.halfOpenActive == 1
      else Trials(s') == {} && s'.b.halfOpenActive == 0
  {
    StepChanges(cfg, s, t);
  }

  lemma TallyOlder(cfg: ValidConfig, s: System, t: Tick)
    requires Enabled(s, t)
    ensures var older := Older(Phase(s));
      Tally(Step(cfg, s, t).history, older) == Tally(s.history, older)
        + if t.event.End? && s.inflight[t.event.id] < Phase(s) then 1 else 0
  {
    hide Next, Tally, Allow;
    TallyNews(cfg, s, t);
  }

  lemma SlotsKept(cfg: ValidConfig, s: System, t: Tick)
    requires Enabled(s, t) && Tagged(s) && Slots(cfg, s)
    ensures Slots(cfg, Step(cfg, s, t))
  {
    hide Step, Tally;
    var s' := Step(cfg, s, t);
    if s'.b.state == HalfOpen {
      StepChanges(cfg, s, t);
      TallyOlder(cfg, s, t);
      if s.b.state != HalfOpen {
        TrialsStart(cfg, s, t);
      } else {
        TrialsMove(cfg, s, t);
        if t.event.End? && t.event.id in Trials(s) {
          assert |Trials(s')| == |Trials(s)| - 1;
        }
      }
    }
  }

  lemma {:induction false} InvHolds(cfg: ValidConfig, s: System, ticks: seq<Tick>)
    requires Inv(cfg, s) && CanRun(cfg, s, ticks)
    ensures Inv(cfg, Run(cfg, s, ticks))
    decreases |ticks|
  {
    if ticks != [] {
      var t := ticks[0];
      TaggedKept(cfg, s, t);
      TimedKept(cfg, s, t);
      WalkKept(cfg, s, t);
      CountedKept(cfg, s, t);
      PacedKept(cfg, s, t);
      TidyKept(cfg, s, t);
      NotDueKept(cfg, s, t);
      ProbingKept(cfg, s, t);
      SlotsKept(cfg, s, t);
      PhasesEndWellKept(cfg, s, t);
      CoolsDownKept(cfg, s, t);
      InvHolds(cfg, Step(cfg, s, t), ticks[1..]);
    }
  }
}
