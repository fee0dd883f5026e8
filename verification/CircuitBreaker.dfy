/**
 The circuit breaker of internal/platform/resilience/breaker.go.

 The module gives the meaning of each critical section as a function on the guarded fields,
 and the `Breaker` class whose methods update those fields in place and are proved against
 the functions. Time is `real`; every reading of the injected clock is a parameter.
 */
module CircuitBreaker {
  import opened Options
  import opened Errors

  datatype State = Closed | Open | HalfOpen

  datatype Config = Config(
    minimumRequests: int,
    failureRatio: real,
    openTimeout: real,
    halfOpenMaxCalls: int,
    halfOpenSuccesses: int,
    window: real
  ) {
    predicate Valid() {
      && minimumRequests > 0
      && 0.0 < failureRatio <= 1.0
      && openTimeout > 0.0
      && halfOpenMaxCalls > 0
      && halfOpenSuccesses > 0
      && window > 0.0
    }

    /** Out-of-range settings are replaced one by one, whatever the others are. */
    function WithDefaults(): (c: Config)
      ensures c.Valid()
      ensures Valid() ==> c == this
      ensures c.minimumRequests == if minimumRequests > 0 then minimumRequests else 20
      ensures c.failureRatio == if 0.0 < failureRatio <= 1.0 then failureRatio else 0.5
      ensures c.openTimeout == if openTimeout > 0.0 then openTimeout else 15.0
      ensures c.halfOpenMaxCalls == if halfOpenMaxCalls > 0 then halfOpenMaxCalls else 3
      ensures c.halfOpenSuccesses == if halfOpenSuccesses > 0 then halfOpenSuccesses else 2
      ensures c.window == if window > 0.0 then window else 30.0
    {
      Config(
        if minimumRequests <= 0 then 20 else minimumRequests,
        if failureRatio <= 0.0 || failureRatio > 1.0 then 0.5 else failureRatio,
        if openTimeout <= 0.0 then 15.0 else openTimeout,
        if halfOpenMaxCalls <= 0 then 3 else halfOpenMaxCalls,
        if halfOpenSuccesses <= 0 then 2 else halfOpenSuccesses,
        if window <= 0.0 then 30.0 else window
      )
    }
  }

  type ValidConfig = c: Config | c.Valid() witness Config(20, 0.5, 15.0, 3, 2, 30.0)

  /** One notification of the OnStateChange callback. */
  datatype Change = Change(from: State, to: State)

  /** The mutex-guarded fields, and the notifications sent so far. */
  datatype Fields = Fields(
    state: State,
    successes: nat,
    failures: nat,
    windowStart: real,
    openedAt: real,
    halfOpenActive: nat,
    halfOpenOK: nat,
    changes: seq<Change>
  )

  /**
   The clock readings one critical section can make, in the order in which it makes them:
   the time test (open timeout or window), the new window start of a roll, the trip time, and
   the window start of a reset. A section that skips a reading ignores it.
   */
  datatype Readings = Readings(test: real, roll: real, trip: real, reset: real) {
    predicate Ordered() { test <= roll <= trip <= reset }
  }

  // ---------------------------------------------------------------- critical sections

  function Fresh(now: real): Fields {
    Fields(Closed, 0, 0, now, 0.0, 0, 0, [])
  }

  function Transition(b: Fields, to: State): Fields {
    if b.state == to then b else b.(state := to, changes := b.changes + [Change(b.state, to)])
  }

  function ResetCounts(b: Fields, now: real): Fields {
    b.(successes := 0, failures := 0, halfOpenActive := 0, halfOpenOK := 0, windowStart := now)
  }

  function Trip(b: Fields, r: Readings): Fields {
    ResetCounts(Transition(b, Open).(openedAt := r.trip), r.reset)
  }

  function MaybeHalfOpen(cfg: ValidConfig, b: Fields, now: real): Fields {
    if b.state == Open && now - b.openedAt >= cfg.openTimeout
    then Transition(b, HalfOpen).(halfOpenActive := 0, halfOpenOK := 0)
    else b
  }

  predicate Rolls(cfg: ValidConfig, b: Fields, r: Readings) {
    r.test - b.windowStart >= cfg.window
  }

  function RollWindow(cfg: ValidConfig, b: Fields, r: Readings): Fields {
    if Rolls(cfg, b, r) then b.(windowStart := r.roll, successes := 0, failures := 0) else b
  }

  /** The trip test: enough outcomes, and a failure share at or above the ratio. */
  predicate ShouldTrip(cfg: ValidConfig, successes: nat, failures: nat) {
    var total := successes + failures;
    total >= cfg.minimumRequests && failures as real / total as real >= cfg.failureRatio
  }

  /** The fields after `allow`, and whether the call was admitted. */
  function Allow(cfg: ValidConfig, b: Fields, r: Readings): (Fields, bool) {
    var b1 := MaybeHalfOpen(cfg, b, r.test);
    match b1.state
    case Open => (b1, false)
    case HalfOpen =>
      if b1.halfOpenActive >= cfg.halfOpenMaxCalls then (b1, false)
      else (b1.(halfOpenActive := b1.halfOpenActive + 1), true)
    case Closed => (RollWindow(cfg, b1, r), true)
  }

  function FreeSlot(b: Fields): Fields {
    if b.halfOpenActive > 0 then b.(halfOpenActive := b.halfOpenActive - 1) else b
  }

  function Release(b: Fields): Fields {
    if b.state == HalfOpen then FreeSlot(b) else b
  }

  function Record(cfg: ValidConfig, b: Fields, ok: bool, r: Readings): Fields {
    match b.state
    case HalfOpen =>
      var b1 := FreeSlot(b);
      if !ok then Trip(b1, r)
      else
        var b2 := b1.(halfOpenOK := b1.halfOpenOK + 1);
        if b2.halfOpenOK >= cfg.halfOpenSuccesses then ResetCounts(Transition(b2, Closed), r.reset) else b2
    case Closed =>
      var b1 := RollWindow(cfg, b, r);
      if ok then b1.(successes := b1.successes + 1)
      else
        var b2 := b1.(failures := b1.failures + 1);
        if ShouldTrip(cfg, b2.successes, b2.failures) then Trip(b2, r) else b2
    case Open => b
  }

  /** How a call ended, as the breaker sees it. */
  datatype Outcome = Success | Failure | Cancelled

  /** An error that is the caller's own context error says nothing about the dependency. */
  function Verdict(err: Option<Err>, ctxErr: Option<Err>): Outcome {
    if err.Some? && ctxErr.Some? && Is(err.value, ctxErr.value) then Cancelled
    else if err.None? then Success
    else Failure
  }

  /** The verdict by the chain of the error: the caller's own context error anywhere in it is no verdict. */
  lemma VerdictMeans(err: Option<Err>, ctxErr: Option<Err>)
    ensures Verdict(err, ctxErr) == Success <==> err.None?
    ensures Verdict(err, ctxErr) == Cancelled
       <==> err.Some? && ctxErr.Some? && ctxErr.value in Chain(err.value)
  {
    if err.Some? && ctxErr.Some? {
      IsMeansInChain(err.value, ctxErr.value);
    }
  }

  /** Leaving the breaker: `release` for a cancelled call, `record` for any other. */
  function Leave(cfg: ValidConfig, b: Fields, outcome: Outcome, r: Readings): Fields {
    if outcome == Cancelled then Release(b) else Record(cfg, b, outcome == Success, r)
  }

  /** A call that ends with its own context's error changes nothing but, at most, the half-open slots in use. */
  lemma OwnErrorIsNotCounted(cfg: ValidConfig, b: Fields, err: Err, ctxErr: Err, r: Readings)
    requires ctxErr in Chain(err)
    ensures var b' := Leave(cfg, b, Verdict(Some(err), Some(ctxErr)), r);
      b'.halfOpenActive <= b.halfOpenActive && b' == b.(halfOpenActive := b'.halfOpenActive)
  {
    VerdictMeans(Some(err), Some(ctxErr));
  }

  /** The failures that make up the ratio among the given number of outcomes. */
  function Quota(cfg: ValidConfig, total: int): real { cfg.failureRatio * total as real }

  lemma QuotaStep(cfg: ValidConfig, total: int)
    ensures Quota(cfg, total + 1) == Quota(cfg, total) + cfg.failureRatio
  {
  }

  /** The trip test without its division. */
  lemma ShouldTripByQuota(cfg: ValidConfig, successes: nat, failures: nat)
    ensures var total := successes + failures;
      ShouldTrip(cfg, successes, failures)
      <==> total >= cfg.minimumRequests && failures as real >= Quota(cfg, total)
  {
    var total := (successes + failures) as real;
    if total > 0.0 {
      QuotientAtLeast(failures as real, total, cfg.failureRatio);
    }
  }

  lemma QuotientAtLeast(x: real, y: real, r: real)
    requires y > 0.0
    ensures x / y >= r <==> x >= r * y
  {
    var q := x / y;
    assert q * y == x;
    assert (q - r) * y == x - r * y;
  }

  /** When everything fails, the trip comes with the MinimumRequests-th failure. */
  lemma AllFailuresTrip(cfg: ValidConfig, failures: nat)
    ensures ShouldTrip(cfg, 0, failures) <==> failures >= cfg.minimumRequests
  {
    hide Quota, ShouldTrip;
    ShouldTripByQuota(cfg, 0, failures);
    AllFailuresReachQuota(cfg, failures);
  }

  lemma {:induction false} AllFailuresReachQuota(cfg: ValidConfig, failures: nat)
    ensures failures as real >= Quota(cfg, failures)
  {
    if failures > 0 {
      AllFailuresReachQuota(cfg, failures - 1);
      QuotaStep(cfg, failures - 1);
    }
  }

  // ---------------------------------------------------------------- the object

  class Breaker {
    const cfg: ValidConfig
    var state: State
    var successes: nat
    var failures: nat
    var windowStart: real
    var openedAt: real
    var halfOpenActive: nat
    var halfOpenOK: nat
    var changes: seq<Change>

    function View(): Fields
      reads this
    {
      Fields(state, successes, failures, windowStart, openedAt, halfOpenActive, halfOpenOK, changes)
    }

    constructor (config: Config, now: real)
      ensures cfg == config.WithDefaults()
      ensures View() == Fresh(now)
    {
      cfg := config.WithDefaults();
      state, successes, failures, windowStart := Closed, 0, 0, now;
      openedAt, halfOpenActive, halfOpenOK, changes := 0.0, 0, 0, [];
    }

    method CurrentState(r: Readings) returns (s: State)
      modifies this
      ensures View() == MaybeHalfOpen(cfg, old(View()), r.test)
      ensures s == View().state
    {
      MaybeHalfOpenLocked(r);
      s := state;
    }

    /**
     One call. `result` and `ctxErr` are what the call and its context report, if it is made, and
     `others` is what other callers do to the fields meanwhile, when the lock is free.
     */
    method Do(result: Option<Err>, ctxErr: Option<Err>, others: Fields -> Fields, enter: Readings, leave: Readings)
      returns (err: Option<Err>, called: bool)
      modifies this
      ensures called == Allow(cfg, old(View()), enter).1
      ensures err == if called then result else Some(BreakerOpen)
      ensures var b := Allow(cfg, old(View()), enter).0;
        View() == if called then Leave(cfg, others(b), Verdict(result, ctxErr), leave) else b
    {
      called := AllowCall(enter);
      if !called {
        return Some(BreakerOpen), false;
      }
      Interleave(others(View()));
      err := result;
      if err.Some? && ctxErr.Some? && Is(err.value, ctxErr.value) {
        ReleaseCall();
        return;
      }
      RecordCall(err.None?, leave);
    }

    /**
     Stands for whatever other callers do while the lock is free, and for nothing in the source: the
     fields as they leave them.
     */
    method Interleave(b: Fields)
      modifies this
      ensures View() == b
    {
      state, successes, failures, windowStart := b.state, b.successes, b.failures, b.windowStart;
      openedAt, halfOpenActive, halfOpenOK, changes := b.openedAt, b.halfOpenActive, b.halfOpenOK, b.changes;
    }

    method AllowCall(r: Readings) returns (admitted: bool)
      modifies this
      ensures (View(), admitted) == Allow(cfg, old(View()), r)
    {
      MaybeHalfOpenLocked(r);
      match state {
        case Open =>
          admitted := false;
        case HalfOpen =>
          if halfOpenActive >= cfg.halfOpenMaxCalls {
            return false;
          }
          halfOpenActive := halfOpenActive + 1;
          admitted := true;
        case Closed =>
          RollWindowLocked(r);
          admitted := true;
      }
    }

    method ReleaseCall()
      modifies this
      ensures View() == Release(old(View()))
    {
      if state == HalfOpen && halfOpenActive > 0 {
        halfOpenActive := halfOpenActive - 1;
      }
    }

    method RecordCall(ok: bool, r: Readings)
      modifies this
      ensures View() == Record(cfg, old(View()), ok, r)
    {
      match state {
        case HalfOpen =>
          if halfOpenActive > 0 {
            halfOpenActive := halfOpenActive - 1;
          }
          if !ok {
            OpenLocked(r);
            return;
          }
          halfOpenOK := halfOpenOK + 1;
          if halfOpenOK >= cfg.halfOpenSuccesses {
            TransitionLocked(Closed);
            ResetCountsLocked(r.reset);
          }
        case Closed =>
          RollWindowLocked(r);
          if ok {
            successes := successes + 1;
            return;
          }
          failures := failures + 1;
          var total := successes + failures;
          if total >= cfg.minimumRequests && failures as real / total as real >= cfg.failureRatio {
            OpenLocked(r);
          }
        case Open =>
      }
    }

    method OpenLocked(r: Readings)
      modifies this
      ensures View() == Trip(old(View()), r)
    {
      TransitionLocked(Open);
      openedAt := r.trip;
      ResetCountsLocked(r.reset);
    }

    method MaybeHalfOpenLocked(r: Readings)
      modifies this
      ensures View() == MaybeHalfOpen(cfg, old(View()), r.test)
    {
      if state == Open && r.test - openedAt >= cfg.openTimeout {
        TransitionLocked(HalfOpen);
        halfOpenActive := 0;
        halfOpenOK := 0;
      }
    }

    method RollWindowLocked(r: Readings)
      modifies this
      ensures View() == RollWindow(cfg, old(View()), r)
    {
      if r.test - windowStart >= cfg.window {
        windowStart := r.roll;
        successes := 0;
        failures := 0;
      }
    }

    method ResetCountsLocked(now: real)
      modifies this
      ensures View() == ResetCounts(old(View()), now)
    {
      successes := 0;
      failures := 0;
      halfOpenActive := 0;
      halfOpenOK := 0;
      windowStart := now;
    }

    method TransitionLocked(to: State)
      modifies this
      ensures View() == Transition(old(View()), to)
    {
      if state == to {
        return;
      }
      var from := state;
      state := to;
      changes := changes + [Change(from, to)];
    }
  }
}
