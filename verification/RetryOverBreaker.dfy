/** The retry loop and the circuit breaker together: how often a sick dependency is reached. */
module RetryOverBreaker {
  import opened Options
  import opened Errors
  import opened CircuitBreaker
  import opened Upstream
  import Backoff
  import Retry

  /** The clock readings attempt n makes on entering and on leaving the breaker. */
  type Clock = nat -> (Readings, Readings)

  /** What other callers do to the breaker while attempt n is at work. */
  type Others = (nat, Fields) -> Fields

  function BreakerGate(cfg: ValidConfig, clock: Clock, others: Others): Gate<Fields> {
    Gate((b: Fields, n: nat) => Allow(cfg, b, clock(n).0),
         (b: Fields, n: nat, o: Outcome) => Leave(cfg, others(n, b), o, clock(n).1))
  }

  /** One attempt on the breaker object does to its fields what the closure does to the gate. */
  method OnceOn(breaker: Breaker, clock: Clock, others: Others, script: Script, n: nat, ghost c: Client<Fields>)
    returns (err: Option<Err>)
    requires c.gate == breaker.View()
    modifies breaker
    ensures var (c', e) := Once(BreakerGate(breaker.cfg, clock, others), script, c, n);
      breaker.View() == c'.gate && err == e
  {
    var result := ErrorOf(Attempt(script.exchange(n)));
    var called;
    err, called := breaker.Do(result, script.ctxErr(n), (b: Fields) => others(n, b), clock(n).0, clock(n).1);
  }

  /** The breaker of this client alone, keeping its record. */
  function PrivateGate(cfg: ValidConfig, clock: Clock): Gate<Recorded<Fields>> {
    Recording(BreakerGate(cfg, clock, (n: nat, b: Fields) => b))
  }

  // ---------------------------------------------------------------- the situation

  /** The caller never gives up: no cancellation, no deadline. */
  ghost predicate Patient(world: Retry.World) {
    forall n :: && world(n).ctxBefore.None? && world(n).ctxAfter.None?
                && world(n).untilDeadline.None? && world(n).sleepErr.None?
  }

  /** Every exchange fails, in a way that retrying might mend. */
  ghost predicate Sick(script: Script) {
    forall n :: script.ctxErr(n).None? && FailsAt(script, n)
  }

  ghost predicate FailsAt(script: Script, n: nat) {
    match script.exchange(n)
    case Replied(status, _) => !Acceptable(status)
    case BadURL(_) => false
    case TransportError(e) => AsPermanent(e).None? && !Is(e, BreakerOpen)
    case BodyError(e) => AsPermanent(e).None? && !Is(e, BreakerOpen)
  }

  lemma SickError(script: Script, n: nat)
    requires FailsAt(script, n)
    ensures var err := ErrorOf(Attempt(script.exchange(n)));
      err.Some? && AsPermanent(err.value).None? && !Is(err.value, BreakerOpen)
  {
  }

  /** The whole run happens within one window and before the open timeout. */
  ghost predicate Brief(cfg: ValidConfig, clock: Clock, start: real) {
    forall n :: During(cfg, clock(n).0, start) && During(cfg, clock(n).1, start)
  }

  ghost predicate During(cfg: ValidConfig, r: Readings, start: real) {
    r.Ordered() && start <= r.test && r.reset < start + cfg.window && r.reset < start + cfg.openTimeout
  }

  /** What attempt n is told: the dependency's error while the breaker counts, then that it is open. */
  function Told(cfg: ValidConfig, script: Script, n: nat): Option<Err> {
    if n > cfg.minimumRequests then Some(BreakerOpen) else ErrorOf(Attempt(script.exchange(n)))
  }

  function Reached(ps: seq<Passage>): nat {
    if ps == [] then 0 else Reached(ps[..|ps| - 1]) + if ps[|ps| - 1].Entered? then 1 else 0
  }

  lemma ReachedAppend(ps: seq<Passage>, p: Passage)
    ensures Reached(ps + [p]) == Reached(ps) + if p.Entered? then 1 else 0
  {
    assert (ps + [p])[..|ps|] == ps;
  }

  function Min(a: int, b: int): int { if a <= b then a else b }

  /** The breaker after k attempts: counting failures until the minimum is met, then open. */
  ghost predicate AfterFailures(cfg: ValidConfig, start: real, k: nat, b: Fields) {
    if k < cfg.minimumRequests
    then b.state == Closed && b.successes == 0 && b.failures == k && b.windowStart == start
    else b.state == Open && b.openedAt >= start
  }

  ghost predicate Spared(cfg: ValidConfig, start: real, k: nat, c: Client<Recorded<Fields>>) {
    AfterFailures(cfg, start, k, c.gate.inner) && Reached(c.gate.log) == Min(k, cfg.minimumRequests)
  }

  lemma FailAgain(cfg: ValidConfig, b: Fields, enter: Readings, leave: Readings, start: real, n: nat)
    requires n > 0 && During(cfg, enter, start) && During(cfg, leave, start)
    requires AfterFailures(cfg, start, n - 1, b)
    ensures var (b', admitted) := Allow(cfg, b, enter);
      && (admitted <==> n <= cfg.minimumRequests)
      && AfterFailures(cfg, start, n, if admitted then Leave(cfg, b', Failure, leave) else b')
  {
    hide ShouldTrip;
    AllFailuresTrip(cfg, n);
  }

  lemma OneMoreFailure(cfg: ValidConfig, clock: Clock, script: Script, start: real, n: nat, c: Client<Recorded<Fields>>)
    requires n > 0 && Brief(cfg, clock, start) && Sick(script)
    requires Spared(cfg, start, n - 1, c)
    ensures var (c', err) := Once(PrivateGate(cfg, clock), script, c, n);
      && Spared(cfg, start, n, c')
      && err == Told(cfg, script, n)
  {
    hide Attempt, Allow, Leave, AfterFailures, Reached;
    assert During(cfg, clock(n).0, start) && During(cfg, clock(n).1, start);
    assert script.ctxErr(n).None? && FailsAt(script, n);
    SickError(script, n);
    FailAgain(cfg, c.gate.inner, clock(n).0, clock(n).1, start, n);
    var (c', err) := Once(PrivateGate(cfg, clock), script, c, n);
    if n <= cfg.minimumRequests {
      assert c'.gate.log == c.gate.log + [Entered(n)] + [Left(n, Failure)];
      ReachedAppend(c.gate.log, Entered(n));
      ReachedAppend(c.gate.log + [Entered(n)], Left(n, Failure));
    } else {
      ReachedAppend(c.gate.log, Refused(n));
    }
  }

  lemma {:induction false} FailuresSoFar(cfg: ValidConfig, clock: Clock, script: Script, start: real, k: nat)
    requires Brief(cfg, clock, start) && Sick(script)
    ensures var fn := Closure(PrivateGate(cfg, clock), script); var c := Start(Fresh(start));
      && Spared(cfg, start, k, Retry.StateAfter(fn, c, k))
      && (k > 0 ==> Retry.ResultOf(fn, c, k) == Told(cfg, script, k))
  {
    hide Once, Attempt, Told;
    if k > 0 {
      FailuresSoFar(cfg, clock, script, start, k - 1);
      var fn, c := Closure(PrivateGate(cfg, clock), script), Start(Fresh(start));
      OneMoreFailure(cfg, clock, script, start, k, Retry.StateAfter(fn, c, k - 1));
    }
  }

  /**
   Retries do not hammer a dependency the breaker has given up on. With a fresh breaker, a dependency
   that always fails and a patient caller, all MaxAttempts attempts are made, but only the first
   MinimumRequests of them reach the dependency; the caller is told that the breaker is open exactly
   when MaxAttempts is greater.
   */
  lemma SickDependencyIsSpared(cfg: ValidConfig, retry: Backoff.ValidConfig, world: Retry.World, clock: Clock,
                               script: Script, start: real, run: Retry.Outcome<Client<Recorded<Fields>>>)
    requires Patient(world) && Sick(script) && Brief(cfg, clock, start)
    requires Retry.IsRun(retry, world, Closure(PrivateGate(cfg, clock), script), Start(Fresh(start)), run)
    ensures |run.results| == retry.maxAttempts
    ensures Reached(run.state.gate.log) == Min(retry.maxAttempts, cfg.minimumRequests)
    ensures run.err.Some?
    ensures Is(run.err.value, BreakerOpen) <==> retry.maxAttempts > cfg.minimumRequests
  {
    hide Attempt, Backoff.DelayFor;
    var fn, c := Closure(PrivateGate(cfg, clock), script), Start(Fresh(start));
    var k := |run.results|;
    Retry.RunContract(retry, world, fn, c, run);
    FailuresSoFar(cfg, clock, script, start, k);
    assert world(1).ctxBefore.None?;
    assert FailsAt(script, k);
    SickError(script, k);
    assert Retry.Retryable(Retry.ResultOf(fn, c, k));
    assert world(k).ctxAfter.None? && world(k + 1).ctxBefore.None?;
    assert !Retry.Continues(retry, world, fn, c, k);
  }
}
