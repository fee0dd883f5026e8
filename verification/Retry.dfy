/** The bounded retry loop of internal/platform/resilience/retry.go. */
module Retry {
  import opened Options
  import opened Errors
  import opened Backoff

  /**
   What surrounds one attempt: the context error before the call and after it, the time left until
   the deadline if there is one, the random number, and what the sleep returns.
   */
  datatype Round = Round(
    ctxBefore: Option<Err>,
    ctxAfter: Option<Err>,
    untilDeadline: Option<real>,
    rand: real,
    sleepErr: Option<Err>
  )

  type World = nat -> Round

  /** The retried call, with the state it changes made explicit. */
  type Call<!S> = (S, nat) -> (S, Option<Err>)

  /** The error returned, the state left, the result of each call, and each sleep started. */
  datatype Outcome<S> = Outcome(err: Option<Err>, state: S, results: seq<Option<Err>>, sleeps: seq<real>)

  // ---------------------------------------------------------------- what a run must be

  function StateAfter<S>(fn: Call<S>, start: S, k: nat): S {
    if k == 0 then start else fn(StateAfter(fn, start, k - 1), k).0
  }

  /** The result of the k-th call. */
  function ResultOf<S>(fn: Call<S>, start: S, k: nat): Option<Err>
    requires k > 0
  {
    fn(StateAfter(fn, start, k - 1), k).1
  }

  predicate Retryable(result: Option<Err>) {
    result.Some? && AsPermanent(result.value).None?
  }

  /** Attempt n is followed by a sleep, which ends before the deadline. */
  predicate Sleeps<S>(cfg: ValidConfig, world: World, fn: Call<S>, start: S, n: nat)
    requires n > 0
  {
    && Retryable(ResultOf(fn, start, n)) && n < cfg.maxAttempts && world(n).ctxAfter.None?
    && (world(n).untilDeadline.Some? ==> DelayFor(cfg, n, world(n).rand) < world(n).untilDeadline.value)
  }

  /** Attempt n is followed by another one. */
  predicate Continues<S>(cfg: ValidConfig, world: World, fn: Call<S>, start: S, n: nat)
    requires n > 0
  {
    Sleeps(cfg, world, fn, start, n) && world(n).sleepErr.None? && world(n + 1).ctxBefore.None?
  }

  /** What the caller is told: the last error, with a Permanent marker taken off. */
  function Report(result: Option<Err>): Option<Err> {
    if result.Some? && AsPermanent(result.value).Some? then AsPermanent(result.value) else result
  }

  /** The calls are the attempts 1, 2, ... in turn, made as long as each continues, and no longer. */
  ghost predicate IsRun<S>(cfg: ValidConfig, world: World, fn: Call<S>, start: S, out: Outcome<S>) {
    var k := |out.results|;
    && out.state == StateAfter(fn, start, k)
    && (forall i | 0 <= i < k :: out.results[i] == ResultOf(fn, start, i + 1))
    && (forall i | 0 <= i < |out.sleeps| :: out.sleeps[i] == DelayFor(cfg, i + 1, world(i + 1).rand))
    && if world(1).ctxBefore.Some? then k == 0 && out.sleeps == [] && out.err == world(1).ctxBefore
       else
         && k > 0
         && (forall n | 0 < n < k :: Continues(cfg, world, fn, start, n))
         && !Continues(cfg, world, fn, start, k)
         && |out.sleeps| == (if Sleeps(cfg, world, fn, start, k) then k else k - 1)
         && out.err == Report(ResultOf(fn, start, k))
  }

  // ---------------------------------------------------------------- the loop

  /** k calls have been made and each but the last one continued; `sleeps` holds the first of their delays. */
  ghost predicate Called<S>(cfg: ValidConfig, world: World, fn: Call<S>, start: S, k: nat, state: S,
                            results: seq<Option<Err>>, sleeps: seq<real>)
  {
    && |results| == k && state == StateAfter(fn, start, k)
    && (forall i | 0 <= i < k :: results[i] == ResultOf(fn, start, i + 1))
    && (forall i | 0 <= i < |sleeps| :: sleeps[i] == DelayFor(cfg, i + 1, world(i + 1).rand))
    && (k > 0 ==> world(1).ctxBefore.None?)
    && (forall n | 0 < n < k :: Continues(cfg, world, fn, start, n))
  }

  /** Called, and the last sleep is over. */
  ghost predicate Rested<S>(cfg: ValidConfig, world: World, fn: Call<S>, start: S, k: nat, state: S,
                            results: seq<Option<Err>>, sleeps: seq<real>)
  {
    && Called(cfg, world, fn, start, k, state, results, sleeps) && |sleeps| == k
    && (k > 0 ==> Sleeps(cfg, world, fn, start, k) && world(k).sleepErr.None?)
  }

  lemma CallOnce<S>(cfg: ValidConfig, world: World, fn: Call<S>, start: S, k: nat, state: S,
                    results: seq<Option<Err>>, sleeps: seq<real>)
    requires Rested(cfg, world, fn, start, k, state, results, sleeps) && world(k + 1).ctxBefore.None?
    ensures Called(cfg, world, fn, start, k + 1, fn(state, k + 1).0, results + [fn(state, k + 1).1], sleeps)
    ensures fn(state, k + 1).1 == ResultOf(fn, start, k + 1)
  {
    hide DelayFor;
  }

  /** The delay after the last call is slept. */
  lemma SleepOnce<S>(cfg: ValidConfig, world: World, fn: Call<S>, start: S, k: nat, state: S,
                     results: seq<Option<Err>>, sleeps: seq<real>)
    requires k > 0 && Called(cfg, world, fn, start, k, state, results, sleeps) && |sleeps| == k - 1
    requires Sleeps(cfg, world, fn, start, k)
    ensures var slept := sleeps + [DelayFor(cfg, k, world(k).rand)];
      && Called(cfg, world, fn, start, k, state, results, slept)
      && (world(k).sleepErr.None? ==> Rested(cfg, world, fn, start, k, state, results, slept))
  {
    hide DelayFor, ResultOf, StateAfter;
  }

  /** A run ends after a call that does not continue. */
  lemma EndAfter<S>(cfg: ValidConfig, world: World, fn: Call<S>, start: S, k: nat, state: S,
                    results: seq<Option<Err>>, sleeps: seq<real>)
    requires k > 0 && Called(cfg, world, fn, start, k, state, results, sleeps)
    requires !Continues(cfg, world, fn, start, k)
    requires |sleeps| == if Sleeps(cfg, world, fn, start, k) then k else k - 1
    ensures IsRun(cfg, world, fn, start, Outcome(Report(ResultOf(fn, start, k)), state, results, sleeps))
  {
    hide DelayFor, ResultOf, StateAfter, Sleeps, Continues;
  }

  method Run<S>(config: Config, world: World, fn: Call<S>, start: S) returns (out: Outcome<S>)
    ensures IsRun(config.WithDefaults(), world, fn, start, out)
  {
    hide DelayFor, ResultOf, StateAfter, Called, IsRun;
    var cfg := config.WithDefaults();
    var lastErr: Option<Err> := None;
    var state, results, sleeps := start, [], [];
    NothingCalled(cfg, world, fn, start);
    var attempt := 1;
    while attempt <= cfg.maxAttempts
      invariant 1 <= attempt <= cfg.maxAttempts
      invariant Rested(cfg, world, fn, start, attempt - 1, state, results, sleeps)
      invariant lastErr == if attempt == 1 then None else ResultOf(fn, start, attempt - 1)
      decreases cfg.maxAttempts - attempt
    {
      if world(attempt).ctxBefore.Some? {
        if lastErr.Some? {
          EndAfter(cfg, world, fn, start, attempt - 1, state, results, sleeps);
          return Outcome(lastErr, state, results, sleeps);
        }
        NothingIsRun(cfg, world, fn, start, state, results, sleeps);
        return Outcome(world(attempt).ctxBefore, state, results, sleeps);
      }
      CallOnce(cfg, world, fn, start, attempt - 1, state, results, sleeps);
      var (next, err) := fn(state, attempt);
      state, results := next, results + [err];
      if err.None? {
        EndAfter(cfg, world, fn, start, attempt, state, results, sleeps);
        return Outcome(None, state, results, sleeps);
      }
      lastErr := err;
      var permanent := AsPermanent(err.value);
      if permanent.Some? {
        EndAfter(cfg, world, fn, start, attempt, state, results, sleeps);
        return Outcome(permanent, state, results, sleeps);
      }
      if attempt == cfg.maxAttempts {
        EndAfter(cfg, world, fn, start, attempt, state, results, sleeps);
        break;
      }
      if world(attempt).ctxAfter.Some? {
        EndAfter(cfg, world, fn, start, attempt, state, results, sleeps);
        break;
      }
      var delay := DelayFor(cfg, attempt, world(attempt).rand);
      if world(attempt).untilDeadline.Some? && world(attempt).untilDeadline.value <= delay {
        EndAfter(cfg, world, fn, start, attempt, state, results, sleeps);
        break;
      }
      SleepOnce(cfg, world, fn, start, attempt, state, results, sleeps);
      sleeps := sleeps + [delay];
      if world(attempt).sleepErr.Some? {
        EndAfter(cfg, world, fn, start, attempt, state, results, sleeps);
        return Outcome(lastErr, state, results, sleeps);
      }
      attempt := attempt + 1;
    }
    return Outcome(lastErr, state, results, sleeps);
  }

  lemma NothingCalled<S>(cfg: ValidConfig, world: World, fn: Call<S>, start: S)
    ensures Rested(cfg, world, fn, start, 0, start, [], [])
  {
  }

  lemma NothingIsRun<S>(cfg: ValidConfig, world: World, fn: Call<S>, start: S, state: S, results: seq<Option<Err>>,
                        sleeps: seq<real>)
    requires Rested(cfg, world, fn, start, 0, state, results, sleeps) && world(1).ctxBefore.Some?
    ensures IsRun(cfg, world, fn, start, Outcome(world(1).ctxBefore, state, results, sleeps))
  {
  }

  // ---------------------------------------------------------------- what every run promises

  /**
   The run contract: attempts 1..k with k at most MaxAttempts, k or k - 1 sleeps, none of which would
   reach the deadline; nil exactly when the last call succeeded, otherwise that call's error, and the
   context's own error only when nothing was called.
   */
  lemma RunContract<S>(cfg: ValidConfig, world: World, fn: Call<S>, start: S, out: Outcome<S>)
    requires IsRun(cfg, world, fn, start, out)
    ensures var k := |out.results|;
      && k <= cfg.maxAttempts
      && (|out.sleeps| == k || |out.sleeps| == k - 1)
      && (forall i | 0 <= i < |out.sleeps| ::
            world(i + 1).untilDeadline.Some? ==> out.sleeps[i] < world(i + 1).untilDeadline.value)
      && (out.err.None? <==> k > 0 && out.results[k - 1].None?)
      && (k == 0 ==> out.err == world(1).ctxBefore && out.err.Some?)
      && (k > 0 && out.err.Some? ==>
            exists e :: && out.results[k - 1] == Some(e)
                        && out.err.value == (if AsPermanent(e).Some? then AsPermanent(e).value else e))
  {
    hide DelayFor;
    var k := |out.results|;
    if k > 1 {
      assert Continues(cfg, world, fn, start, k - 1);
    }
    forall i | 0 <= i < |out.sleeps|
      ensures world(i + 1).untilDeadline.Some? ==> out.sleeps[i] < world(i + 1).untilDeadline.value
    {
      if i + 1 < k {
        assert Continues(cfg, world, fn, start, i + 1);
      }
      assert Sleeps(cfg, world, fn, start, i + 1);
    }
  }

  /** What has to hold after attempt n with the given result for another attempt to be made. */
  ghost predicate GoesOn(cfg: ValidConfig, world: World, result: Option<Err>, n: nat)
    requires n > 0
  {
    && result.Some? && NoPermanent(result.value)
    && n < cfg.maxAttempts && world(n).ctxAfter.None?
    && (world(n).untilDeadline.Some? ==> DelayFor(cfg, n, world(n).rand) < world(n).untilDeadline.value)
    && world(n).sleepErr.None? && world(n + 1).ctxBefore.None?
  }

  /** Another attempt is made exactly when everything allows it. */
  lemma StopsOnlyForAReason<S>(cfg: ValidConfig, world: World, fn: Call<S>, start: S, out: Outcome<S>, n: nat)
    requires IsRun(cfg, world, fn, start, out) && 0 < n <= |out.results|
    ensures GoesOn(cfg, world, out.results[n - 1], n) <==> n < |out.results|
  {
    hide DelayFor, AsPermanent, NoPermanent;
    var result := out.results[n - 1];
    assert result == ResultOf(fn, start, n);
    assert n < |out.results| <==> Continues(cfg, world, fn, start, n);
    if result.Some? {
      var i := AsPermanentMeansOutermost(result.value);
    }
  }

  /** A Permanent anywhere in its chain makes an error the last one, and the error it carries is reported. */
  lemma PermanentEndsTheRun<S>(cfg: ValidConfig, world: World, fn: Call<S>, start: S, out: Outcome<S>, n: nat, i: nat,
                               carried: Err)
    requires IsRun(cfg, world, fn, start, out) && 0 < n <= |out.results| && out.results[n - 1].Some?
    requires OutermostPermanent(Chain(out.results[n - 1].value), i, carried)
    ensures n == |out.results| && out.err == Some(carried)
  {
    hide DelayFor, AsPermanent;
    var e := out.results[n - 1].value;
    assert out.results[n - 1] == ResultOf(fn, start, n);
    var j := AsPermanentMeansOutermost(e);
    assert Chain(e)[i].Permanent?;
    assert i == j;
    assert n < |out.results| ==> Continues(cfg, world, fn, start, n);
  }

  /** The call is made with the attempts 1, 2, 3, ..., whatever it answers. */
  lemma AttemptsAreNumbered(cfg: ValidConfig, world: World, answer: nat -> Option<Err>, out: Outcome<seq<nat>>)
    requires IsRun(cfg, world, (s: seq<nat>, n: nat) => (s + [n], answer(n)), [], out)
    ensures out.state == seq(|out.results|, i => i + 1)
    ensures forall i | 0 <= i < |out.results| :: out.results[i] == answer(i + 1)
  {
    NumberedSoFar(answer, |out.results|);
  }

  lemma {:induction false} NumberedSoFar(answer: nat -> Option<Err>, k: nat)
    ensures StateAfter((s: seq<nat>, n: nat) => (s + [n], answer(n)), [], k) == seq(k, i => i + 1)
  {
    if k > 0 {
      NumberedSoFar(answer, k - 1);
    }
  }

  /** The contract fixes the run: there is only one. */
  lemma RunIsUnique<S>(cfg: ValidConfig, world: World, fn: Call<S>, start: S, a: Outcome<S>, b: Outcome<S>)
    requires IsRun(cfg, world, fn, start, a) && IsRun(cfg, world, fn, start, b)
    ensures a == b
  {
    hide DelayFor, Sleeps, Continues;
    assert |a.results| == |b.results|;
    assert a.results == b.results;
    assert a.sleeps == b.sleeps;
  }

  /** The time a run sleeps, by its number of sleeps. */
  lemma SleepTime<S>(cfg: ValidConfig, world: World, fn: Call<S>, start: S, out: Outcome<S>, k: nat)
    requires IsRun(cfg, world, fn, start, out) && k <= |out.sleeps|
    requires forall n :: Random(world(n).rand)
    ensures Sum(out.sleeps[..k]) <= Stretch(cfg, Doubled(cfg, k))
    ensures Sum(out.sleeps[..k]) <= Stretch(cfg, Backoff.Capped(cfg, k))
  {
    var rand := (n: nat) => world(n).rand;
    SumIsTotal(cfg, world, rand, out.sleeps, k);
    TotalDelayBound(cfg, rand, k);
  }

  function Sum(s: seq<real>): real {
    if s == [] then 0.0 else Sum(s[..|s| - 1]) + s[|s| - 1]
  }

  lemma {:induction false} SumIsTotal(cfg: ValidConfig, world: World, rand: nat -> real, sleeps: seq<real>, k: nat)
    requires k <= |sleeps| && forall n :: rand(n) == world(n).rand
    requires forall i | 0 <= i < |sleeps| :: sleeps[i] == DelayFor(cfg, i + 1, world(i + 1).rand)
    ensures Sum(sleeps[..k]) == TotalDelay(cfg, rand, k)
  {
    hide DelayFor;
    if k > 0 {
      assert sleeps[..k][..k - 1] == sleeps[..k - 1];
      assert sleeps[..k][k - 1] == sleeps[k - 1];
      SumIsTotal(cfg, world, rand, sleeps, k - 1);
    }
  }
}
