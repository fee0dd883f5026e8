/** Further laws of one token bucket: bounds under unordered clocks, waiting times, the header. */
module TokenBucketLaws {
  import opened Options
  import opened TokenBucket
  import opened Sequences

  // ---------------------------------------------------------------- clock readings in any order

  /** Requests on one bucket with the given clock readings: the bucket left, and how many were admitted. */
  function Drain(cfg: ValidConfig, b: Bucket, times: seq<real>): (Bucket, nat)
    decreases |times|
  {
    if times == [] then (b, 0)
    else
      var (b1, a) := Request(cfg, Some(b), times[0]);
      var (b2, n) := Drain(cfg, b1, times[1..]);
      (b2, n + if a.ok then 1 else 0)
  }

  /** Tokens, less what the clock has handed out so far: admissions are paid for by its fall. */
  function Credit(cfg: ValidConfig, b: Bucket): real { b.tokens - Gain(cfg, b.last) }

  lemma RequestPotential(cfg: ValidConfig, b: Bucket, now: real)
    requires 0.0 <= b.tokens <= cfg.burst as real
    ensures var (b', a) := Request(cfg, Some(b), now);
      && 0.0 <= b'.tokens <= cfg.burst as real
      && (if a.ok then 1.0 else 0.0) + Credit(cfg, b') <= Credit(cfg, b)
  {
    hide Gain;
    GainAdds(cfg, now - b.last, b.last);
    GainSign(cfg, now - b.last);
  }

  /** `b.last` follows the highest reading. */
  lemma {:induction false} DrainLast(cfg: ValidConfig, b: Bucket, times: seq<real>)
    ensures var end := Drain(cfg, b, times).0;
      && end.last >= b.last && (end.last == b.last || end.last in times)
      && (forall i | 0 <= i < |times| :: times[i] <= end.last)
    decreases |times|
  {
    if times != [] {
      var b1 := Request(cfg, Some(b), times[0]).0;
      DrainLast(cfg, b1, times[1..]);
      var end := Drain(cfg, b1, times[1..]).0;
      forall i | 0 <= i < |times|
        ensures times[i] <= end.last
      {
        if i > 0 {
          assert times[i] == times[1..][i - 1];
        }
      }
    }
  }

  lemma {:induction false} DrainPotential(cfg: ValidConfig, b: Bucket, times: seq<real>)
    requires 0.0 <= b.tokens <= cfg.burst as real
    ensures var (end, admitted) := Drain(cfg, b, times);
      && 0.0 <= end.tokens <= cfg.burst as real
      && admitted as real + Credit(cfg, end) <= Credit(cfg, b)
    decreases |times|
  {
    if times != [] {
      var (b1, a) := Request(cfg, Some(b), times[0]);
      RequestPotential(cfg, b, times[0]);
      DrainPotential(cfg, b1, times[1..]);
    }
  }

  /**
   `now` is read before the lock is taken, so readings can reach the bucket in any order. Even so the
   requests admitted on one bucket never exceed the burst plus the rate times the advance of the
   highest reading seen, and the tokens stay between zero and the burst.
   */
  lemma RateBoundInAnyOrder(cfg: ValidConfig, b: Bucket, times: seq<real>)
    requires 0.0 <= b.tokens <= cfg.burst as real
    ensures var (end, admitted) := Drain(cfg, b, times);
      && 0.0 <= end.tokens <= cfg.burst as real
      && admitted as real <= cfg.burst as real + Gain(cfg, end.last - b.last)
      && end.last >= b.last && (end.last == b.last || end.last in times)
      && (forall i | 0 <= i < |times| :: times[i] <= end.last)
  {
    hide Gain, Drain;
    DrainLast(cfg, b, times);
    DrainPotential(cfg, b, times);
    var end := Drain(cfg, b, times).0;
    GainAdds(cfg, end.last - b.last, b.last);
  }

  /** Whatever the order, a bucket remembers its highest and its latest reading. */
  lemma {:induction false} LastIsHighest(cfg: ValidConfig, times: seq<real>)
    requires times != []
    ensures Serve(cfg, times).Some?
    ensures var b := Serve(cfg, times).value;
      && b.seen == times[|times| - 1] && b.last in times
      && (forall i | 0 <= i < |times| :: times[i] <= b.last)
      && 0.0 <= b.tokens <= cfg.burst as real
  {
    hide Gain;
    var j := |times| - 1;
    if j > 0 {
      LastIsHighest(cfg, times[..j]);
      GainSign(cfg, times[j] - Serve(cfg, times[..j]).value.last);
    }
  }

  // ---------------------------------------------------------------- how long to wait

  /** A token will have arrived at time `at`, and not before. */
  predicate DueAt(cfg: ValidConfig, b: Bucket, at: real) {
    b.tokens < 1.0 && Gain(cfg, at - b.last) == 1.0 - b.tokens
  }

  lemma WaitStep(cfg: ValidConfig, b: Bucket, at: real, now: real)
    requires cfg.burst >= 1 && DueAt(cfg, b, at) && b.last <= now
    ensures var (b', a) := Request(cfg, Some(b), now);
      if now < at then !a.ok && DueAt(cfg, b', at) && b'.last == now else a.ok
  {
    hide Gain;
    GainAdds(cfg, now - b.last, at - now);
    GainSign(cfg, at - now);
    GainSign(cfg, now - b.last);
    if b.tokens <= cfg.burst as real {
      ArriveCaps(cfg, b, now);
    }
  }

  lemma DeniedIsDue(cfg: ValidConfig, times: seq<real>)
    requires Ordered(times) && times != [] && !Reply(cfg, times).ok
    ensures DueAt(cfg, Serve(cfg, times).value, times[|times| - 1] + Reply(cfg, times).retryAfter)
    ensures Reply(cfg, times).retryAfter > 0.0
  {
    LastIsLatest(cfg, times);
    DueAfter(cfg, Serve(cfg, times).value, Reply(cfg, times).retryAfter);
  }

  /** There is nothing to wait for exactly when the request is admitted. */
  lemma WaitMeansDenied(cfg: ValidConfig, known: Option<Bucket>, now: real)
    ensures var a := Request(cfg, known, now).1;
      a.retryAfter >= 0.0 && (a.ok <==> a.retryAfter == 0.0)
  {
    hide Gain, Delay;
    DelayInvertsGain(cfg, 1.0 - Arrive(cfg, known, now).tokens);
  }

  lemma DueAfter(cfg: ValidConfig, b: Bucket, wait: real)
    requires b.tokens < 1.0 && wait == Delay(cfg, 1.0 - b.tokens)
    ensures DueAt(cfg, b, b.last + wait) && wait > 0.0
  {
    hide Gain, Delay;
    DelayInvertsGain(cfg, 1.0 - b.tokens);
    assert b.last + wait - b.last == wait;
  }

  lemma {:induction false} StillDue(cfg: ValidConfig, times: seq<real>, more: seq<real>, at: real)
    requires cfg.burst >= 1 && times != [] && Ordered(times + more)
    requires DueAt(cfg, Serve(cfg, times).value, at)
    requires forall i | 0 <= i < |more| :: more[i] < at
    ensures DueAt(cfg, Serve(cfg, times + more).value, at)
    ensures forall n | 0 < n <= |more| :: !Reply(cfg, times + more[..n]).ok
  {
    hide Gain, Delay, Arrive, Take, DueAt;
    if more == [] {
      assert times + more == times;
    } else {
      var j := |more| - 1;
      var init := times + more[..j];
      assert (times + more)[..|times| + j] == init;
      assert Ordered(init) by {
        assert forall i | 0 <= i < |init| :: init[i] == (times + more)[i];
      }
      StillDue(cfg, times, more[..j], at);
      LastIsLatest(cfg, init);
      assert init[|init| - 1] == (times + more)[|init| - 1] <= (times + more)[|init|] == more[j];
      WaitStep(cfg, Serve(cfg, init).value, at, more[j]);
      assert more[..j + 1] == more;
      forall n | 0 < n <= |more|
        ensures !Reply(cfg, times + more[..n]).ok
      {
        if n <= j {
          assert more[..j][..n] == more[..n];
        }
      }
    }
  }

  /**
   The waiting time is tight. After a denial at t with wait d, every request before t + d is denied,
   and the first one at or after t + d is admitted, however many were denied in between; unless the
   burst is zero, when no request ever is.
   */
  lemma RetryAfterIsTight(cfg: ValidConfig, times: seq<real>, more: seq<real>, s: real)
    requires times != [] && !Reply(cfg, times).ok
    requires Ordered(times + more + [s])
    requires forall i | 0 <= i < |more| :: more[i] < times[|times| - 1] + Reply(cfg, times).retryAfter
    ensures forall n | 0 < n <= |more| :: !Reply(cfg, times + more[..n]).ok
    ensures Reply(cfg, times + more + [s]).ok
       <==> s >= times[|times| - 1] + Reply(cfg, times).retryAfter && cfg.burst >= 1
  {
    hide Reply;
    if cfg.burst >= 1 {
      WaitIsTight(cfg, times, more, s);
    } else {
      forall n | 0 < n <= |more|
        ensures !Reply(cfg, times + more[..n]).ok
      {
        NoBurstNoTokens(cfg, times + more[..n]);
      }
      NoBurstNoTokens(cfg, times + more + [s]);
    }
  }

  lemma WaitIsTight(cfg: ValidConfig, times: seq<real>, more: seq<real>, s: real)
    requires cfg.burst >= 1 && times != [] && !Reply(cfg, times).ok
    requires Ordered(times + more + [s])
    requires forall i | 0 <= i < |more| :: more[i] < times[|times| - 1] + Reply(cfg, times).retryAfter
    ensures forall n | 0 < n <= |more| :: !Reply(cfg, times + more[..n]).ok
    ensures Reply(cfg, times + more + [s]).ok <==> s >= times[|times| - 1] + Reply(cfg, times).retryAfter
  {
    hide Gain, Delay, Arrive, Take, DueAt;
    var all := times + more;
    assert forall i | 0 <= i < |all| :: all[i] == (all + [s])[i];
    assert forall i | 0 <= i < |times| :: times[i] == all[i];
    var at := times[|times| - 1] + Reply(cfg, times).retryAfter;
    DeniedIsDue(cfg, times);
    StillDue(cfg, times, more, at);
    LastIsLatest(cfg, all);
    assert (all + [s])[..|all|] == all;
    assert all[|all| - 1] == (all + [s])[|all| - 1] <= (all + [s])[|all|] == s;
    WaitStep(cfg, Serve(cfg, all).value, at, s);
  }

  // ---------------------------------------------------------------- the Retry-After header

  /** The header value: whole seconds rounded down, but at least one. */
  function HeaderSeconds(wait: real): (n: int)
    ensures n >= 1 && (wait < 1.0 ==> n == 1)
    ensures wait >= 1.0 ==> n as real <= wait < n as real + 1.0
  {
    if wait.Floor < 1 then 1 else wait.Floor
  }

  /** A denied client that waits exactly the advertised seconds is admitted. */
  ghost predicate HeaderSuffices(cfg: ValidConfig) {
    forall times | Ordered(times) && times != [] && !Reply(cfg, times).ok ::
      Reply(cfg, times + [times[|times| - 1] + HeaderSeconds(Reply(cfg, times).retryAfter) as real]).ok
  }

  lemma WaitingHeader(cfg: ValidConfig, times: seq<real>)
    requires cfg.burst >= 1 && Ordered(times) && times != [] && !Reply(cfg, times).ok
    ensures var wait := Reply(cfg, times).retryAfter; var n := HeaderSeconds(wait) as real;
      Reply(cfg, times + [times[|times| - 1] + n]).ok <==> n >= wait
  {
    var s := times[|times| - 1] + HeaderSeconds(Reply(cfg, times).retryAfter) as real;
    assert times + [] == times;
    RetryAfterIsTight(cfg, times, [], s);
  }

  lemma WaitAtMostOneToken(cfg: ValidConfig, times: seq<real>)
    requires Ordered(times) && times != [] && !Reply(cfg, times).ok && cfg.rate >= 1.0
    ensures Reply(cfg, times).retryAfter <= 1.0
  {
    LastIsLatest(cfg, times);
    DeniedIsDue(cfg, times);
    var d := Reply(cfg, times).retryAfter;
    assert Gain(cfg, d) <= 1.0;
    GainAtLeastTime(cfg, d);
  }

  lemma GainAtLeastTime(cfg: ValidConfig, d: real)
    requires cfg.rate >= 1.0 && d >= 0.0
    ensures Gain(cfg, d) >= d
  {
    assert d * (cfg.rate - 1.0) >= 0.0;
  }

  lemma {:induction false} SpendTogether(cfg: ValidConfig, n: nat, at: real)
    requires 0 < n <= cfg.burst
    ensures Serve(cfg, Copies(n, at)) == Some(Bucket((cfg.burst - n) as real, at, at))
  {
    hide Gain;
    assert Copies(n, at)[..n - 1] == Copies(n - 1, at);
    if n > 1 {
      SpendTogether(cfg, n - 1, at);
    }
  }

  /** A slow bucket, emptied and asked again when the next token is `d` seconds away. */
  lemma SlowDenial(cfg: ValidConfig, d: real) returns (times: seq<real>)
    requires cfg.burst >= 1 && 0.0 < Gain(cfg, d) <= 1.0
    ensures Ordered(times) && times != [] && !Reply(cfg, times).ok && Reply(cfg, times).retryAfter == d
  {
    hide Gain, Delay;
    var s := Delay(cfg, 1.0 - Gain(cfg, d));
    DelayInvertsGain(cfg, 1.0 - Gain(cfg, d));
    DelayInvertsGain(cfg, d);
    GainSign(cfg, s);
    SpendTogether(cfg, cfg.burst, 0.0);
    times := Copies(cfg.burst, 0.0) + [s];
    assert times[..cfg.burst] == Copies(cfg.burst, 0.0);
    ArriveCaps(cfg, Bucket(0.0, 0.0, 0.0), s);
  }

  /**
   The header rounds the wait down, so it is enough for every denied client if and only if the
   configured rate is at least one request a second.
   */
  lemma HeaderSufficesIff(s: Settings)
    ensures HeaderSuffices(Resolve(s)) <==> s.requestsPerSecond <= 0.0 || s.requestsPerSecond >= 1.0
  {
    hide HeaderSuffices;
    HeaderSufficesFor(Resolve(s));
  }

  lemma HeaderSufficesFor(cfg: ValidConfig)
    ensures HeaderSuffices(cfg) <==> cfg.rate >= 1.0 && cfg.burst >= 1
  {
    if cfg.burst == 0 {
      NoBurstNoTokens(cfg, [0.0]);
      var wait := HeaderSeconds(Reply(cfg, [0.0]).retryAfter) as real;
      NoBurstNoTokens(cfg, [0.0] + [0.0 + wait]);
      assert Ordered([0.0]);
    } else if cfg.rate >= 1.0 {
      forall times | Ordered(times) && times != [] && !Reply(cfg, times).ok
        ensures Reply(cfg, times + [times[|times| - 1] + HeaderSeconds(Reply(cfg, times).retryAfter) as real]).ok
      {
        WaitingHeader(cfg, times);
        WaitAtMostOneToken(cfg, times);
      }
    } else {
      var d := ShortOfOneToken(cfg);
      var times := SlowDenial(cfg, d);
      WaitingHeader(cfg, times);
    }
  }

  /** Below one request a second, some wait of at most one token has a fraction the header drops. */
  lemma ShortOfOneToken(cfg: ValidConfig) returns (d: real)
    requires cfg.rate < 1.0
    ensures 0.0 < Gain(cfg, d) <= 1.0 && HeaderSeconds(d) as real < d
  {
    hide Gain, Delay;
    var whole := Delay(cfg, 1.0);
    DelayInvertsGain(cfg, 1.0);
    OneTokenTakesLonger(cfg);
    d := if whole < 1.5 then whole else 1.5;
    GainAdds(cfg, whole - d, d);
    GainSign(cfg, whole - d);
    GainSign(cfg, d);
  }

  lemma OneTokenTakesLonger(cfg: ValidConfig)
    requires cfg.rate < 1.0
    ensures Delay(cfg, 1.0) > 1.0
  {
    var whole := Delay(cfg, 1.0);
    DelayInvertsGain(cfg, 1.0);
    DelayInvertsGain(cfg, 1.0 - cfg.rate);
    assert Gain(cfg, whole - 1.0) == 1.0 - cfg.rate;
    GainSign(cfg, whole - 1.0);
  }

  // ---------------------------------------------------------------- a burst of zero

  lemma {:induction false} NoBurstNoTokens(cfg: ValidConfig, times: seq<real>)
    requires cfg.burst == 0
    ensures times != [] ==> Serve(cfg, times).value.tokens <= 0.0 && !Reply(cfg, times).ok
  {
    if times != [] {
      NoBurstNoTokens(cfg, times[..|times| - 1]);
    }
  }

  /**
   Leaving the burst to its default takes the whole part of the rate, so a rate below one request a
   second without an explicit burst gives a limiter that admits nothing, ever; and only that does.
   */
  lemma AdmitsSomethingIff(s: Settings)
    ensures (exists times :: times != [] && Reply(Resolve(s), times).ok)
       <==> s.burst > 0 || s.requestsPerSecond <= 0.0 || s.requestsPerSecond >= 1.0
  {
    var cfg := Resolve(s);
    if cfg.burst == 0 {
      forall times | times != []
        ensures !Reply(cfg, times).ok
      {
        NoBurstNoTokens(cfg, times);
      }
    } else {
      assert [0.0][..0] == [];
      assert Reply(cfg, [0.0]).ok;
    }
  }
}
