/**
 One client's token bucket (internal/gateway/ratelimit.go): the refill-and-take step of `Allow`, and
 the arrival curve it enforces. Float64 and time are `real`.
 */
module TokenBucket {
  import opened Options

  /** The configuration as given: zero or negative values ask for the defaults. */
  datatype Settings = Settings(requestsPerSecond: real, burst: int, idleTTL: real)

  datatype Config = Config(rate: real, burst: nat, ttl: real) {
    predicate Valid() { rate > 0.0 && ttl > 0.0 }
  }

  type ValidConfig = c: Config | c.Valid() witness Config(50.0, 50, 600.0)

  function Resolve(s: Settings): (c: ValidConfig)
    ensures c.rate == if s.requestsPerSecond > 0.0 then s.requestsPerSecond else 50.0
    ensures c.ttl == if s.idleTTL > 0.0 then s.idleTTL else 600.0
    ensures s.burst > 0 ==> c.burst == s.burst
    ensures s.burst <= 0 ==> c.burst as real <= c.rate < c.burst as real + 1.0
  {
    var rate := if s.requestsPerSecond <= 0.0 then 50.0 else s.requestsPerSecond;
    Config(rate,
           if s.burst <= 0 then rate.Floor else s.burst,
           if s.idleTTL <= 0.0 then 600.0 else s.idleTTL)
  }

  datatype Bucket = Bucket(tokens: real, last: real, seen: real)

  datatype Answer = Answer(ok: bool, retryAfter: real)

  // ---------------------------------------------------------------- one request

  /** The tokens that arrive in the given time. */
  function Gain(cfg: ValidConfig, elapsed: real): real { elapsed * cfg.rate }

  /** The time the given number of tokens takes to arrive. */
  function Delay(cfg: ValidConfig, tokens: real): real { tokens / cfg.rate }

  /** The bucket a request meets: a fresh full one for an unknown client, refilled in any case. */
  function Arrive(cfg: ValidConfig, known: Option<Bucket>, now: real): Bucket {
    var b := if known.Some? then known.value else Bucket(cfg.burst as real, now, now);
    var elapsed := now - b.last;
    if elapsed > 0.0
    then Bucket(Capped(cfg, b.tokens + Gain(cfg, elapsed)), now, now)
    else b.(seen := now)
  }

  function Capped(cfg: ValidConfig, tokens: real): real {
    if tokens > cfg.burst as real then cfg.burst as real else tokens
  }

  /** Spend one token if there is one; otherwise say how long one takes to arrive. */
  function Take(cfg: ValidConfig, b: Bucket): (Bucket, Answer) {
    if b.tokens >= 1.0 then (b.(tokens := b.tokens - 1.0), Answer(true, 0.0))
    else (b, Answer(false, Delay(cfg, 1.0 - b.tokens)))
  }

  function Request(cfg: ValidConfig, known: Option<Bucket>, now: real): (Bucket, Answer) {
    Take(cfg, Arrive(cfg, known, now))
  }

  // ---------------------------------------------------------------- arithmetic of the rate

  lemma GainAdds(cfg: ValidConfig, x: real, y: real)
    ensures Gain(cfg, x + y) == Gain(cfg, x) + Gain(cfg, y)
  {
  }

  lemma GainSign(cfg: ValidConfig, x: real)
    ensures Gain(cfg, x) > 0.0 <==> x > 0.0
    ensures Gain(cfg, x) == 0.0 <==> x == 0.0
  {
  }

  lemma DelayInvertsGain(cfg: ValidConfig, x: real)
    ensures Gain(cfg, Delay(cfg, x)) == x && Delay(cfg, Gain(cfg, x)) == x
    ensures Delay(cfg, x) > 0.0 <==> x > 0.0
  {
    assert x / cfg.rate * cfg.rate == x;
    GainSign(cfg, Delay(cfg, x));
    assert x * cfg.rate / cfg.rate == x;
  }

  // ---------------------------------------------------------------- a client's history

  /** The bucket of a client after requests at the given times, never evicted. */
  function Serve(cfg: ValidConfig, times: seq<real>): Option<Bucket> {
    if times == [] then None
    else Some(Request(cfg, Serve(cfg, times[..|times| - 1]), times[|times| - 1]).0)
  }

  /** The answer to the last of those requests. */
  function Reply(cfg: ValidConfig, times: seq<real>): Answer
    requires times != []
  {
    Request(cfg, Serve(cfg, times[..|times| - 1]), times[|times| - 1]).1
  }

  /** The tokens the last of those requests finds. */
  function Level(cfg: ValidConfig, times: seq<real>): real
    requires times != []
  {
    Arrive(cfg, Serve(cfg, times[..|times| - 1]), times[|times| - 1]).tokens
  }

  predicate Ordered(times: seq<real>) {
    forall i, j | 0 <= i <= j < |times| :: times[i] <= times[j]
  }

  predicate AllAdmitted(cfg: ValidConfig, times: seq<real>) {
    forall n | 0 < n <= |times| :: Reply(cfg, times[..n]).ok
  }

  lemma ArriveCaps(cfg: ValidConfig, b: Bucket, now: real)
    requires b.tokens <= cfg.burst as real && b.last <= now
    ensures Arrive(cfg, Some(b), now) == Bucket(Capped(cfg, b.tokens + Gain(cfg, now - b.last)), now, now)
  {
    hide Gain;
    GainSign(cfg, now - b.last);
  }

  lemma {:induction false} LastIsLatest(cfg: ValidConfig, times: seq<real>)
    requires Ordered(times) && times != []
    ensures Serve(cfg, times).value.last == Serve(cfg, times).value.seen == times[|times| - 1]
    ensures 0.0 <= Serve(cfg, times).value.tokens <= cfg.burst as real
  {
    hide Gain;
    var j := |times| - 1;
    if j > 0 {
      LastIsLatest(cfg, times[..j]);
      ArriveCaps(cfg, Serve(cfg, times[..j]).value, times[j]);
      GainSign(cfg, times[j] - times[j - 1]);
    }
  }

  // ---------------------------------------------------------------- the arrival curve

  /** What is left for the last request when requests i and later all drew on a bucket full at i. */
  function Curve(cfg: ValidConfig, times: seq<real>, i: int): real
    requires 0 <= i < |times|
  {
    cfg.burst as real + Gain(cfg, times[|times| - 1] - times[i]) - (|times| - 1 - i) as real
  }

  lemma CurveStep(cfg: ValidConfig, times: seq<real>, i: int)
    requires 0 <= i < |times| - 1
    ensures var j := |times| - 1;
      Curve(cfg, times, i) == Curve(cfg, times[..j], i) - 1.0 + Gain(cfg, times[j] - times[j - 1])
  {
    hide Gain;
    var j := |times| - 1;
    GainAdds(cfg, times[j] - times[j - 1], times[j - 1] - times[i]);
  }

  lemma LastCurve(cfg: ValidConfig, times: seq<real>)
    requires times != []
    ensures Curve(cfg, times, |times| - 1) == cfg.burst as real
  {
    GainSign(cfg, 0.0);
  }

  /** A request that follows an admitted one finds its leftovers, refilled up to the burst. */
  lemma LevelStep(cfg: ValidConfig, times: seq<real>)
    requires Ordered(times) && |times| > 1 && Reply(cfg, times[..|times| - 1]).ok
    ensures var j := |times| - 1;
      Level(cfg, times) == Capped(cfg, Level(cfg, times[..j]) - 1.0 + Gain(cfg, times[j] - times[j - 1]))
  {
    hide Gain;
    var j := |times| - 1;
    LastIsLatest(cfg, times[..j]);
    ArriveCaps(cfg, Serve(cfg, times[..j]).value, times[j]);
  }

  lemma AllAdmittedSplits(cfg: ValidConfig, times: seq<real>)
    requires times != []
    ensures AllAdmitted(cfg, times) <==> AllAdmitted(cfg, times[..|times| - 1]) && Reply(cfg, times).ok
  {
    hide Gain;
    var j := |times| - 1;
    assert forall n | 0 < n <= j :: times[..n] == times[..j][..n];
    assert times[..j + 1] == times;
  }

  /** While nothing has been denied, the level is the least of the curves that end here. */
  lemma {:induction false} LevelIsLeastCurve(cfg: ValidConfig, times: seq<real>) returns (least: int)
    requires Ordered(times) && times != [] && AllAdmitted(cfg, times[..|times| - 1])
    ensures forall i | 0 <= i < |times| :: Level(cfg, times) <= Curve(cfg, times, i)
    ensures 0 <= least < |times| && Level(cfg, times) == Curve(cfg, times, least)
  {
    hide Gain;
    var j := |times| - 1;
    var init := times[..j];
    least := j;
    LastCurve(cfg, times);
    if j > 0 {
      AllAdmittedSplits(cfg, init);
      var k := LevelIsLeastCurve(cfg, init);
      LevelStep(cfg, times);
      forall i | 0 <= i < j
        ensures Level(cfg, times) <= Curve(cfg, times, i)
      {
        CurveStep(cfg, times, i);
        assert Level(cfg, init) <= Curve(cfg, init, i);
      }
      CurveStep(cfg, times, k);
      if Level(cfg, times) < cfg.burst as real {
        least := k;
      }
    }
  }

  /** Every stretch of requests fits in the burst plus what refills during the stretch. */
  ghost predicate WithinCurve(cfg: ValidConfig, times: seq<real>) {
    forall i, j | 0 <= i <= j < |times| ::
      (j - i + 1) as real <= cfg.burst as real + Gain(cfg, times[j] - times[i])
  }

  lemma WithinCurveSplits(cfg: ValidConfig, times: seq<real>)
    requires times != []
    ensures var j := |times| - 1;
      WithinCurve(cfg, times)
      <==> WithinCurve(cfg, times[..j]) && forall i | 0 <= i <= j :: Curve(cfg, times, i) >= 1.0
  {
    hide Gain;
    var last := |times| - 1;
    var init := times[..last];
    if WithinCurve(cfg, init) && forall i | 0 <= i <= last :: Curve(cfg, times, i) >= 1.0 {
      forall i, j | 0 <= i <= j < |times|
        ensures (j - i + 1) as real <= cfg.burst as real + Gain(cfg, times[j] - times[i])
      {
        if j < last {
          assert times[i] == init[i] && times[j] == init[j];
        } else {
          assert Curve(cfg, times, i) >= 1.0;
        }
      }
    }
    if WithinCurve(cfg, times) {
      forall i, j | 0 <= i <= j < |init|
        ensures (j - i + 1) as real <= cfg.burst as real + Gain(cfg, init[j] - init[i])
      {
        assert times[i] == init[i] && times[j] == init[j];
      }
    }
  }

  /**
   The bucket enforces its arrival curve exactly: requests at non-decreasing times are all admitted
   from a fresh bucket if and only if every stretch of them fits the curve.
   */
  lemma {:induction false} AdmissionIsExact(cfg: ValidConfig, times: seq<real>)
    requires Ordered(times)
    ensures AllAdmitted(cfg, times) <==> WithinCurve(cfg, times)
  {
    hide Gain;
    if times != [] {
      AdmissionIsExact(cfg, times[..|times| - 1]);
      AllAdmittedSplits(cfg, times);
      WithinCurveSplits(cfg, times);
      if AllAdmitted(cfg, times[..|times| - 1]) {
        var least := LevelIsLeastCurve(cfg, times);
      }
    }
  }
}
