/** The retry configuration and the backoff delays of internal/platform/resilience/retry.go. */
module Backoff {

  datatype Config = Config(maxAttempts: int, baseDelay: real, maxDelay: real, jitter: real) {
    predicate Valid() {
      maxAttempts > 0 && baseDelay > 0.0 && maxDelay > 0.0 && 0.0 <= jitter <= 1.0
    }

    function WithDefaults(): (c: Config)
      ensures c.Valid()
      ensures Valid() ==> c == this
      ensures c.maxAttempts == if maxAttempts > 0 then maxAttempts else 3
      ensures c.baseDelay == if baseDelay > 0.0 then baseDelay else 0.05
      ensures c.maxDelay == if maxDelay > 0.0 then maxDelay else 2.0
      ensures c.jitter == if 0.0 <= jitter <= 1.0 then jitter else 0.3
    {
      Config(
        if maxAttempts <= 0 then 3 else maxAttempts,
        if baseDelay <= 0.0 then 0.05 else baseDelay,
        if maxDelay <= 0.0 then 2.0 else maxDelay,
        if jitter < 0.0 || jitter > 1.0 then 0.3 else jitter
      )
    }
  }

  type ValidConfig = c: Config | c.Valid() witness Config(3, 0.05, 2.0, 0.3)

  function Pow2(n: nat): (p: real)
    ensures p >= 1.0
  {
    if n == 0 then 1.0 else 2.0 * Pow2(n - 1)
  }

  /** The uncapped delay: doubling from the base. */
  function Exponential(cfg: ValidConfig, attempt: nat): real
    requires attempt > 0
  {
    cfg.baseDelay * Pow2(attempt - 1)
  }

  /** The delay before jitter: exponential, up to the maximum. */
  function Nominal(cfg: ValidConfig, attempt: nat): real
    requires attempt > 0
  {
    var backoff := Exponential(cfg, attempt);
    if backoff > cfg.maxDelay then cfg.maxDelay else backoff
  }

  /** A fraction of a time. */
  function Share(time: real, fraction: real): real { time * fraction }

  /** Symmetric jitter around the nominal delay, for a random number in [0, 1). */
  function Jittered(backoff: real, jitter: real, rand: real): real {
    var spread := Share(backoff, jitter);
    backoff - spread + 2.0 * Share(spread, rand)
  }

  /** The delay after the given attempt. */
  function DelayFor(cfg: ValidConfig, attempt: nat, rand: real): real
    requires attempt > 0
  {
    var nominal := Nominal(cfg, attempt);
    var backoff := if cfg.jitter > 0.0 then Jittered(nominal, cfg.jitter, rand) else nominal;
    if backoff < 0.0 then 0.0 else backoff
  }

  predicate Random(rand: real) { 0.0 <= rand < 1.0 }

  lemma NominalIsPositive(cfg: ValidConfig, attempt: nat)
    requires attempt > 0
    ensures 0.0 < Nominal(cfg, attempt) <= cfg.maxDelay
    ensures Nominal(cfg, attempt) <= Exponential(cfg, attempt)
  {
    hide Exponential;
    ExponentialGrows(cfg, attempt);
  }

  lemma ExponentialGrows(cfg: ValidConfig, attempt: nat)
    requires attempt > 0
    ensures 0.0 < Exponential(cfg, attempt) < Exponential(cfg, attempt + 1)
  {
    NonNegative(cfg.baseDelay, Pow2(attempt - 1) - 1.0);
    assert Exponential(cfg, attempt) == cfg.baseDelay * (Pow2(attempt - 1) - 1.0) + cfg.baseDelay;
    assert Exponential(cfg, attempt + 1) == 2.0 * Exponential(cfg, attempt);
  }

  /** (1 + jitter) * time: the longest a nominal time can become. */
  function Stretch(cfg: ValidConfig, time: real): real { time + Share(time, cfg.jitter) }

  /** (1 - jitter) * time: the shortest it can become. */
  function Shrink(cfg: ValidConfig, time: real): real { time - Share(time, cfg.jitter) }

  lemma {:induction false} Pow2Adds(m: nat, n: nat)
    ensures Pow2(m + n) == Pow2(m) * Pow2(n) && Pow2(1) == 2.0
  {
    if m > 0 {
      Pow2Adds(m - 1, n);
    }
  }

  /** The nominal delay is the lesser of Base * 2^(n-1) and MaxDelay. */
  lemma NominalIsLesser(cfg: ValidConfig, attempt: nat)
    requires attempt > 0
    ensures var doubled := cfg.baseDelay * Pow2(attempt - 1);
      Nominal(cfg, attempt) == if doubled <= cfg.maxDelay then doubled else cfg.maxDelay
  {
  }

  /** The delay runs evenly from one end of the jitter to the other as the random number does. */
  lemma DelayIsSpread(cfg: ValidConfig, attempt: nat, rand: real)
    requires attempt > 0 && Random(rand)
    ensures
      var doubled := cfg.baseDelay * Pow2(attempt - 1);
      var nominal := if doubled <= cfg.maxDelay then doubled else cfg.maxDelay;
      DelayFor(cfg, attempt, rand) == nominal * (1.0 - cfg.jitter + 2.0 * cfg.jitter * rand)
  {
    hide Pow2;
    NominalIsLesser(cfg, attempt);
    NominalIsPositive(cfg, attempt);
    SpreadFromBelow(Nominal(cfg, attempt), cfg.jitter, rand);
  }

  lemma SpreadFromBelow(nominal: real, jitter: real, rand: real)
    requires nominal > 0.0 && 0.0 <= jitter <= 1.0 && Random(rand)
    ensures Jittered(nominal, jitter, rand) == nominal * (1.0 - jitter + 2.0 * jitter * rand) >= 0.0
  {
    NonNegative(jitter, rand);
    NonNegative(nominal, 1.0 - jitter + 2.0 * jitter * rand);
  }

  /** Jitter moves a delay by at most its fraction of the nominal one, either way. */
  lemma DelayWithinJitter(cfg: ValidConfig, attempt: nat, rand: real)
    requires attempt > 0 && Random(rand)
    ensures var n := Nominal(cfg, attempt);
      Shrink(cfg, n) <= DelayFor(cfg, attempt, rand) <= Stretch(cfg, n)
  {
    hide Nominal, Share;
    NominalIsPositive(cfg, attempt);
    var n := Nominal(cfg, attempt);
    ShareBounds(n, cfg.jitter);
    ShareBounds(Share(n, cfg.jitter), rand);
  }

  lemma ShareBounds(x: real, f: real)
    requires x >= 0.0 && 0.0 <= f <= 1.0
    ensures 0.0 <= Share(x, f) <= x
  {
    NonNegative(x, f);
    NonNegative(x, 1.0 - f);
    assert x * (1.0 - f) == x - x * f;
  }

  lemma NonNegative(x: real, y: real)
    requires x >= 0.0 && y >= 0.0
    ensures x * y >= 0.0
  {
  }

  /** The nominal delay never decreases. */
  lemma {:induction false} NominalNeverDecreases(cfg: ValidConfig, attempt: nat, later: nat)
    requires 0 < attempt <= later
    ensures Nominal(cfg, attempt) <= Nominal(cfg, later)
    decreases later
  {
    hide Exponential;
    if attempt < later {
      NominalNeverDecreases(cfg, attempt, later - 1);
      ExponentialGrows(cfg, later - 1);
    }
  }

  /** The time slept by the first k retries. */
  function TotalDelay(cfg: ValidConfig, rand: nat -> real, k: nat): real {
    if k == 0 then 0.0 else TotalDelay(cfg, rand, k - 1) + DelayFor(cfg, k, rand(k))
  }

  function TotalNominal(cfg: ValidConfig, k: nat): real {
    if k == 0 then 0.0 else TotalNominal(cfg, k - 1) + Nominal(cfg, k)
  }

  lemma StretchLaws(cfg: ValidConfig, x: real, y: real)
    ensures Stretch(cfg, x + y) == Stretch(cfg, x) + Stretch(cfg, y)
    ensures x <= y ==> Stretch(cfg, x) <= Stretch(cfg, y)
  {
    if x <= y {
      NonNegative(y - x, cfg.jitter);
      assert (y - x) * cfg.jitter == Share(y, cfg.jitter) - Share(x, cfg.jitter);
    }
  }

  lemma {:induction false} TotalWithinJitter(cfg: ValidConfig, rand: nat -> real, k: nat)
    requires forall n :: Random(rand(n))
    ensures TotalDelay(cfg, rand, k) <= Stretch(cfg, TotalNominal(cfg, k))
  {
    if k > 0 {
      TotalWithinJitter(cfg, rand, k - 1);
      StretchStep(cfg, rand, k);
    }
  }

  lemma StretchStep(cfg: ValidConfig, rand: nat -> real, k: nat)
    requires k > 0 && Random(rand(k))
    requires TotalDelay(cfg, rand, k - 1) <= Stretch(cfg, TotalNominal(cfg, k - 1))
    ensures TotalDelay(cfg, rand, k) <= Stretch(cfg, TotalNominal(cfg, k))
  {
    hide Nominal, DelayFor, Stretch;
    assert DelayFor(cfg, k, rand(k)) <= Stretch(cfg, Nominal(cfg, k)) by { DelayStretch(cfg, k, rand(k)); }
    StretchLaws(cfg, TotalNominal(cfg, k - 1), Nominal(cfg, k));
  }

  lemma DelayStretch(cfg: ValidConfig, k: nat, rand: real)
    requires k > 0 && Random(rand)
    ensures DelayFor(cfg, k, rand) <= Stretch(cfg, Nominal(cfg, k))
  {
    hide Nominal, DelayFor;
    DelayWithinJitter(cfg, k, rand);
  }

  /** Base * (1 + 2 + ... + 2^(k-1)). */
  function Doubled(cfg: ValidConfig, k: nat): real { cfg.baseDelay * (Pow2(k) - 1.0) }

  /** k delays at the maximum. */
  function Capped(cfg: ValidConfig, k: nat): real { k as real * cfg.maxDelay }

  lemma SumsStep(cfg: ValidConfig, k: nat)
    requires k > 0
    ensures Doubled(cfg, k) == Doubled(cfg, k - 1) + Exponential(cfg, k)
    ensures Capped(cfg, k) == Capped(cfg, k - 1) + cfg.maxDelay
  {
  }

  lemma NoSums(cfg: ValidConfig)
    ensures Doubled(cfg, 0) == 0.0 && Capped(cfg, 0) == 0.0
  {
  }

  lemma {:induction false} TotalNominalBounds(cfg: ValidConfig, k: nat)
    ensures TotalNominal(cfg, k) <= Doubled(cfg, k)
    ensures TotalNominal(cfg, k) <= Capped(cfg, k)
  {
    hide Nominal, Exponential, Doubled, Capped;
    if k == 0 {
      NoSums(cfg);
    } else {
      TotalNominalBounds(cfg, k - 1);
      NominalIsPositive(cfg, k);
      SumsStep(cfg, k);
    }
  }

  /** k sleeps take at most (1 + jitter) * min(Base * (2^k - 1), k * MaxDelay). */
  lemma TotalDelayBound(cfg: ValidConfig, rand: nat -> real, k: nat)
    requires forall n :: Random(rand(n))
    ensures TotalDelay(cfg, rand, k) <= Stretch(cfg, Doubled(cfg, k))
    ensures TotalDelay(cfg, rand, k) <= Stretch(cfg, Capped(cfg, k))
  {
    hide Stretch, Doubled, Capped;
    TotalWithinJitter(cfg, rand, k);
    TotalNominalBounds(cfg, k);
    StretchLaws(cfg, TotalNominal(cfg, k), Doubled(cfg, k));
    StretchLaws(cfg, TotalNominal(cfg, k), Capped(cfg, k));
  }
}
