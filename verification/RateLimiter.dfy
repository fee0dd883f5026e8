/**
 The per-client limiter of internal/gateway/ratelimit.go: a table of buckets shared by all clients,
 from which idle buckets are evicted, and the proof that neither sharing nor eviction can be observed.
 */
module RateLimiter {
  import opened Options
  import opened TokenBucket
  import opened TokenBucketLaws
  import opened Sequences

  type Key = string

  type Table = map<Key, Bucket>

  function Lookup(m: Table, key: Key): Option<Bucket> {
    if key in m then Some(m[key]) else None
  }

  function AllowIn(cfg: ValidConfig, m: Table, key: Key, now: real): (Table, Answer) {
    var (b, a) := Request(cfg, Lookup(m, key), now);
    (m[key := b], a)
  }

  function EvictFrom(cfg: ValidConfig, m: Table, now: real): Table {
    map k | k in m && !(m[k].seen < now - cfg.ttl) :: m[k]
  }

  class Limiter {
    const cfg: ValidConfig
    var buckets: Table

    constructor (s: Settings)
      ensures cfg == Resolve(s) && buckets == map[]
    {
      cfg := Resolve(s);
      buckets := map[];
    }

    method Allow(key: Key, now: real) returns (ok: bool, retryAfter: real)
      modifies this
      ensures (buckets, Answer(ok, retryAfter)) == AllowIn(cfg, old(buckets), key, now)
    {
      hide Gain, Delay;
      var tokens, last := cfg.burst as real, now;
      if key in buckets {
        tokens, last := buckets[key].tokens, buckets[key].last;
      }
      var elapsed := now - last;
      if elapsed > 0.0 {
        tokens := tokens + Gain(cfg, elapsed);
        if tokens > cfg.burst as real {
          tokens := cfg.burst as real;
        }
        last := now;
      }
      if tokens >= 1.0 {
        tokens := tokens - 1.0;
        ok, retryAfter := true, 0.0;
      } else {
        var deficit := 1.0 - tokens;
        ok, retryAfter := false, Delay(cfg, deficit);
      }
      buckets := buckets[key := Bucket(tokens, last, now)];
    }

    method Evict(now: real)
      modifies this
      ensures buckets == EvictFrom(cfg, old(buckets), now)
    {
      var cutoff := now - cfg.ttl;
      var keys := buckets.Keys;
      while keys != {}
        invariant keys <= buckets.Keys <= old(buckets).Keys
        invariant forall k | k in buckets :: buckets[k] == old(buckets)[k]
        invariant forall k | k in old(buckets) && k !in keys ::
            k in buckets <==> !(old(buckets)[k].seen < cutoff)
        decreases keys
      {
        var k :| k in keys;
        if buckets[k].seen < cutoff {
          buckets := buckets - {k};
        }
        keys := keys - {k};
      }
    }
  }

  // ---------------------------------------------------------------- runs

  /** One locked section of the limiter, with the clock reading it uses. */
  datatype Op = Allow(key: Key, now: real) | Evict(now: real)

  /** The table after the given sections, from an empty one. */
  function After(cfg: ValidConfig, ops: seq<Op>): Table {
    if ops == [] then map[]
    else
      Apply(cfg, After(cfg, ops[..|ops| - 1]), ops[|ops| - 1])
  }

  function Apply(cfg: ValidConfig, m: Table, op: Op): Table {
    match op
    case Allow(key, now) => AllowIn(cfg, m, key, now).0
    case Evict(now) => EvictFrom(cfg, m, now)
  }

  /** The answer given by the last section. */
  function LastAnswer(cfg: ValidConfig, ops: seq<Op>): Answer
    requires ops != [] && ops[|ops| - 1].Allow?
  {
    var op := ops[|ops| - 1];
    AllowIn(cfg, After(cfg, ops[..|ops| - 1]), op.key, op.now).1
  }

  /** When one client asked. */
  function TimesOf(ops: seq<Op>, key: Key): seq<real> {
    if ops == [] then []
    else
      var op := ops[|ops| - 1];
      TimesOf(ops[..|ops| - 1], key) + if op.Allow? && op.key == key then [op.now] else []
  }

  /** A reading is at most d behind any reading used before it. */
  predicate Within(ops: seq<Op>, d: real) {
    forall i, j | 0 <= i <= j < |ops| :: ops[i].now - d <= ops[j].now
  }

  /** The same of one client's readings. */
  predicate Close(times: seq<real>, d: real) {
    forall i, j | 0 <= i <= j < |times| :: times[i] - d <= times[j]
  }

  lemma {:induction false} TimesBelow(ops: seq<Op>, key: Key, top: real)
    requires forall i | 0 <= i < |ops| :: ops[i].now <= top
    ensures forall i | 0 <= i < |TimesOf(ops, key)| :: TimesOf(ops, key)[i] <= top
  {
    if ops != [] {
      TimesBelow(ops[..|ops| - 1], key, top);
    }
  }

  lemma {:induction false} TimesClose(ops: seq<Op>, key: Key, d: real)
    requires Within(ops, d) && d >= 0.0
    ensures Close(TimesOf(ops, key), d)
  {
    if ops != [] {
      var before, op := ops[..|ops| - 1], ops[|ops| - 1];
      TimesClose(before, key, d);
      TimesBelow(before, key, op.now + d);
    }
  }

  /** The highest reading so far. */
  function Highest(ops: seq<Op>): (top: real)
    requires ops != []
    ensures forall i | 0 <= i < |ops| :: ops[i].now <= top
    ensures exists i :: 0 <= i < |ops| && ops[i].now == top
  {
    var j := |ops| - 1;
    if j == 0 then ops[0].now
    else
      var top := Highest(ops[..j]);
      assert forall i | 0 <= i < j :: ops[..j][i] == ops[i];
      assert ops[j].now == ops[j].now;
      if top < ops[j].now then ops[j].now else top
  }

  // ---------------------------------------------------------------- the table simulates private buckets

  /**
   The client's entry is its private, never evicted bucket; and a client without an entry either never
   asked, or its private bucket is full again by `floor`, before which no reading can come any more.
   */
  ghost predicate Simulates(cfg: ValidConfig, m: Table, private: Option<Bucket>, key: Key, floor: real) {
    if key in m then private == Some(m[key])
    else private.Some? ==> FullBy(cfg, private.value, floor)
  }

  ghost predicate FullBy(cfg: ValidConfig, b: Bucket, floor: real) {
    b.last <= floor && b.tokens + Gain(cfg, floor - b.last) >= cfg.burst as real
  }

  lemma FullAgain(cfg: ValidConfig, b: Bucket, floor: real, later: real)
    requires b.tokens <= cfg.burst as real && FullBy(cfg, b, floor) && floor <= later
    ensures FullBy(cfg, b, later)
    ensures Arrive(cfg, Some(b), later) == Arrive(cfg, None, later)
  {
    hide Gain;
    GainAdds(cfg, floor - b.last, later - floor);
    GainSign(cfg, later - floor);
    ArriveCaps(cfg, b, later);
  }

  /** A bucket idle for longer than the limit is full by the earliest reading still to come. */
  lemma IdleIsFull(cfg: ValidConfig, d: real, b: Bucket, now: real, floor: real)
    requires Gain(cfg, cfg.ttl - 2.0 * d) >= cfg.burst as real && b.tokens >= 0.0
    requires b.seen < now - cfg.ttl && b.last <= b.seen + d && now - d <= floor
    ensures FullBy(cfg, b, floor)
  {
    hide Gain;
    var idle := cfg.ttl - 2.0 * d;
    GainSign(cfg, idle);
    GainAdds(cfg, idle, floor - b.last - idle);
    GainSign(cfg, floor - b.last - idle);
  }

  lemma OpSimulates(cfg: ValidConfig, d: real, m: Table, private: Option<Bucket>, key: Key, op: Op, floor: real,
                    floor': real)
    requires Gain(cfg, cfg.ttl - 2.0 * d) >= cfg.burst as real
    requires floor <= op.now && floor <= floor' && op.now - d <= floor'
    requires Simulates(cfg, m, private, key, floor)
    requires private.Some? ==> private.value.last <= private.value.seen + d
    requires private.Some? ==> 0.0 <= private.value.tokens <= cfg.burst as real
    ensures
      if op.Allow? && op.key == key
      then Lookup(Apply(cfg, m, op), key) == Some(Request(cfg, private, op.now).0)
           && AllowIn(cfg, m, key, op.now).1 == Request(cfg, private, op.now).1
      else Simulates(cfg, Apply(cfg, m, op), private, key, floor')
  {
    hide Gain, Delay, FullBy;
    if private.Some? {
      var b := private.value;
      if key !in m {
        FullAgain(cfg, b, floor, op.now);
        FullAgain(cfg, b, floor, floor');
      } else if op.Evict? && b.seen < op.now - cfg.ttl {
        IdleIsFull(cfg, d, b, op.now, floor');
      }
    }
  }

  lemma TimesStep(ops: seq<Op>, key: Key)
    requires ops != []
    ensures var before, op := ops[..|ops| - 1], ops[|ops| - 1];
      if op.Allow? && op.key == key
      then |TimesOf(ops, key)| == |TimesOf(before, key)| + 1
           && TimesOf(ops, key)[..|TimesOf(before, key)|] == TimesOf(before, key)
           && TimesOf(ops, key)[|TimesOf(before, key)|] == op.now
      else TimesOf(ops, key) == TimesOf(before, key)
  {
  }

  lemma LastIsClose(cfg: ValidConfig, times: seq<real>, d: real)
    requires Close(times, d)
    ensures times == [] <==> Serve(cfg, times) == None
    ensures times != [] ==>
      var b := Serve(cfg, times).value; b.last <= b.seen + d && 0.0 <= b.tokens <= cfg.burst as real
  {
    hide Request;
    if times != [] {
      LastIsHighest(cfg, times);
    }
  }

  lemma HighestStep(ops: seq<Op>, d: real)
    requires Within(ops, d) && ops != []
    ensures var before, now := ops[..|ops| - 1], ops[|ops| - 1].now;
      && now <= Highest(ops)
      && (before != [] ==> Within(before, d) && Highest(before) - d <= now && Highest(before) <= Highest(ops))
  {
    var before := ops[..|ops| - 1];
    if before != [] {
      var i :| 0 <= i < |before| && before[i].now == Highest(before);
      assert before[i] == ops[i];
    }
  }

  lemma {:induction false} TableSimulates(cfg: ValidConfig, d: real, ops: seq<Op>, key: Key)
    requires Within(ops, d) && d >= 0.0 && ops != [] && Gain(cfg, cfg.ttl - 2.0 * d) >= cfg.burst as real
    ensures Simulates(cfg, After(cfg, ops), Serve(cfg, TimesOf(ops, key)), key, Highest(ops) - d)
    ensures var op := ops[|ops| - 1];
      op.Allow? && op.key == key ==> LastAnswer(cfg, ops) == Reply(cfg, TimesOf(ops, key))
  {
    hide Gain, Delay, Request, FullBy, Highest, Within, Serve, Reply, After, TimesOf, LastAnswer, Apply, AllowIn;
    var j := |ops| - 1;
    var before, op := ops[..j], ops[j];
    var times := TimesOf(before, key);
    var floor := op.now - d;
    ServeStep(cfg, ops, key);
    HighestStep(ops, d);
    if j > 0 {
      TableSimulates(cfg, d, before, key);
      TimesClose(before, key, d);
      floor := Highest(before) - d;
    }
    LastIsClose(cfg, times, d);
    OpSimulates(cfg, d, After(cfg, before), Serve(cfg, times), key, op, floor, Highest(ops) - d);
  }

  /** What one more section does to the table and to the private bucket of a client. */
  lemma ServeStep(cfg: ValidConfig, ops: seq<Op>, key: Key)
    requires ops != []
    ensures
      var before, op := ops[..|ops| - 1], ops[|ops| - 1];
      var times := TimesOf(before, key);
      && After(cfg, ops) == Apply(cfg, After(cfg, before), op)
      && (before == [] ==> times == [] && After(cfg, before) == map[])
      && if op.Allow? && op.key == key
         then && TimesOf(ops, key) != []
              && Serve(cfg, TimesOf(ops, key)) == Some(Request(cfg, Serve(cfg, times), op.now).0)
              && Reply(cfg, TimesOf(ops, key)) == Request(cfg, Serve(cfg, times), op.now).1
              && LastAnswer(cfg, ops) == AllowIn(cfg, After(cfg, before), key, op.now).1
         else TimesOf(ops, key) == times
  {
    hide Gain, Delay, Request, AllowIn, Apply;
    TimesStep(ops, key);
  }

  // ---------------------------------------------------------------- eviction and sharing are invisible

  /** Every answer is the one a private, never evicted bucket of that client would give. */
  ghost predicate Transparent(cfg: ValidConfig, d: real) {
    forall ops: seq<Op> | Within(ops, d) && ops != [] && ops[|ops| - 1].Allow? ::
      LastAnswer(cfg, ops) == Reply(cfg, TimesOf(ops, ops[|ops| - 1].key))
  }

  lemma AnsweredAlike(cfg: ValidConfig, d: real, ops: seq<Op>)
    requires Transparent(cfg, d) && Within(ops, d) && ops != [] && ops[|ops| - 1].Allow?
    ensures LastAnswer(cfg, ops) == Reply(cfg, TimesOf(ops, ops[|ops| - 1].key))
  {
  }

  /** Without a burst there are no tokens, and every answer is the same. */
  lemma {:induction false} NoBurstAlike(cfg: ValidConfig, ops: seq<Op>)
    requires cfg.burst == 0
    ensures forall key | key in After(cfg, ops) :: After(cfg, ops)[key].tokens == 0.0
    ensures ops != [] && ops[|ops| - 1].Allow? ==> LastAnswer(cfg, ops) == Answer(false, Delay(cfg, 1.0))
  {
    hide Gain, Delay;
    if ops != [] {
      var before, op := ops[..|ops| - 1], ops[|ops| - 1];
      NoBurstAlike(cfg, before);
      if op.Allow? {
        NoBurstRequest(cfg, Lookup(After(cfg, before), op.key), op.now);
      }
    }
  }

  lemma NoBurstRequest(cfg: ValidConfig, known: Option<Bucket>, now: real)
    requires cfg.burst == 0 && (known.Some? ==> known.value.tokens == 0.0)
    ensures Request(cfg, known, now).0.tokens == 0.0 && Request(cfg, known, now).1 == Answer(false, Delay(cfg, 1.0))
  {
    hide Gain, Delay;
    if known.Some? {
      GainSign(cfg, now - known.value.last);
    }
  }

  lemma NoBurstIsTransparent(cfg: ValidConfig, d: real)
    requires cfg.burst == 0
    ensures Transparent(cfg, d)
  {
    hide Gain, Delay, Request;
    forall ops: seq<Op> | Within(ops, d) && ops != [] && ops[|ops| - 1].Allow?
      ensures LastAnswer(cfg, ops) == Reply(cfg, TimesOf(ops, ops[|ops| - 1].key))
    {
      var key := ops[|ops| - 1].key;
      NoBurstAlike(cfg, ops);
      TimesStep(ops, key);
      var times := TimesOf(ops, key);
      if |times| > 1 {
        LastIsHighest(cfg, times[..|times| - 1]);
      }
      NoBurstRequest(cfg, Serve(cfg, times[..|times| - 1]), times[|times| - 1]);
    }
  }

  // ---------------------------------------------------------------- an eviction that shows

  /** n requests of one client at one moment. */
  function Asks(key: Key, n: nat, at: real): (ops: seq<Op>)
    ensures |ops| == n && forall i | 0 <= i < n :: ops[i] == Allow(key, at)
  {
    seq(n, _ => Allow(key, at))
  }

  lemma {:induction false} AskTogether(cfg: ValidConfig, ops: seq<Op>, key: Key, n: nat, at: real)
    requires key !in After(cfg, ops) && 0 < n <= cfg.burst
    ensures Lookup(After(cfg, ops + Asks(key, n, at)), key) == Some(Bucket((cfg.burst - n) as real, at, at))
    ensures (ops + Asks(key, n, at))[|ops| + n - 1] == Allow(key, at)
    ensures LastAnswer(cfg, ops + Asks(key, n, at)).ok
  {
    hide Gain, Delay;
    var all := ops + Asks(key, n, at);
    assert all[..|ops| + n - 1] == ops + Asks(key, n - 1, at);
    if n == 1 {
      assert ops + Asks(key, 0, at) == ops;
    } else {
      AskTogether(cfg, ops, key, n - 1, at);
    }
  }

  lemma {:induction false} TimesTogether(ops: seq<Op>, key: Key, n: nat, at: real)
    ensures TimesOf(ops + Asks(key, n, at), key) == TimesOf(ops, key) + Copies(n, at)
  {
    var all := ops + Asks(key, n, at);
    if n == 0 {
      assert all == ops;
    } else {
      TimesTogether(ops, key, n - 1, at);
      assert all[..|ops| + n - 1] == ops + Asks(key, n - 1, at);
      TimesStep(all, key);
      assert Copies(n, at) == Copies(n - 1, at) + [at];
    }
  }

  /** A moment after the idle limit from which a bucket emptied 2d later than last seen is not yet full. */
  lemma IdleButNotFull(cfg: ValidConfig, d: real) returns (at: real)
    requires Gain(cfg, cfg.ttl - 2.0 * d) < cfg.burst as real
    ensures cfg.ttl < at && Gain(cfg, at - 2.0 * d) < cfg.burst as real
  {
    hide Gain, Delay;
    var idle := cfg.ttl - 2.0 * d;
    var tokens := (Gain(cfg, idle) + cfg.burst as real) / 2.0;
    var wait := Delay(cfg, tokens);
    DelayInvertsGain(cfg, tokens);
    at := wait + 2.0 * d;
    GainAdds(cfg, wait - idle, idle);
    GainSign(cfg, wait - idle);
    assert at - 2.0 * d == wait;
  }

  /** The burst with a reading of d, then one request with a reading of zero, and an eviction. */
  function SpentAndEvicted(cfg: ValidConfig, key: Key, d: real, at: real): seq<Op> {
    Asks(key, cfg.burst, d) + [Allow(key, 0.0)] + [Evict(at)]
  }

  lemma EmptyTable(cfg: ValidConfig)
    ensures After(cfg, []) == map[] && forall key :: TimesOf([], key) == []
  {
  }

  lemma OneMore(cfg: ValidConfig, ops: seq<Op>, op: Op)
    ensures After(cfg, ops + [op]) == Apply(cfg, After(cfg, ops), op)
    ensures forall key ::
      TimesOf(ops + [op], key) == TimesOf(ops, key) + if op.Allow? && op.key == key then [op.now] else []
  {
    assert (ops + [op])[..|ops|] == ops;
  }

  lemma SpentThenEvicted(cfg: ValidConfig, key: Key, d: real, at: real)
    requires cfg.burst > 0 && d >= 0.0 && cfg.ttl < at
    ensures var ops := SpentAndEvicted(cfg, key, d, at);
      key !in After(cfg, ops) && TimesOf(ops, key) == Copies(cfg.burst, d) + [0.0]
  {
    hide Gain, Delay, After, TimesOf, LastAnswer, Asks;
    var first := Asks(key, cfg.burst, d);
    assert [] + first == first;
    EmptyTable(cfg);
    AskTogether(cfg, [], key, cfg.burst, d);
    TimesTogether([], key, cfg.burst, d);
    assert [] + Copies(cfg.burst, d) == Copies(cfg.burst, d);
    OneMore(cfg, first, Allow(key, 0.0));
    OneMore(cfg, first + [Allow(key, 0.0)], Evict(at));
  }

  /** A forgotten client gets a full bucket: all of a second burst is admitted. */
  lemma SecondBurst(cfg: ValidConfig, key: Key, d: real, at: real, again: real, n: nat)
    requires 0 < n <= cfg.burst && d >= 0.0 && cfg.ttl < at && again >= 0.0 && at - d <= again
    ensures var ops := SpentAndEvicted(cfg, key, d, at) + Asks(key, n, again);
      && Within(ops, d) && ops[|ops| - 1] == Allow(key, again) && LastAnswer(cfg, ops).ok
      && TimesOf(ops, key) == Copies(cfg.burst, d) + [0.0] + Copies(n, again)
  {
    hide Gain, Delay, Request, After, TimesOf, AllowIn, LastAnswer;
    SpentThenEvicted(cfg, key, d, at);
    AskTogether(cfg, SpentAndEvicted(cfg, key, d, at), key, n, again);
    TimesTogether(SpentAndEvicted(cfg, key, d, at), key, n, again);
  }

  /** Requests admitted by a private bucket at one moment are paid for by what has arrived. */
  lemma {:induction false} PaidFor(cfg: ValidConfig, times: seq<real>, n: nat, at: real)
    requires times != []
    requires forall i | 0 < i <= n :: Reply(cfg, times + Copies(i, at)).ok
    ensures var b, end := Serve(cfg, times).value, Serve(cfg, times + Copies(n, at)).value;
      && 0.0 <= end.tokens && n as real + Credit(cfg, end) <= Credit(cfg, b)
      && end.last == if n == 0 || at <= b.last then b.last else at
  {
    hide Gain, Delay, Serve, Reply, Request;
    LastIsHighest(cfg, times);
    if n == 0 {
      assert times + Copies(0, at) == times;
    } else {
      PaidFor(cfg, times, n - 1, at);
      var init := times + Copies(n - 1, at);
      assert times + Copies(n, at) == init + [at];
      LastIsHighest(cfg, init);
      ServeOneMore(cfg, init, at);
      RequestPotential(cfg, Serve(cfg, init).value, at);
    }
  }

  lemma ServeOneMore(cfg: ValidConfig, times: seq<real>, at: real)
    requires times != []
    ensures
      var b := Serve(cfg, times).value;
      && Serve(cfg, times + [at]) == Some(Request(cfg, Some(b), at).0)
      && Reply(cfg, times + [at]) == Request(cfg, Some(b), at).1
      && Serve(cfg, times + [at]).value.last == if at <= b.last then b.last else at
  {
    hide Gain, Delay;
    assert (times + [at])[..|times|] == times;
  }

  /** The private bucket, emptied at d and asked again at zero. */
  lemma SpentBucket(cfg: ValidConfig, d: real)
    requires cfg.burst > 0 && d >= 0.0
    ensures Serve(cfg, Copies(cfg.burst, d) + [0.0]) == Some(Bucket(0.0, d, 0.0))
  {
    hide Gain, Delay;
    SpendTogether(cfg, cfg.burst, d);
    assert (Copies(cfg.burst, d) + [0.0])[..cfg.burst] == Copies(cfg.burst, d);
  }

  /** A limiter that forgets a client too early lets it spend tokens that have not arrived. */
  lemma EarlyEvictionShows(cfg: ValidConfig, d: real)
    requires d >= 0.0 && cfg.burst > 0 && Gain(cfg, cfg.ttl - 2.0 * d) < cfg.burst as real
    ensures !Transparent(cfg, d)
  {
    hide Gain, Delay, Transparent, LastAnswer, Reply, TimesOf, Serve, After;
    var at := IdleButNotFull(cfg, d);
    if Transparent(cfg, d) {
      var key, again := "client", if at <= d then 0.0 else at - d;
      var times := Copies(cfg.burst, d) + [0.0];
      forall n | 0 < n <= cfg.burst
        ensures Reply(cfg, times + Copies(n, again)).ok
      {
        SecondBurst(cfg, key, d, at, again, n);
        AnsweredAlike(cfg, d, SpentAndEvicted(cfg, key, d, at) + Asks(key, n, again));
      }
      SpentBucket(cfg, d);
      PaidFor(cfg, times, cfg.burst, again);
      GainAdds(cfg, again - d, d);
    }
  }

  /**
   `now` is read before the lock, so a section can use a reading up to some d behind one used before
   it. Eviction and sharing are invisible, for every interleaving of clients and evictions with such
   readings, if and only if there is no burst to speak of or an idle bucket is full again 2d before it
   may be evicted: d for the eviction's reading being ahead of the next request's, and d for the last
   request's reading being behind the one that refilled the bucket.
   */
  lemma TransparentWithinIff(cfg: ValidConfig, d: real)
    requires d >= 0.0
    ensures Transparent(cfg, d) <==> cfg.burst == 0 || Gain(cfg, cfg.ttl - 2.0 * d) >= cfg.burst as real
  {
    hide Gain, Delay;
    if cfg.burst == 0 {
      NoBurstIsTransparent(cfg, d);
    } else if Gain(cfg, cfg.ttl - 2.0 * d) >= cfg.burst as real {
      forall ops: seq<Op> | Within(ops, d) && ops != [] && ops[|ops| - 1].Allow?
        ensures LastAnswer(cfg, ops) == Reply(cfg, TimesOf(ops, ops[|ops| - 1].key))
      {
        TableSimulates(cfg, d, ops, ops[|ops| - 1].key);
      }
    } else {
      EarlyEvictionShows(cfg, d);
    }
  }

  /** With ordered readings: if and only if an idle bucket is full again by the time it may be evicted. */
  lemma TransparentIff(cfg: ValidConfig)
    ensures Transparent(cfg, 0.0) <==> Gain(cfg, cfg.ttl) >= cfg.burst as real
  {
    hide Gain, Transparent;
    TransparentWithinIff(cfg, 0.0);
    GainSign(cfg, cfg.ttl);
  }
}
