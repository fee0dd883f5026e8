/**
 A token bucket whose clock readings arrive out of order. `now` is read before the lock is taken, so a
 reading can be behind one that the bucket has already used. Such a reading counts as the highest one
 seen so far: it refills nothing and costs nothing.
 */
module LateReadings {
  import opened Options
  import opened TokenBucket
  import opened TokenBucketLaws

  /** m is the highest of the readings. */
  predicate IsHighest(times: seq<real>, m: real) {
    m in times && forall i | 0 <= i < |times| :: times[i] <= m
  }

  /** Each reading replaced by the highest one up to it. */
  function Maxima(times: seq<real>): (maxima: seq<real>)
    ensures |maxima| == |times|
    ensures forall i | 0 <= i < |times| :: IsHighest(times[..i + 1], maxima[i])
  {
    if times == [] then []
    else
      var j := |times| - 1;
      var before := Maxima(times[..j]);
      assert forall n | 0 <= n <= j :: times[..j][..n] == times[..n];
      assert times[..j + 1] == times;
      assert j > 0 ==> times[..j][..j] == times[..j];
      before + [if j > 0 && before[j - 1] >= times[j] then before[j - 1] else times[j]]
  }

  lemma MaximaPrefix(times: seq<real>, n: nat)
    requires n <= |times|
    ensures Maxima(times)[..n] == Maxima(times[..n])
  {
    hide Maxima;
    forall i | 0 <= i < n
      ensures Maxima(times)[i] == Maxima(times[..n])[i]
    {
      assert times[..n][..i + 1] == times[..i + 1];
      assert IsHighest(times[..i + 1], Maxima(times)[i]) && IsHighest(times[..i + 1], Maxima(times[..n])[i]);
    }
  }

  lemma MaximaAreOrdered(times: seq<real>)
    ensures Ordered(Maxima(times))
  {
    hide Maxima;
    forall i, j | 0 <= i <= j < |times|
      ensures Maxima(times)[i] <= Maxima(times)[j]
    {
      var k :| 0 <= k < |times[..i + 1]| && times[..i + 1][k] == Maxima(times)[i];
      assert times[..j + 1][k] == times[..i + 1][k];
    }
  }

  /** A request with a reading behind the bucket's is one with the bucket's own reading, but for `seen`. */
  lemma LateRequest(cfg: ValidConfig, b: Bucket, b': Bucket, now: real)
    requires b'.tokens == b.tokens && b'.last == b.last
    ensures
      var (r, a) := Request(cfg, Some(b), now);
      var (r', a') := Request(cfg, Some(b'), if now <= b.last then b.last else now);
      a == a' && r.tokens == r'.tokens && r.last == r'.last
  {
    hide Gain, Delay;
  }

  /** What a client is told and what is left in its bucket depend on the highest readings alone. */
  lemma {:induction false} OnlyMaximaMatter(cfg: ValidConfig, times: seq<real>)
    requires times != []
    ensures Reply(cfg, times) == Reply(cfg, Maxima(times))
    ensures
      var b, b' := Serve(cfg, times), Serve(cfg, Maxima(times));
      b.Some? && b'.Some? && b.value.tokens == b'.value.tokens && b.value.last == b'.value.last
  {
    hide Request, Maxima;
    var j := |times| - 1;
    MaximaPrefix(times, j);
    assert times[..j + 1] == times;
    if j == 0 {
      assert Maxima(times) == times;
    } else {
      OnlyMaximaMatter(cfg, times[..j]);
      LastIsHighest(cfg, times[..j]);
      var b, b' := Serve(cfg, times[..j]).value, Serve(cfg, Maxima(times[..j])).value;
      assert IsHighest(times, Maxima(times)[j]);
      assert Maxima(times)[j] == if times[j] <= b.last then b.last else times[j];
      LateRequest(cfg, b, b', times[j]);
    }
  }

  /**
   The arrival curve for readings in any order: all requests are admitted from a fresh bucket if and
   only if the highest readings so far keep within the curve.
   */
  lemma AdmissionInAnyOrder(cfg: ValidConfig, times: seq<real>)
    ensures AllAdmitted(cfg, times) <==> WithinCurve(cfg, Maxima(times))
  {
    hide Reply, Maxima, WithinCurve;
    forall n | 0 < n <= |times|
      ensures Reply(cfg, times[..n]) == Reply(cfg, Maxima(times)[..n])
    {
      MaximaPrefix(times, n);
      OnlyMaximaMatter(cfg, times[..n]);
    }
    MaximaAreOrdered(times);
    AdmissionIsExact(cfg, Maxima(times));
  }
}
