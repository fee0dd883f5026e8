/** What does not change a score: the order of the baseline, and the unit and origin of the readings. */
module ScorerInvariance {
  import opened Sequences
  import opened Ranks
  import opened Scorer

  // ---------------------------------------------------------------- permuting the baseline

  lemma SortPermuted(s: seq<real>, t: seq<real>)
    requires multiset(s) == multiset(t)
    ensures |s| == |t| && Sort(s) == Sort(t)
  {
    hide Sort;
    assert |multiset(s)| == |s| && |multiset(t)| == |t|;
    forall k: nat | k < |s|
      ensures Sort(s)[k] == Sort(t)[k]
    {
      SortAtRank(s, k);
      SortAtRank(t, k);
      CountPermuted(s, t, Sort(s)[k]);
      RankIsUnique(t, k, Sort(s)[k], Sort(t)[k]);
    }
  }

  lemma MapConcat<A, B>(f: A -> B, s: seq<A>, t: seq<A>)
    ensures Map(f, s + t) == Map(f, s) + Map(f, t)
  {
  }

  /** Taking one occurrence of x out of a sequence, and f(x) out of its image. */
  lemma TakeOut<A, B>(f: A -> B, t: seq<A>, x: A) returns (rest: seq<A>)
    requires x in t
    ensures |rest| < |t| && multiset(rest) == multiset(t) - multiset{x}
    ensures multiset(Map(f, t)) == multiset(Map(f, rest)) + multiset{f(x)}
  {
    var i :| 0 <= i < |t| && t[i] == x;
    rest := t[..i] + t[i + 1..];
    RemoveFrom(t, i);
    MapConcat(f, t[..i], t[i + 1..]);
    RemoveFrom(Map(f, t), i);
    assert Map(f, t)[..i] == Map(f, t[..i]) && Map(f, t)[i + 1..] == Map(f, t[i + 1..]);
  }

  lemma {:induction false} MapPermuted<A, B>(f: A -> B, s: seq<A>, t: seq<A>)
    requires multiset(s) == multiset(t)
    ensures multiset(Map(f, s)) == multiset(Map(f, t))
    decreases |s|
  {
    hide Map;
    if s == [] {
      assert |multiset(t)| == 0;
      assert Map(f, s) == Map(f, t);
    } else {
      assert s[0] in multiset(t);
      var rest := TakeOut(f, s, s[0]);
      var rest' := TakeOut(f, t, s[0]);
      MapPermuted(f, rest, rest');
    }
  }

  function Map<A, B>(f: A -> B, s: seq<A>): (r: seq<B>)
    ensures |r| == |s| && forall i | 0 <= i < |s| :: r[i] == f(s[i])
  {
    seq(|s|, i requires 0 <= i < |s| => f(s[i]))
  }

  lemma MadPermuted(s: seq<real>, t: seq<real>)
    requires multiset(s) == multiset(t) && s != [] && t != []
    ensures Median(s) == Median(t) && Mad(s) == Mad(t)
  {
    hide Sort;
    SortPermuted(s, t);
    var m := Median(s);
    var f := (x: real) => Abs(x - m);
    MapPermuted(f, s, t);
    assert Map(f, s) == Deviations(s, m) && Map(f, t) == Deviations(t, m);
    SortPermuted(Deviations(s, m), Deviations(t, m));
  }

  lemma ValuesPermuted(r: seq<Reading>, r': seq<Reading>)
    requires multiset(r) == multiset(r') && AllFinite(r) && AllFinite(r')
    ensures multiset(Values(r)) == multiset(Values(r'))
  {
    var value := (x: Reading) => if x.Finite? then x.v else 0.0;
    MapPermuted(value, r, r');
    assert Map(value, r) == Values(r) && Map(value, r') == Values(r');
  }

  lemma FinitePermuted(r: seq<Reading>, r': seq<Reading>)
    requires multiset(r) == multiset(r') && AllFinite(r)
    ensures AllFinite(r')
  {
    forall i | 0 <= i < |r'|
      ensures r'[i].Finite?
    {
      assert r'[i] in multiset(r);
    }
  }

  /** Rearranging everything but the latest reading changes nothing at all. */
  lemma OrderOfBaselineIsIrrelevant(r: seq<Reading>, r': seq<Reading>, threshold: real)
    requires |r| == |r'| > 0 && r[|r| - 1] == r'[|r| - 1]
    requires multiset(r[..|r| - 1]) == multiset(r'[..|r| - 1])
    ensures ScoreWindow(r, threshold) == ScoreWindow(r', threshold)
  {
    hide Median, Mad, Judge;
    var n := |r| - 1;
    assert multiset(r) == multiset(r') by {
      assert r == r[..n] + [r[n]] && r' == r'[..n] + [r'[n]];
    }
    if AllFinite(r) {
      FinitePermuted(r, r');
      var v, v' := Values(r), Values(r');
      ValuesPermuted(r, r');
      MadPermuted(v, v');
      if n > 0 {
        ValuesPermuted(r[..n], r'[..n]);
        assert Values(r[..n]) == v[..n] && Values(r'[..n]) == v'[..n];
        MadPermuted(v[..n], v'[..n]);
      }
    } else if AllFinite(r') {
      FinitePermuted(r', r);
    }
  }

  // ---------------------------------------------------------------- changing unit and origin

  lemma MedianAffine(a: real, c: real, s: seq<real>)
    requires a != 0.0 && s != []
    ensures Median(AffineAll(a, c, s)) == Affine(a, c, Median(s))
  {
    hide Sort, Affine;
    var mid := |s| / 2;
    RankAffine(a, c, s, mid);
    if |s| % 2 == 0 {
      RankAffine(a, c, s, mid - 1);
      AffineMidpoint(a, c, Sort(s)[mid - 1], Sort(s)[mid]);
    }
  }

  lemma AffineMidpoint(a: real, c: real, x: real, y: real)
    ensures Affine(a, c, (x + y) / 2.0) == (Affine(a, c, x) + Affine(a, c, y)) / 2.0
  {
  }

  lemma DeviationScales(a: real, c: real, x: real, m: real)
    ensures Abs(Affine(a, c, x) - Affine(a, c, m)) == Affine(Abs(a), 0.0, Abs(x - m))
  {
    assert Affine(a, c, x) - Affine(a, c, m) == a * (x - m);
    if a >= 0.0 && x >= m {
      assert a * (x - m) >= 0.0;
    } else if a >= 0.0 {
      assert a * (m - x) >= 0.0;
    } else if x >= m {
      assert (-a) * (x - m) >= 0.0;
    } else {
      assert (-a) * (m - x) >= 0.0;
    }
  }

  lemma MadAffine(a: real, c: real, s: seq<real>)
    requires a != 0.0 && s != []
    ensures Mad(AffineAll(a, c, s)) == Affine(Abs(a), 0.0, Mad(s))
  {
    hide Median, Affine;
    var m := Median(s);
    MedianAffine(a, c, s);
    var d, d' := Deviations(s, m), Deviations(AffineAll(a, c, s), Affine(a, c, m));
    forall i | 0 <= i < |s|
      ensures d'[i] == AffineAll(Abs(a), 0.0, d)[i]
    {
      DeviationScales(a, c, s[i], m);
    }
    assert d' == AffineAll(Abs(a), 0.0, d);
    MedianAffine(Abs(a), 0.0, d);
  }

  lemma ZScales(a: real, distance: real, mad: real)
    requires a > 0.0 && mad > 0.0
    ensures Affine(a, 0.0, mad) > 0.0
    ensures Z(Affine(a, 0.0, distance), Affine(a, 0.0, mad)) == Z(distance, mad)
    ensures Affine(a, 0.0, mad) / MAD_TO_SIGMA == Affine(a, 0.0, mad / MAD_TO_SIGMA)
  {
    var sigma := mad / MAD_TO_SIGMA;
    assert a * mad > 0.0;
    assert a * mad / MAD_TO_SIGMA == a * sigma;
    CancelFactor(a, distance, sigma);
  }

  lemma CancelFactor(a: real, x: real, y: real)
    requires a > 0.0 && y > 0.0
    ensures a * y > 0.0 && (a * x) / (a * y) == x / y
  {
    var q := x / y;
    assert q * y == x;
    assert q * (a * y) == a * x;
  }

  /** The same judgement, with the median moved and the dispersion rescaled. */
  ghost predicate SameScore(r: ScoreResult, r': ScoreResult, a: real, c: real) {
    && r'.score == r.score && r'.anomaly == r.anomaly && r'.how == r.how && r'.window == r.window
    && r'.median == Affine(a, c, r.median) && r'.dispersion == Affine(Abs(a), 0.0, r.dispersion)
  }

  lemma JudgeAffine(a: real, c: real, latest: real, median: real, mad: real, window: nat, threshold: real)
    requires a != 0.0 && mad >= 0.0
    ensures SameScore(Judge(latest, median, mad, window, threshold),
                      Judge(Affine(a, c, latest), Affine(a, c, median), Affine(Abs(a), 0.0, mad), window, threshold),
                      a, c)
  {
    hide Affine, Z;
    AffineOrder(Abs(a), 0.0, mad, 0.0);
    AffineOrder(Abs(a), 0.0, Abs(latest - median), 0.0);
    AffineZero(Abs(a));
    DeviationScales(a, c, latest, median);
    if mad > 0.0 {
      ZScales(Abs(a), Abs(latest - median), mad);
    }
  }

  lemma AffineZero(a: real)
    ensures Affine(a, 0.0, 0.0) == 0.0
  {
  }

  lemma ValuesAffine(a: real, c: real, values: seq<real>, threshold: real)
    requires a != 0.0 && values != []
    ensures SameScore(ScoreValues(values, threshold), ScoreValues(AffineAll(a, c, values), threshold), a, c)
  {
    hide Affine, Median, Mad, Judge;
    var n := |values| - 1;
    AffineZero(Abs(a));
    MedianAffine(a, c, values);
    if |values| >= MIN_WINDOW {
      var baseline := values[..n];
      assert AffineAll(a, c, values)[..n] == AffineAll(a, c, baseline);
      MedianAffine(a, c, baseline);
      MadAffine(a, c, baseline);
      MadIsNotNegative(baseline);
      JudgeAffine(a, c, values[n], Median(baseline), Mad(baseline), |values|, threshold);
    }
  }

  function Rescale(a: real, c: real, readings: seq<Reading>): (r: seq<Reading>)
    ensures |r| == |readings|
    ensures forall i | 0 <= i < |readings| ::
      r[i] == if readings[i].Finite? then Finite(Affine(a, c, readings[i].v)) else NonFinite
  {
    seq(|readings|, i requires 0 <= i < |readings| =>
      if readings[i].Finite? then Finite(Affine(a, c, readings[i].v)) else NonFinite)
  }

  /**
   Mapping every reading x to a * x + c, with any a other than zero, changes neither the score nor the
   verdict; a negative a, which reverses the sort, included.
   */
  lemma UnitAndOriginAreIrrelevant(a: real, c: real, readings: seq<Reading>, threshold: real)
    requires a != 0.0
    ensures match (ScoreWindow(readings, threshold), ScoreWindow(Rescale(a, c, readings), threshold))
      case (Scored(r), Scored(r')) => SameScore(r, r', a, c)
      case (Rejected(e), Rejected(e')) => e == e'
      case _ => false
  {
    hide Affine, Median, Mad, Judge, ScoreValues;
    var moved := Rescale(a, c, readings);
    assert AllFinite(moved) <==> AllFinite(readings) by {
      if AllFinite(moved) {
        assert forall i | 0 <= i < |readings| :: moved[i].Finite? ==> readings[i].Finite?;
      }
    }
    if readings != [] && AllFinite(readings) {
      assert Values(moved) == AffineAll(a, c, Values(readings));
      ValuesAffine(a, c, Values(readings), threshold);
    }
  }
}
