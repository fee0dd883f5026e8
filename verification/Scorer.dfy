/**
 The robust anomaly scorer of services/scorer/app/scoring.py: a median / MAD z-score of the latest
 reading against the readings before it. Floats are `real`; NaN and the infinities are `NonFinite`.
 */
module Scorer {
  import opened Ranks
  import opened Sequences

  const MIN_WINDOW := 8
  const MAX_WINDOW := 4096
  const MAD_TO_SIGMA := 0.6745
  const SATURATED_SCORE := 1000.0

  datatype Reading = Finite(v: real) | NonFinite

  datatype Method = InsufficientData | RobustZscoreFlat | RobustZscore

  datatype ScoreResult = ScoreResult(
    score: real, anomaly: bool, how: Method, window: nat, median: real, dispersion: real)

  datatype ScoringError = Empty | TooLong | NotFinite

  datatype Outcome = Scored(result: ScoreResult) | Rejected(error: ScoringError)

  function Abs(x: real): real { if x < 0.0 then -x else x }

  function Median(values: seq<real>): real
    requires values != []
  {
    var ordered := Sort(values);
    var mid := |ordered| / 2;
    if |ordered| % 2 == 1 then ordered[mid] else (ordered[mid - 1] + ordered[mid]) / 2.0
  }

  function Deviations(values: seq<real>, m: real): (d: seq<real>)
    ensures |d| == |values| && forall i | 0 <= i < |values| :: d[i] == Abs(values[i] - m)
  {
    seq(|values|, i requires 0 <= i < |values| => Abs(values[i] - m))
  }

  /** The median absolute deviation. */
  function Mad(values: seq<real>): real
    requires values != []
  {
    Median(Deviations(values, Median(values)))
  }

  /** The distance from the median in units of the rescaled deviation. */
  function Z(distance: real, mad: real): real
    requires mad != 0.0
  {
    distance / (mad / MAD_TO_SIGMA)
  }

  function Judge(latest: real, median: real, mad: real, window: nat, threshold: real): ScoreResult {
    var deviation := Abs(latest - median);
    if mad == 0.0 then
      if deviation == 0.0 then ScoreResult(0.0, false, RobustZscoreFlat, window, median, 0.0)
      else ScoreResult(SATURATED_SCORE, true, RobustZscoreFlat, window, median, 0.0)
    else
      var z := Z(deviation, mad);
      ScoreResult(if z < SATURATED_SCORE then z else SATURATED_SCORE, z >= threshold, RobustZscore, window,
                  median, mad / MAD_TO_SIGMA)
  }

  function ScoreValues(values: seq<real>, threshold: real): ScoreResult
    requires values != []
  {
    var window := |values|;
    if window < MIN_WINDOW then ScoreResult(0.0, false, InsufficientData, window, Median(values), 0.0)
    else
      var baseline, latest := values[..window - 1], values[window - 1];
      Judge(latest, Median(baseline), Mad(baseline), window, threshold)
  }

  predicate AllFinite(readings: seq<Reading>) {
    forall i | 0 <= i < |readings| :: readings[i].Finite?
  }

  function Values(readings: seq<Reading>): (vs: seq<real>)
    requires AllFinite(readings)
    ensures |vs| == |readings| && forall i | 0 <= i < |readings| :: vs[i] == readings[i].v
  {
    seq(|readings|, i requires 0 <= i < |readings| => readings[i].v)
  }

  function ScoreWindow(readings: seq<Reading>, threshold: real): Outcome {
    if readings == [] then Rejected(Empty)
    else if |readings| > MAX_WINDOW then Rejected(TooLong)
    else if !AllFinite(readings) then Rejected(NotFinite)
    else Scored(ScoreValues(Values(readings), threshold))
  }

  // ---------------------------------------------------------------- what a majority fixes

  function CountIn(s: seq<real>, a: real, b: real): nat {
    if s == [] then 0 else CountIn(s[1..], a, b) + if a <= s[0] <= b then 1 else 0
  }

  lemma {:induction false} CountInBounds(s: seq<real>, a: real, b: real)
    ensures CountIn(s, a, b) <= CountLe(s, b)
    ensures CountIn(s, a, b) <= |s| - CountLt(s, a)
  {
    if s != [] {
      CountInBounds(s[1..], a, b);
    }
  }

  lemma MedianBounds(s: seq<real>, x: real)
    requires s != []
    ensures 2 * CountLe(s, x) > |s| ==> Median(s) <= x
    ensures 2 * (|s| - CountLt(s, x)) > |s| ==> Median(s) >= x
  {
    hide Sort;
    var mid := |s| / 2;
    RankBounds(s, mid, x);
    if |s| % 2 == 0 {
      RankBounds(s, mid - 1, x);
    }
  }

  /** More than half of the readings confine the median, whatever the rest are. */
  lemma MedianInMajority(s: seq<real>, a: real, b: real)
    requires s != [] && 2 * CountIn(s, a, b) > |s|
    ensures a <= Median(s) <= b
  {
    hide Median;
    CountInBounds(s, a, b);
    MedianBounds(s, a);
    MedianBounds(s, b);
  }

  lemma {:induction false} DeviationsOfMajority(s: seq<real>, m: real, a: real, b: real)
    requires a <= m <= b
    ensures CountLe(Deviations(s, m), b - a) >= CountIn(s, a, b)
  {
    if s != [] {
      assert Deviations(s, m)[1..] == Deviations(s[1..], m);
      DeviationsOfMajority(s[1..], m, a, b);
    }
  }

  /** They bound the dispersion by their own spread, too. */
  lemma MadInMajority(s: seq<real>, a: real, b: real)
    requires s != [] && 2 * CountIn(s, a, b) > |s|
    ensures Mad(s) <= b - a
  {
    hide Median;
    MedianInMajority(s, a, b);
    DeviationsOfMajority(s, Median(s), a, b);
    MedianBounds(Deviations(s, Median(s)), b - a);
  }

  lemma {:induction false} DeviationsAtZero(s: seq<real>, m: real)
    ensures CountLe(Deviations(s, m), 0.0) == CountIn(s, m, m)
    ensures CountLt(Deviations(s, m), 0.0) == 0
  {
    if s != [] {
      assert Deviations(s, m)[1..] == Deviations(s[1..], m);
      DeviationsAtZero(s[1..], m);
    }
  }

  lemma MadIsNotNegative(s: seq<real>)
    requires s != []
    ensures Mad(s) >= 0.0
  {
    hide Median;
    DeviationsAtZero(s, Median(s));
    MedianBounds(Deviations(s, Median(s)), 0.0);
  }

  lemma ZeroMedian(d: seq<real>)
    requires d != [] && CountLt(d, 0.0) == 0
    ensures Median(d) == 0.0 <==> 2 * CountLe(d, 0.0) > |d|
  {
    hide Sort;
    var mid := |d| / 2;
    RankBounds(d, mid, 0.0);
    if |d| % 2 == 0 {
      RankBounds(d, mid - 1, 0.0);
      assert Sort(d)[mid - 1] <= Sort(d)[mid];
    }
  }

  /**
   The flat branch is taken exactly when strictly more than half of the baseline has one value; that
   value is then the median.
   */
  lemma FlatIffMajorityEqual(s: seq<real>)
    requires s != []
    ensures Mad(s) == 0.0 <==> 2 * CountIn(s, Median(s), Median(s)) > |s|
    ensures Mad(s) == 0.0 <==> exists c :: 2 * CountIn(s, c, c) > |s|
  {
    hide Median;
    var d := Deviations(s, Median(s));
    DeviationsAtZero(s, Median(s));
    ZeroMedian(d);
    if c :| 2 * CountIn(s, c, c) > |s| {
      MedianInMajority(s, c, c);
    }
  }

  // ---------------------------------------------------------------- masking resistance

  lemma FarEnough(distance: real, mad: real, width: real, threshold: real)
    requires 0.0 < mad <= width && distance >= 0.0
    requires distance >= threshold * width / MAD_TO_SIGMA
    ensures Z(distance, mad) >= threshold
  {
    var sigma := mad / MAD_TO_SIGMA;
    assert sigma > 0.0 && sigma <= width / MAD_TO_SIGMA;
    var z := distance / sigma;
    assert z * sigma == distance;
    ScaleDown(threshold, sigma, width / MAD_TO_SIGMA, distance, z);
  }

  lemma ScaleDown(threshold: real, sigma: real, wide: real, distance: real, z: real)
    requires 0.0 < sigma <= wide && distance >= 0.0 && distance >= threshold * wide && z * sigma == distance
    ensures z >= threshold
  {
    SignOfProduct(z, sigma);
    if threshold > 0.0 {
      SignOfProduct(wide - sigma, threshold);
      assert (z - threshold) * sigma == distance - threshold * wide + (wide - sigma) * threshold;
      SignOfProduct(z - threshold, sigma);
    }
  }

  lemma SignOfProduct(x: real, r: real)
    requires r > 0.0
    ensures x * r >= 0.0 <==> x >= 0.0
  {
  }

  /** The latest reading is strictly outside [a, b], by at least the given margin. */
  predicate Outside(latest: real, a: real, b: real, margin: real) {
    (latest > b && latest - b >= margin) || (latest < a && a - latest >= margin)
  }

  lemma ValuesResistMasking(values: seq<real>, threshold: real, a: real, b: real)
    requires |values| >= MIN_WINDOW && a <= b
    requires 2 * CountIn(values[..|values| - 1], a, b) > |values| - 1
    requires Outside(values[|values| - 1], a, b, threshold * (b - a) / MAD_TO_SIGMA)
    ensures ScoreValues(values, threshold).anomaly
  {
    hide Median, Mad, Z;
    var baseline, latest := values[..|values| - 1], values[|values| - 1];
    MedianInMajority(baseline, a, b);
    MadInMajority(baseline, a, b);
    MadIsNotNegative(baseline);
    if Mad(baseline) > 0.0 {
      FarEnough(Abs(latest - Median(baseline)), Mad(baseline), b - a, threshold);
    }
  }

  /**
   Readings cannot mask an anomaly while they are a minority: if strictly more than half of the
   baseline lies in [a, b], a latest reading outside it by threshold * (b - a) / 0.6745 is flagged,
   whatever the other readings are, also when the dispersion is zero.
   */
  lemma MaskingResistance(readings: seq<Reading>, threshold: real, a: real, b: real)
    requires MIN_WINDOW <= |readings| <= MAX_WINDOW && AllFinite(readings) && a <= b
    requires 2 * CountIn(Values(readings)[..|readings| - 1], a, b) > |readings| - 1
    requires Outside(Values(readings)[|readings| - 1], a, b, threshold * (b - a) / MAD_TO_SIGMA)
    ensures ScoreWindow(readings, threshold).Scored? && ScoreWindow(readings, threshold).result.anomaly
  {
    hide ScoreValues, Outside, CountIn;
    ValuesResistMasking(Values(readings), threshold, a, b);
  }

  /**
   The verdict without divisions: on a dispersed baseline the scaled distance from the median reaches
   the threshold; on a flat one, any distance at all does.
   */
  lemma AnomalyIff(values: seq<real>, threshold: real)
    requires |values| >= MIN_WINDOW
    ensures
      var baseline := values[..|values| - 1];
      var distance, mad := Abs(values[|values| - 1] - Median(baseline)), Mad(baseline);
      var r := ScoreValues(values, threshold);
      if mad == 0.0
      then
        && r.how == RobustZscoreFlat && (r.anomaly <==> distance > 0.0)
        && r.score == (if distance > 0.0 then 1000.0 else 0.0) && r.dispersion == 0.0
      else
        && r.how == RobustZscore && (r.anomaly <==> distance * 0.6745 >= threshold * mad)
        && (if distance * 0.6745 >= 1000.0 * mad then r.score == 1000.0
            else r.score * mad == distance * 0.6745)
        && r.dispersion * 0.6745 == mad
  {
    hide Median, Mad, Z;
    var baseline := values[..|values| - 1];
    MadIsNotNegative(baseline);
    if Mad(baseline) != 0.0 {
      ZByProduct(Abs(values[|values| - 1] - Median(baseline)), Mad(baseline), threshold);
      ZByProduct(Abs(values[|values| - 1] - Median(baseline)), Mad(baseline), SATURATED_SCORE);
    }
  }

  lemma ZByProduct(distance: real, mad: real, threshold: real)
    requires mad > 0.0
    ensures Z(distance, mad) * mad == distance * MAD_TO_SIGMA
    ensures Z(distance, mad) >= threshold <==> distance * MAD_TO_SIGMA >= threshold * mad
  {
    var sigma, z := mad / MAD_TO_SIGMA, Z(distance, mad);
    assert z * sigma == distance;
    assert z * mad == z * sigma * MAD_TO_SIGMA;
    assert (z - threshold) * mad == z * mad - threshold * mad;
    SignOfProduct(z - threshold, mad);
  }

  /** m is the median by ranks: the value in the middle, or half-way between the two. */
  ghost predicate IsMedian(s: seq<real>, m: real) {
    s != [] && exists lo, hi :: Middle(s, lo, hi) && m == (lo + hi) / 2.0
  }

  /** The values at the middle rank or ranks, which are one and the same if their number is odd. */
  ghost predicate Middle(s: seq<real>, lo: real, hi: real)
    requires s != []
  {
    AtRank(s, (|s| - 1) / 2, lo) && AtRank(s, |s| / 2, hi)
  }

  lemma MedianIsMedian(s: seq<real>)
    requires s != []
    ensures IsMedian(s, Median(s))
  {
    hide Sort, AtRank;
    SortAtRank(s, (|s| - 1) / 2);
    SortAtRank(s, |s| / 2);
    assert Middle(s, Sort(s)[(|s| - 1) / 2], Sort(s)[|s| / 2]);
  }

  /** The readings that the median is taken of: all of a short window, and all but the latest of others. */
  function Compared(values: seq<real>): seq<real>
    requires values != []
  {
    if |values| < 8 then values else values[..|values| - 1]
  }

  /**
   The whole outcome for every window. It is rejected for the first of three reasons: no readings, more
   than 4096, or one that is not finite. Otherwise it reports the size of the window and the median of
   what it compares; with fewer than eight readings, and only then, it says that the data are
   insufficient, with no score, no dispersion and no anomaly.
   */
  lemma Reported(readings: seq<Reading>, threshold: real)
    ensures
      match ScoreWindow(readings, threshold)
      case Rejected(e) =>
        if readings == [] then e == Empty
        else if |readings| > 4096 then e == TooLong
        else e == NotFinite && NonFinite in readings
      case Scored(r) =>
        && 1 <= |readings| <= 4096 && NonFinite !in readings && AllFinite(readings)
        && r.window == |readings| && IsMedian(Compared(Values(readings)), r.median)
        && (r.how == InsufficientData <==> |readings| < 8)
        && (|readings| < 8 ==> r.score == 0.0 && r.dispersion == 0.0 && !r.anomaly)
  {
    hide Median, Mad, Z, IsMedian;
    if !AllFinite(readings) {
      var i :| 0 <= i < |readings| && !readings[i].Finite?;
      assert readings[i] == NonFinite;
    } else if readings != [] {
      MedianIsMedian(Compared(Values(readings)));
    }
  }

  /** The score is never negative and never above the saturation constant. */
  lemma ScoreIsCapped(values: seq<real>, threshold: real)
    requires values != []
    ensures 0.0 <= ScoreValues(values, threshold).score <= 1000.0
  {
    hide Median, Mad, Z;
    if |values| >= MIN_WINDOW {
      var baseline, latest := values[..|values| - 1], values[|values| - 1];
      MadIsNotNegative(baseline);
      if Mad(baseline) > 0.0 {
        ZIsNotNegative(Abs(latest - Median(baseline)), Mad(baseline));
      }
    }
  }

  lemma ZIsNotNegative(distance: real, mad: real)
    requires mad > 0.0 && distance >= 0.0
    ensures Z(distance, mad) >= 0.0
  {
  }

  // ---------------------------------------------------------------- half is not enough

  lemma {:induction false} CountCopies(n: nat, x: real, y: real)
    ensures CountLe(Copies(n, x), y) == if x <= y then n else 0
    ensures CountLt(Copies(n, x), y) == if x < y then n else 0
    ensures CountIn(Copies(n, x), y, y) == if x == y then n else 0
  {
    if n > 0 {
      assert Copies(n, x)[1..] == Copies(n - 1, x);
      CountCopies(n - 1, x, y);
    }
  }

  lemma {:induction false} CountInConcat(s: seq<real>, t: seq<real>, a: real, b: real)
    ensures CountIn(s + t, a, b) == CountIn(s, a, b) + CountIn(t, a, b)
  {
    if s == [] {
      assert s + t == t;
    } else {
      assert (s + t)[1..] == s[1..] + t;
      CountInConcat(s[1..], t, a, b);
    }
  }

  /**
   A baseline need not be flat to be taken for flat: k + 1 readings of one value outvote k of another,
   and any other latest reading saturates the score, whatever the threshold.
   */
  lemma OutvotedBaseline(k: nat, a: real, b: real, latest: real, threshold: real)
    requires 2 * k + 2 >= MIN_WINDOW && a != b && latest != a
    ensures
      var r := ScoreValues(Copies(k + 1, a) + Copies(k, b) + [latest], threshold);
      r.how == RobustZscoreFlat && r.median == a && r.score == SATURATED_SCORE && r.anomaly
  {
    hide Median, Mad;
    var baseline := Copies(k + 1, a) + Copies(k, b);
    assert (baseline + [latest])[..2 * k + 1] == baseline;
    CountCopies(k + 1, a, a);
    CountCopies(k, b, a);
    CountInConcat(Copies(k + 1, a), Copies(k, b), a, a);
    FlatIffMajorityEqual(baseline);
    MedianInMajority(baseline, a, a);
  }

  /** The majority is needed: with exactly half of the readings at `a`, the others can drag the median anywhere. */
  lemma HalfIsNotEnough(half: nat, a: real, far: real) returns (s: seq<real>)
    requires half > 0 && far > a
    ensures |s| == 2 * half && CountIn(s, a, a) == half && Median(s) == far
  {
    hide Sort;
    var x := 2.0 * far - a;
    s := Copies(half, a) + Copies(half, x);
    CountCopies(half, a, a);
    CountCopies(half, x, a);
    CountCopies(half, a, x);
    CountCopies(half, x, x);
    CountInConcat(Copies(half, a), Copies(half, x), a, a);
    CountConcat(Copies(half, a), Copies(half, x), a);
    CountConcat(Copies(half, a), Copies(half, x), x);
    RankBounds(s, half - 1, a);
    RankBounds(s, half, x);
    assert Sort(s)[half - 1] == a && Sort(s)[half] == x;
  }
}
