/**
 Order statistics by counting: which value stands at a given rank of the sorted sequence, told from
 how many elements lie below it. Nothing here depends on how the sequence is arranged.
 */
module Ranks {
  import opened Sequences

  predicate AtMost(x: real, y: real) { x <= y }

  function Sort(s: seq<real>): (r: seq<real>)
    ensures SortedBy(AtMost, r) && multiset(r) == multiset(s) && |r| == |s|
  {
    SortBy(AtMost, s)
  }

  function CountLt(s: seq<real>, x: real): nat {
    if s == [] then 0 else CountLt(s[1..], x) + if s[0] < x then 1 else 0
  }

  function CountLe(s: seq<real>, x: real): nat {
    if s == [] then 0 else CountLe(s[1..], x) + if s[0] <= x then 1 else 0
  }

  // ---------------------------------------------------------------- counting is blind to order

  lemma {:induction false} CountConcat(s: seq<real>, t: seq<real>, x: real)
    ensures CountLt(s + t, x) == CountLt(s, x) + CountLt(t, x)
    ensures CountLe(s + t, x) == CountLe(s, x) + CountLe(t, x)
  {
    if s == [] {
      assert s + t == t;
    } else {
      assert (s + t)[1..] == s[1..] + t;
      CountConcat(s[1..], t, x);
    }
  }

  lemma CountWithout(t: seq<real>, i: nat, x: real)
    requires i < |t|
    ensures var rest := t[..i] + t[i + 1..];
      && CountLt(t, x) == CountLt(rest, x) + (if t[i] < x then 1 else 0)
      && CountLe(t, x) == CountLe(rest, x) + (if t[i] <= x then 1 else 0)
  {
    var before, after := t[..i], t[i + 1..];
    assert t == before + ([t[i]] + after);
    CountConcat(before, [t[i]] + after, x);
    CountConcat([t[i]], after, x);
    CountConcat(before, after, x);
  }

  lemma TakeOne(t: seq<real>, y: real, x: real) returns (rest: seq<real>)
    requires y in t
    ensures |rest| < |t| && multiset(rest) == multiset(t) - multiset{y}
    ensures CountLt(t, x) == CountLt(rest, x) + (if y < x then 1 else 0)
    ensures CountLe(t, x) == CountLe(rest, x) + (if y <= x then 1 else 0)
  {
    hide CountLt, CountLe;
    var i :| 0 <= i < |t| && t[i] == y;
    rest := t[..i] + t[i + 1..];
    RemoveFrom(t, i);
    CountWithout(t, i, x);
  }

  lemma {:induction false} CountPermuted(s: seq<real>, t: seq<real>, x: real)
    requires multiset(s) == multiset(t)
    ensures CountLt(s, x) == CountLt(t, x) && CountLe(s, x) == CountLe(t, x)
    decreases |s|
  {
    hide CountLt, CountLe;
    if s == [] {
      assert |multiset(t)| == 0;
    } else {
      assert s[0] in multiset(t);
      var rest := TakeOne(s, s[0], x);
      var rest' := TakeOne(t, s[0], x);
      CountPermuted(rest, rest', x);
    }
  }

  // ---------------------------------------------------------------- ranks

  /** v stands at rank k of the sorted sequence: at most k elements are below it, more than k are not above. */
  ghost predicate AtRank(s: seq<real>, k: nat, v: real) {
    CountLt(s, v) <= k < CountLe(s, v)
  }

  lemma {:induction false} CountSorted(t: seq<real>, k: nat, v: real)
    requires SortedBy(AtMost, t) && k < |t|
    ensures t[k] <= v ==> CountLe(t, v) > k
    ensures t[k] >= v ==> CountLt(t, v) <= k
  {
    if k > 0 {
      CountSorted(t[1..], k - 1, v);
    } else if t[0] >= v {
      NoneBelow(t, v);
    }
  }

  lemma {:induction false} NoneBelow(t: seq<real>, v: real)
    requires forall i | 0 <= i < |t| :: t[i] >= v
    ensures CountLt(t, v) == 0
  {
    if t != [] {
      NoneBelow(t[1..], v);
    }
  }

  lemma SortAtRank(s: seq<real>, k: nat)
    requires k < |s|
    ensures AtRank(s, k, Sort(s)[k])
  {
    var v := Sort(s)[k];
    CountSorted(Sort(s), k, v);
    CountPermuted(s, Sort(s), v);
  }

  lemma {:induction false} CountMonotone(s: seq<real>, v: real, w: real)
    requires v < w
    ensures CountLt(s, v) <= CountLe(s, v) <= CountLt(s, w) <= CountLe(s, w)
  {
    if s != [] {
      CountMonotone(s[1..], v, w);
    }
  }

  /** The value at a rank is unique. */
  lemma RankIsUnique(s: seq<real>, k: nat, v: real, w: real)
    requires AtRank(s, k, v) && AtRank(s, k, w)
    ensures v == w
  {
    if v < w {
      CountMonotone(s, v, w);
    } else if w < v {
      CountMonotone(s, w, v);
    }
  }

  /** Enough elements at or below b put the value of rank k at or below b; likewise from below. */
  lemma RankBounds(s: seq<real>, k: nat, b: real)
    requires k < |s|
    ensures CountLe(s, b) > k <==> Sort(s)[k] <= b
    ensures CountLt(s, b) <= k <==> Sort(s)[k] >= b
  {
    var v := Sort(s)[k];
    SortAtRank(s, k);
    if b < v {
      CountMonotone(s, b, v);
    } else if v < b {
      CountMonotone(s, v, b);
    }
  }

  // ---------------------------------------------------------------- affine maps

  function Affine(a: real, c: real, x: real): real { a * x + c }

  function AffineAll(a: real, c: real, s: seq<real>): (r: seq<real>)
    ensures |r| == |s| && forall i | 0 <= i < |s| :: r[i] == Affine(a, c, s[i])
  {
    seq(|s|, i requires 0 <= i < |s| => Affine(a, c, s[i]))
  }

  lemma AffineOrder(a: real, c: real, x: real, y: real)
    requires a != 0.0
    ensures a > 0.0 ==> (Affine(a, c, x) < Affine(a, c, y) <==> x < y)
    ensures a < 0.0 ==> (Affine(a, c, x) < Affine(a, c, y) <==> x > y)
    ensures Affine(a, c, x) == Affine(a, c, y) <==> x == y
  {
    assert Affine(a, c, x) - Affine(a, c, y) == a * (x - y);
  }

  lemma {:induction false} CountAffine(a: real, c: real, s: seq<real>, v: real)
    requires a != 0.0
    ensures var t, w := AffineAll(a, c, s), Affine(a, c, v);
      if a > 0.0
      then CountLt(t, w) == CountLt(s, v) && CountLe(t, w) == CountLe(s, v)
      else CountLt(t, w) == |s| - CountLe(s, v) && CountLe(t, w) == |s| - CountLt(s, v)
  {
    hide Affine;
    if s != [] {
      assert AffineAll(a, c, s)[1..] == AffineAll(a, c, s[1..]);
      CountAffine(a, c, s[1..], v);
      AffineOrder(a, c, s[0], v);
      AffineOrder(a, c, v, s[0]);
    }
  }

  /** An affine map carries ranks with it, and a negative factor turns them around. */
  lemma RankAffine(a: real, c: real, s: seq<real>, k: nat)
    requires a != 0.0 && k < |s|
    ensures Sort(AffineAll(a, c, s))[if a > 0.0 then k else |s| - 1 - k] == Affine(a, c, Sort(s)[k])
  {
    hide Affine, Sort;
    var v := Sort(s)[k];
    var t := AffineAll(a, c, s);
    var k' := if a > 0.0 then k else |s| - 1 - k;
    SortAtRank(s, k);
    CountAffine(a, c, s, v);
    SortAtRank(t, k');
    RankIsUnique(t, k', Sort(t)[k'], Affine(a, c, v));
  }
}
