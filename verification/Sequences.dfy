/** Sequences in general: repetition, and sorting by any total order. */
module Sequences {

  /** The same value n times. */
  function Copies<T>(n: nat, x: T): (s: seq<T>)
    ensures |s| == n && forall i | 0 <= i < n :: s[i] == x
  {
    seq(n, _ => x)
  }

  // ---------------------------------------------------------------- sorting

  ghost predicate TotalOrder<T(!new)>(le: (T, T) -> bool) {
    && (forall x, y :: le(x, y) || le(y, x))
    && (forall x, y, z :: le(x, y) && le(y, z) ==> le(x, z))
  }

  ghost predicate SortedBy<T>(le: (T, T) -> bool, s: seq<T>) {
    forall i, j | 0 <= i <= j < |s| :: le(s[i], s[j])
  }

  /** Where x goes: it does not come before anything that precedes the place, but before all the rest. */
  function Place<T(!new)>(le: (T, T) -> bool, x: T, s: seq<T>): (i: nat)
    requires TotalOrder(le) && SortedBy(le, s)
    ensures i <= |s|
    ensures forall j | 0 <= j < i :: le(s[j], x)
    ensures forall j | i <= j < |s| :: le(x, s[j])
  {
    if |s| == 0 || le(x, s[0]) then 0 else 1 + Place(le, x, s[1..])
  }

  function Insert<T(!new)>(le: (T, T) -> bool, x: T, s: seq<T>): (r: seq<T>)
    requires TotalOrder(le) && SortedBy(le, s)
    ensures SortedBy(le, r) && multiset(r) == multiset(s) + multiset{x} && |r| == |s| + 1
  {
    var i := Place(le, x, s);
    InsertSorts(le, x, s, i);
    s[..i] + [x] + s[i..]
  }

  lemma InsertSorts<T(!new)>(le: (T, T) -> bool, x: T, s: seq<T>, i: nat)
    requires TotalOrder(le) && SortedBy(le, s) && i <= |s|
    requires forall j | 0 <= j < i :: le(s[j], x)
    requires forall j | i <= j < |s| :: le(x, s[j])
    ensures var r := s[..i] + [x] + s[i..]; SortedBy(le, r) && multiset(r) == multiset(s) + multiset{x}
  {
    assert le(x, x);
    hide TotalOrder;
    assert s == s[..i] + s[i..];
    var r := s[..i] + [x] + s[i..];
    forall a, b | 0 <= a <= b < |r|
      ensures le(r[a], r[b])
    {
      assert r[a] == if a < i then s[a] else if a == i then x else s[a - 1];
      assert r[b] == if b < i then s[b] else if b == i then x else s[b - 1];
    }
  }

  function SortBy<T(!new)>(le: (T, T) -> bool, s: seq<T>): (r: seq<T>)
    requires TotalOrder(le)
    ensures SortedBy(le, r) && multiset(r) == multiset(s) && |r| == |s|
  {
    if |s| == 0 then []
    else
      var r := Insert(le, s[0], SortBy(le, s[1..]));
      assert s == [s[0]] + s[1..];
      r
  }

  // ---------------------------------------------------------------- permutations

  lemma RemoveFrom<T>(t: seq<T>, i: nat)
    requires i < |t|
    ensures multiset(t) == multiset(t[..i] + t[i + 1..]) + multiset{t[i]}
    ensures multiset(t[..i] + t[i + 1..]) == multiset(t) - multiset{t[i]}
  {
    assert t == t[..i] + [t[i]] + t[i + 1..];
  }

  ghost predicate NoDuplicates<T>(s: seq<T>) {
    forall i, j | 0 <= i < j < |s| :: s[i] != s[j]
  }

  lemma {:induction false} CountedOnce<T>(s: seq<T>, x: T)
    requires NoDuplicates(s)
    ensures multiset(s)[x] <= 1
  {
    if s != [] {
      var n := |s| - 1;
      CountedOnce(s[..n], x);
      assert s == s[..n] + [s[n]];
      assert s[n] !in s[..n];
    }
  }

  lemma CountedTwice<T>(s: seq<T>, i: int, j: int)
    requires 0 <= i < j < |s| && s[i] == s[j]
    ensures multiset(s)[s[i]] >= 2
  {
    assert s == s[..j] + s[j..];
    assert s[i] in s[..j] && s[j] in s[j..];
  }

  /** A permutation of a sequence without duplicates has none either, and the same members. */
  lemma PermutedNoDuplicates<T>(s: seq<T>, r: seq<T>)
    requires NoDuplicates(s) && multiset(r) == multiset(s)
    ensures NoDuplicates(r)
    ensures forall x :: x in r <==> x in s
  {
    forall i, j | 0 <= i < j < |r|
      ensures r[i] != r[j]
    {
      CountedOnce(s, r[i]);
      if r[i] == r[j] {
        CountedTwice(r, i, j);
      }
    }
    forall x
      ensures x in r <==> x in s
    {
      assert x in r <==> x in multiset(r);
      assert x in s <==> x in multiset(s);
    }
  }
}
