/** Regular expressions, as far as the catalog needs them: what it means for a string to match one. */
module Patterns {
  import opened Text

  /** One character of a class, one pattern after another, or between lo and hi times the same. */
  datatype Pattern =
    | Class(chars: string)
    | Then(first: Pattern, second: Pattern)
    | Times(once: Pattern, lo: nat, hi: nat)

  ghost predicate Matches(p: Pattern, s: string)
    decreases p, 0
  {
    match p
    case Class(chars) => |s| == 1 && s[0] in chars
    case Then(first, second) => exists i :: 0 <= i <= |s| && Matches(first, s[..i]) && Matches(second, s[i..])
    case Times(once, lo, hi) => exists n: nat :: lo <= n <= hi && Repeated(once, n, s)
  }

  ghost predicate Repeated(p: Pattern, n: nat, s: string)
    decreases p, n + 1
  {
    if n == 0 then s == ""
    else exists i :: 0 <= i <= |s| && Matches(p, s[..i]) && Repeated(p, n - 1, s[i..])
  }

  /** Every character is of the class. */
  predicate AllOf(chars: string, s: string) { forall i | 0 <= i < |s| :: s[i] in chars }

  lemma {:induction false} RepeatedClass(chars: string, n: nat, s: string)
    ensures Repeated(Class(chars), n, s) <==> |s| == n && AllOf(chars, s)
  {
    if n > 0 {
      if |s| == n {
        RepeatedClass(chars, n - 1, s[1..]);
        assert s == s[..1] + s[1..];
      }
      forall i | 0 <= i <= |s| && Matches(Class(chars), s[..i]) && Repeated(Class(chars), n - 1, s[i..])
        ensures |s| == n && AllOf(chars, s)
      {
        RepeatedClass(chars, n - 1, s[i..]);
        assert i == 1 && s == s[..1] + s[1..];
      }
      if |s| == n && AllOf(chars, s) {
        assert Matches(Class(chars), s[..1]) && Repeated(Class(chars), n - 1, s[1..]);
      }
    }
  }

  lemma TimesClass(chars: string, lo: nat, hi: nat, s: string)
    ensures Matches(Times(Class(chars), lo, hi), s) <==> lo <= |s| <= hi && AllOf(chars, s)
  {
    hide Repeated;
    RepeatedClass(chars, |s|, s);
    forall n: nat | lo <= n <= hi && Repeated(Class(chars), n, s)
      ensures n == |s| && AllOf(chars, s)
    {
      RepeatedClass(chars, n, s);
    }
  }

  /** A character of one class followed by lo to hi characters of another. */
  lemma FirstAndRest(first: string, rest: string, lo: nat, hi: nat, s: string)
    ensures Matches(Then(Class(first), Times(Class(rest), lo, hi)), s)
       <==> |s| >= 1 && s[0] in first && lo <= |s| - 1 <= hi && AllOf(rest, s[1..])
  {
    forall i | 0 <= i <= |s| && Matches(Class(first), s[..i])
      ensures i == 1 && s[0] in first
    {
    }
    if |s| >= 1 {
      TimesClass(rest, lo, hi, s[1..]);
      assert s[..1] == [s[0]];
      assert Matches(Class(first), s[..1]) <==> s[0] in first;
    }
  }
}
