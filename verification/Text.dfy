/** ASCII text as the catalog uses it: trimming, lower case, and the byte order of ids. */
module Text {

  predicate IsSpace(c: char) {
    c == ' ' || '\U{9}' <= c <= '\r'
  }

  function LowerChar(c: char): char {
    if 'A' <= c <= 'Z' then (c as int + 32) as char else c
  }

  function Lower(s: string): (r: string)
    ensures |r| == |s| && forall i | 0 <= i < |s| :: r[i] == LowerChar(s[i])
  {
    seq(|s|, i requires 0 <= i < |s| => LowerChar(s[i]))
  }

  function TrimLeft(s: string): (r: string)
    ensures r == [] || !IsSpace(r[0])
    ensures s == [] || !IsSpace(s[0]) ==> r == s
    ensures |r| <= |s| && r == s[|s| - |r|..]
  {
    if s != [] && IsSpace(s[0]) then TrimLeft(s[1..]) else s
  }

  function TrimRight(s: string): (r: string)
    ensures r == [] || !IsSpace(r[|r| - 1])
    ensures s == [] || !IsSpace(s[|s| - 1]) ==> r == s
    ensures |r| <= |s| && r == s[..|r|]
  {
    if s != [] && IsSpace(s[|s| - 1]) then TrimRight(s[..|s| - 1]) else s
  }

  function TrimSpace(s: string): string { TrimRight(TrimLeft(s)) }

  /** What the catalog does to every id, site, kind and cursor it is given. */
  function Normal(s: string): string { Lower(TrimSpace(s)) }

  predicate Trimmed(s: string) {
    s == [] || (!IsSpace(s[0]) && !IsSpace(s[|s| - 1]))
  }

  lemma TrimmedIsKept(s: string)
    requires Trimmed(s)
    ensures TrimSpace(s) == s
  {
    hide IsSpace, TrimLeft, TrimRight;
  }

  lemma TrimSpaceTrims(s: string)
    ensures Trimmed(TrimSpace(s))
  {
    hide IsSpace, TrimLeft, TrimRight;
    var left := TrimLeft(s);
    var both := TrimRight(left);
    if both != [] {
      assert both[0] == left[0];
    }
  }

  const SPACES := [' ', '\t', '\n', '\U{B}', '\U{C}', '\r']

  predicate AllSpaces(s: string) { forall i | 0 <= i < |s| :: s[i] in SPACES }

  lemma SpacesAreSpaces(c: char)
    ensures IsSpace(c) <==> c in SPACES
  {
    if IsSpace(c) {
      assert c == SPACES[if c == ' ' then 0 else c as int - 8];
    }
  }

  lemma {:induction false} TrimLeftTakesSpaces(s: string)
    ensures AllSpaces(s[..|s| - |TrimLeft(s)|])
  {
    hide IsSpace;
    if s != [] && IsSpace(s[0]) {
      TrimLeftTakesSpaces(s[1..]);
      SpacesAreSpaces(s[0]);
      var n := |s| - |TrimLeft(s)|;
      assert s[..n] == [s[0]] + s[1..][..n - 1];
    }
  }

  lemma {:induction false} TrimRightTakesSpaces(s: string)
    ensures AllSpaces(s[|TrimRight(s)|..])
  {
    hide IsSpace;
    if s != [] && IsSpace(s[|s| - 1]) {
      var j := |s| - 1;
      TrimRightTakesSpaces(s[..j]);
      SpacesAreSpaces(s[j]);
      assert s[|TrimRight(s)|..] == s[..j][|TrimRight(s)|..] + [s[j]];
    }
  }

  lemma TrimmedEdges(t: string)
    requires Trimmed(t) && t != []
    ensures t[0] !in SPACES && t[|t| - 1] !in SPACES
  {
    hide IsSpace;
    SpacesAreSpaces(t[0]);
    SpacesAreSpaces(t[|t| - 1]);
  }

  lemma TrimParts(s: string)
    ensures var t := TrimLeft(s); var u := TrimRight(t); s == s[..|s| - |t|] + u + t[|u|..]
  {
    hide IsSpace, TrimLeft, TrimRight;
    ThreeParts(s, |s| - |TrimLeft(s)|, |TrimRight(TrimLeft(s))|);
  }

  lemma ThreeParts(s: string, n: nat, m: nat)
    requires n + m <= |s|
    ensures s == s[..n] + s[n..][..m] + s[n..][m..]
  {
  }

  /** Trimming takes white space off both ends, nothing else, and all of it. */
  lemma TrimSpaceTakesSpaces(s: string) returns (left: string, right: string)
    ensures s == left + TrimSpace(s) + right && AllSpaces(left) && AllSpaces(right)
    ensures var t := TrimSpace(s); t == [] || (t[0] !in SPACES && t[|t| - 1] !in SPACES)
  {
    hide IsSpace, AllSpaces, TrimLeft, TrimRight, Trimmed;
    var t := TrimLeft(s);
    left, right := s[..|s| - |t|], t[|TrimRight(t)|..];
    TrimParts(s);
    TrimLeftTakesSpaces(s);
    TrimRightTakesSpaces(t);
    TrimSpaceTrims(s);
    if TrimSpace(s) != [] {
      TrimmedEdges(TrimSpace(s));
    }
  }

  /** n characters in the order of their codes. */
  function Range(first: char, n: nat): (s: string)
    requires first as int + n < 0xD800
    ensures |s| == n && forall i | 0 <= i < n :: s[i] as int == first as int + i
  {
    seq(n, i requires 0 <= i < n => (first as int + i) as char)
  }

  lemma InRange(first: char, n: nat, c: char)
    requires first as int + n < 0xD800
    ensures c in Range(first, n) <==> first as int <= c as int < first as int + n
  {
    hide Range;
    var s := Range(first, n);
    if first as int <= c as int < first as int + n {
      assert s[c as int - first as int] == c;
    }
  }

  const UPPER := Range('A', 26)
  const LOWER := Range('a', 26)
  const DIGITS := Range('0', 10)

  /** Every capital letter becomes its small one, and nothing else changes. */
  lemma LowerByLetter(s: string, i: nat)
    requires i < |s|
    ensures |Lower(s)| == |s|
    ensures forall k | 0 <= k < 26 :: s[i] == UPPER[k] ==> Lower(s)[i] == LOWER[k]
    ensures s[i] !in UPPER ==> Lower(s)[i] == s[i]
  {
    hide Range;
    InRange('A', 26, s[i]);
  }

  /** Normalising twice is normalising once. */
  lemma NormalIsIdempotent(s: string)
    ensures Normal(Normal(s)) == Normal(s) && TrimSpace(Normal(s)) == Normal(s)
  {
    hide LowerChar, IsSpace, TrimSpace;
    var t := TrimSpace(s);
    TrimSpaceTrims(s);
    forall i | 0 <= i < |t|
      ensures LowerChar(LowerChar(t[i])) == LowerChar(t[i]) && (IsSpace(LowerChar(t[i])) <==> IsSpace(t[i]))
    {
      LowerCharTwice(t[i]);
    }
    TrimmedIsKept(Lower(t));
    assert Lower(Lower(t)) == Lower(t);
  }

  lemma LowerCharTwice(c: char)
    ensures LowerChar(LowerChar(c)) == LowerChar(c)
    ensures IsSpace(LowerChar(c)) <==> IsSpace(c)
  {
  }

  // ---------------------------------------------------------------- byte order

  predicate Less(a: string, b: string) {
    b != [] && (a == [] || a[0] < b[0] || (a[0] == b[0] && Less(a[1..], b[1..])))
  }

  lemma {:induction false} LessIsTotal(a: string, b: string)
    ensures Less(a, b) || Less(b, a) || a == b
    ensures !(Less(a, b) && Less(b, a)) && !Less(a, a)
  {
    if a != [] {
      LessIsTotal(a[1..], if b != [] then b[1..] else []);
      LessIsTotal(a[1..], a[1..]);
      assert a == [a[0]] + a[1..];
      if b != [] {
        assert b == [b[0]] + b[1..];
      }
    }
  }

  lemma {:induction false} LessIsTransitive(a: string, b: string, c: string)
    requires Less(a, b) && Less(b, c)
    ensures Less(a, c)
  {
    if a != [] && a[0] == b[0] == c[0] {
      LessIsTransitive(a[1..], b[1..], c[1..]);
    }
  }

  /** a is a proper prefix of b, or is smaller where they first differ. */
  ghost predicate Precedes(a: string, b: string) {
    || (|a| < |b| && a == b[..|a|])
    || (exists i :: SmallerAt(a, b, i))
  }

  ghost predicate SmallerAt(a: string, b: string, i: int) {
    0 <= i < |a| && i < |b| && a[..i] == b[..i] && a[i] < b[i]
  }

  lemma PrecedesTail(a: string, b: string)
    requires a != [] && b != [] && a[0] == b[0]
    ensures Precedes(a, b) <==> Precedes(a[1..], b[1..])
  {
    var a', b' := a[1..], b[1..];
    assert a == [a[0]] + a' && b == [b[0]] + b';
    if |a| <= |b| {
      assert b[..|a|] == [b[0]] + b'[..|a'|];
    }
    if i :| SmallerAt(a', b', i) {
      assert a[..i + 1] == [a[0]] + a'[..i] && b[..i + 1] == [b[0]] + b'[..i];
      assert SmallerAt(a, b, i + 1);
    }
    if i :| SmallerAt(a, b, i) {
      assert a'[..i - 1] == a[..i][1..] && b'[..i - 1] == b[..i][1..];
      assert SmallerAt(a', b', i - 1);
    }
  }

  lemma FirstDifference(a: string, b: string)
    requires a != [] && b != []
    ensures forall i | SmallerAt(a, b, i) :: i == 0 || a[0] == b[0]
  {
    forall i | SmallerAt(a, b, i)
      ensures i == 0 || a[0] == b[0]
    {
      assert i == 0 || (a[..i][0] == a[0] && b[..i][0] == b[0]);
    }
  }

  /** Byte order: a proper prefix comes first, and otherwise the first difference decides. */
  lemma {:induction false} LessMeansPrecedes(a: string, b: string)
    ensures Less(a, b) <==> Precedes(a, b)
  {
    if a == [] || b == [] {
      assert a == [] ==> a == b[..0];
    } else if a[0] == b[0] {
      PrecedesTail(a, b);
      LessMeansPrecedes(a[1..], b[1..]);
    } else {
      assert a[..0] == b[..0];
      assert a[0] < b[0] ==> SmallerAt(a, b, 0);
      FirstDifference(a, b);
      assert |a| <= |b| ==> b[..|a|][0] == b[0];
    }
  }

  ghost predicate Ascending(s: seq<string>) {
    forall i, j | 0 <= i < j < |s| :: Less(s[i], s[j])
  }

  /** Two ascending lists of the same ids are the same list. */
  lemma {:induction false} AscendingIsUnique(s: seq<string>, t: seq<string>)
    requires Ascending(s) && Ascending(t)
    requires forall x :: x in s <==> x in t
    ensures s == t
  {
    if s == [] {
      HasMember(t);
    } else {
      assert s[0] in t;
      FirstIsLeast(s, t);
      FirstIsLeast(t, s);
      LessIsTotal(s[0], t[0]);
      forall x
        ensures x in s[1..] <==> x in t[1..]
      {
        TailMembers(s, x);
        TailMembers(t, x);
      }
      AscendingIsUnique(s[1..], t[1..]);
      assert s == [s[0]] + s[1..] && t == [t[0]] + t[1..];
    }
  }

  lemma HasMember(s: seq<string>)
    ensures s != [] ==> exists x :: x in s
  {
    if s != [] {
      assert s[0] in s;
    }
  }

  lemma FirstIsLeast(s: seq<string>, t: seq<string>)
    requires Ascending(s) && s != [] && t != [] && t[0] in s
    ensures s[0] == t[0] || Less(s[0], t[0])
  {
  }

  lemma TailMembers(s: seq<string>, x: string)
    requires Ascending(s) && s != []
    ensures x in s[1..] <==> x in s && x != s[0]
  {
    LessIsTotal(s[0], s[0]);
  }
}
