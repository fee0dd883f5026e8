/** Errors as values: a chain of wrappers around a cause, searched the way errors.Is and errors.As do. */
module Errors {
  import opened Options

  datatype Err =
    | ContextCanceled
    | DeadlineExceeded
    | BreakerOpen
    | Failed(code: int)
    | Wrapped(inner: Err)
    | Permanent(inner: Err)

  /** errors.Is: the target occurs in the chain. */
  predicate Is(e: Err, target: Err) {
    e == target || ((e.Wrapped? || e.Permanent?) && Is(e.inner, target))
  }

  /** errors.As for *Permanent: the error carried by the outermost Permanent of the chain. */
  function AsPermanent(e: Err): Option<Err> {
    match e
    case Permanent(inner) => Some(inner)
    case Wrapped(inner) => AsPermanent(inner)
    case _ => None
  }

  // ---------------------------------------------------------------- chains

  /** The error, what it wraps, what that wraps, and so on. */
  function Chain(e: Err): seq<Err> {
    [e] + match e
          case Wrapped(inner) => Chain(inner)
          case Permanent(inner) => Chain(inner)
          case _ => []
  }

  lemma {:induction false} IsMeansInChain(e: Err, target: Err)
    ensures Is(e, target) <==> target in Chain(e)
  {
    if e.Wrapped? || e.Permanent? {
      IsMeansInChain(e.inner, target);
    }
  }

  /** No error of the chain is a Permanent. */
  ghost predicate NoPermanent(e: Err) {
    forall i | 0 <= i < |Chain(e)| :: !Chain(e)[i].Permanent?
  }

  /** Entry i of the chain is its outermost Permanent, and carries the given error. */
  ghost predicate OutermostPermanent(chain: seq<Err>, i: nat, carried: Err) {
    i < |chain| && chain[i] == Permanent(carried) && forall j | 0 <= j < i :: !chain[j].Permanent?
  }

  lemma {:induction false} AsPermanentIsNone(e: Err)
    ensures AsPermanent(e).None? ==> NoPermanent(e)
  {
    if e.Wrapped? {
      AsPermanentIsNone(e.inner);
      assert forall i | 0 < i < |Chain(e)| :: Chain(e)[i] == Chain(e.inner)[i - 1];
    }
  }

  lemma {:induction false} AsPermanentIsSome(e: Err) returns (i: nat)
    ensures AsPermanent(e).Some? ==> OutermostPermanent(Chain(e), i, AsPermanent(e).value)
  {
    i := 0;
    if e.Wrapped? {
      i := AsPermanentIsSome(e.inner);
      i := i + 1;
      assert forall j | 0 < j < |Chain(e)| :: Chain(e)[j] == Chain(e.inner)[j - 1];
    }
  }

  /** A chain with a Permanent yields the error carried by the outermost one, and only such a chain does. */
  lemma AsPermanentMeansOutermost(e: Err) returns (i: nat)
    ensures AsPermanent(e).None? <==> NoPermanent(e)
    ensures AsPermanent(e).Some? ==> OutermostPermanent(Chain(e), i, AsPermanent(e).value)
  {
    hide Chain, AsPermanent;
    i := AsPermanentIsSome(e);
    AsPermanentIsNone(e);
  }
}
