/**
 The resilient client of internal/platform/httpx/client.go: the retry loop around the circuit
 breaker around one HTTP exchange. The exchange itself is an arbitrary outcome.
 */
module Upstream {
  import opened Options
  import opened Errors
  import CB = CircuitBreaker
  import Backoff
  import Retry

  // ---------------------------------------------------------------- one exchange

  /** What can come of one HTTP exchange. */
  datatype Exchange =
    | BadURL(err: Err)
    | TransportError(err: Err)
    | BodyError(err: Err)
    | Replied(status: int, body: string)

  datatype Response = Response(status: int, body: string)

  datatype Attempted = Got(response: Response) | Lost(err: Err)

  predicate Acceptable(status: int) { status < 500 && status != 429 }

  /** Server errors and 429 are failures worth retrying; any other reply is a result. */
  function Attempt(x: Exchange): Attempted {
    match x
    case BadURL(e) => Lost(Permanent(e))
    case TransportError(e) => Lost(e)
    case BodyError(e) => Lost(e)
    case Replied(status, body) =>
      if status >= 500 || status == 429 then Lost(Failed(status))
      else if status >= 400 then Got(Response(status, body))
      else Got(Response(status, body))
  }

  // ---------------------------------------------------------------- through the breaker

  /**
   The breaker as the loop meets it: entering may be refused, and an admitted attempt leaves with its
   outcome. Other callers may act between any two of these, so a gate is any pair of functions on any
   state.
   */
  datatype Gate<!G> = Gate(enter: (G, nat) -> (G, bool), leave: (G, nat, CB.Outcome) -> G)

  /** The captured `result`, and the gate's state. */
  datatype Client<G> = Client(gate: G, result: Option<Response>)

  /** What attempt n meets: the exchange, and the context's error once it is over. */
  datatype Script = Script(exchange: nat -> Exchange, ctxErr: nat -> Option<Err>)

  function ErrorOf(a: Attempted): Option<Err> {
    if a.Got? then None else Some(a.err)
  }

  /** The closure given to the retry loop. */
  function Once<G>(gate: Gate<G>, script: Script, c: Client<G>, n: nat): (Client<G>, Option<Err>) {
    var (g, admitted) := gate.enter(c.gate, n);
    if !admitted then (Client(g, c.result), Some(BreakerOpen))
    else
      var attempted := Attempt(script.exchange(n));
      var err := ErrorOf(attempted);
      (Client(gate.leave(g, n, CB.Verdict(err, script.ctxErr(n))),
              if attempted.Got? then Some(attempted.response) else c.result),
       err)
  }

  function Closure<G>(gate: Gate<G>, script: Script): Retry.Call<Client<G>> {
    (c: Client<G>, n: nat) => Once(gate, script, c, n)
  }

  // ---------------------------------------------------------------- the call

  datatype Unavailable = Unavailable(breakerOpen: bool)

  datatype Label = Success | BreakerWasOpen | Error | ServerError | ClientError

  /** The outcome label of the request counter. */
  function LabelOf(err: Option<Err>, result: Option<Response>): Label {
    if err.Some? && Is(err.value, BreakerOpen) then BreakerWasOpen
    else if err.Some? then Error
    else if result.Some? && result.value.status >= 500 then ServerError
    else if result.Some? && result.value.status >= 400 then ClientError
    else Success
  }

  // ---------------------------------------------------------------- a gate that keeps a record

  datatype Passage = Refused(n: nat) | Entered(n: nat) | Left(n: nat, outcome: CB.Outcome)

  /** A gate's state, and everything the gate has been asked and has answered. */
  datatype Recorded<G> = Recorded(inner: G, log: seq<Passage>)

  /** The given gate, writing its own record. */
  function Recording<G>(gate: Gate<G>): Gate<Recorded<G>> {
    Gate((w: Recorded<G>, n: nat) =>
           var (g, admitted) := gate.enter(w.inner, n);
           (Recorded(g, w.log + [if admitted then Entered(n) else Refused(n)]), admitted),
         (w: Recorded<G>, n: nat, o: CB.Outcome) => Recorded(gate.leave(w.inner, n, o), w.log + [Left(n, o)]))
  }

  /** What an exchange must come to: the error reported for it, and the verdict on that error. */
  ghost predicate Judged(x: Exchange, ctxErr: Option<Err>, err: Option<Err>, outcome: CB.Outcome) {
    && (match x
        case Replied(status, _) => if Acceptable(status) then err == None else err == Some(Failed(status))
        case BadURL(e) => err == Some(Permanent(e))
        case TransportError(e) => err == Some(e)
        case BodyError(e) => err == Some(e))
    && outcome == (if err.None? then CB.Outcome.Success
                   else if ctxErr.Some? && ctxErr.value in Chain(err.value) then CB.Cancelled
                   else CB.Failure)
  }

  lemma AttemptIsJudged(x: Exchange, ctxErr: Option<Err>)
    ensures var err := ErrorOf(Attempt(x)); Judged(x, ctxErr, err, CB.Verdict(err, ctxErr))
  {
    CB.VerdictMeans(ErrorOf(Attempt(x)), ctxErr);
  }

  /**
   The record of attempts 1, 2, ... with the given results: each is refused, and told so, or enters and
   then leaves exactly once, with the error and the verdict that its exchange calls for.
   */
  ghost predicate Paired(log: seq<Passage>, results: seq<Option<Err>>, script: Script)
    decreases |results|
  {
    var k := |results|;
    if k == 0 then log == []
    else
      var err, before := results[k - 1], results[..k - 1];
      || (&& |log| >= 1 && log[|log| - 1] == Refused(k) && err == Some(BreakerOpen)
          && Paired(log[..|log| - 1], before, script))
      || (&& |log| >= 2 && log[|log| - 2] == Entered(k)
          && log[|log| - 1].Left? && log[|log| - 1].n == k
          && Judged(script.exchange(k), script.ctxErr(k), err, log[|log| - 1].outcome)
          && Paired(log[..|log| - 2], before, script))
  }

  lemma RefusedIsPaired(log: seq<Passage>, results: seq<Option<Err>>, script: Script)
    requires Paired(log, results, script)
    ensures Paired(log + [Refused(|results| + 1)], results + [Some(BreakerOpen)], script)
  {
    assert (results + [Some(BreakerOpen)])[..|results|] == results;
    assert (log + [Refused(|results| + 1)])[..|log|] == log;
  }

  lemma AdmittedIsPaired(log: seq<Passage>, results: seq<Option<Err>>, script: Script)
    requires Paired(log, results, script)
    ensures
      var k := |results| + 1;
      var err := ErrorOf(Attempt(script.exchange(k)));
      Paired(log + [Entered(k), Left(k, CB.Verdict(err, script.ctxErr(k)))], results + [err], script)
  {
    hide Attempt, ErrorOf, CB.Verdict, Judged;
    var k := |results| + 1;
    var err := ErrorOf(Attempt(script.exchange(k)));
    AttemptIsJudged(script.exchange(k), script.ctxErr(k));
    assert (results + [err])[..|results|] == results;
    assert (log + [Entered(k), Left(k, CB.Verdict(err, script.ctxErr(k)))])[..|log|] == log;
  }

  lemma OnceIsPaired<G>(gate: Gate<G>, script: Script, c: Client<Recorded<G>>, results: seq<Option<Err>>)
    requires Paired(c.gate.log, results, script)
    ensures var (c', err) := Once(Recording(gate), script, c, |results| + 1);
      Paired(c'.gate.log, results + [err], script)
  {
    hide Attempt, Paired, CB.Verdict;
    var k := |results| + 1;
    var (c', err) := Once(Recording(gate), script, c, k);
    if gate.enter(c.gate.inner, k).1 {
      AdmittedIsPaired(c.gate.log, results, script);
      assert c'.gate.log == c.gate.log + [Entered(k), Left(k, CB.Verdict(err, script.ctxErr(k)))];
    } else {
      RefusedIsPaired(c.gate.log, results, script);
    }
  }

  function Start<G>(g: G): Client<Recorded<G>> { Client(Recorded(g, []), None) }

  /** Whatever the breaker does, every attempt that it admits leaves it exactly once. */
  lemma {:induction false} AttemptsArePaired<G>(gate: Gate<G>, script: Script, g: G, results: seq<Option<Err>>)
    requires forall i | 0 <= i < |results| ::
      results[i] == Retry.ResultOf(Closure(Recording(gate), script), Start(g), i + 1)
    ensures
      Paired(Retry.StateAfter(Closure(Recording(gate), script), Start(g), |results|).gate.log, results, script)
    decreases |results|
  {
    hide Once, Recording;
    var k := |results|;
    if k > 0 {
      AttemptsArePaired(gate, script, g, results[..k - 1]);
      var c := Retry.StateAfter(Closure(Recording(gate), script), Start(g), k - 1);
      OnceIsPaired(gate, script, c, results[..k - 1]);
      assert results == results[..k - 1] + [results[k - 1]];
    }
  }

  /** Keeping a record changes neither the gate, nor the captured result, nor what an attempt is told. */
  lemma {:induction false} RecordingIsSilent<G>(gate: Gate<G>, script: Script, g: G, k: nat)
    ensures
      var c := Retry.StateAfter(Closure(gate, script), Client(g, None), k);
      var w := Retry.StateAfter(Closure(Recording(gate), script), Start(g), k);
      && c == Client(w.gate.inner, w.result)
      && (k > 0 ==>
            Retry.ResultOf(Closure(gate, script), Client(g, None), k)
            == Retry.ResultOf(Closure(Recording(gate), script), Start(g), k))
  {
    hide Attempt;
    if k > 0 {
      RecordingIsSilent(gate, script, g, k - 1);
    }
  }

  // ---------------------------------------------------------------- what replies and errors lead to

  /** The breaker admits attempt k. */
  ghost predicate Enters<G>(gate: Gate<G>, script: Script, start: Client<G>, k: nat)
    requires k > 0
  {
    gate.enter(Retry.StateAfter(Closure(gate, script), start, k - 1).gate, k).1
  }

  /** What attempt k reports and leaves in `result`, by the breaker and its exchange. */
  lemma AttemptOutcome<G>(gate: Gate<G>, script: Script, start: Client<G>, k: nat)
    requires k > 0
    ensures
      var fn := Closure(gate, script);
      var before, after := Retry.StateAfter(fn, start, k - 1).result, Retry.StateAfter(fn, start, k).result;
      var err := Retry.ResultOf(fn, start, k);
      if !Enters(gate, script, start, k) then err == Some(BreakerOpen) && after == before
      else
        match script.exchange(k)
        case Replied(status, body) =>
          if Acceptable(status) then err == None && after == Some(Response(status, body))
          else err == Some(Failed(status)) && after == before
        case BadURL(e) => err == Some(Permanent(e)) && after == before
        case TransportError(e) => err == Some(e) && after == before
        case BodyError(e) => err == Some(e) && after == before
  {
  }

  /** A reply that is no server error and no 429 is the result of the call, and its last attempt. */
  lemma ReplyIsReturned<G>(cfg: Backoff.ValidConfig, world: Retry.World, gate: Gate<G>, script: Script,
                           start: Client<G>, run: Retry.Outcome<Client<G>>, k: nat)
    requires Retry.IsRun(cfg, world, Closure(gate, script), start, run)
    requires 0 < k <= |run.results| && Enters(gate, script, start, k)
    requires script.exchange(k).Replied? && Acceptable(script.exchange(k).status)
    ensures k == |run.results| && run.results[k - 1] == None && run.err == None
    ensures run.state.result == Some(Response(script.exchange(k).status, script.exchange(k).body))
  {
    hide Closure, Backoff.DelayFor;
    AttemptOutcome(gate, script, start, k);
    assert k < |run.results| ==> Retry.Continues(cfg, world, Closure(gate, script), start, k);
  }

  /** A result is the reply of the last attempt. */
  lemma ResultIsReply<G>(cfg: Backoff.ValidConfig, world: Retry.World, gate: Gate<G>, script: Script,
                         start: Client<G>, run: Retry.Outcome<Client<G>>)
    requires Retry.IsRun(cfg, world, Closure(gate, script), start, run) && run.err == None
    ensures
      var k := |run.results|;
      && k > 0 && Enters(gate, script, start, k)
      && script.exchange(k).Replied? && Acceptable(script.exchange(k).status)
      && run.state.result == Some(Response(script.exchange(k).status, script.exchange(k).body))
  {
    hide Closure, Backoff.DelayFor;
    Retry.RunContract(cfg, world, Closure(gate, script), start, run);
    AttemptOutcome(gate, script, start, |run.results|);
  }

  /** What another attempt might mend: a refusal, a server error or 429, and an error not marked permanent. */
  ghost predicate Transient<G>(gate: Gate<G>, script: Script, start: Client<G>, k: nat)
    requires k > 0
  {
    Enters(gate, script, start, k) ==>
      match script.exchange(k)
      case Replied(status, _) => status >= 500 || status == 429
      case BadURL(_) => false
      case TransportError(e) => NoPermanent(e)
      case BodyError(e) => NoPermanent(e)
  }

  /** It is followed by another attempt whenever budget, context and deadline allow. */
  lemma TransientIsRetried<G>(cfg: Backoff.ValidConfig, world: Retry.World, gate: Gate<G>, script: Script,
                              start: Client<G>, run: Retry.Outcome<Client<G>>, k: nat)
    requires Retry.IsRun(cfg, world, Closure(gate, script), start, run)
    requires 0 < k <= |run.results| && Transient(gate, script, start, k) && k < cfg.maxAttempts
    requires world(k).ctxAfter.None? && world(k).sleepErr.None? && world(k + 1).ctxBefore.None?
    requires world(k).untilDeadline.Some? ==>
      Backoff.DelayFor(cfg, k, world(k).rand) < world(k).untilDeadline.value
    ensures k < |run.results|
  {
    hide Closure, Backoff.DelayFor;
    AttemptOutcome(gate, script, start, k);
    var err := Retry.ResultOf(Closure(gate, script), start, k);
    var i := AsPermanentMeansOutermost(err.value);
  }

  /** A URL that cannot be parsed is not tried again, and its own error is reported. */
  lemma BadURLIsFinal<G>(cfg: Backoff.ValidConfig, world: Retry.World, gate: Gate<G>, script: Script,
                         start: Client<G>, run: Retry.Outcome<Client<G>>, k: nat)
    requires Retry.IsRun(cfg, world, Closure(gate, script), start, run)
    requires 0 < k <= |run.results| && Enters(gate, script, start, k) && script.exchange(k).BadURL?
    ensures k == |run.results| && run.err == Some(script.exchange(k).err)
  {
    hide Closure, Backoff.DelayFor;
    AttemptOutcome(gate, script, start, k);
    assert k < |run.results| ==> Retry.Continues(cfg, world, Closure(gate, script), start, k);
  }

  // ---------------------------------------------------------------- the whole call

  method Do<G>(config: Backoff.Config, world: Retry.World, gate: Gate<G>, script: Script, g: G)
    returns (response: Option<Response>, err: Option<Unavailable>, counted: Label,
             run: Retry.Outcome<Client<Recorded<G>>>)
    ensures Retry.IsRun(config.WithDefaults(), world, Closure(Recording(gate), script), Start(g), run)
    ensures err.None? <==> response.Some?
    ensures err.None? <==> run.err.None?
    ensures response.Some? ==> |run.results| > 0 && Acceptable(response.value.status)
    ensures response.Some? ==>
      script.exchange(|run.results|) == Replied(response.value.status, response.value.body)
    ensures err.Some? ==> (err.value.breakerOpen <==> BreakerOpen in Chain(run.err.value))
    ensures Paired(run.state.gate.log, run.results, script)
    ensures counted != ServerError
    ensures counted == ClientError <==> response.Some? && 400 <= response.value.status
    ensures counted == Label.Success <==> response.Some? && response.value.status < 400
    ensures counted == BreakerWasOpen <==> err.Some? && err.value.breakerOpen
  {
    run := Retry.Run(config, world, Closure(Recording(gate), script), Start(g));
    AttemptsArePaired(gate, script, g, run.results);
    counted := LabelOf(run.err, run.state.result);
    if run.err.Some? {
      IsMeansInChain(run.err.value, BreakerOpen);
      if Is(run.err.value, BreakerOpen) {
        return None, Some(Unavailable(true)), counted, run;
      }
      return None, Some(Unavailable(false)), counted, run;
    }
    ResultIsReply(config.WithDefaults(), world, Recording(gate), script, Start(g), run);
    return run.state.result, None, counted, run;
  }
}
