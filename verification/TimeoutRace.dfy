/**
 The race for one response between a handler and its timeout: `responseRecorder` of
 internal/platform/httpx/response.go and the `Timeout` middleware of middleware.go.

 The recorder's lock covers only its flags; the calls on the underlying writer happen outside it. So
 a handler's WriteHeader is two steps and a Write up to four, and the timeout can act between any two.
 */
module TimeoutRace {

  const STATUS_OK := 200
  const STATUS_GATEWAY_TIMEOUT := 504

  /** The guarded fields of the recorder. */
  datatype Flags = Flags(status: int, written: nat, wroteHeader: bool, timedOut: bool)

  const NEW_RECORDER := Flags(STATUS_OK, 0, false, false)

  // ---------------------------------------------------------------- the locked sections

  /** Claim the header for the handler; false when somebody owns the response already. */
  function ClaimHeader(f: Flags, code: int): (Flags, bool) {
    if f.wroteHeader || f.timedOut then (f, false) else (f.(wroteHeader := true, status := code), true)
  }

  /** How a Write may go on: drop the bytes, send the implied header first, or send the body. */
  datatype Permit = Drop | HeaderFirst | BodyOnly

  function ClaimWrite(f: Flags): (Flags, Permit) {
    if f.timedOut then (f, Drop)
    else if !f.wroteHeader then (f.(wroteHeader := true, status := STATUS_OK), HeaderFirst)
    else (f, BodyOnly)
  }

  function MarkTimedOut(f: Flags): (Flags, bool) {
    if f.wroteHeader then (f, false) else (f.(timedOut := true), true)
  }

  class ResponseRecorder {
    var status: int
    var written: nat
    var wroteHeader: bool
    var timedOut: bool

    ghost function View(): Flags
      reads this
    {
      Flags(status, written, wroteHeader, timedOut)
    }

    constructor ()
      ensures View() == Flags(200, 0, false, false)
    {
      status, written, wroteHeader, timedOut := STATUS_OK, 0, false, false;
    }

    method WriteHeaderLocked(code: int) returns (proceed: bool)
      modifies this
      ensures (View(), proceed) == ClaimHeader(old(View()), code)
    {
      if wroteHeader || timedOut {
        return false;
      }
      wroteHeader := true;
      status := code;
      return true;
    }

    method WriteLocked() returns (permit: Permit)
      modifies this
      ensures (View(), permit) == ClaimWrite(old(View()))
    {
      if timedOut {
        return Drop;
      }
      if !wroteHeader {
        wroteHeader := true;
        status := STATUS_OK;
        return HeaderFirst;
      }
      return BodyOnly;
    }

    method CountLocked(n: nat)
      modifies this
      ensures View() == old(View()).(written := old(View()).written + n)
    {
      written := written + n;
    }

    method TryTimeOut() returns (claimed: bool)
      modifies this
      ensures (View(), claimed) == MarkTimedOut(old(View()))
    {
      if wroteHeader {
        return false;
      }
      timedOut := true;
      return true;
    }
  }

  // ---------------------------------------------------------------- the two goroutines

  datatype Side = Handler | Timeout

  type Bytes = seq<bv8>

  /** A call on the underlying writer, which may take fewer bytes of a body than it is given. */
  datatype Output = Header(side: Side, code: int) | Body(side: Side, data: Bytes, taken: nat)

  /** Where the handler is: between calls, or with a step of a call still to make. */
  datatype HandlerAt =
    | Idle | HeaderDue(code: int) | ImpliedHeaderDue(data: Bytes) | BodyDue(data: Bytes) | CountDue(taken: nat)
    | Returned

  /** Where the middleware is: waiting, writing the problem response, or done. */
  datatype TimeoutAt = Waiting | ProblemHeaderDue | ProblemBodyDue | Finished

  datatype Race = Race(flags: Flags, handler: HandlerAt, timeout: TimeoutAt, output: seq<Output>)

  datatype Move =
    | CallWriteHeader(code: int) | CallWrite(data: Bytes) | EmitHeader | EmitBody(taken: nat) | Count | Return
    | SeeDone | SeeDeadline | EmitProblemHeader | EmitProblemBody(problem: Bytes, taken: nat)

  const START := Race(NEW_RECORDER, Idle, Waiting, [])

  predicate CanMove(r: Race, m: Move) {
    match m
    case CallWriteHeader(_) => r.handler.Idle?
    case CallWrite(_) => r.handler.Idle?
    case EmitHeader => r.handler.HeaderDue? || r.handler.ImpliedHeaderDue?
    case EmitBody(n) => r.handler.BodyDue? && n <= |r.handler.data|
    case Count => r.handler.CountDue?
    case Return => r.handler.Idle?
    case SeeDone => r.timeout.Waiting? && r.handler.Returned?
    case SeeDeadline => r.timeout.Waiting?
    case EmitProblemHeader => r.timeout.ProblemHeaderDue?
    case EmitProblemBody(problem, n) => r.timeout.ProblemBodyDue? && n <= |problem|
  }

  function Apply(r: Race, m: Move): Race
    requires CanMove(r, m)
  {
    match m
    case CallWriteHeader(code) =>
      var (f, proceed) := ClaimHeader(r.flags, code);
      r.(flags := f, handler := if proceed then HeaderDue(code) else Idle)
    case CallWrite(data) =>
      var (f, permit) := ClaimWrite(r.flags);
      r.(flags := f,
         handler := match permit
                    case Drop => Idle
                    case HeaderFirst => ImpliedHeaderDue(data)
                    case BodyOnly => BodyDue(data))
    case EmitHeader =>
      if r.handler.HeaderDue? then r.(handler := Idle, output := r.output + [Header(Handler, r.handler.code)])
      else r.(handler := BodyDue(r.handler.data), output := r.output + [Header(Handler, STATUS_OK)])
    case EmitBody(n) => r.(handler := CountDue(n), output := r.output + [Body(Handler, r.handler.data, n)])
    case Count => r.(handler := Idle, flags := r.flags.(written := r.flags.written + r.handler.taken))
    case Return => r.(handler := Returned)
    case SeeDone => r.(timeout := Finished)
    case SeeDeadline =>
      var (f, claimed) := MarkTimedOut(r.flags);
      r.(flags := f, timeout := if claimed then ProblemHeaderDue else Finished)
    case EmitProblemHeader =>
      r.(timeout := ProblemBodyDue, output := r.output + [Header(Timeout, STATUS_GATEWAY_TIMEOUT)])
    case EmitProblemBody(problem, n) => r.(timeout := Finished, output := r.output + [Body(Timeout, problem, n)])
  }

  ghost predicate CanPlay(r: Race, moves: seq<Move>)
    decreases |moves|
  {
    moves == [] || (CanMove(r, moves[0]) && CanPlay(Apply(r, moves[0]), moves[1..]))
  }

  ghost function Play(r: Race, moves: seq<Move>): Race
    requires CanPlay(r, moves)
    decreases |moves|
  {
    if moves == [] then r else Play(Apply(r, moves[0]), moves[1..])
  }

  // ---------------------------------------------------------------- what every interleaving keeps

  /** The bytes that the writer has taken. */
  function BodyBytes(output: seq<Output>): nat {
    if output == [] then 0
    else BodyBytes(output[..|output| - 1]) + var last := output[|output| - 1]; if last.Body? then last.taken else 0
  }

  lemma BodyBytesAppend(output: seq<Output>, o: Output)
    ensures BodyBytes(output + [o]) == BodyBytes(output) + if o.Body? then o.taken else 0
  {
    assert (output + [o])[..|output|] == output;
  }

  /** One header, first of all, and every line from the same side. */
  ghost predicate OneResponse(output: seq<Output>, side: Side) {
    && (forall i | 0 <= i < |output| :: output[i].side == side)
    && (forall i | 0 <= i < |output| :: output[i].Header? <==> i == 0)
  }

  /** The handler owns the response, and has sent its header unless that is the step it is at. */
  ghost predicate HandlerOwns(r: Race) {
    && !r.flags.timedOut && (r.timeout.Waiting? || r.timeout.Finished?)
    && OneResponse(r.output, Handler)
    && (if r.handler.HeaderDue? || r.handler.ImpliedHeaderDue? then r.output == []
        else r.output != [] && r.output[0].code == r.flags.status)
    && (r.handler.HeaderDue? ==> r.handler.code == r.flags.status)
    && (r.handler.ImpliedHeaderDue? ==> r.flags.status == STATUS_OK)
    && r.flags.written + (if r.handler.CountDue? then r.handler.taken else 0) == BodyBytes(r.output)
  }

  /** The timeout owns the response, and has sent as much of it as its position says. */
  ghost predicate TimeoutOwns(r: Race) {
    && !r.flags.wroteHeader && (r.handler.Idle? || r.handler.Returned?)
    && r.flags.written == 0 && r.flags.status == STATUS_OK
    && OneResponse(r.output, Timeout)
    && |r.output| == (match r.timeout case ProblemHeaderDue => 0 case ProblemBodyDue => 1 case _ => 2)
    && !r.timeout.Waiting?
    && (r.output != [] ==> r.output[0].code == STATUS_GATEWAY_TIMEOUT)
  }

  ghost predicate NobodyOwns(r: Race) {
    && (r.handler.Idle? || r.handler.Returned?) && (r.timeout.Waiting? || r.timeout.Finished?)
    && r.output == [] && r.flags == NEW_RECORDER
    && (r.timeout.Finished? ==> r.handler.Returned?)
  }

  ghost predicate Inv(r: Race) {
    if r.flags.wroteHeader then HandlerOwns(r)
    else if r.flags.timedOut then TimeoutOwns(r)
    else NobodyOwns(r)
  }

  lemma OneResponseGrows(output: seq<Output>, o: Output)
    requires OneResponse(output, o.side) && (o.Header? <==> output == [])
    ensures OneResponse(output + [o], o.side)
  {
  }

  lemma HandlerKeeps(r: Race, m: Move)
    requires r.flags.wroteHeader && HandlerOwns(r) && CanMove(r, m)
    ensures Inv(Apply(r, m))
  {
    hide OneResponse, BodyBytes;
    var r' := Apply(r, m);
    if m.EmitHeader? || m.EmitBody? {
      var o := r'.output[|r.output|];
      OneResponseGrows(r.output, o);
      BodyBytesAppend(r.output, o);
    }
  }

  lemma TimeoutKeeps(r: Race, m: Move)
    requires !r.flags.wroteHeader && r.flags.timedOut && TimeoutOwns(r) && CanMove(r, m)
    ensures Inv(Apply(r, m))
  {
    hide OneResponse, BodyBytes;
    var r' := Apply(r, m);
    if m.EmitProblemHeader? || m.EmitProblemBody? {
      OneResponseGrows(r.output, r'.output[|r.output|]);
    }
  }

  lemma MoveKeepsInv(r: Race, m: Move)
    requires Inv(r) && CanMove(r, m)
    ensures Inv(Apply(r, m))
  {
    if r.flags.wroteHeader {
      HandlerKeeps(r, m);
    } else if r.flags.timedOut {
      TimeoutKeeps(r, m);
    }
  }

  lemma {:induction false} PlayKeepsInv(r: Race, moves: seq<Move>)
    requires Inv(r) && CanPlay(r, moves)
    ensures Inv(Play(r, moves))
    decreases |moves|
  {
    if moves != [] {
      MoveKeepsInv(r, moves[0]);
      PlayKeepsInv(Apply(r, moves[0]), moves[1..]);
    }
  }

  /**
   In every interleaving of a handler's calls with the timeout, everything that reaches the writer
   comes from one side, with one status line ahead of any body; the recorder reports the status and
   the byte count that were really sent by the handler.
   */
  lemma OneSideOwnsTheResponse(moves: seq<Move>)
    requires CanPlay(START, moves)
    ensures var r := Play(START, moves);
      && OneResponse(r.output, if r.flags.timedOut then Timeout else Handler)
      && (r.output != [] && !r.flags.timedOut ==> r.output[0].code == r.flags.status)
      && (r.handler.Idle? || r.handler.Returned? ==>
            r.flags.written == if r.flags.timedOut then 0 else BodyBytes(r.output))
  {
    PlayKeepsInv(START, moves);
  }

  // ---------------------------------------------------------------- what the handler asked for

  /** What a call on the writer hands over. */
  datatype Sent = Status(code: int) | Content(data: Bytes)

  function SentBy(output: seq<Output>): (sent: seq<Sent>)
    ensures |sent| == |output|
    ensures forall i | 0 <= i < |output| ::
      sent[i] == if output[i].Header? then Status(output[i].code) else Content(output[i].data)
  {
    seq(|output|, i requires 0 <= i < |output| =>
          if output[i].Header? then Status(output[i].code) else Content(output[i].data))
  }

  /** The body that a handler's call asks for. */
  function BodyOf(m: Move): seq<Sent> {
    if m.CallWrite? then [Content(m.data)] else []
  }

  function Bodies(moves: seq<Move>): seq<Sent>
    decreases |moves|
  {
    if moves == [] then [] else BodyOf(moves[0]) + Bodies(moves[1..])
  }

  /**
   What the handler's calls ask for, read off the calls alone: the status of the first one, which is
   implied if that is a Write, and the body of every Write.
   */
  function Wanted(moves: seq<Move>): seq<Sent>
    decreases |moves|
  {
    if moves == [] then []
    else
      match moves[0]
      case CallWriteHeader(code) => [Status(code)] + Bodies(moves[1..])
      case CallWrite(data) => [Status(200), Content(data)] + Bodies(moves[1..])
      case _ => Wanted(moves[1..])
  }

  /** What the call that the handler is in has still to send. */
  function Pending(r: Race): seq<Sent> {
    match r.handler
    case HeaderDue(code) => [Status(code)]
    case ImpliedHeaderDue(data) => [Status(STATUS_OK), Content(data)]
    case BodyDue(data) => [Content(data)]
    case _ => []
  }

  /** What has reached the writer or is bound to. */
  function Claimed(r: Race): seq<Sent> { SentBy(r.output) + Pending(r) }

  lemma SentByAppend(output: seq<Output>, o: Output)
    ensures SentBy(output + [o])
         == SentBy(output) + [if o.Header? then Status(o.code) else Content(o.data)]
  {
  }

  lemma OwnedStep(r: Race, m: Move)
    requires r.flags.wroteHeader && HandlerOwns(r) && CanMove(r, m)
    ensures var r' := Apply(r, m); r'.flags.wroteHeader && Claimed(r') == Claimed(r) + BodyOf(m)
  {
    hide OneResponse, BodyBytes, SentBy;
    var r' := Apply(r, m);
    if m.EmitHeader? || m.EmitBody? {
      SentByAppend(r.output, r'.output[|r.output|]);
    }
  }

  lemma {:induction false} OwnedOutput(r: Race, moves: seq<Move>)
    requires r.flags.wroteHeader && Inv(r) && CanPlay(r, moves)
    ensures Claimed(Play(r, moves)) == Claimed(r) + Bodies(moves)
    decreases |moves|
  {
    hide HandlerOwns, TimeoutOwns, NobodyOwns, Apply, CanMove, Claimed, BodyOf;
    if moves != [] {
      var m, r1 := moves[0], Apply(r, moves[0]);
      MoveKeepsInv(r, m);
      OwnedStep(r, m);
      OwnedOutput(r1, moves[1..]);
      assert Claimed(r) + BodyOf(m) + Bodies(moves[1..]) == Claimed(r) + Bodies(moves);
    }
  }

  lemma {:induction false} TimedOutForGood(r: Race, moves: seq<Move>)
    requires r.flags.timedOut && CanPlay(r, moves)
    ensures Play(r, moves).flags.timedOut
    decreases |moves|
  {
    if moves != [] {
      TimedOutForGood(Apply(r, moves[0]), moves[1..]);
    }
  }

  lemma {:induction false} UnownedOutput(r: Race, moves: seq<Move>)
    requires !r.flags.wroteHeader && !r.flags.timedOut && Inv(r) && CanPlay(r, moves)
    requires !Play(r, moves).flags.timedOut
    ensures Claimed(Play(r, moves)) == Wanted(moves)
    decreases |moves|
  {
    hide OneResponse, BodyBytes;
    if moves != [] {
      var r1 := Apply(r, moves[0]);
      MoveKeepsInv(r, moves[0]);
      if r1.flags.wroteHeader {
        OwnedOutput(r1, moves[1..]);
      } else if r1.flags.timedOut {
        TimedOutForGood(r1, moves[1..]);
      } else {
        UnownedOutput(r1, moves[1..]);
      }
    }
  }

  /**
   At every moment, unless the timeout claimed the response, the calls made on the writer, and those
   that the handler's current call has still to make, are exactly what its calls so far ask for.
   */
  lemma NothingIsLost(moves: seq<Move>)
    requires CanPlay(START, moves) && !Play(START, moves).flags.timedOut
    ensures SentBy(Play(START, moves).output) + Pending(Play(START, moves)) == Wanted(moves)
  {
    UnownedOutput(START, moves);
  }

  /**
   Once both goroutines are done, the calls made on the writer are the whole problem response if the
   timeout claimed the response, and otherwise exactly what the handler asked for: the status of its
   first call and the body of every Write, in order.
   */
  lemma SettledResponse(moves: seq<Move>)
    requires CanPlay(START, moves)
    requires var r := Play(START, moves); r.timeout.Finished? && r.handler.Returned?
    ensures var r := Play(START, moves);
      if r.flags.timedOut
      then |r.output| == 2 && r.output[0] == Header(Timeout, 504) && r.output[1].Body?
      else SentBy(r.output) == Wanted(moves)
  {
    hide BodyBytes;
    PlayKeepsInv(START, moves);
    if !Play(START, moves).flags.timedOut {
      NothingIsLost(moves);
    }
  }

  // ---------------------------------------------------------------- after the middleware has returned

  /** Some continuation calls the writer again. */
  ghost predicate MayStillWrite(r: Race) {
    exists moves :: CanPlay(r, moves) && |Play(r, moves).output| > |r.output|
  }

  /** Nothing more can reach the writer: both are done, or the handler has been shut out. */
  predicate Silent(r: Race) {
    r.timeout.Finished? && (r.handler.Returned? || (r.handler.Idle? && r.flags.timedOut))
  }

  lemma {:induction false} SilentForGood(r: Race, moves: seq<Move>)
    requires Silent(r) && CanPlay(r, moves)
    ensures Play(r, moves).output == r.output
    decreases |moves|
  {
    if moves != [] {
      SilentForGood(Apply(r, moves[0]), moves[1..]);
    }
  }

  lemma PlayOn(r: Race, m: Move, moves: seq<Move>)
    requires CanMove(r, m) && CanPlay(Apply(r, m), moves)
    ensures CanPlay(r, [m] + moves) && Play(r, [m] + moves) == Play(Apply(r, m), moves)
  {
    assert ([m] + moves)[1..] == moves;
  }

  /** A handler that has the header and has not returned can always go on to write. */
  lemma {:induction false} WriteMore(r: Race) returns (moves: seq<Move>)
    requires r.flags.wroteHeader && !r.flags.timedOut && !r.handler.Returned?
    ensures CanPlay(r, moves) && |Play(r, moves).output| > |r.output|
    decreases match r.handler case CountDue(_) => 2 case Idle => 1 case _ => 0
  {
    var m := match r.handler
      case Idle => CallWrite([])
      case BodyDue(_) => EmitBody(0)
      case CountDue(_) => Count
      case _ => EmitHeader;
    var r1 := Apply(r, m);
    if |r1.output| > |r.output| {
      moves := [];
    } else {
      moves := WriteMore(r1);
    }
    PlayOn(r, m, moves);
    moves := [m] + moves;
  }

  /**
   The writer is only valid until the middleware returns. The handler can call it afterwards exactly
   when the middleware returned because it saw the deadline with the header already written and the
   handler still at work.
   */
  lemma LateOutputIff(moves: seq<Move>, m: Move)
    requires CanPlay(START, moves) && CanMove(Play(START, moves), m)
    requires !Play(START, moves).timeout.Finished? && Apply(Play(START, moves), m).timeout.Finished?
    ensures var r := Play(START, moves);
      MayStillWrite(Apply(r, m)) <==> m.SeeDeadline? && r.flags.wroteHeader && !r.handler.Returned?
  {
    hide OneResponse, BodyBytes;
    PlayKeepsInv(START, moves);
    var r := Play(START, moves);
    var r1 := Apply(r, m);
    if m.SeeDeadline? && r.flags.wroteHeader && !r.handler.Returned? {
      var more := WriteMore(r1);
    } else {
      assert Silent(r1);
      forall more | CanPlay(r1, more)
        ensures |Play(r1, more).output| == |r1.output|
      {
        SilentForGood(r1, more);
      }
    }
  }

  /** Such a run: the handler writes its header, the deadline passes, and the handler writes on. */
  lemma LateOutputHappens()
    ensures var moves := [CallWriteHeader(STATUS_OK)];
      && CanPlay(START, moves) && CanMove(Play(START, moves), SeeDeadline)
      && Apply(Play(START, moves), SeeDeadline).timeout.Finished?
      && MayStillWrite(Apply(Play(START, moves), SeeDeadline))
  {
    var m := CallWriteHeader(STATUS_OK);
    assert [m] == [m] + [];
    PlayOn(START, m, []);
    LateOutputIff([m], SeeDeadline);
  }
}
