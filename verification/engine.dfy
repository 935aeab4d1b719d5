/**
  An abstract model of the asynchronous I/O engine the backend drives.

  The engine's internals are not part of this model. What is modelled is the
  interface the adapter sees: a request is submitted and receives an
  identifier, the caller later blocks on that identifier (`WaitFor`) or on
  everything outstanding (`Wait`), and the engine can be flushed and closed.
  Every call's outcome is a parameter, so a caller can be examined on every
  success-or-failure path. The engine supports one outstanding request only;
  issuing a request while another is pending is recorded in `overlapped`
  rather than refused, so that keeping it false is the caller's obligation.

  Engine assumption: a successful `Wait` leaves nothing pending, and a
  successful `WaitFor(id)` retires request `id`. A failed `Wait` or
  `WaitFor` leaves the requests in flight as they were. A failed submission
  still consumes an identifier, and counts as an overlap if issued while a
  request is pending. A failed `Close` still marks the engine closed.
 */
module Engine {

  /** An engine failure; its content is opaque to the adapter. */
  datatype Err = Err(code: int)

  /** Outcome of a call that returns only an error. */
  datatype Status = Ok | Fail(err: Err)

  /** Outcome of waiting for a request: the byte count it reports, or an error. */
  datatype Completion = Done(n: int) | Failed(err: Err)

  datatype Dir = Read | Write

  /** One submitted request: identifier, direction, file offset and buffer length. */
  datatype Req = Req(id: nat, dir: Dir, offset: int, len: nat)

  /** One engine call, as it appears in the engine's log, with its outcome. */
  datatype Event =
    | Wait(st: Status)
    | Submit(req: Req, st: Status)
    | WaitFor(id: nat, c: Completion)
    | Flush(st: Status)
    | Close(st: Status)

  /** An engine call with its outcome forgotten: what the caller asked for. */
  datatype Step = StepWait | StepSubmit(req: Req) | StepWaitFor(id: nat) | StepFlush | StepClose

  function StepOf(e: Event): Step
  {
    match e
    case Wait(_) => StepWait
    case Submit(req, _) => StepSubmit(req)
    case WaitFor(id, _) => StepWaitFor(id)
    case Flush(_) => StepFlush
    case Close(_) => StepClose
  }

  predicate Succeeded(e: Event)
  {
    match e
    case Wait(st) => st.Ok?
    case Submit(_, st) => st.Ok?
    case WaitFor(_, c) => c.Done?
    case Flush(st) => st.Ok?
    case Close(st) => st.Ok?
  }

  function ErrorOf(e: Event): Err
    requires !Succeeded(e)
  {
    match e
    case Wait(st) => st.err
    case Submit(_, st) => st.err
    case WaitFor(_, c) => c.err
    case Flush(st) => st.err
    case Close(st) => st.err
  }

  /** Engine state: requests not yet retired, whether it was closed, whether a
      request was ever issued while another was pending, the identifier the
      next request receives, and the log of every call made to it. */
  datatype Aio = Aio(inflight: seq<Req>, closed: bool, overlapped: bool, nextId: nat, log: seq<Event>)

  /** A freshly opened engine. */
  function NewAio(): Aio
  {
    Aio([], false, false, 0, [])
  }

  /** Requests of `s` whose identifier is not `id`, in order. */
  function Retire(s: seq<Req>, id: nat): (t: seq<Req>)
    ensures |t| <= |s|
    ensures forall r :: r in t <==> r in s && r.id != id
  {
    if s == [] then []
    else (if s[0].id == id then [] else [s[0]]) + Retire(s[1..], id)
  }

  /** Block until every outstanding request has completed. */
  function AioWait(a: Aio, st: Status): Aio
  {
    a.(inflight := if st.Ok? then [] else a.inflight, log := a.log + [Wait(st)])
  }

  /** Submit a request; the engine answers with the identifier it assigned. */
  function AioSubmit(a: Aio, dir: Dir, offset: int, len: nat, st: Status): (Aio, nat)
  {
    var req := Req(a.nextId, dir, offset, len);
    (a.(inflight := if st.Ok? then a.inflight + [req] else a.inflight,
        overlapped := a.overlapped || a.inflight != [],
        nextId := a.nextId + 1,
        log := a.log + [Submit(req, st)]),
     req.id)
  }

  /** Block until request `id` has completed. */
  function AioWaitFor(a: Aio, id: nat, c: Completion): Aio
  {
    a.(inflight := if c.Done? then Retire(a.inflight, id) else a.inflight, log := a.log + [WaitFor(id, c)])
  }

  /** Force written data of the underlying file to durable storage. */
  function AioFlush(a: Aio, st: Status): Aio
  {
    a.(log := a.log + [Flush(st)])
  }

  /** Release the engine and its file. */
  function AioClose(a: Aio, st: Status): Aio
  {
    a.(closed := true, log := a.log + [Close(st)])
  }

  /** The single-outstanding-request discipline, as a state invariant. */
  predicate OneInFlight(a: Aio)
  {
    |a.inflight| <= 1 && !a.overlapped
  }

  /** The same discipline read off a log: every submission is immediately
      preceded by a successful drain of the engine. */
  ghost predicate WaitsBeforeSubmit(log: seq<Event>)
  {
    forall j :: 0 <= j < |log| && log[j].Submit? ==> 0 < j && log[j - 1] == Wait(Ok)
  }

  lemma WaitsBeforeSubmitAppend(a: seq<Event>, b: seq<Event>)
    requires WaitsBeforeSubmit(a) && WaitsBeforeSubmit(b)
    ensures WaitsBeforeSubmit(a + b)
  {
  }

  /** Number of `Close` calls in a log. */
  function CloseCount(log: seq<Event>): nat
  {
    if log == [] then 0
    else (if log[0].Close? then 1 else 0) + CloseCount(log[1..])
  }

  /** Number of `Flush` calls in a log. */
  function FlushCount(log: seq<Event>): nat
  {
    if log == [] then 0
    else (if log[0].Flush? then 1 else 0) + FlushCount(log[1..])
  }

  lemma {:induction false} FlushCountAppend(a: seq<Event>, b: seq<Event>)
    ensures FlushCount(a + b) == FlushCount(a) + FlushCount(b)
  {
    if a == [] {
      assert a + b == b;
    } else {
      assert (a + b)[1..] == a[1..] + b;
      FlushCountAppend(a[1..], b);
    }
  }

  lemma {:induction false} NoFlushes(log: seq<Event>)
    requires forall i :: 0 <= i < |log| ==> !log[i].Flush?
    ensures FlushCount(log) == 0
  {
    if log != [] {
      assert !log[0].Flush?;
      NoFlushes(log[1..]);
    }
  }
}
