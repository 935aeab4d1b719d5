/**
  A single caller issuing Backend calls one at a time, the only use under
  which the wait-before-submit discipline of the backend is sound. Each call
  carries the engine outcomes it will meet.
 */
module Session {
  import opened Wrappers
  import opened Engine
  import opened AioFile

  /** One Backend call with its arguments and the engine's answers. */
  datatype Call =
    | WriteCall(buf: seq<byte>, offset: int64, fua: bool, script: Script)
    | ReadCall(buf: seq<byte>, offset: int64, script: Script)
    | TrimCall(length: int, offset: int64)
    | FlushCall(st: Status)
    | CloseCall(st: Status)
    | GeometryCall
    | HasFuaCall
    | HasFlushCall

  /** What one Backend call returned. */
  datatype Answer =
    | Io(reply: Reply)
    | Outcome(err: Option<Err>)
    | Geo(geometry: GeometryReply)
    | Flag(value: bool)

  /** A read or write submitted under `RanProtocol` was preceded by a
      successful drain. */
  lemma ProtocolWaitsBeforeSubmit(seg: seq<Event>, req: Req, fua: bool)
    requires RanProtocol(seg, Protocol(req.dir, req.offset, req.len, req.id, fua))
    ensures WaitsBeforeSubmit(seg)
  {
  }

  /** Perform one call. */
  function Apply(b: Backend, c: Call): (r: (Backend, Answer))
    ensures r.0.size == b.size && b.aio.log <= r.0.aio.log
    ensures OneInFlight(b.aio) ==> OneInFlight(r.0.aio)
    ensures WaitsBeforeSubmit(Segment(b, r.0))
    ensures c.TrimCall? || c.GeometryCall? || c.HasFuaCall? || c.HasFlushCall? ==> r.0 == b
  {
    match c
    case WriteCall(buf, offset, fua, script) =>
      var (b', reply) := WriteAt(b, buf, offset, fua, script);
      WriteRunsProtocol(b, buf, offset, fua, script);
      ProtocolWaitsBeforeSubmit(Segment(b, b'), Req(b.aio.nextId, Write, offset as int, |buf|), fua);
      (b', Io(reply))
    case ReadCall(buf, offset, script) =>
      var (b', reply) := ReadAt(b, buf, offset, script);
      ReadRunsProtocol(b, buf, offset, script);
      ProtocolWaitsBeforeSubmit(Segment(b, b'), Req(b.aio.nextId, Read, offset as int, |buf|), false);
      (b', Io(reply))
    case TrimCall(length, offset) =>
      var (b', reply) := TrimAt(b, length, offset);
      (b', Io(reply))
    case FlushCall(st) =>
      var (b', err) := AioFile.Flush(b, st);
      (b', Outcome(err))
    case CloseCall(st) =>
      var (b', err) := AioFile.Close(b, st);
      (b', Outcome(err))
    case GeometryCall => (b, Geo(Geometry(b)))
    case HasFuaCall => (b, Flag(HasFua(b)))
    case HasFlushCall => (b, Flag(HasFlush(b)))
  }

  /** Perform `calls` in order, one at a time, collecting their answers. The
      size captured at construction never changes, the engine's log only
      grows, and the single-outstanding-request invariant is kept. */
  function Run(b: Backend, calls: seq<Call>): (r: (Backend, seq<Answer>))
    ensures |r.1| == |calls|
    ensures r.0.size == b.size && b.aio.log <= r.0.aio.log
    ensures OneInFlight(b.aio) ==> OneInFlight(r.0.aio)
    decreases |calls|
  {
    if calls == [] then (b, [])
    else
      var (b1, answer) := Apply(b, calls[0]);
      var (b2, answers) := Run(b1, calls[1..]);
      (b2, [answer] + answers)
  }

  /** Over any sequence of calls, every submission the engine receives is
      immediately preceded by a successful drain. */
  lemma {:induction false} RunWaitsBeforeSubmit(b: Backend, calls: seq<Call>)
    requires WaitsBeforeSubmit(b.aio.log)
    ensures WaitsBeforeSubmit(Run(b, calls).0.aio.log)
    decreases |calls|
  {
    if calls != [] {
      var b1 := Apply(b, calls[0]).0;
      assert b1.aio.log == b.aio.log + Segment(b, b1);
      WaitsBeforeSubmitAppend(b.aio.log, Segment(b, b1));
      RunWaitsBeforeSubmit(b1, calls[1..]);
    }
  }

  /** A backend built by the constructor reports, after any sequence of calls,
      the size the metadata query gave and the fixed block sizes, and its
      engine has kept the single-outstanding-request discipline throughout. */
  lemma ConstructedSessionInvariant(ec: ExportConfig, isTrue: string -> Parsed, open: Status, stat: StatOutcome,
                                    release: Status, calls: seq<Call>)
    requires NewAioFileBackend(ec, isTrue, open, stat, release).result.Success?
    ensures var b := NewAioFileBackend(ec, isTrue, open, stat, release).result.value;
      var end := Run(b, calls).0;
      && Geometry(end) == GeometryReply(ToUint64(stat.size), 1, 32768, 134217728, None)
      && OneInFlight(end.aio)
      && WaitsBeforeSubmit(end.aio.log)
  {
    var b := NewAioFileBackend(ec, isTrue, open, stat, release).result.value;
    RunWaitsBeforeSubmit(b, calls);
  }
}
