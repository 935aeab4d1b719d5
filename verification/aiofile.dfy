/**
  The asynchronous-I/O file backend of the NBD server (nbd/aiofile.go).

  The backend turns an engine that accepts one outstanding request into the
  synchronous Backend contract: every read or write first drains the engine,
  then submits, then blocks on the identifier it was given. Any engine failure
  aborts the call with a zero byte count and that failure. Engine outcomes
  are parameters, gathered per call in a `Script`.
 */
module AioFile {
  import opened Wrappers
  import opened Engine

  newtype byte = x: int | 0 <= x < 0x100
  newtype int64 = x: int | -0x8000_0000_0000_0000 <= x < 0x8000_0000_0000_0000
  newtype uint64 = x: int | 0 <= x < 0x1_0000_0000_0000_0000

  /** Fixed block-size policy advertised by `Geometry`. */
  const MinBlockSize: uint64 := 1
  const PreferredBlockSize: uint64 := 32 * 1024
  const MaxBlockSize: uint64 := 128 * 1024 * 1024

  /** Permission bits the file is opened with (octal 0666). */
  const FilePerm: nat := 0x1B6

  /** A backend: its engine and the file size captured when it was built. */
  datatype Backend = Backend(aio: Aio, size: uint64)

  /** Go's `(int, error)` pair returned by the data-path calls. */
  datatype Reply = Reply(n: int, err: Option<Err>)

  /** Go's `(size, minimum, preferred, maximum, error)` returned by `Geometry`. */
  datatype GeometryReply = GeometryReply(size: uint64, minBlock: uint64, preferredBlock: uint64, maxBlock: uint64, err: Option<Err>)

  /** What the engine answers, in order, during one read or write. */
  datatype Script = Script(wait: Status, submit: Status, completion: Completion, flush: Status)

  /** The engine calls a read or write makes when nothing fails: drain, submit
      request `id`, wait for `id`, and flush when durability was asked for. */
  function Protocol(dir: Dir, offset: int, len: nat, id: nat, flush: bool): seq<Step>
  {
    [StepWait, StepSubmit(Req(id, dir, offset, len)), StepWaitFor(id)] + (if flush then [StepFlush] else [])
  }

  /** `seg` performs the steps of `proto` in order and stops exactly at the
      first failure: every call but the last succeeded, and a run shorter than
      the protocol ended in a failure. */
  ghost predicate RanProtocol(seg: seq<Event>, proto: seq<Step>)
  {
    && 0 < |seg| <= |proto|
    && (forall i :: 0 <= i < |seg| ==> StepOf(seg[i]) == proto[i])
    && (forall i :: 0 <= i < |seg| - 1 ==> Succeeded(seg[i]))
    && (|seg| < |proto| ==> !Succeeded(seg[|seg| - 1]))
  }

  /** Engine calls a backend operation appended to the log. */
  function Segment(before: Backend, after: Backend): seq<Event>
    requires before.aio.log <= after.aio.log
  {
    after.aio.log[|before.aio.log|..]
  }

  /** The `(n, err)` a data-path call returns for the engine calls it made:
      the failure of the last call with a zero count, or else the count the
      completion reported. */
  ghost predicate RepliesFor(r: Reply, seg: seq<Event>)
    requires 0 < |seg|
  {
    && (r.err.None? <==> Succeeded(seg[|seg| - 1]))
    && (r.err.Some? ==> r.n == 0 && r.err.value == ErrorOf(seg[|seg| - 1]))
    && (r.err.None? ==> exists i :: 0 <= i < |seg| && seg[i].WaitFor? && seg[i].c == Done(r.n))
  }

  function WriteAt(b: Backend, buf: seq<byte>, offset: int64, fua: bool, s: Script): (r: (Backend, Reply))
    ensures r.0.size == b.size && b.aio.log <= r.0.aio.log
    ensures r.1.err.None? <==> s.wait.Ok? && s.submit.Ok? && s.completion.Done? && (fua ==> s.flush.Ok?)
    ensures r.1.err.None? ==> r.1.n == s.completion.n
    ensures r.1.err.Some? ==> r.1.n == 0
    ensures OneInFlight(b.aio) ==> OneInFlight(r.0.aio)
    ensures s.wait.Ok? && s.submit.Ok? && s.completion.Done? ==> r.0.aio.inflight == []
  {
    var a1 := AioWait(b.aio, s.wait);
    if s.wait.Fail? then (b.(aio := a1), Reply(0, Some(s.wait.err)))
    else
      var (a2, id) := AioSubmit(a1, Write, offset as int, |buf|, s.submit);
      if s.submit.Fail? then (b.(aio := a2), Reply(0, Some(s.submit.err)))
      else
        var a3 := AioWaitFor(a2, id, s.completion);
        if s.completion.Failed? then (b.(aio := a3), Reply(0, Some(s.completion.err)))
        else if !fua then (b.(aio := a3), Reply(s.completion.n, None))
        else
          var a4 := AioFlush(a3, s.flush);
          if s.flush.Fail? then (b.(aio := a4), Reply(0, Some(s.flush.err)))
          else (b.(aio := a4), Reply(s.completion.n, None))
  }

  function ReadAt(b: Backend, buf: seq<byte>, offset: int64, s: Script): (r: (Backend, Reply))
    ensures r.0.size == b.size && b.aio.log <= r.0.aio.log
    ensures r.1.err.None? <==> s.wait.Ok? && s.submit.Ok? && s.completion.Done?
    ensures r.1.err.None? ==> r.1.n == s.completion.n
    ensures r.1.err.Some? ==> r.1.n == 0
    ensures OneInFlight(b.aio) ==> OneInFlight(r.0.aio)
    ensures r.1.err.None? ==> r.0.aio.inflight == []
  {
    var a1 := AioWait(b.aio, s.wait);
    if s.wait.Fail? then (b.(aio := a1), Reply(0, Some(s.wait.err)))
    else
      var (a2, id) := AioSubmit(a1, Read, offset as int, |buf|, s.submit);
      if s.submit.Fail? then (b.(aio := a2), Reply(0, Some(s.submit.err)))
      else
        var a3 := AioWaitFor(a2, id, s.completion);
        if s.completion.Failed? then (b.(aio := a3), Reply(0, Some(s.completion.err)))
        else (b.(aio := a3), Reply(s.completion.n, None))
  }

  /** The engine calls a script produces for request `req` follow the
      protocol and stop at the first failure. */
  lemma ScriptRunsProtocol(seg: seq<Event>, req: Req, fua: bool, s: Script)
    requires seg ==
      if s.wait.Fail? then [Wait(s.wait)]
      else if s.submit.Fail? then [Wait(s.wait), Submit(req, s.submit)]
      else if s.completion.Failed? || !fua then [Wait(s.wait), Submit(req, s.submit), WaitFor(req.id, s.completion)]
      else [Wait(s.wait), Submit(req, s.submit), WaitFor(req.id, s.completion), Event.Flush(s.flush)]
    ensures RanProtocol(seg, Protocol(req.dir, req.offset, req.len, req.id, fua))
  {
  }

  /** The engine calls a write makes, in order. */
  lemma WriteSegment(b: Backend, buf: seq<byte>, offset: int64, fua: bool, s: Script)
    ensures var r := WriteAt(b, buf, offset, fua, s);
      var req := Req(b.aio.nextId, Write, offset as int, |buf|);
      Segment(b, r.0) ==
        if s.wait.Fail? then [Wait(s.wait)]
        else if s.submit.Fail? then [Wait(s.wait), Submit(req, s.submit)]
        else if s.completion.Failed? || !fua then [Wait(s.wait), Submit(req, s.submit), WaitFor(req.id, s.completion)]
        else [Wait(s.wait), Submit(req, s.submit), WaitFor(req.id, s.completion), Event.Flush(s.flush)]
  {
  }

  /** A write drains the engine, submits one write of the whole buffer, waits
      for that request and, under FUA, flushes, stopping at the first engine
      failure. */
  lemma {:induction false} WriteRunsProtocol(b: Backend, buf: seq<byte>, offset: int64, fua: bool, s: Script)
    ensures var r := WriteAt(b, buf, offset, fua, s);
      RanProtocol(Segment(b, r.0), Protocol(Write, offset as int, |buf|, b.aio.nextId, fua))
  {
    WriteSegment(b, buf, offset, fua, s);
    var r := WriteAt(b, buf, offset, fua, s);
    ScriptRunsProtocol(Segment(b, r.0), Req(b.aio.nextId, Write, offset as int, |buf|), fua, s);
  }

  /** A write's reply is the failure of the last call made with a zero count,
      or else the count the completion reported. */
  lemma {:induction false} WriteReplyFromLog(b: Backend, buf: seq<byte>, offset: int64, fua: bool, s: Script)
    ensures var r := WriteAt(b, buf, offset, fua, s);
      RepliesFor(r.1, Segment(b, r.0))
  {
    WriteSegment(b, buf, offset, fua, s);
    var r := WriteAt(b, buf, offset, fua, s);
    var seg := Segment(b, r.0);
    if s.wait.Ok? && s.submit.Ok? && s.completion.Done? {
      assert seg[2].WaitFor? && seg[2].c == s.completion;
    }
  }

  /** A write flushes exactly once when FUA was asked for and the write
      completed, and never otherwise. */
  lemma {:induction false} WriteFlushesOnce(b: Backend, buf: seq<byte>, offset: int64, fua: bool, s: Script)
    ensures var r := WriteAt(b, buf, offset, fua, s);
      FlushCount(Segment(b, r.0)) == if fua && s.wait.Ok? && s.submit.Ok? && s.completion.Done? then 1 else 0
  {
    WriteSegment(b, buf, offset, fua, s);
    var r := WriteAt(b, buf, offset, fua, s);
    var seg := Segment(b, r.0);
    if fua && s.wait.Ok? && s.submit.Ok? && s.completion.Done? {
      assert seg == seg[..3] + [seg[3]];
      FlushCountAppend(seg[..3], [seg[3]]);
      NoFlushes(seg[..3]);
    } else {
      NoFlushes(seg);
    }
  }

  /** FUA is not advertised, yet a write that asks for it and completes is
      followed by exactly one flush. */
  lemma FuaHonouredThoughNotAdvertised(b: Backend, buf: seq<byte>, offset: int64, s: Script)
    requires s.wait.Ok? && s.submit.Ok? && s.completion.Done?
    ensures !HasFua(b)
    ensures FlushCount(Segment(b, WriteAt(b, buf, offset, true, s).0)) == 1
  {
    WriteFlushesOnce(b, buf, offset, true, s);
  }

  /** A read drains the engine, submits one read of the whole buffer and waits
      for that request, stopping at the first engine failure. */
  lemma {:induction false} ReadRunsProtocol(b: Backend, buf: seq<byte>, offset: int64, s: Script)
    ensures var r := ReadAt(b, buf, offset, s);
      RanProtocol(Segment(b, r.0), Protocol(Read, offset as int, |buf|, b.aio.nextId, false))
  {
  }

  /** A read's reply is the failure of the last call made with a zero count,
      or else the count the completion reported. */
  lemma {:induction false} ReadReplyFromLog(b: Backend, buf: seq<byte>, offset: int64, s: Script)
    ensures var r := ReadAt(b, buf, offset, s);
      RepliesFor(r.1, Segment(b, r.0))
  {
  }

  /** Trim is declared but performs no deallocation. */
  function TrimAt(b: Backend, length: int, offset: int64): (r: (Backend, Reply))
    ensures r.0 == b
    ensures r.1 == Reply(length, None)
  {
    (b, Reply(length, None))
  }

  function Flush(b: Backend, st: Status): (r: (Backend, Option<Err>))
    ensures r.0.size == b.size && b.aio.log <= r.0.aio.log
    ensures r.0.aio == b.aio.(log := r.0.aio.log)
    ensures Segment(b, r.0) == [Event.Flush(st)]
    ensures r.1.None? <==> st.Ok?
    ensures r.1.Some? ==> r.1.value == st.err
  {
    (b.(aio := AioFlush(b.aio, st)), if st.Ok? then None else Some(st.err))
  }

  /** Close releases the engine; no closed state is kept by the backend. */
  function Close(b: Backend, st: Status): (r: (Backend, Option<Err>))
    ensures r.0.size == b.size && b.aio.log <= r.0.aio.log
    ensures r.0.aio == b.aio.(closed := true, log := r.0.aio.log)
    ensures Segment(b, r.0) == [Event.Close(st)]
    ensures r.1.None? <==> st.Ok?
    ensures r.1.Some? ==> r.1.value == st.err
  {
    (b.(aio := AioClose(b.aio, st)), if st.Ok? then None else Some(st.err))
  }

  function Geometry(b: Backend): (r: GeometryReply)
    ensures r.size == b.size && r.err.None?
    ensures r.minBlock == 1 && r.preferredBlock == 32768 && r.maxBlock == 134217728
    ensures r.minBlock <= r.preferredBlock <= r.maxBlock
  {
    GeometryReply(b.size, MinBlockSize, PreferredBlockSize, MaxBlockSize, None)
  }

  /** Not advertised, although `WriteAt` honours FUA by flushing. */
  function HasFua(b: Backend): (r: bool)
    ensures !r
  {
    false
  }

  /** Not advertised, although `Flush` is functional. */
  function HasFlush(b: Backend): (r: bool)
    ensures !r
  {
    false
  }

  // ---- Construction --------------------------------------------------------

  datatype Access = ReadWrite | ReadOnly

  /** Open flags: access mode, and whether synchronous writes were requested. */
  datatype OpenMode = OpenMode(access: Access, sync: bool)

  /** What the constructor asks the engine to open. */
  datatype OpenRequest = OpenRequest(path: string, mode: OpenMode, perm: nat)

  /** The export configuration: its read-only flag and its driver parameters. */
  datatype ExportConfig = ExportConfig(readOnly: bool, driverParameters: map<string, string>)

  /** What the boolean-parameter parser answers. */
  datatype Parsed = Parsed(value: bool) | Unparsable(err: Err)

  /** What inspecting the opened file's metadata answers: its size, or an error. */
  datatype StatOutcome = StatOk(size: int64) | StatFailed(err: Err)

  /** The constructor's effects: the open it attempted (if any), the engine it
      opened (if any, in its final state) and the backend or error returned. */
  datatype Construction = Construction(attempted: Option<OpenRequest>, engine: Option<Aio>, result: Result<Backend, Err>)

  /** A driver parameter, with Go's zero value "" for a missing key. */
  function Param(ec: ExportConfig, key: string): (v: string)
    ensures key !in ec.driverParameters ==> v == ""
    ensures key in ec.driverParameters ==> v == ec.driverParameters[key]
  {
    if key in ec.driverParameters then ec.driverParameters[key] else ""
  }

  /** Go's conversion of an int64 to uint64: the representative modulo 2^64. */
  function ToUint64(x: int64): (r: uint64)
    ensures (r as int - x as int) % 0x1_0000_0000_0000_0000 == 0
    ensures 0 <= x ==> r as int == x as int
  {
    if x < 0 then (x as int + 0x1_0000_0000_0000_0000) as uint64 else x as int as uint64
  }

  /** Build a backend from an export configuration. `isTrue` is the boolean
      parser, `open` the outcome of opening the engine, `stat` that of the
      metadata query, and `release` that of closing the engine again. */
  function NewAioFileBackend(ec: ExportConfig, isTrue: string -> Parsed, open: Status, stat: StatOutcome, release: Status): (r: Construction)
    ensures r.attempted.None? <==> isTrue(Param(ec, "sync")).Unparsable?
    ensures r.attempted.None? ==> r.engine.None? && r.result == Failure(isTrue(Param(ec, "sync")).err)
    ensures r.attempted.Some? ==>
      && r.attempted.value.path == Param(ec, "path")
      && r.attempted.value.perm == FilePerm
      && (r.attempted.value.mode.access == ReadOnly <==> ec.readOnly)
      && (r.attempted.value.mode.sync <==> isTrue(Param(ec, "sync")) == Parsed(true))
    ensures r.engine.Some? <==> r.attempted.Some? && open.Ok?
    ensures r.attempted.Some? && open.Fail? ==> r.result == Failure(open.err)
    ensures r.result.Success? <==> r.engine.Some? && stat.StatOk?
    ensures r.engine.Some? && stat.StatFailed? ==>
      && r.result == Failure(stat.err)
      && CloseCount(r.engine.value.log) == 1
      && r.engine.value.closed
    ensures r.result.Success? ==>
      && r.result.value.aio == r.engine.value
      && r.result.value.size == ToUint64(stat.size)
      && r.engine.value == NewAio()
  {
    var access := if ec.readOnly then ReadOnly else ReadWrite;
    match isTrue(Param(ec, "sync"))
    case Unparsable(err) => Construction(None, None, Failure(err))
    case Parsed(sync) =>
      var req := OpenRequest(Param(ec, "path"), OpenMode(access, sync), FilePerm);
      if open.Fail? then Construction(Some(req), None, Failure(open.err))
      else
        var aio := NewAio();
        match stat
        case StatFailed(err) => Construction(Some(req), Some(AioClose(aio, release)), Failure(err))
        case StatOk(size) => Construction(Some(req), Some(aio), Success(Backend(aio, ToUint64(size))))
  }
}
