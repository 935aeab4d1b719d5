# AIO file backend of gonbdserver, in Dafny

This project models `AioFileBackend`, the storage backend of the NBD server that serves a file through an asynchronous-I/O engine. The engine accepts one outstanding request at a time. The backend adapts it to the synchronous Backend contract (`WriteAt`, `ReadAt`, `TrimAt`, `Flush`, `Close`, `Geometry`, `HasFua`, `HasFlush`). Before every submission it drains the engine with `Wait`. It then submits the request and blocks on the identifier it got back with `WaitFor`. A write with FUA (force unit access) is followed by a flush. Any engine failure aborts the call with `(0, err)`.

Files:

- `wrappers.dfy`: `Option` and `Result`.
- `engine.dfy` (module `Engine`): the engine as an abstract state machine. Its state holds the requests in flight, a closed flag, and a sticky `overlapped` flag recording a submission made while another request was pending. It also holds the next request identifier and a log of every call, each with its outcome. Every engine call takes its outcome as a parameter. The engine assumption is that a successful `Wait` drains everything and a successful `WaitFor(id)` retires request `id`. A failed `Wait` or `WaitFor` leaves the requests in flight as they were. A failed submission still consumes an identifier, and it counts as an overlap if it was issued while a request was pending. A failed `Close` still marks the engine closed.
- `aiofile.dfy` (module `AioFile`): the backend's operations and its constructor, over an abstract engine. `Protocol` lists the engine calls a read or write makes when nothing fails. `RanProtocol` says a call performed those steps in order and stopped exactly at the first failure. `RepliesFor` says how the `(n, err)` reply follows from the calls the engine logged.
- `session.dfy` (module `Session`): a single caller issuing any sequence of Backend calls one at a time. Over such a run, the invariants of the wait-before-submit discipline hold.

The constructor takes these as parameters:

- the boolean parser `isTrue`, as a function `string -> Parsed`;
- the outcome of opening the engine;
- the outcome of the metadata query (`Stat`);
- the outcome of the release on the error path.

A missing driver parameter reads as `""`, which is Go's zero value for a map lookup. The open flags are modelled as an abstract `(access, sync)` pair, not as OS bit values. Integer widths are kept where the code converts between them: `uint64(stat.Size())` is the two's-complement conversion of an `int64`. Errors from the parser, the engine and `Stat` are returned unchanged. The parser is applied to `""` when "sync" is absent.

## Model

| member | source | states |
|---|---|---|
| AioFile.WriteAt | nbd/aiofile.go:24-42 | The reply carries no error exactly when the drain, the submission and the completion succeed, and the flush also succeeds if FUA was requested. A successful reply carries the byte count the completion reported. A failed reply carries a zero count. The backend's size is unchanged and the engine log only grows. The one-request-in-flight invariant is preserved, and nothing is pending once the write has completed, whatever was pending before. |
| AioFile.WriteRunsProtocol | nbd/aiofile.go:25-40 | A write drains the engine. It then submits one write of the whole buffer at the given offset under the identifier the engine assigns, and waits for that same identifier. It flushes only under FUA. It performs these steps in order and stops exactly at the first failing call. |
| AioFile.WriteReplyFromLog | nbd/aiofile.go:25-41 | A write's reply follows from the engine log. It is the failure of the last logged call with a zero count, or else the byte count carried by a successful `WaitFor` in the log. |
| AioFile.WriteFlushesOnce | nbd/aiofile.go:36-40 | A write issues exactly one flush when FUA was requested and the write completed successfully, and no flush otherwise. |
| AioFile.ReadAt | nbd/aiofile.go:45-58 | The reply carries no error exactly when the drain, the submission and the completion succeed. Success carries the completion's byte count and failure a zero count. The size is unchanged and the log only grows. The invariant is preserved, and nothing is pending after a successful read, whatever was pending before. |
| AioFile.ReadRunsProtocol | nbd/aiofile.go:46-56 | A read drains the engine, submits one read of the whole buffer and waits for the returned identifier. It never flushes and stops at the first failing call. |
| AioFile.ReadReplyFromLog | nbd/aiofile.go:46-57 | A read's reply is the last logged call's failure with a zero count, or else the byte count carried by the successful completion in the log. |
| AioFile.TrimAt | nbd/aiofile.go:61-63 | Trim returns the length unchanged with no error and leaves the backend and its engine untouched. |
| AioFile.Flush | nbd/aiofile.go:66-68 | Flush makes exactly one engine flush and changes nothing else in the engine. It returns that flush's error, or none when the flush succeeded. |
| AioFile.Close | nbd/aiofile.go:71-73 | Close makes exactly one engine close, which marks the engine closed and changes nothing else in the engine. It returns that close's error. |
| AioFile.Geometry | nbd/aiofile.go:76-78 | Geometry reports the backend's recorded size and the fixed block sizes 1, 32768 and 134217728, with no error. These are ordered minimum ≤ preferred ≤ maximum. |
| AioFile.HasFua | nbd/aiofile.go:81-83 | FUA is never advertised. |
| AioFile.FuaHonouredThoughNotAdvertised | nbd/aiofile.go:36-40 | FUA is not advertised, yet a write that asks for it and completes makes exactly one flush. |
| AioFile.HasFlush | nbd/aiofile.go:86-88 | Flush is never advertised. |
| AioFile.Param | nbd/aiofile.go:96 | A driver parameter lookup yields the configured string, or `""` when the key is missing. |
| AioFile.ToUint64 | nbd/aiofile.go:112 | Converting the stat size to `uint64` yields the value congruent to it modulo 2^64 in the unsigned range, which is the size itself when it is non-negative. |
| AioFile.NewAioFileBackend | nbd/aiofile.go:91-114 | A parse error of "sync" aborts with that error before any open. Otherwise the open uses the "path" parameter and permissions 0666. The access mode is read-only exactly when the configuration is read-only. Synchronous writes are requested exactly when "sync" parses as true. A failed open returns its error and no engine. A failed `Stat` returns its error after exactly one close of the opened engine. Success returns a fresh engine (empty log, nothing pending, not closed, no overlap) and a size equal to the converted stat size. |
| Session.Apply | nbd/aiofile.go:23-88 | Any single Backend call keeps the size and only extends the engine log. It preserves the one-request-in-flight invariant. Every submission it makes is immediately preceded by a successful drain. Trim, geometry and the capability queries leave the backend untouched. |
| Session.Run | nbd/aiofile.go:23-88 | Over any sequence of calls made one at a time, one answer is produced per call, the size captured at construction never changes, the log only grows, and the one-request-in-flight invariant is kept. |
| Session.RunWaitsBeforeSubmit | nbd/aiofile.go:24-58 | Over any sequence of calls, every submission in the engine log is immediately preceded by a successful `Wait`. |
| Session.ConstructedSessionInvariant | nbd/aiofile.go:110-113 | After any sequence of calls on a constructed backend, `Geometry` reports the size from construction together with the fixed block sizes. At most one request is pending, no submission ever overlapped another, and every submission followed a successful drain. |

## Left out

- The engine library's internals and the OS file: buffer contents are not modelled, so the read-after-write data round trip is not stated. Engine results are opaque outcomes given as parameters.
- The boolean parser `isTrue`: it is defined outside this file and enters the model as a function parameter.
- The numeric values of the open flags: an abstract `(access, sync)` pair stands for them.
- The `init` function and the backend registry (nbd/aiofile.go:117-119): process-wide registration glue.
- The context parameter of every call: it is never consulted.
- Concurrent callers: the wait-before-submit discipline is only sound for one caller at a time, which is what `Session.Run` models.
- Behaviour after `Close`: the backend keeps no closed state. `Close` is recorded in the log and marks the engine closed, and later calls proceed with whatever outcomes the engine gives.
- The byte offset and transfer sizes are not checked against the file size, because the code does not check them either.
