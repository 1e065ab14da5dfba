# nhdfs JavaScript layer in Dafny

This project models `lib/nhdfs.js`, the JavaScript layer of the nhdfs HDFS client, and proves properties of the model. The layer sits over native libhdfs3 bindings and does three things:

- **Configuration and construction.** `setConfPath` points libhdfs3 at a configuration file through the `LIBHDFS3_CONF` environment variable. The precedence is: an explicit path, then a value already set, then `HADOOP_CONF_DIR`, then `HADOOP_INSTALL`. `getOptions` validates an options argument. The `FileSystem` constructor fixes the connection parameters and their defaults. `createFS` does both steps in order.
- **Facade decisions.** `list` corrects the paths libhdfs3 returns. `exists` never rejects. `isDirectory` and `isFile` compare the stat's type tag. `delete` maps its flag to 0 or 1. Every one-shot call turns its native `(err, data)` callback into a promise.
- **The two streams.** `HReadStream` is a Readable over a native reader. `HWriteStream` is a Writable over a native writer. Each opens its handle in its constructor. Each defers the one pull or write that arrives before the open completes. Each issues one native primitive per request. Each closes its handle at most once, however often `close` is called.

Modules:

- `Js` (js.dfy) holds the JavaScript values, truthiness, `typeof`, property reads, the errors and `Buffer.slice`.
- `Config` (config.dfy) holds `setConfPath`: the class `Environment` updates `process.env` in place, and it is specified by the pure function `ResolveConf`.
- `Facade` (facade.dfy) holds `getOptions`, the constructor, `createFS` and the facade decisions.
- `Lifecycle` (lifecycle.dfy) holds `close(cb)`, which both streams implement identically. It also holds the log of native primitives and the signals given to the consumer.
- `ReadStreams` and `ReadStreamObjects` (readstream.dfy) model `HReadStream`. `WriteStreams` and `WriteStreamObjects` (writestream.dfy) model `HWriteStream`.

Each stream module has three parts:

- a state record (`Reader`, `Writer`);
- one step function per method or callback, with an `Event` type and `Run` over event sequences;
- a class (`ReadStream`, `WriteStream`), in the module of the same name with `Objects` appended, holding the source's fields. Each method of the class ensures `State() == <step>(old(State()), …)`.

The native handle is represented by a log of the primitives issued on it: Open, Read, Write and Close. Callback completions are methods or events that arrive one at a time. The environment contract is stated in `Enabled` and in the methods' `requires`. It says that each native primitive calls back at most once (a callback that never comes is a run that simply stops), and that the Node base class never asks for a second chunk, or hands over a second write, while one is still owed. Invariants (`Inv`) are proved to hold after every event sequence. The ordering and "at most once" properties follow from them.

## Where the intended behaviour and the code differ (the model follows the code)

- **Path correction.** `list` applies at most one of its two corrections (lib/nhdfs.js:131-135). So `"//a/"` becomes `"/a/"`, which still ends in a separator (`OneCorrectionOnly`). The intended invariant of a listed path is that it ends in `"/"` only when it is the root, and never starts with `"//"`. "No trailing separator" holds only for paths without a doubled trailing separator (`NormaliseDropsTrailingSeparator`). "No doubled leading separator" holds only for paths without a tripled leading one (`NormaliseDropsDoubledLead`).
- **Failed open.** When the open fails, the stream only emits `'error'` (lib/nhdfs.js:426-427, 499-500). It is not closed. A pull or write registered on `'open'` stays registered and is never replayed.
- **End of data.** A read of zero bytes pushes `null` (lib/nhdfs.js:450-454). The handle is closed later, by the `'end'` listener, which destroys the stream (lib/nhdfs.js:422-424).
- **Errors from close.** An error from the native Close is emitted as `'error'` and is not swallowed (lib/nhdfs.js:475-476). The waiting `close` callbacks then stay registered.
- **Writes after close.** `HWriteStream._write` does not check `closed`, unlike `HReadStream._read`. A chunk handed over after `close()` still reaches the native handle, after its Close (`WriteAfterCloseReachesHandle`). After a write error, only the Node base class (which refuses writes to a destroyed stream) prevents further writes.
- **One primitive at a time.** The handle is not kept to one outstanding primitive. `close()`, and `_destroy` through it, issue the native Close at once, even while the Open or a Read or Write has not called back yet (lib/nhdfs.js:460-463, 466-479, 527-547). `CloseWhileHandleBusy` in each stream module states this for every such state. `ReadStreams.CloseDuringRead` and `WriteStreams.CloseDuringOpen` show one run each.
- **Empty native error messages.** The layer tests `if (err)`. The native reader and file-system workers pass an error as the message string from `hdfsGetLastError` (src/filereader.cc:24-28, src/filesystem.cc:28-31, 256-259, 306-309), and an empty string is falsy. Such a failure takes the success branch. A one-shot call resolves (`EmptyMessageResolves`). isDirectory and isFile reject with a TypeError, because the stat is null. A read pushes null, which ends the data as if the file had ended (`EmptyReadErrorEndsData`). The writer's worker passes an object (src/workers.h:35-54), which is always truthy. The model decides every branch by `Js.Raised`.
- **Short writes.** A short write is counted as reported and is not resubmitted (`ShortWriteNotResubmitted`).
- **getWorkingDirectory guard.** The guard at lib/nhdfs.js:247 has the same value on both branches, so the requested length is used as given (`WorkingDirectoryLength`). A length `Buffer.alloc` refuses makes the promise reject before any native call (`NegativeLengthRejects`).

## Model

| member | source | states |
|---|---|---|
| Config.ResolveConf | lib/nhdfs.js:31-41 | setConfPath changes at most LIBHDFS3_CONF; every other variable keeps its value and none disappears |
| Config.ResolveConfFollowsPrecedence | lib/nhdfs.js:31-41 | afterwards LIBHDFS3_CONF names exactly the file the precedence order picks: explicit path, existing value, readable HADOOP_CONF_DIR candidate, readable HADOOP_INSTALL candidate, else none |
| Config.ExplicitPathWins | lib/nhdfs.js:32-33 | a non-empty explicit configuration path is always written, whatever the environment holds |
| Config.HadoopFallbackOnlyWhenUnset | lib/nhdfs.js:34-40 | without an explicit path, the environment changes only if LIBHDFS3_CONF was unset and the Hadoop variables may be used, and then only to one of the two readable candidates; otherwise it is unchanged |
| Config.ConfDirBeforeInstall | lib/nhdfs.js:35-38 | when both candidates are readable, the HADOOP_CONF_DIR one wins |
| Config.Environment.SetConfPath | lib/nhdfs.js:31-41 | the in-place update of process.env yields ResolveConf of the old environment, so LIBHDFS3_CONF follows the precedence order |
| Facade.GetOptions | lib/nhdfs.js:43-51 | null, undefined or a function yield the defaults; an object is returned as is; a boolean, number or string throws 'options must be an object', and nothing else does |
| Facade.NewFileSystem | lib/nhdfs.js:113-121 | reading maxPathLength throws exactly for null or undefined options; maxPath is the option when it is a positive integer, else 1024; a falsy port becomes 0 and a falsy service "default"; params holds exactly the truthy credentials with their values |
| Facade.CreateFsArgsAsWritten | lib/nhdfs.js:60-71 | the object createFS builds as written: service and port as given, user defaulting to "" and options to {}, and no kerbTicketCachePath or authToken at all |
| Facade.CreateFsArgs | lib/nhdfs.js:60-71 | the corrected object: the same fields, plus kerbTicketCachePath and authToken with their "" defaults; without those two it equals the as-written object |
| Facade.CreateFsDropsCredentials | lib/nhdfs.js:60-72 | as written, a connection made through createFS never carries kerbTicketCachePath or authToken |
| Facade.CreateFsDropsToken | lib/nhdfs.js:66-71 | createFS({authToken: "t"}) succeeds and its connection has no authToken |
| Facade.CreateFsForwardsCredentials | lib/nhdfs.js:60-72 | when every destructured field is passed on, the connection carries exactly the truthy credentials, and only an explicit null options fails |
| Facade.CreateFS | lib/nhdfs.js:60-72 | createFS sets the configuration as setConfPath does, then builds the connection with all credentials forwarded |
| Facade.Settle | lib/nhdfs.js:144-154 | a one-shot call rejects exactly when its native callback's error is truthy, with that error, and otherwise resolves with the data |
| Facade.EmptyMessageResolves | lib/nhdfs.js:146-152 | a native error passed as an empty message string resolves the call with the data; one passed as an object rejects with it |
| Facade.KindTag | src/filesystem.cc:213 | the stat type is "file" exactly for kind 'F' and "directory" exactly for kind 'D' |
| Facade.NormalisePath | lib/nhdfs.js:130-137 | a path starting with "//" loses its first character; otherwise a path longer than 1 ending in "/" loses its last; every other path, "/" included, is unchanged; the length drops by at most one |
| Facade.NormaliseRoot | lib/nhdfs.js:131-135 | "/" stays "/" and "//" becomes "/" |
| Facade.NormaliseDropsTrailingSeparator | lib/nhdfs.js:133-134 | without a doubled leading or trailing separator, the corrected path is the root or has no trailing separator |
| Facade.NormaliseDropsDoubledLead | lib/nhdfs.js:131-132 | without a tripled leading separator, the corrected path has no doubled leading separator |
| Facade.OneCorrectionOnly | lib/nhdfs.js:131-135 | only one correction applies: "//a/" becomes "/a/" |
| Facade.NormaliseAll | lib/nhdfs.js:130-137 | the corrected listing has the same length and order, and each entry differs from the native one only in its corrected path |
| Facade.List | lib/nhdfs.js:124-142 | list rejects exactly on a truthy native error; otherwise it resolves with every entry, in order, with its path corrected and its other fields untouched |
| Facade.ExistsCallback | src/filesystem.cc:102-115 | the native Exists calls back with no error and a boolean that is true exactly when the path is present |
| Facade.Exists | lib/nhdfs.js:192-198 | as written, exists never rejects and resolves true exactly when the native callback's error is falsy, whatever `data` says |
| Facade.ExistsIgnoresAnswer | lib/nhdfs.js:192-198 | as written, exists resolves true for a path the native call reports missing |
| Facade.ExistsIntended | lib/nhdfs.js:192-198 | the corrected exists never rejects and resolves true exactly when the error is falsy and `data` is truthy |
| Facade.ExistsIntendedReportsPresence | lib/nhdfs.js:192-198 | the corrected exists resolves with exactly what the native call found, present or missing |
| Facade.StatData | src/filesystem.cc:297-310 | the native GetPathInfo passes the entry exactly when it succeeds, and null when it fails |
| Facade.TypeOfStat | lib/nhdfs.js:202 | reading `type` of what stats resolved with throws the TypeError exactly for null, and otherwise yields the entry's type |
| Facade.IsDirectory | lib/nhdfs.js:200-203 | a truthy stat error propagates as the same rejection; a failure with an empty message resolves stats with null, so reading its type rejects with a TypeError; otherwise the result is whether the type is "directory" |
| Facade.IsFile | lib/nhdfs.js:205-208 | a truthy stat error propagates as the same rejection; a failure with an empty message rejects with the TypeError of reading the type of null; otherwise the result is whether the type is "file" |
| Facade.DirectoryAndFileExclusive | lib/nhdfs.js:200-208 | isDirectory and isFile are never both true; on a native kind tag each is true exactly for its kind |
| Facade.DeleteFlag | lib/nhdfs.js:162-163 | the native flag is 0 or 1, and 1 exactly when recursive is truthy (absent means false) |
| Facade.WorkingDirectoryLength | lib/nhdfs.js:246-247 | the buffer length is maxPath when no length is given, and the given length otherwise, whatever the guard decides |
| Js.Alloc | lib/nhdfs.js:249 | Buffer.alloc succeeds exactly for a non-negative number, with its integer part as length; a non-number throws a TypeError and a negative number a RangeError |
| Facade.WorkingDirectory | lib/nhdfs.js:246-258 | a length Buffer.alloc refuses rejects with its error before any native call; then a native error rejects with that error; otherwise the result is a prefix of the allocated buffer, of the reported size when that fits |
| Facade.NegativeLengthRejects | lib/nhdfs.js:246-250 | getWorkingDirectory with a negative length rejects with the RangeError, whatever the native layer would answer |
| Lifecycle.RequestClose | lib/nhdfs.js:466-480 | close(cb) registers the callback; on an open stream it sets closed and appends exactly one native Close; on a closed one it appends nothing and schedules one 'close' event |
| Lifecycle.CloseCompleted | lib/nhdfs.js:474-479 | the native Close callback emits 'error' with a truthy error (callbacks stay waiting), and otherwise 'close', which runs every waiting callback |
| Lifecycle.TickElapsed | lib/nhdfs.js:471 | a scheduled 'close' fires and runs every waiting callback, with no native call |
| Lifecycle.CloseIsIdempotent | lib/nhdfs.js:466-480 | any number of close calls on an open stream issue the native Close exactly once, by the first call; each later call schedules one 'close'; every callback waits |
| Lifecycle.ClosedStaysClosed | lib/nhdfs.js:533-547 | on a closed stream, close calls never reach the native handle and each schedules one 'close' |
| ReadStreams.Init | lib/nhdfs.js:415-434 | a new read stream has issued only the native Open, is neither open nor closed, and has nothing pending |
| ReadStreams.PullStep | lib/nhdfs.js:436-458 | _read changes only the log, the registered pull and the Read in flight: nothing once closed; before the open it issues nothing and registers the pull; after it, exactly one native Read of the requested size, in flight |
| ReadStreams.OpenStep | lib/nhdfs.js:425-441 | the open callback changes only the open state, the registered pull, the Read in flight, the log and the signals: an open with a truthy error emits it and replays nothing; otherwise it emits 'open' and replays the registered pull once, unless the stream was closed meanwhile |
| ReadStreams.DestroyStep | lib/nhdfs.js:460-464 | destroy changes only the lifecycle, exactly as close(cb) does: one more waiting callback, and either a native Close now in progress or, on a closed stream, one more scheduled 'close' |
| ReadStreams.ReadStep | lib/nhdfs.js:443-457 | the read callback clears the Read in flight and changes nothing else outside the lifecycle: a truthy error leaves the lifecycle as close(cb) does and emits the error; otherwise the lifecycle only gains the pushed chunk, the first bytesRead bytes of the buffer, or null when no byte was read |
| ReadStreams.StepKeepsInv | lib/nhdfs.js:414-481 | every event keeps the invariant: Open first and once, then only Reads and a Close that stays the last primitive, closed iff Close issued, no Read before the open, the deferred pull only before the open |
| ReadStreams.RunKeepsInv | lib/nhdfs.js:414-481 | every sequence of events keeps that invariant |
| ReadStreams.NativeCloseAtMostOnce | lib/nhdfs.js:466-480 | over any life of a read stream the native Close is issued at most once, and closed holds exactly when it was |
| ReadStreams.StepQuietWhenClosed | lib/nhdfs.js:437-473 | once closed, no event issues another primitive |
| ReadStreams.RunQuietWhenClosed | lib/nhdfs.js:437-473 | once closed, no sequence of events issues another primitive |
| ReadStreams.NoReadAfterReadError | lib/nhdfs.js:444-447 | after a read with a truthy error the stream is closed, the native Close is its last primitive, and no later event issues a Read |
| ReadStreams.EmptyReadErrorEndsData | lib/nhdfs.js:443-454 | a failed native Read whose message is empty (count -1) issues nothing, leaves the stream open, and pushes null, the end of data |
| ReadStreams.PullBeforeOpenReplayedOnce | lib/nhdfs.js:438-441 | a pull before the open issues nothing; a successful open then issues exactly that one Read |
| ReadStreams.EndOfDataCloses | lib/nhdfs.js:422-454 | a zero-byte read pushes null, and the 'end' that follows appends the native Close |
| ReadStreams.CloseWhileHandleBusy | lib/nhdfs.js:460-479 | on a reader not yet closed whose Open or Read has not called back, close appends the native Close and leaves that primitive outstanding |
| ReadStreams.CloseDuringRead | lib/nhdfs.js:436-479 | open, pull 4 bytes, close: the log is Open, Read(4), Close, with the Read still outstanding |
| ReadStreamObjects.ReadStream.constructor | lib/nhdfs.js:415-434 | the new object is valid and in the initial state |
| ReadStreamObjects.ReadStream.Pull | lib/nhdfs.js:436-458 | _read performs PullStep in place and keeps the invariant |
| ReadStreamObjects.ReadStream.OnOpen | lib/nhdfs.js:425-433 | the Open callback performs OpenStep in place, replaying the pull through _read |
| ReadStreamObjects.ReadStream.OnRead | lib/nhdfs.js:444-456 | the Read callback performs ReadStep in place |
| ReadStreamObjects.ReadStream.OnEnd | lib/nhdfs.js:422-424 | the 'end' listener destroys the stream |
| ReadStreamObjects.ReadStream.Destroy | lib/nhdfs.js:460-464 | _destroy closes with a waiting callback |
| ReadStreamObjects.ReadStream.Close | lib/nhdfs.js:466-480 | close performs RequestClose in place |
| ReadStreamObjects.ReadStream.OnClose | lib/nhdfs.js:474-479 | the native Close callback performs CloseCompleted in place |
| ReadStreamObjects.ReadStream.Tick | lib/nhdfs.js:471 | the scheduled 'close' performs TickElapsed in place |
| WriteStreams.CopyObject | lib/nhdfs.js:53-58 | the copy of an object has exactly its properties with the same values; any other value contributes none |
| WriteStreams.ReplicationOf | lib/nhdfs.js:487-488 | the replication factor is the option when present and not undefined, 0 otherwise, and never undefined |
| WriteStreams.Init | lib/nhdfs.js:485-506 | a new write stream has issued only the native Open with that factor, has written 0 bytes and holds its 'finish' listener |
| WriteStreams.WriteStep | lib/nhdfs.js:508-525 | _write changes only the log, the signals, the registered write and the Write in flight: a non-Buffer emits 'Invalid data' and changes nothing else, open or not; before the open the write is registered and nothing issued; after it, exactly one native Write of the whole chunk, in flight |
| WriteStreams.OpenStep | lib/nhdfs.js:498-516 | the open callback changes only the open state, the registered write, the Write in flight, the log and the signals: an open with a truthy error emits it and replays nothing; otherwise it emits 'open' and replays the registered write once |
| WriteStreams.DestroyStep | lib/nhdfs.js:527-531 | destroy changes only the lifecycle, exactly as close(cb) does: one more waiting callback, and either a native Close now in progress or, on a closed stream, one more scheduled 'close' |
| WriteStreams.WrittenStep | lib/nhdfs.js:517-524 | the write callback clears the Write in flight: a truthy error counts one failed Write, leaves the lifecycle as close(cb) does, leaves bytesWritten alone and reaches the write callback; success records the reported count, adds exactly it to bytesWritten and issues nothing more |
| WriteStreams.FinishStep | lib/nhdfs.js:494-496 | the first 'finish' leaves the lifecycle as close() without a callback does; the listener is then gone, nothing else changes, and a later 'finish' changes nothing |
| WriteStreams.StepKeepsInv | lib/nhdfs.js:483-549 | every event keeps the invariant: Open with the factor first and once, then only Writes and Closes, at most one Close and closed iff issued, no Write before the open, bytesWritten the sum of reported counts, one reported count per native Write that called back without error, closed once 'finish' ran |
| WriteStreams.RunKeepsInv | lib/nhdfs.js:483-549 | every sequence of events keeps that invariant |
| WriteStreams.NativeCloseAtMostOnce | lib/nhdfs.js:533-547 | over any life of a write stream the native Close is issued at most once, closed holds exactly when it was, and bytesWritten is the sum of the reported counts |
| WriteStreams.CountsMatchWrites | lib/nhdfs.js:508-524 | in every run, each native Write in the log has called back with a count, called back with an error, or is the one in flight; bytesWritten is the sum of those counts; with none in flight and none failed, there is one count per native Write |
| WriteStreams.FinishClosesOnce | lib/nhdfs.js:494-496 | 'finish' appends exactly one native Close, and a second 'finish' does nothing |
| WriteStreams.WriteBeforeOpenReplayedOnce | lib/nhdfs.js:512-516 | a write before the open issues nothing; a successful open then issues exactly that Write with the same bytes |
| WriteStreams.ShortWriteNotResubmitted | lib/nhdfs.js:517-523 | five bytes written with three reported leave bytesWritten at 3 and a single native Write |
| WriteStreams.WriteAfterCloseReachesHandle | lib/nhdfs.js:508-517 | _write does not consult closed: a chunk handed over after close() reaches the handle after its Close |
| WriteStreams.CloseWhileHandleBusy | lib/nhdfs.js:527-547 | on a writer not yet closed whose Open or Write has not called back, close appends the native Close and leaves that primitive outstanding |
| WriteStreams.CloseDuringOpen | lib/nhdfs.js:485-547 | close right after construction: the log is Open, Close, with the Open still outstanding |
| WriteStreamObjects.WriteStream.constructor | lib/nhdfs.js:485-506 | the new object is valid and in the initial state for its options |
| WriteStreamObjects.WriteStream.Write | lib/nhdfs.js:508-525 | _write performs WriteStep in place and keeps the invariant |
| WriteStreamObjects.WriteStream.OnOpen | lib/nhdfs.js:498-505 | the Open callback performs OpenStep in place, replaying the write through _write |
| WriteStreamObjects.WriteStream.OnWrite | lib/nhdfs.js:517-524 | the Write callback performs WrittenStep in place |
| WriteStreamObjects.WriteStream.WriteFailed | lib/nhdfs.js:518-521 | on a write error the stream is destroyed, then the error reaches the write callback; the result is WrittenStep with that error |
| WriteStreamObjects.WriteStream.WriteSucceeded | lib/nhdfs.js:522-523 | on success the reported count is added to bytesWritten and the write callback runs; the result is WrittenStep without error |
| WriteStreamObjects.WriteStream.OnFinish | lib/nhdfs.js:494-496 | the once('finish') listener performs FinishStep in place |
| WriteStreamObjects.WriteStream.Destroy | lib/nhdfs.js:527-531 | _destroy closes with a waiting callback |
| WriteStreamObjects.WriteStream.Close | lib/nhdfs.js:533-547 | close performs RequestClose in place |
| WriteStreamObjects.WriteStream.OnClose | lib/nhdfs.js:541-546 | the native Close callback performs CloseCompleted in place |
| WriteStreamObjects.WriteStream.Tick | lib/nhdfs.js:538 | the scheduled 'close' performs TickElapsed in place |

## Findings

| source | as written | input that shows it | evidently intended | confidence | as-written member | corrected member |
|---|---|---|---|---|---|---|
| lib/nhdfs.js:60-72 | createFS destructures kerbTicketCachePath and authToken but passes only service, port, user and options to the FileSystem constructor, so the credentials never reach the connection | createFS({authToken: "t"}): the connection's params have no authToken (CreateFsDropsToken) | forward both, so the constructor's filtering at lib/nhdfs.js:118-120 applies to them | high (not executed) | Facade.CreateFsArgsAsWritten, with Facade.CreateFsDropsCredentials and Facade.CreateFsDropsToken | Facade.CreateFsArgs, with Facade.CreateFsForwardsCredentials, used by Facade.CreateFS |
| lib/nhdfs.js:192-198 | exists resolves `!err`, but the native Exists never passes an error: it reports whether the path is present as a boolean in `data` (src/filesystem.cc:111-115), so exists resolves true for every path | exists('/dir1') on a cluster without /dir1 resolves true (ExistsIgnoresAnswer), where test/fsops.js:22-24 expects a falsy result | resolve with `data` when there is no error | high (not executed) | Facade.Exists, with Facade.ExistsIgnoresAnswer | Facade.ExistsIntended, with Facade.ExistsIntendedReportsPresence |

The corrected createFS changes only the `params` the JavaScript layer builds. The native FileSystem constructor reads only the service and the port (src/filesystem.cc:76-86), so neither the user nor a credential reaches libhdfs3 on either version.

## Left out

- The native bindings (src/*.cc, src/*.h) are not part of this model. Each native primitive is represented by the `(err, value)` its callback receives. The only native conventions kept are the kind tag (`KindTag`), the answer of Exists (`ExistsCallback`), the null data of a failed stat (`StatData`), the two shapes of a native error (`Js.Error`) and "a negative result is an error"; the model does not rely on the last and takes counts as integers. The model follows the JavaScript layer as if every native method it calls existed and called back. Against the native layer as shipped, several calls throw first:
  - `FileReader::Init` registers only Read and Close (src/filereader.cc:43-49). So `this.reader.Open` at lib/nhdfs.js:425 is undefined, and `new HReadStream` throws a TypeError.
  - `FileWriter::Open` requires a function as argument 0 (src/filewriter.cc:53-62, src/macros.h:13-17). lib/nhdfs.js:498 passes the replication factor first, so the call throws a TypeError and `new HWriteStream` throws. The factor the model records reaches libhdfs3 in no run.
  - `FileSystem::Init` registers only Exists, CreateDirectory, Delete, List, GetPathInfo and getProperty (src/filesystem.cc:55-70). The other wrappers call a method that is undefined on the native object, from inside their promise executor. So `getWorkingDirectory` (lib/nhdfs.js:250), once its buffer is allocated, rejects with a TypeError. The unregistered stub at src/filesystem.cc:139-143 is never reached. `WorkingDirectory` models what lib/nhdfs.js:246-258 does if a native method calls back.
  - The native FileSystem constructor reads only the service and the port (src/filesystem.cc:76-86), so `params` never reaches libhdfs3.
- The Node `Readable`/`Writable` base classes and `EventEmitter` are not modelled: buffering, highWaterMark, the `destroyed` flag, autoDestroy, and the 'close' that `destroy()` emits itself. Their guarantees appear only as the `Enabled` predicates and the methods' `requires`.
- Promise construction and the event loop are not modelled, except the `process.nextTick` of a repeated `close` (the `ticks` counter).
- `checkFile` does real file access. It is modelled as the set `readable` of paths it accepts.
- `ClusterInfo` and `createClusterInfo` are a pass-through to a native call.
- `stats`, `mkdir`, `rename`, `setWorkingDirectory`, `setReplication`, `getDefaultBlockSize`, `getCapacity`, `getUsed`, `chown`, `chmod`, `utime` and `truncate` only forward `(err, data)`. All of them follow `Facade.Settle` once a native method calls back, and none has a member of its own. Against the native layer as shipped, every one of them except `stats` and `mkdir` calls an unregistered method (lib/nhdfs.js:212, 236, 269, 285, 301, 316, 335, 354, 374, 393) and rejects with a TypeError.
- `createReadStream` and `createWriteStream` only construct the native handle, which the model does not have. The stream models start at the stream constructors.
- The `'end'` listener of `HWriteStream` (lib/nhdfs.js:491-493) is not modelled: a Writable never emits `'end'`.
- The unused fields `poolSize` and `destroyed` of `HReadStream`, and the `encoding` argument of `_write`, are not modelled.
- Facade.List: when a listing fails with an empty message, the native call passes null as data (src/filesystem.cc:256-259). `data.map` then throws inside the native callback, outside the promise, so the exception is uncaught and the promise never settles. The model's `entries` is always a listing, so in that case List resolves with the entries it is given.
- UTF-8 decoding of the working directory is not modelled. The result is kept as bytes.
- The write-then-read round trip needs the cluster's file contents, which are not modelled.
- Js.Property: the built-in properties of primitive values, such as a string's `length`, are not modelled. The layer reads only `maxPathLength` and `replication` this way.
- Js.Value: NaN and the infinities are not modelled. Numbers are finite reals.
- Js.Alloc: the RangeError for a size above `buffer.constants.MAX_LENGTH` is not modelled. The model allocates any non-negative size.
- WriteStreams.CopyObject: the index keys that `for…in` gives for a string are not modelled. They never equal "replication".
- Config.ResolveConf: `configurationPath` is a string and `useHadoopConfEnv` a boolean. These are the types `createFS` passes after applying its defaults `''` and `true`. Other truthy or falsy values are not modelled.
