/** HWriteStream: a Writable over a native FileWriter. The constructor opens
    the handle with a replication factor (0 when the options give none); a
    write that arrives before the open completes is registered once on the
    'open' event and replayed then; every write after that issues one native
    Write of the whole chunk and adds the count the native call reports to
    `bytesWritten`, without resubmitting what a short write left out. A write
    error destroys the stream, which closes it, and reaches the write's
    callback; 'finish' closes the stream once.

    The state is a value of `Writer`, its transitions are the step functions
    below, and `WriteStream` is the class whose methods perform them in place. */
module WriteStreams {
  import opened Js
  import opened Lifecycle

  /** The payload handed to _write: a Buffer, or any other value. */
  datatype Chunk = Buffer(bytes: seq<byte>) | NotBuffer(value: Value)

  datatype Writer = Writer(
    core: Core,
    replication: Value,            // this.options.replication
    isOpen: bool,                  // this.opened
    pending: Option<seq<byte>>,    // the write registered with once('open'), by its data
    opening: bool,                 // the native Open has not called back yet
    writing: Option<nat>,          // a native Write of this many bytes has not called back yet
    bytesWritten: int,             // this.bytesWritten
    accepted: seq<int>,            // the counts reported by the successful native Writes, oldest first
    failed: nat,                   // the native Writes that called back with an error
    finishListener: bool)          // the once('finish') listener has not run yet

  /** The number of native Writes in a log. */
  function Writes(calls: seq<Call>): (n: nat)
    ensures n <= |calls|
  {
    if calls == [] then 0
    else Writes(calls[..|calls| - 1]) + (if calls[|calls| - 1].NativeWrite? then 1 else 0)
  }

  lemma WritesAppend(calls: seq<Call>, c: Call)
    ensures Writes(calls + [c]) == Writes(calls) + (if c.NativeWrite? then 1 else 0)
  {
  }

  /** The sum of the counts a sequence of native Writes reported. */
  function Sum(counts: seq<int>): int {
    if counts == [] then 0 else Sum(counts[..|counts| - 1]) + counts[|counts| - 1]
  }

  /** copyObject(options): the enumerable properties of an object; any other value
      gives none that matters here (a string's index keys are never "replication"). */
  function CopyObject(options: Value): (r: map<string, Value>)
    ensures options.Obj? ==> r.Keys == options.props.Keys && forall k :: k in r ==> r[k] == options.props[k]
    ensures !options.Obj? ==> r == map[]
  {
    if options.Obj? then options.props else map[]
  }

  /** The replication factor the constructor opens with: the option when it is
      present and not undefined, 0 otherwise. */
  function ReplicationOf(options: Value): (r: Value)
    ensures r != Undefined
    ensures options.Obj? && "replication" in options.props && options.props["replication"] != Undefined ==>
              r == options.props["replication"]
    ensures !(options.Obj? && "replication" in options.props && options.props["replication"] != Undefined) ==>
              r == Number(0.0)
  {
    var copy := CopyObject(options);
    var replication := if "replication" in copy then copy["replication"] else Undefined;
    if replication == Undefined then Number(0.0) else replication
  }

  /** The state right after the constructor: the handle's Open is issued with the replication factor. */
  function Init(options: Value): (r: Writer)
    ensures r.core.calls == [NativeOpenForWrite(ReplicationOf(options))] && r.core.signals == []
    ensures !r.isOpen && !r.core.closed && r.opening && r.pending.None? && r.writing.None?
    ensures r.bytesWritten == 0 && r.finishListener
  {
    var replication := ReplicationOf(options);
    Writer(Core(false, [NativeOpenForWrite(replication)], [], 0, 0, false), replication,
           false, None, true, None, 0, [], 0, true)
  }

  /** _write(data, encoding, cb): a payload that is not a Buffer emits 'Invalid data' and
      touches nothing else, whatever the open state; before the open the write is
      registered for replay; otherwise exactly one native Write of the whole chunk. */
  function WriteStep(s: Writer, chunk: Chunk): (r: Writer)
    ensures r == s.(core := s.core.(calls := r.core.calls, signals := r.core.signals),
                    pending := r.pending, writing := r.writing)
    ensures chunk.NotBuffer? ==> r == s.(core := s.core.(signals := s.core.signals + [Failed(InvalidData)]))
    ensures chunk.Buffer? && !s.isOpen ==>
              r.core == s.core && r.pending == Some(chunk.bytes) && r.writing == s.writing
    ensures chunk.Buffer? && s.isOpen ==>
              r.core.calls == s.core.calls + [NativeWrite(chunk.bytes)] && r.core.signals == s.core.signals
              && r.writing == Some(|chunk.bytes|) && r.pending == s.pending
  {
    match chunk
    case NotBuffer(_) => s.(core := Emit(s.core, Failed(InvalidData)))
    case Buffer(data) =>
      if !s.isOpen then s.(pending := Some(data))
      else s.(core := s.core.(calls := s.core.calls + [NativeWrite(data)]), writing := Some(|data|))
  }

  /** The native Open calls back. On failure (a truthy error) the error is emitted and a registered
      write is never replayed; on success 'open' is emitted and a registered write
      is replayed once. */
  function OpenStep(s: Writer, err: Option<Error>): (r: Writer)
    requires s.opening
    ensures r == s.(opening := false, isOpen := r.isOpen, pending := r.pending, writing := r.writing,
                    core := s.core.(calls := r.core.calls, signals := r.core.signals))
    ensures Raised(err) ==> r.isOpen == s.isOpen && r.pending == s.pending && r.writing == s.writing
                            && r.core.calls == s.core.calls && r.core.signals == s.core.signals + [Failed(err.value)]
    ensures !Raised(err) ==> r.isOpen && r.pending.None? && r.core.signals == s.core.signals + [Opened]
    ensures !Raised(err) ==> r.core.calls == s.core.calls + (if s.pending.Some? then [NativeWrite(s.pending.value)] else [])
                             && r.writing == (if s.pending.Some? then Some(|s.pending.value|) else s.writing)
  {
    var s := s.(opening := false);
    if Raised(err) then s.(core := Emit(s.core, Failed(err.value)))
    else
      var s := s.(isOpen := true, core := Emit(s.core, Opened));
      match s.pending
      case None => s
      case Some(data) => WriteStep(s.(pending := None), Buffer(data))
  }

  /** _destroy: close the stream with a callback waiting for its 'close'. */
  function DestroyStep(s: Writer): (r: Writer)
    ensures r == s.(core := r.core) && r.core == RequestClose(s.core, true)
    ensures r.core.closed && r.core.listeners == s.core.listeners + 1
    ensures r.core.calls == s.core.calls + (if s.core.closed then [] else [NativeClose])
    ensures r.core.signals == s.core.signals
  {
    s.(core := RequestClose(s.core, true))
  }

  /** The native Write calls back. A truthy error destroys the stream and reaches the write
      callback; otherwise the reported count is added to bytesWritten and the callback
      runs, with no further native Write for the bytes a short write left out. */
  function WrittenStep(s: Writer, err: Option<Error>, bytes: int): (r: Writer)
    requires s.writing.Some?
    ensures r == s.(writing := None, core := r.core, bytesWritten := r.bytesWritten, accepted := r.accepted,
                    failed := r.failed)
    ensures Raised(err) ==> r.bytesWritten == s.bytesWritten && r.accepted == s.accepted && r.failed == s.failed + 1
                            && r.core.(signals := s.core.signals) == RequestClose(s.core, true)
                            && r.core.signals == s.core.signals + [WriteDone(Some(err.value))]
                            && r.core.calls == s.core.calls + (if s.core.closed then [] else [NativeClose])
    ensures !Raised(err) ==> r.bytesWritten == s.bytesWritten + bytes && r.accepted == s.accepted + [bytes]
                             && r.failed == s.failed && r.core == s.core.(signals := s.core.signals + [WriteDone(None)])
  {
    var s := s.(writing := None);
    if Raised(err) then
      var d := DestroyStep(s.(failed := s.failed + 1));
      d.(core := Emit(d.core, WriteDone(Some(err.value))))
    else
      s.(bytesWritten := s.bytesWritten + bytes, accepted := s.accepted + [bytes],
         core := Emit(s.core, WriteDone(None)))
  }

  /** 'finish' is emitted: the once('finish') listener closes the stream the first time
      and is gone afterwards. */
  function FinishStep(s: Writer): (r: Writer)
    ensures r == s.(finishListener := false, core := r.core)
    ensures s.finishListener ==> r.core == RequestClose(s.core, false)
    ensures s.finishListener ==> r.core.closed && r.core.signals == s.core.signals
                                 && r.core.listeners == s.core.listeners
                                 && r.core.calls == s.core.calls + (if s.core.closed then [] else [NativeClose])
    ensures !s.finishListener ==> r == s
  {
    if s.finishListener then s.(finishListener := false, core := RequestClose(s.core, false))
    else s
  }

  /** Everything that can happen to a write stream, one event at a time. */
  datatype Event =
    | WriteRequest(chunk: Chunk)                       // the Writable base class calls _write
    | OpenDone(error: Option<Error>)                   // the native Open calls back
    | WriteCallback(error: Option<Error>, bytes: int)  // the native Write calls back
    | FinishEmitted                                    // the base class emits 'finish'
    | CloseRequest(withCallback: bool)                 // the caller calls close(cb)
    | DestroyRequest                                   // the caller calls destroy()
    | CloseDone(error: Option<Error>)                  // the native Close calls back
    | NextTick                                         // a scheduled 'close' event fires

  /** When an event can happen: each native primitive calls back once, and the base
      class hands over one chunk at a time and finishes only when no write is owed. */
  predicate Enabled(s: Writer, e: Event) {
    match e
    case WriteRequest(_) => s.pending.None? && s.writing.None?
    case OpenDone(_) => s.opening
    case WriteCallback(_, _) => s.writing.Some?
    case FinishEmitted => s.pending.None? && s.writing.None?
    case CloseDone(_) => s.core.closing
    case NextTick => s.core.ticks > 0
    case _ => true
  }

  function Step(s: Writer, e: Event): Writer
    requires Enabled(s, e)
  {
    match e
    case WriteRequest(chunk) => WriteStep(s, chunk)
    case OpenDone(err) => OpenStep(s, err)
    case WriteCallback(err, n) => WrittenStep(s, err, n)
    case FinishEmitted => FinishStep(s)
    case CloseRequest(cb) => s.(core := RequestClose(s.core, cb))
    case DestroyRequest => DestroyStep(s)
    case CloseDone(err) => s.(core := CloseCompleted(s.core, err))
    case NextTick => s.(core := TickElapsed(s.core))
  }

  /** The state after a sequence of events; an event that cannot happen is skipped. */
  function Run(s: Writer, es: seq<Event>): Writer
    decreases |es|
  {
    if es == [] then s
    else Run(if Enabled(s, es[0]) then Step(s, es[0]) else s, es[1..])
  }

  /** The invariant of a write stream: Open with the replication factor first and once;
      after that only Writes and Closes, with at most one Close, issued exactly when
      `closed` holds; no Write before the open succeeded; the registered write only
      exists before the open, a Write in flight only after it; bytesWritten is the sum
      of the reported counts; every native Write in the log has called back with a
      count, called back with an error, or is the one in flight; and a stream whose 'finish' listener ran is closed. */
  predicate Inv(s: Writer) {
    LogShape(s) && Phases(s) && Accounting(s)
  }

  /** One reported count per native Write that called back without an error. */
  predicate Accounting(s: Writer) {
    |s.accepted| + s.failed + (if s.writing.Some? then 1 else 0) == Writes(s.core.calls)
  }

  /** What the log of native primitives looks like. */
  predicate LogShape(s: Writer) {
    var calls := s.core.calls;
    && |calls| > 0 && calls[0] == NativeOpenForWrite(s.replication)
    && (forall i :: 0 < i < |calls| ==> calls[i].NativeWrite? || calls[i].NativeClose?)
    && Closes(calls) == (if s.core.closed then 1 else 0)
    && (!s.isOpen ==> forall i :: 0 <= i < |calls| ==> !calls[i].NativeWrite?)
  }

  /** How the flags, the deferred write and the byte count relate. */
  predicate Phases(s: Writer) {
    && (s.core.closing ==> s.core.closed)
    && (s.isOpen ==> !s.opening)
    && (s.pending.Some? ==> !s.isOpen)
    && (s.writing.Some? ==> s.isOpen)
    && s.bytesWritten == Sum(s.accepted)
    && (!s.finishListener ==> s.core.closed)
  }

  lemma InitInv(options: Value)
    ensures Inv(Init(options))
  {
  }

  lemma AppendKeepsInv(s: Writer, r: Writer, c: Call)
    requires Inv(s)
    requires r.core.calls == s.core.calls + [c] && r.replication == s.replication
    requires c.NativeWrite? || (c.NativeClose? && !s.core.closed && r.core.closed)
    requires c.NativeWrite? ==> r.core.closed == s.core.closed
    requires r.core.closing ==> r.core.closed
    requires c.NativeWrite? ==> r.isOpen
    requires r.isOpen ==> !r.opening
    requires r.pending.Some? ==> !r.isOpen
    requires r.writing.Some? ==> r.isOpen
    requires !r.isOpen ==> !s.isOpen
    requires r.bytesWritten == Sum(r.accepted)
    requires !r.finishListener ==> r.core.closed
    requires |r.accepted| + r.failed + (if r.writing.Some? then 1 else 0)
             == Writes(s.core.calls) + (if c.NativeWrite? then 1 else 0)
    ensures Inv(r)
  {
    var calls := r.core.calls;
    WritesAppend(s.core.calls, c);
    assert calls[..|calls| - 1] == s.core.calls;
    forall i | 0 < i < |calls| ensures calls[i].NativeWrite? || calls[i].NativeClose? {
      if i < |calls| - 1 { assert calls[i] == s.core.calls[i]; }
    }
  }

  lemma WriteKeepsInv(s: Writer, chunk: Chunk)
    requires Inv(s) && s.pending.None? && s.writing.None?
    ensures Inv(WriteStep(s, chunk))
  {
    if chunk.Buffer? && s.isOpen {
      AppendKeepsInv(s, WriteStep(s, chunk), NativeWrite(chunk.bytes));
    }
  }

  /** The state between a successful open and the replay of the registered write. */
  lemma OpenedKeepsInv(s: Writer)
    requires Inv(s) && s.opening
    ensures Inv(s.(opening := false, isOpen := true, pending := None, core := Emit(s.core, Opened)))
  {
  }

  lemma OpenKeepsInv(s: Writer, err: Option<Error>)
    requires Inv(s) && s.opening
    ensures Inv(OpenStep(s, err))
  {
    if !Raised(err) && s.pending.Some? {
      AppendKeepsInv(s, OpenStep(s, err), NativeWrite(s.pending.value));
    }
  }

  /** The state between a native Write's callback and what it does next. */
  lemma ClearWritingKeepsInv(s: Writer)
    requires Inv(s) && s.writing.Some?
    ensures Inv(s.(writing := None, failed := s.failed + 1))
  {
  }

  lemma WrittenKeepsInv(s: Writer, err: Option<Error>, bytes: int)
    requires Inv(s) && s.writing.Some?
    ensures Inv(WrittenStep(s, err, bytes))
  {
    var r := WrittenStep(s, err, bytes);
    if Raised(err) && !s.core.closed {
      AppendKeepsInv(s, r, NativeClose);
    }
    if !Raised(err) {
      assert r.accepted[..|r.accepted| - 1] == s.accepted;
    }
  }

  lemma CloseKeepsInv(s: Writer, withCallback: bool)
    requires Inv(s)
    ensures Inv(s.(core := RequestClose(s.core, withCallback)))
  {
    if !s.core.closed {
      AppendKeepsInv(s, s.(core := RequestClose(s.core, withCallback)), NativeClose);
    }
  }

  lemma FinishKeepsInv(s: Writer)
    requires Inv(s)
    ensures Inv(FinishStep(s))
  {
    if s.finishListener && !s.core.closed {
      AppendKeepsInv(s, FinishStep(s), NativeClose);
    }
  }

  /** Every event that can happen keeps the invariant. */
  lemma StepKeepsInv(s: Writer, e: Event)
    requires Inv(s) && Enabled(s, e)
    ensures Inv(Step(s, e))
  {
    match e
    case WriteRequest(chunk) => WriteKeepsInv(s, chunk);
    case OpenDone(err) => OpenKeepsInv(s, err);
    case WriteCallback(err, n) => WrittenKeepsInv(s, err, n);
    case FinishEmitted => FinishKeepsInv(s);
    case CloseRequest(cb) => CloseKeepsInv(s, cb);
    case DestroyRequest => CloseKeepsInv(s, true);
    case CloseDone(err) =>
    case NextTick =>
  }

  /** Every sequence of events keeps the invariant. */
  lemma {:induction false} RunKeepsInv(s: Writer, es: seq<Event>)
    requires Inv(s)
    ensures Inv(Run(s, es))
    decreases |es|
  {
    if es != [] {
      var t := if Enabled(s, es[0]) then Step(s, es[0]) else s;
      if Enabled(s, es[0]) { StepKeepsInv(s, es[0]); }
      RunKeepsInv(t, es[1..]);
    }
  }

  /** Over the whole life of a write stream the native Close is issued at most once,
      `closed` holds exactly when it was, and bytesWritten is the sum of the counts
      the native Writes reported. */
  lemma NativeCloseAtMostOnce(options: Value, es: seq<Event>)
    ensures var r := Run(Init(options), es);
            && Closes(r.core.calls) <= 1
            && (r.core.closed <==> Closes(r.core.calls) == 1)
            && r.bytesWritten == Sum(r.accepted)
  {
    InitInv(options);
    RunKeepsInv(Init(options), es);
  }

  /** In every run, bytesWritten adds up one reported count per native Write that
      called back without an error; with no Write in flight and none failed, every
      native Write in the log has its count. */
  lemma CountsMatchWrites(options: Value, es: seq<Event>)
    ensures var r := Run(Init(options), es);
            && r.bytesWritten == Sum(r.accepted)
            && |r.accepted| + r.failed + (if r.writing.Some? then 1 else 0) == Writes(r.core.calls)
            && (r.writing.None? && r.failed == 0 ==> |r.accepted| == Writes(r.core.calls))
  {
    InitInv(options);
    RunKeepsInv(Init(options), es);
  }

  /** 'finish' closes the stream, and a second 'finish' does nothing more. */
  lemma FinishClosesOnce(s: Writer)
    requires Inv(s) && s.finishListener && !s.core.closed && s.pending.None? && s.writing.None?
    ensures var t := Step(s, FinishEmitted);
            && t.core.closed && t.core.calls == s.core.calls + [NativeClose]
            && Step(t, FinishEmitted) == t
  {
  }

  /** A write before the open issues nothing; a successful open then issues exactly
      the one Write it deferred, with the same bytes. */
  lemma WriteBeforeOpenReplayedOnce(s: Writer, data: seq<byte>)
    requires Inv(s) && s.opening && s.pending.None? && s.writing.None?
    ensures var t := Step(s, WriteRequest(Buffer(data)));
            && t.core.calls == s.core.calls
            && Step(t, OpenDone(None)).core.calls == s.core.calls + [NativeWrite(data)]
  {
  }

  /** A short write is not resubmitted: five bytes written, three reported, and
      bytesWritten says 3 with a single native Write issued. */
  lemma ShortWriteNotResubmitted()
    ensures var s0 := Init(Obj(map[]));
            var s1 := Step(s0, OpenDone(None));
            var s2 := Step(s1, WriteRequest(Buffer([1, 2, 3, 4, 5])));
            var s3 := Step(s2, WriteCallback(None, 3));
            && s3.bytesWritten == 3
            && s3.core.calls == [NativeOpenForWrite(Number(0.0)), NativeWrite([1, 2, 3, 4, 5])]
  {
  }

  /** _write does not consult `closed`: a chunk handed over after close() still
      reaches the native handle, after its Close. */
  lemma WriteAfterCloseReachesHandle()
    ensures var s0 := Init(Obj(map[]));
            var s1 := Step(s0, OpenDone(None));
            var s2 := Step(s1, CloseRequest(false));
            var s3 := Step(s2, WriteRequest(Buffer([7])));
            s3.core.calls == [NativeOpenForWrite(Number(0.0)), NativeClose, NativeWrite([7])]
  {
  }

  /** close() does not wait for the handle to be idle: the native Close is issued while
      the Open or a Write has not called back yet, and that primitive stays outstanding. */
  lemma CloseWhileHandleBusy(s: Writer, withCallback: bool)
    requires Inv(s) && !s.core.closed && (s.opening || s.writing.Some?)
    ensures var t := Step(s, CloseRequest(withCallback));
            && t.core.calls == s.core.calls + [NativeClose]
            && t.opening == s.opening && t.writing == s.writing
  {
  }

  /** One such run: close right after construction, before the Open calls back. */
  lemma CloseDuringOpen()
    ensures var s1 := Step(Init(Obj(map[])), CloseRequest(false));
            && s1.core.calls == [NativeOpenForWrite(Number(0.0)), NativeClose]
            && s1.opening
  {
  }

}

/** The HWriteStream object itself: its fields and methods, each performing one
    step of the `WriteStreams` model in place. */
module WriteStreamObjects {
  import opened Js
  import opened Lifecycle
  import opened WriteStreams

  /** The write stream, updated in place by its methods and callbacks. */
  class WriteStream {
    var replication: Value
    var isOpen: bool
    var closed: bool
    var pending: Option<seq<byte>>
    var bytesWritten: int
    var listeners: nat
    var ticks: nat
    var finishListener: bool
    ghost var opening: bool
    ghost var writing: Option<nat>
    ghost var closing: bool
    ghost var accepted: seq<int>
    ghost var failed: nat
    ghost var calls: seq<Call>
    ghost var signals: seq<Signal>

    ghost function State(): Writer
      reads this
    {
      Writer(Core(closed, calls, signals, listeners, ticks, closing), replication, isOpen, pending,
             opening, writing, bytesWritten, accepted, failed, finishListener)
    }

    ghost predicate Valid()
      reads this
    {
      Inv(State())
    }

    /** new HWriteStream(writer, options): issues the native Open with the replication factor. */
    constructor (options: Value)
      ensures State() == Init(options)
      ensures Valid()
    {
      var copy := CopyObject(options);
      var given := if "replication" in copy then copy["replication"] else Undefined;
      if given == Undefined {
        given := Number(0.0);
      }
      replication := given;
      bytesWritten := 0;
      listeners, ticks := 0, 0;
      finishListener := true;
      isOpen, closed, pending := false, false, None;
      opening, writing, closing := true, None, false;
      accepted, failed := [], 0;
      calls := [NativeOpenForWrite(replication)];
      signals := [];
    }

    /** _write(data, encoding, cb). */
    method Write(chunk: Chunk)
      requires Valid() && pending.None? && writing.None?
      modifies this
      ensures State() == WriteStep(old(State()), chunk)
      ensures Valid()
    {
      WriteKeepsInv(State(), chunk);
      if chunk.NotBuffer? {
        signals := signals + [Failed(InvalidData)];
        return;
      }
      if !isOpen {
        pending := Some(chunk.bytes);
        return;
      }
      calls := calls + [NativeWrite(chunk.bytes)];
      writing := Some(|chunk.bytes|);
    }

    /** The callback of the native Open. */
    method OnOpen(err: Option<Error>)
      requires Valid() && opening
      modifies this
      ensures State() == OpenStep(old(State()), err)
      ensures Valid()
    {
      ghost var s0 := State();
      OpenKeepsInv(s0, err);
      opening := false;
      if Raised(err) {
        signals := signals + [Failed(err.value)];
        assert State() == OpenStep(s0, err);
        return;
      }
      isOpen := true;
      signals := signals + [Opened];
      if pending.Some? {
        var data := pending.value;
        pending := None;
        OpenedKeepsInv(s0);
        assert State() == s0.(opening := false, isOpen := true, pending := None, core := Emit(s0.core, Opened));
        Write(Buffer(data));
      }
      assert State() == OpenStep(s0, err);
    }

    /** The callback of the native Write, with the count it reports. */
    method OnWrite(err: Option<Error>, bytes: int)
      requires Valid() && writing.Some?
      modifies this
      ensures State() == WrittenStep(old(State()), err, bytes)
      ensures Valid()
    {
      if Raised(err) {
        WriteFailed(err.value);
      } else {
        WriteSucceeded(bytes);
      }
    }

    /** The error branch of the Write callback: destroy, then report the error to the
        write's callback. */
    method WriteFailed(e: Error)
      requires Valid() && writing.Some? && Raised(Some(e))
      modifies this
      ensures State() == WrittenStep(old(State()), Some(e), 0)
      ensures Valid()
    {
      ghost var s0 := State();
      WrittenKeepsInv(s0, Some(e), 0);
      ClearWritingKeepsInv(s0);
      writing, failed := None, failed + 1;
      assert State() == s0.(writing := None, failed := s0.failed + 1);
      Destroy();
      signals := signals + [WriteDone(Some(e))];
      assert State() == WrittenStep(s0, Some(e), 0);
    }

    /** The success branch of the Write callback: count the bytes the native call
        reports, then call the write's callback. */
    method WriteSucceeded(bytes: int)
      requires Valid() && writing.Some?
      modifies this
      ensures State() == WrittenStep(old(State()), None, bytes)
      ensures Valid()
    {
      ghost var s0 := State();
      WrittenKeepsInv(s0, None, bytes);
      writing := None;
      bytesWritten := bytesWritten + bytes;
      accepted := accepted + [bytes];
      signals := signals + [WriteDone(None)];
      assert State() == WrittenStep(s0, None, bytes);
    }

    /** The once('finish') listener registered by the constructor. */
    method OnFinish()
      requires Valid() && pending.None? && writing.None?
      modifies this
      ensures State() == FinishStep(old(State()))
      ensures Valid()
    {
      FinishKeepsInv(State());
      if finishListener {
        Close(false);
        finishListener := false;
      }
    }

    /** _destroy(err, cb): close, with a callback waiting for 'close'. */
    method Destroy()
      requires Valid()
      modifies this
      ensures State() == DestroyStep(old(State()))
      ensures Valid()
    {
      Close(true);
    }

    /** close(cb). */
    method Close(withCallback: bool)
      requires Valid()
      modifies this
      ensures State() == old(State()).(core := RequestClose(old(State()).core, withCallback))
      ensures Valid()
    {
      CloseKeepsInv(State(), withCallback);
      if withCallback {
        listeners := listeners + 1;
      }
      if closed {
        ticks := ticks + 1;
        return;
      }
      closed := true;
      calls := calls + [NativeClose];
      closing := true;
    }

    /** The callback of the native Close. */
    method OnClose(err: Option<Error>)
      requires Valid() && closing
      modifies this
      ensures State() == Step(old(State()), CloseDone(err))
      ensures Valid()
    {
      StepKeepsInv(State(), CloseDone(err));
      closing := false;
      if Raised(err) {
        signals := signals + [Failed(err.value)];
      } else {
        signals := signals + [Closed(listeners)];
        listeners := 0;
      }
    }

    /** A 'close' event scheduled by a repeated close() fires. */
    method Tick()
      requires Valid() && ticks > 0
      modifies this
      ensures State() == Step(old(State()), NextTick)
      ensures Valid()
    {
      StepKeepsInv(State(), NextTick);
      ticks := ticks - 1;
      signals := signals + [Closed(listeners)];
      listeners := 0;
    }
  }
}
