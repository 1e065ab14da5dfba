/** HReadStream: a Readable over a native FileReader. The constructor opens
    the handle; a pull (`_read(size)`) that arrives before the open completes
    is registered once on the 'open' event and replayed then; every pull
    after that issues one native Read into a fresh buffer of the requested
    size and pushes exactly the bytes read, or null at the end of the data.
    A read error destroys the stream, which closes it.

    The state is a value of `Reader`, its transitions are the step functions
    below, and `ReadStream` is the class whose methods perform them in place. */
module ReadStreams {
  import opened Js
  import opened Lifecycle

  datatype Reader = Reader(
    core: Core,
    isOpen: bool,           // this.opened
    pending: Option<nat>,   // the pull registered with once('open'), by its size
    opening: bool,          // the native Open has not called back yet
    reading: Option<nat>)   // a native Read of this size has not called back yet

  /** The state right after the constructor: the handle's Open is issued, nothing else. */
  function Init(): (r: Reader)
    ensures r.core.calls == [NativeOpen] && r.core.signals == []
    ensures !r.isOpen && !r.core.closed && r.opening && r.pending.None? && r.reading.None?
  {
    Reader(Core(false, [NativeOpen], [], 0, 0, false), false, None, true, None)
  }

  /** _read(size): nothing once closed; before the open, one replay is registered
      and nothing is issued; otherwise exactly one native Read of `size` bytes. */
  function PullStep(s: Reader, size: nat): (r: Reader)
    ensures r == s.(core := s.core.(calls := r.core.calls), pending := r.pending, reading := r.reading)
    ensures s.core.closed ==> r == s
    ensures !s.core.closed && !s.isOpen ==>
              r.core.calls == s.core.calls && r.pending == Some(size) && r.reading == s.reading
    ensures !s.core.closed && s.isOpen ==>
              r.core.calls == s.core.calls + [NativeRead(size)] && r.reading == Some(size) && r.pending == s.pending
  {
    if s.core.closed then s
    else if !s.isOpen then s.(pending := Some(size))
    else s.(core := s.core.(calls := s.core.calls + [NativeRead(size)]), reading := Some(size))
  }

  /** The native Open calls back. On failure (a truthy error) the error is emitted and a registered
      pull is never replayed; on success 'open' is emitted and a registered pull is
      replayed once. */
  function OpenStep(s: Reader, err: Option<Error>): (r: Reader)
    requires s.opening
    ensures r == s.(opening := false, isOpen := r.isOpen, pending := r.pending, reading := r.reading,
                    core := s.core.(calls := r.core.calls, signals := r.core.signals))
    ensures Raised(err) ==> r.isOpen == s.isOpen && r.pending == s.pending && r.reading == s.reading
                            && r.core.calls == s.core.calls && r.core.signals == s.core.signals + [Failed(err.value)]
    ensures !Raised(err) ==> r.isOpen && r.pending.None? && r.core.signals == s.core.signals + [Opened]
    ensures !Raised(err) ==> r.core.calls == s.core.calls + (if s.pending.Some? && !s.core.closed
                                                             then [NativeRead(s.pending.value)] else [])
                             && r.reading == (if s.pending.Some? && !s.core.closed
                                              then Some(s.pending.value) else s.reading)
  {
    var s := s.(opening := false);
    if Raised(err) then s.(core := Emit(s.core, Failed(err.value)))
    else
      var s := s.(isOpen := true, core := Emit(s.core, Opened));
      match s.pending
      case None => s
      case Some(size) => PullStep(s.(pending := None), size)
  }

  /** _destroy: close the stream with a callback waiting for its 'close'. */
  function DestroyStep(s: Reader): (r: Reader)
    ensures r == s.(core := r.core) && r.core == RequestClose(s.core, true)
    ensures r.core.closed && r.core.listeners == s.core.listeners + 1
    ensures r.core.calls == s.core.calls + (if s.core.closed then [] else [NativeClose])
    ensures r.core.signals == s.core.signals
  {
    s.(core := RequestClose(s.core, true))
  }

  /** The native Read calls back into the buffer it was given. A truthy error
      destroys the stream and is emitted; otherwise the first `bytesRead` bytes are pushed, or
      null when no byte was read. */
  function ReadStep(s: Reader, err: Option<Error>, bytesRead: int, pool: seq<byte>): (r: Reader)
    requires s.reading == Some(|pool|)
    ensures r == s.(reading := None, core := r.core)
    ensures Raised(err) ==> r.core.(signals := s.core.signals) == RequestClose(s.core, true)
                            && r.core.signals == s.core.signals + [Failed(err.value)]
    ensures Raised(err) ==> r.core.calls == s.core.calls + (if s.core.closed then [] else [NativeClose])
    ensures !Raised(err) ==> r.core == s.core.(signals := r.core.signals)
    ensures !Raised(err) && bytesRead <= 0 ==> r.core.signals == s.core.signals + [Pushed(None)]
    ensures !Raised(err) && bytesRead > 0 ==>
              r.core.signals == s.core.signals
                                + [Pushed(Some(pool[..if bytesRead < |pool| then bytesRead else |pool|]))]
  {
    var s := s.(reading := None);
    if Raised(err) then
      var d := DestroyStep(s);
      d.(core := Emit(d.core, Failed(err.value)))
    else
      s.(core := Emit(s.core, Pushed(if bytesRead > 0 then Some(Slice(pool, bytesRead)) else None)))
  }

  /** Everything that can happen to a read stream, one event at a time. */
  datatype Event =
    | PullRequest(size: nat)                                   // the Readable base class calls _read(size)
    | OpenDone(error: Option<Error>)                           // the native Open calls back
    | ReadDone(error: Option<Error>, bytesRead: int, pool: seq<byte>)  // the native Read calls back
    | EndEmitted                                               // the base class emits 'end'
    | CloseRequest(withCallback: bool)                         // the consumer calls close(cb)
    | DestroyRequest                                           // the consumer calls destroy()
    | CloseDone(error: Option<Error>)                          // the native Close calls back
    | NextTick                                                 // a scheduled 'close' event fires

  /** When an event can happen: each native primitive calls back once, and the base
      class never asks for a chunk while the previous one is still owed. */
  predicate Enabled(s: Reader, e: Event) {
    match e
    case PullRequest(_) => s.pending.None? && s.reading.None?
    case OpenDone(_) => s.opening
    case ReadDone(_, _, pool) => s.reading == Some(|pool|)
    case CloseDone(_) => s.core.closing
    case NextTick => s.core.ticks > 0
    case _ => true
  }

  function Step(s: Reader, e: Event): Reader
    requires Enabled(s, e)
  {
    match e
    case PullRequest(size) => PullStep(s, size)
    case OpenDone(err) => OpenStep(s, err)
    case ReadDone(err, n, pool) => ReadStep(s, err, n, pool)
    case EndEmitted => DestroyStep(s)
    case CloseRequest(cb) => s.(core := RequestClose(s.core, cb))
    case DestroyRequest => DestroyStep(s)
    case CloseDone(err) => s.(core := CloseCompleted(s.core, err))
    case NextTick => s.(core := TickElapsed(s.core))
  }

  /** The state after a sequence of events; an event that cannot happen is skipped. */
  function Run(s: Reader, es: seq<Event>): Reader
    decreases |es|
  {
    if es == [] then s
    else Run(if Enabled(s, es[0]) then Step(s, es[0]) else s, es[1..])
  }

  /** The invariant of a read stream: Open first and once; after that only Reads
      and a Close; the Close, once issued, is the last primitive ever issued;
      `closed` says whether it was; no Read before the open succeeded; the
      registered pull only exists before the open; a Read in flight only after it. */
  predicate Inv(s: Reader) {
    var calls := s.core.calls;
    && |calls| > 0 && calls[0] == NativeOpen
    && (forall i :: 0 < i < |calls| ==> calls[i].NativeRead? || calls[i].NativeClose?)
    && (forall i :: 0 <= i < |calls| - 1 ==> !calls[i].NativeClose?)
    && (s.core.closed <==> calls[|calls| - 1].NativeClose?)
    && (s.core.closing ==> s.core.closed)
    && (!s.isOpen ==> forall i :: 0 <= i < |calls| ==> !calls[i].NativeRead?)
    && (s.isOpen ==> !s.opening)
    && (s.pending.Some? ==> !s.isOpen)
    && (s.reading.Some? ==> s.isOpen)
  }

  lemma InitInv()
    ensures Inv(Init())
  {
  }

  lemma AppendKeepsInv(s: Reader, r: Reader, c: Call)
    requires Inv(s) && !s.core.closed
    requires r.core.calls == s.core.calls + [c]
    requires c.NativeRead? || c.NativeClose?
    requires r.core.closed <==> c.NativeClose?
    requires r.core.closing ==> r.core.closed
    requires c.NativeRead? ==> r.isOpen
    requires r.isOpen ==> !r.opening
    requires r.pending.Some? ==> !r.isOpen
    requires r.reading.Some? ==> r.isOpen
    requires !r.isOpen ==> !s.isOpen
    ensures Inv(r)
  {
    var calls := r.core.calls;
    assert calls[|calls| - 1] == c;
    forall i | 0 < i < |calls| ensures calls[i].NativeRead? || calls[i].NativeClose? {
      if i < |calls| - 1 { assert calls[i] == s.core.calls[i]; }
    }
    forall i | 0 <= i < |calls| - 1 ensures !calls[i].NativeClose? {
      assert calls[i] == s.core.calls[i];
    }
  }

  /** Every event that can happen keeps the invariant. */
  lemma StepKeepsInv(s: Reader, e: Event)
    requires Inv(s) && Enabled(s, e)
    ensures Inv(Step(s, e))
  {
    var r := Step(s, e);
    match e
    case PullRequest(size) =>
      if !s.core.closed && s.isOpen {
        AppendKeepsInv(s, r, NativeRead(size));
      }
    case OpenDone(err) =>
      if !Raised(err) && s.pending.Some? && !s.core.closed {
        AppendKeepsInv(s, r, NativeRead(s.pending.value));
      }
    case ReadDone(err, n, pool) =>
      if Raised(err) && !s.core.closed {
        AppendKeepsInv(s, r, NativeClose);
      }
    case EndEmitted =>
      if !s.core.closed {
        AppendKeepsInv(s, r, NativeClose);
      }
    case CloseRequest(cb) =>
      if !s.core.closed {
        AppendKeepsInv(s, r, NativeClose);
      }
    case DestroyRequest =>
      if !s.core.closed {
        AppendKeepsInv(s, r, NativeClose);
      }
    case CloseDone(err) =>
    case NextTick =>
  }

  lemma CloseKeepsInv(s: Reader, withCallback: bool)
    requires Inv(s)
    ensures Inv(s.(core := RequestClose(s.core, withCallback)))
  {
    StepKeepsInv(s, CloseRequest(withCallback));
  }

  /** Every sequence of events keeps the invariant. */
  lemma {:induction false} RunKeepsInv(s: Reader, es: seq<Event>)
    requires Inv(s)
    ensures Inv(Run(s, es))
    decreases |es|
  {
    if es != [] {
      var t := if Enabled(s, es[0]) then Step(s, es[0]) else s;
      if Enabled(s, es[0]) { StepKeepsInv(s, es[0]); }
      RunKeepsInv(t, es[1..]);
    }
  }

  /** Over the whole life of a read stream the native Close is issued at most once,
      and `closed` holds exactly when it was. */
  lemma NativeCloseAtMostOnce(es: seq<Event>)
    ensures var r := Run(Init(), es);
            && Closes(r.core.calls) <= 1
            && (r.core.closed <==> Closes(r.core.calls) == 1)
  {
    InitInv();
    RunKeepsInv(Init(), es);
    var calls := Run(Init(), es).core.calls;
    var prefix := calls[..|calls| - 1];
    assert forall i :: 0 <= i < |prefix| ==> !prefix[i].NativeClose? by {
      forall i | 0 <= i < |prefix| ensures !prefix[i].NativeClose? {
        assert prefix[i] == calls[i];
      }
    }
    NoCloses(prefix);
  }

  /** Once closed, no event makes the stream issue another primitive. */
  lemma StepQuietWhenClosed(s: Reader, e: Event)
    requires Inv(s) && s.core.closed && Enabled(s, e)
    ensures Step(s, e).core.calls == s.core.calls && Step(s, e).core.closed
  {
  }

  /** Once closed, no sequence of events makes the stream issue another primitive. */
  lemma {:induction false} RunQuietWhenClosed(s: Reader, es: seq<Event>)
    requires Inv(s) && s.core.closed
    ensures Run(s, es).core.calls == s.core.calls && Run(s, es).core.closed
    decreases |es|
  {
    if es != [] {
      var t := if Enabled(s, es[0]) then Step(s, es[0]) else s;
      if Enabled(s, es[0]) {
        StepQuietWhenClosed(s, es[0]);
        StepKeepsInv(s, es[0]);
      }
      RunQuietWhenClosed(t, es[1..]);
    }
  }

  /** A failed native Read whose message is empty passes a falsy error and a
      count of -1: the stream stays as it was, issues nothing, and pushes null,
      the end of data. */
  lemma EmptyReadErrorEndsData(s: Reader, pool: seq<byte>)
    requires Inv(s) && s.reading == Some(|pool|)
    ensures var t := Step(s, ReadDone(Some(Native("")), -1, pool));
            && t.core.calls == s.core.calls && t.core.closed == s.core.closed
            && t.core.signals == s.core.signals + [Pushed(None)]
  {
  }

  /** After a read error the stream is closed, the native Close is the last primitive
      it issued, and whatever happens next, no native Read is issued again. */
  lemma NoReadAfterReadError(s: Reader, err: Error, bytesRead: int, pool: seq<byte>, es: seq<Event>)
    requires Inv(s) && s.reading == Some(|pool|) && Raised(Some(err))
    ensures var t := Step(s, ReadDone(Some(err), bytesRead, pool));
            && t.core.closed
            && t.core.calls[|t.core.calls| - 1] == NativeClose
            && Run(t, es).core.calls == t.core.calls
  {
    var e := ReadDone(Some(err), bytesRead, pool);
    StepKeepsInv(s, e);
    RunQuietWhenClosed(Step(s, e), es);
  }

  /** A pull before the open issues nothing; a successful open then issues exactly
      the one Read it deferred. */
  lemma PullBeforeOpenReplayedOnce(s: Reader, size: nat)
    requires Inv(s) && s.opening && !s.core.closed && s.pending.None? && s.reading.None?
    ensures var t := Step(s, PullRequest(size));
            && t.core.calls == s.core.calls
            && Step(t, OpenDone(None)).core.calls == s.core.calls + [NativeRead(size)]
            && Step(t, OpenDone(None)).reading == Some(size)
  {
  }

  /** The end of the data: a read of no bytes pushes null, and the 'end' event that
      follows destroys the stream, so the handle gets closed. */
  lemma EndOfDataCloses(s: Reader, pool: seq<byte>)
    requires Inv(s) && s.reading == Some(|pool|) && !s.core.closed
    ensures var t := Step(s, ReadDone(None, 0, pool));
            && t.core.signals[|t.core.signals| - 1] == Pushed(None)
            && Step(t, EndEmitted).core.calls == s.core.calls + [NativeClose]
  {
  }

  /** close() does not wait for the handle to be idle: the native Close is issued while
      the Open or a Read has not called back yet, and that primitive stays outstanding. */
  lemma CloseWhileHandleBusy(s: Reader, withCallback: bool)
    requires Inv(s) && !s.core.closed && (s.opening || s.reading.Some?)
    ensures var t := Step(s, CloseRequest(withCallback));
            && t.core.calls == s.core.calls + [NativeClose]
            && t.opening == s.opening && t.reading == s.reading
  {
  }

  /** One such run: open, pull 4 bytes, then close before the Read calls back. */
  lemma CloseDuringRead()
    ensures var s1 := Step(Init(), OpenDone(None));
            var s2 := Step(s1, PullRequest(4));
            var s3 := Step(s2, CloseRequest(false));
            && s3.core.calls == [NativeOpen, NativeRead(4), NativeClose]
            && s3.reading == Some(4)
  {
  }

}

/** The HReadStream object itself: its fields and methods, each performing one
    step of the `ReadStreams` model in place. */
module ReadStreamObjects {
  import opened Js
  import opened Lifecycle
  import opened ReadStreams

  /** The read stream, updated in place by its methods and callbacks. */
  class ReadStream {
    var isOpen: bool
    var closed: bool
    var pending: Option<nat>
    var listeners: nat
    var ticks: nat
    ghost var opening: bool
    ghost var reading: Option<nat>
    ghost var closing: bool
    ghost var calls: seq<Call>
    ghost var signals: seq<Signal>

    ghost function State(): Reader
      reads this
    {
      Reader(Core(closed, calls, signals, listeners, ticks, closing), isOpen, pending, opening, reading)
    }

    ghost predicate Valid()
      reads this
    {
      Inv(State())
    }

    /** new HReadStream(reader): issues the native Open. */
    constructor ()
      ensures State() == Init()
      ensures Valid()
    {
      isOpen, closed, pending := false, false, None;
      listeners, ticks := 0, 0;
      opening, reading, closing := true, None, false;
      calls := [NativeOpen];
      signals := [];
    }

    /** _read(size). */
    method Pull(size: nat)
      requires Valid() && pending.None? && reading.None?
      modifies this
      ensures State() == PullStep(old(State()), size)
      ensures Valid()
    {
      StepKeepsInv(State(), PullRequest(size));
      if closed {
        return;
      }
      if !isOpen {
        pending := Some(size);
        return;
      }
      calls := calls + [NativeRead(size)];
      reading := Some(size);
    }

    /** The callback of the native Open. */
    method OnOpen(err: Option<Error>)
      requires Valid() && opening
      modifies this
      ensures State() == OpenStep(old(State()), err)
      ensures Valid()
    {
      StepKeepsInv(State(), OpenDone(err));
      opening := false;
      if Raised(err) {
        signals := signals + [Failed(err.value)];
        return;
      }
      isOpen := true;
      signals := signals + [Opened];
      if pending.Some? {
        var size := pending.value;
        pending := None;
        Pull(size);
      }
    }

    /** The callback of the native Read, with the buffer it filled. */
    method OnRead(err: Option<Error>, bytesRead: int, pool: seq<byte>)
      requires Valid() && reading == Some(|pool|)
      modifies this
      ensures State() == ReadStep(old(State()), err, bytesRead, pool)
      ensures Valid()
    {
      StepKeepsInv(State(), ReadDone(err, bytesRead, pool));
      reading := None;
      if Raised(err) {
        Destroy();
        signals := signals + [Failed(err.value)];
        return;
      }
      var chunk := if bytesRead > 0 then Some(Slice(pool, bytesRead)) else None;
      signals := signals + [Pushed(chunk)];
    }

    /** The 'end' listener registered by the constructor. */
    method OnEnd()
      requires Valid()
      modifies this
      ensures State() == DestroyStep(old(State()))
      ensures Valid()
    {
      Destroy();
    }

    /** _destroy(err, cb): close, with a callback waiting for 'close'. */
    method Destroy()
      requires Valid()
      modifies this
      ensures State() == DestroyStep(old(State()))
      ensures Valid()
    {
      Close(true);
    }

    /** close(cb). */
    method Close(withCallback: bool)
      requires Valid()
      modifies this
      ensures State() == old(State()).(core := RequestClose(old(State()).core, withCallback))
      ensures Valid()
    {
      CloseKeepsInv(State(), withCallback);
      if withCallback {
        listeners := listeners + 1;
      }
      if closed {
        ticks := ticks + 1;
        return;
      }
      closed := true;
      calls := calls + [NativeClose];
      closing := true;
    }

    /** The callback of the native Close. */
    method OnClose(err: Option<Error>)
      requires Valid() && closing
      modifies this
      ensures State() == Step(old(State()), CloseDone(err))
      ensures Valid()
    {
      StepKeepsInv(State(), CloseDone(err));
      closing := false;
      if Raised(err) {
        signals := signals + [Failed(err.value)];
      } else {
        signals := signals + [Closed(listeners)];
        listeners := 0;
      }
    }

    /** A 'close' event scheduled by a repeated close() fires. */
    method Tick()
      requires Valid() && ticks > 0
      modifies this
      ensures State() == Step(old(State()), NextTick)
      ensures Valid()
    {
      StepKeepsInv(State(), NextTick);
      ticks := ticks - 1;
      signals := signals + [Closed(listeners)];
      listeners := 0;
    }
  }
}
