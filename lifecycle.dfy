/** What HReadStream and HWriteStream share: the log of primitives issued on
    the native handle, the signals given to the consumer, and `close(cb)`,
    which both classes implement identically. A stream is closed at most
    once on the native side; every later close only schedules a 'close'
    event for the next tick. */
module Lifecycle {
  import opened Js

  /** A primitive issued on a native FileReader or FileWriter. */
  datatype Call =
    | NativeOpen                              // reader.Open(cb)
    | NativeOpenForWrite(replication: Value)  // writer.Open(replication, cb)
    | NativeRead(size: nat)                   // reader.Read(pool, size, cb)
    | NativeWrite(data: seq<byte>)            // writer.Write(data, data.length, cb)
    | NativeClose                             // reader.Close(cb) / writer.Close(cb)

  /** What a stream hands to its consumer. */
  datatype Signal =
    | Opened                            // emit('open')
    | Failed(error: Error)              // emit('error', e)
    | Pushed(chunk: Option<seq<byte>>)  // push(b); None is push(null), the end of the data
    | WriteDone(outcome: Option<Error>) // the write callback: cb() or cb(err)
    | Closed(listeners: nat)            // emit('close'), running that many once('close') callbacks

  /** The state close() reads and writes. */
  datatype Core = Core(
    closed: bool,          // this.closed
    calls: seq<Call>,      // the primitives issued on the handle, oldest first
    signals: seq<Signal>,  // the signals given to the consumer, oldest first
    listeners: nat,        // once('close') callbacks registered and not yet run
    ticks: nat,            // emit('close') calls scheduled with process.nextTick
    closing: bool)         // the native Close was issued and has not called back

  function Emit(c: Core, s: Signal): (r: Core)
    ensures r.signals == c.signals + [s]
    ensures r.(signals := c.signals) == c
  {
    c.(signals := c.signals + [s])
  }

  /** The number of native Close calls in a log. */
  function Closes(calls: seq<Call>): (n: nat)
    ensures n <= |calls|
  {
    if calls == [] then 0
    else Closes(calls[..|calls| - 1]) + (if calls[|calls| - 1].NativeClose? then 1 else 0)
  }

  /** A log counts no Close exactly when none of its entries is one. */
  lemma {:induction false} NoCloses(calls: seq<Call>)
    ensures Closes(calls) == 0 <==> forall i :: 0 <= i < |calls| ==> !calls[i].NativeClose?
    decreases |calls|
  {
    if calls != [] {
      var prefix := calls[..|calls| - 1];
      NoCloses(prefix);
      assert forall i :: 0 <= i < |prefix| ==> prefix[i] == calls[i];
    }
  }

  /** close(cb): a registered callback waits for the next 'close' event; a stream
      already closed only schedules that event, any other one is marked closed
      and issues the native Close. */
  function RequestClose(c: Core, withCallback: bool): (r: Core)
    ensures r.closed && r.signals == c.signals
    ensures r.listeners == c.listeners + (if withCallback then 1 else 0)
    ensures !c.closed ==> r.calls == c.calls + [NativeClose] && r.closing && r.ticks == c.ticks
    ensures c.closed ==> r.calls == c.calls && r.closing == c.closing && r.ticks == c.ticks + 1
    ensures Closes(r.calls) == Closes(c.calls) + (if c.closed then 0 else 1)
  {
    var c := if withCallback then c.(listeners := c.listeners + 1) else c;
    if c.closed then
      c.(ticks := c.ticks + 1)
    else
      assert (c.calls + [NativeClose])[..|c.calls|] == c.calls;
      c.(closed := true, calls := c.calls + [NativeClose], closing := true)
  }

  /** The native Close calls back: a truthy error is emitted as 'error' (the waiting
      callbacks stay registered), success as 'close', which runs them. */
  function CloseCompleted(c: Core, err: Option<Error>): (r: Core)
    requires c.closing
    ensures !r.closing && r.closed == c.closed && r.calls == c.calls && r.ticks == c.ticks
    ensures Raised(err) ==> r.signals == c.signals + [Failed(err.value)] && r.listeners == c.listeners
    ensures !Raised(err) ==> r.signals == c.signals + [Closed(c.listeners)] && r.listeners == 0
  {
    var c := c.(closing := false);
    if Raised(err) then Emit(c, Failed(err.value))
    else Emit(c, Closed(c.listeners)).(listeners := 0)
  }

  /** A 'close' event scheduled by a repeated close() fires, running the waiting callbacks. */
  function TickElapsed(c: Core): (r: Core)
    requires c.ticks > 0
    ensures r.ticks == c.ticks - 1 && r.calls == c.calls && r.closed == c.closed && r.closing == c.closing
    ensures r.signals == c.signals + [Closed(c.listeners)] && r.listeners == 0
  {
    Emit(c, Closed(c.listeners)).(ticks := c.ticks - 1, listeners := 0)
  }

  /** close() called once for each entry of `callbacks` (true: with a callback). */
  function CloseRepeatedly(c: Core, callbacks: seq<bool>): Core
    decreases |callbacks|
  {
    if callbacks == [] then c else CloseRepeatedly(RequestClose(c, callbacks[0]), callbacks[1..])
  }

  function CountTrue(bs: seq<bool>): nat {
    if bs == [] then 0 else (if bs[0] then 1 else 0) + CountTrue(bs[1..])
  }

  /** However often close() is called on an open stream, the native Close is issued
      exactly once, by the first call; every later call schedules one 'close' event,
      and every callback passed waits for a 'close' event. */
  lemma {:induction false} CloseIsIdempotent(c: Core, callbacks: seq<bool>)
    requires !c.closed && callbacks != []
    ensures var r := CloseRepeatedly(c, callbacks);
            && r.closed
            && r.calls == c.calls + [NativeClose]
            && Closes(r.calls) == Closes(c.calls) + 1
            && r.ticks == c.ticks + |callbacks| - 1
            && r.listeners == c.listeners + CountTrue(callbacks)
            && r.signals == c.signals
  {
    ClosedStaysClosed(RequestClose(c, callbacks[0]), callbacks[1..]);
  }

  /** On a closed stream, close() calls never reach the native handle. */
  lemma {:induction false} ClosedStaysClosed(c: Core, callbacks: seq<bool>)
    requires c.closed
    ensures var r := CloseRepeatedly(c, callbacks);
            && r.closed && r.calls == c.calls && r.closing == c.closing
            && r.ticks == c.ticks + |callbacks|
            && r.listeners == c.listeners + CountTrue(callbacks)
            && r.signals == c.signals
    decreases |callbacks|
  {
    if callbacks != [] {
      ClosedStaysClosed(RequestClose(c, callbacks[0]), callbacks[1..]);
    }
  }
}
