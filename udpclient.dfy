/** The UDP listener of core/utils/udpclient.py.

    A `UDPClient` is STOPPED or RUNNING and holds the port it last tried to
    bind, a socket handle, a worker handle and a single data-handler slot.
    Sockets and workers are opaque objects: `new Socket` stands for
    `socket.socket(...)` and `new Worker` for a started `threading.Thread`.
    Whether the operating system lets the socket be created and bound is an
    input to `Listen`. The receive loop `_loop` is modelled as one sequential
    pass over a finite trace of `recvfrom` outcomes while the state stays
    RUNNING. What the client prints, and the closing and joining `stop`
    performs, are recorded in order in the field `log`. */
module UdpClient {
  import opened Wrappers

  datatype ClientState = Stopped | Running

  /** An open UDP socket, seen only as a handle. */
  class Socket {}

  /** A started listener thread, seen only as a handle. */
  class Worker {}

  const DefaultPort: int := 5000

  /** What the operating system does when `listen` sets up the socket:
      `socket.socket` itself fails (nothing is assigned), `bind` or
      `settimeout` fails after the socket was assigned, or all succeed. */
  datatype SocketSetup = CreateFails | BindFails | Bound

  datatype Address = Address(host: string, port: int)

  /** A registered data handler, named by the function it wraps. */
  datatype DataHandler = DataHandler(name: string)

  /** How a call of the data handler ends (its body is not modelled). A
      timeout is an `OSError` in Python, but `except socket.timeout` comes
      first and catches it. */
  datatype Reaction = Returns | RaisesTimeout | RaisesOSError | RaisesOther

  /** One pass of the receive loop: `recvfrom` returns a datagram (with how
      the handler's call on it ends, should a handler be set), times out,
      raises `OSError` (for instance because the socket was closed), or
      raises anything else. */
  datatype Receive =
    | Datagram(payload: seq<bv8>, from: Address, reaction: Reaction)
    | Timeout
    | SocketError
    | OtherError

  /** The messages the client prints and the resources it releases, in order. */
  datatype Event =
    | AlreadyListening(port: int)       // "Already listening at port ..."
    | Starting                          // "Starting UDP listener..."
    | SocketInitError                   // "Error initializing socket: ..."
    | ListenerStarted                   // "UDP listener started."
    | AlreadyStopped                    // "Listener is already stopped."
    | Stopping                          // "Stopping UDP listener..."
    | SocketClosed(socket: Socket)
    | WorkerJoined(worker: Worker)
    | ListenerStopped                   // "UDP listener stopped."
    | Listening(port: int)              // "Listening at port ..."
    | Delivered(handler: string, payload: seq<bv8>, from: Address)
    | Received(payload: seq<bv8>, from: Address)   // the default print
    | ReceiveError                      // "Error receiving data: ..."

  // ---------------------------------------------------------------------
  // The receive loop as a function of the trace

  /** Whether this outcome ends the loop: `except OSError: break`. A timeout
      (caught first) and any other exception never end it; a socket error
      always does; without a handler only a socket error does, and with one
      a datagram ends it exactly when the handler raises `OSError`. */
  function Fatal(handler: Option<DataHandler>, r: Receive): (fatal: bool)
    ensures r.Timeout? || r.OtherError? ==> !fatal
    ensures r.SocketError? ==> fatal
    ensures handler.None? ==> (fatal <==> r.SocketError?)
    ensures r.Datagram? && handler.Some? ==> (fatal <==> r.reaction == RaisesOSError)
  {
    r.SocketError? || (r.Datagram? && handler.Some? && r.reaction == RaisesOSError)
  }

  /** What one outcome prints or delivers: a datagram goes first to the
      handler, or to the default print when none is set; a timeout or socket
      error prints nothing; the error message is printed, once and last,
      exactly when some exception other than a timeout or `OSError` was
      caught; nothing else is printed. */
  function Handle(handler: Option<DataHandler>, r: Receive): (out: seq<Event>)
    ensures |out| == if r.Timeout? || r.SocketError? then 0
                     else if r.Datagram? && handler.Some? && r.reaction == RaisesOther then 2
                     else 1
    ensures r.Timeout? || r.SocketError? ==> out == []
    ensures r.Datagram? ==>
              |out| > 0 &&
              out[0] == if handler.Some? then Delivered(handler.value.name, r.payload, r.from)
                        else Received(r.payload, r.from)
    ensures ReceiveError in out <==>
              r.OtherError? || (r.Datagram? && handler.Some? && r.reaction == RaisesOther)
  {
    match r
    case Datagram(payload, from, reaction) =>
      if handler.Some? then
        [Delivered(handler.value.name, payload, from)] + (if reaction == RaisesOther then [ReceiveError] else [])
      else [Received(payload, from)]
    case Timeout => []
    case SocketError => []
    case OtherError => [ReceiveError]
  }

  /** Everything the loop prints or delivers over `trace`. */
  function LoopReport(handler: Option<DataHandler>, trace: seq<Receive>): seq<Event>
    decreases |trace|
  {
    if trace == [] then []
    else Handle(handler, trace[0]) + (if Fatal(handler, trace[0]) then [] else LoopReport(handler, trace[1..]))
  }

  /** How many outcomes the loop reads: up to and including the first fatal
      one, or all of them. */
  function Consumed(handler: Option<DataHandler>, trace: seq<Receive>): (n: nat)
    ensures n <= |trace|
    decreases |trace|
  {
    if trace == [] then 0
    else if Fatal(handler, trace[0]) then 1
    else 1 + Consumed(handler, trace[1..])
  }

  /** The loop reads every outcome up to the first fatal one, and stops
      there: before it only timeouts, data and other errors were read. */
  lemma {:induction false} ConsumedStopsAtFirstFatal(handler: Option<DataHandler>, trace: seq<Receive>)
    ensures forall i :: 0 <= i < Consumed(handler, trace) - 1 ==> !Fatal(handler, trace[i])
    ensures Consumed(handler, trace) < |trace| ==>
              0 < Consumed(handler, trace) && Fatal(handler, trace[Consumed(handler, trace) - 1])
    ensures trace != [] ==> 0 < Consumed(handler, trace)
    decreases |trace|
  {
    if trace != [] && !Fatal(handler, trace[0]) {
      ConsumedStopsAtFirstFatal(handler, trace[1..]);
      forall i | 0 <= i < Consumed(handler, trace) - 1
        ensures !Fatal(handler, trace[i])
      {
        if i > 0 { assert trace[i] == trace[1..][i - 1]; }
      }
    }
  }

  /** The datagrams in a trace, in order. */
  function Datagrams(trace: seq<Receive>): seq<(seq<bv8>, Address)>
    decreases |trace|
  {
    if trace == [] then []
    else (if trace[0].Datagram? then [(trace[0].payload, trace[0].from)] else []) + Datagrams(trace[1..])
  }

  /** The datagrams handed to the data handler named `name`, in order. */
  function DeliveredTo(name: string, events: seq<Event>): seq<(seq<bv8>, Address)>
    decreases |events|
  {
    if events == [] then []
    else (if events[0].Delivered? && events[0].handler == name then [(events[0].payload, events[0].from)] else [])
         + DeliveredTo(name, events[1..])
  }

  /** The datagrams printed by the default branch, in order. */
  function DefaultPrinted(events: seq<Event>): seq<(seq<bv8>, Address)>
    decreases |events|
  {
    if events == [] then []
    else (if events[0].Received? then [(events[0].payload, events[0].from)] else [])
         + DefaultPrinted(events[1..])
  }

  lemma {:induction false} DeliveredToAppend(name: string, a: seq<Event>, b: seq<Event>)
    ensures DeliveredTo(name, a + b) == DeliveredTo(name, a) + DeliveredTo(name, b)
    decreases |a|
  {
    if a == [] {
      assert a + b == b;
    } else {
      assert (a + b)[1..] == a[1..] + b;
      DeliveredToAppend(name, a[1..], b);
    }
  }

  lemma {:induction false} DefaultPrintedAppend(a: seq<Event>, b: seq<Event>)
    ensures DefaultPrinted(a + b) == DefaultPrinted(a) + DefaultPrinted(b)
    decreases |a|
  {
    if a == [] {
      assert a + b == b;
    } else {
      assert (a + b)[1..] == a[1..] + b;
      DefaultPrintedAppend(a[1..], b);
    }
  }

  /** The datagrams among the first `n` outcomes, split after the first one. */
  lemma DatagramsOfPrefix(trace: seq<Receive>, n: nat)
    requires 0 < n <= |trace|
    ensures Datagrams(trace[..n]) ==
              (if trace[0].Datagram? then [(trace[0].payload, trace[0].from)] else []) + Datagrams(trace[1..][..n - 1])
  {
    var read := trace[..n];
    assert read[0] == trace[0];
    assert read[1..] == trace[1..][..n - 1];
  }

  /** A handler call delivers the datagram once; nothing goes to the default print. */
  lemma HandleDeliversOnce(h: DataHandler, r: Receive)
    ensures DeliveredTo(h.name, Handle(Some(h), r)) == if r.Datagram? then [(r.payload, r.from)] else []
    ensures DefaultPrinted(Handle(Some(h), r)) == []
  {
    var first := Handle(Some(h), r);
    if r.Datagram? && r.reaction == RaisesOther {
      assert first[1..] == [ReceiveError];
      assert [ReceiveError][1..] == [];
      assert DeliveredTo(h.name, [ReceiveError]) == [];
      assert DefaultPrinted([ReceiveError]) == [];
    } else if r.OtherError? {
      assert first[1..] == [];
    }
  }

  /** With a handler set, every datagram the loop reads is handed to it
      exactly once and in order, and none is printed by the default branch. */
  lemma {:induction false} HandlerGetsEachDatagramOnce(h: DataHandler, trace: seq<Receive>)
    ensures DeliveredTo(h.name, LoopReport(Some(h), trace)) == Datagrams(trace[..Consumed(Some(h), trace)])
    ensures DefaultPrinted(LoopReport(Some(h), trace)) == []
    decreases |trace|
  {
    if trace != [] {
      var r := trace[0];
      var first := Handle(Some(h), r);
      var rest := if Fatal(Some(h), r) then [] else LoopReport(Some(h), trace[1..]);
      assert LoopReport(Some(h), trace) == first + rest;
      DeliveredToAppend(h.name, first, rest);
      DefaultPrintedAppend(first, rest);
      HandleDeliversOnce(h, r);
      var n := Consumed(Some(h), trace);
      DatagramsOfPrefix(trace, n);
      if !Fatal(Some(h), r) {
        HandlerGetsEachDatagramOnce(h, trace[1..]);
      } else {
        assert trace[1..][..n - 1] == [];
      }
    }
  }

  /** With no handler set, every datagram the loop reads is printed exactly
      once and in order, and nothing is delivered. The loop then ends only at
      a socket error. */
  lemma {:induction false} DefaultPrintsEachDatagramOnce(trace: seq<Receive>, name: string)
    ensures DefaultPrinted(LoopReport(None, trace)) == Datagrams(trace[..Consumed(None, trace)])
    ensures DeliveredTo(name, LoopReport(None, trace)) == []
    decreases |trace|
  {
    if trace != [] {
      var r := trace[0];
      var first := Handle(None, r);
      var rest := if Fatal(None, r) then [] else LoopReport(None, trace[1..]);
      DeliveredToAppend(name, first, rest);
      DefaultPrintedAppend(first, rest);
      var n := Consumed(None, trace);
      var read := trace[..n];
      assert read[0] == r;
      assert read[1..] == trace[1..][..n - 1];
      if !Fatal(None, r) {
        DefaultPrintsEachDatagramOnce(trace[1..], name);
      } else {
        assert read == [r];
        assert read[1..] == [];
      }
    }
  }

  /** Outcomes after the first fatal one are never read. */
  lemma {:induction false} LoopIgnoresTraceAfterFatal(handler: Option<DataHandler>, trace: seq<Receive>)
    ensures LoopReport(handler, trace) == LoopReport(handler, trace[..Consumed(handler, trace)])
    decreases |trace|
  {
    if trace != [] {
      var n := Consumed(handler, trace);
      var read := trace[..n];
      assert read[0] == trace[0];
      if !Fatal(handler, trace[0]) {
        assert read[1..] == trace[1..][..n - 1];
        LoopIgnoresTraceAfterFatal(handler, trace[1..]);
      }
    }
  }

  lemma AppendIsAssociative<T>(a: seq<T>, b: seq<T>, c: seq<T>)
    ensures (a + b) + c == a + (b + c)
  {
  }

  /** One pass of the loop at position `i`. */
  lemma LoopUnfolds(handler: Option<DataHandler>, trace: seq<Receive>, i: nat)
    requires i < |trace|
    ensures LoopReport(handler, trace[i..]) ==
              Handle(handler, trace[i]) + (if Fatal(handler, trace[i]) then [] else LoopReport(handler, trace[i + 1..]))
    ensures Consumed(handler, trace[i..]) ==
              if Fatal(handler, trace[i]) then 1 else 1 + Consumed(handler, trace[i + 1..])
  {
    assert trace[i..][0] == trace[i] && trace[i..][1..] == trace[i + 1..];
  }

  /** Timeouts and other errors never end the loop: a trace without a
      socket error (and without a handler raising `OSError`) is read to the end. */
  lemma NonFatalTraceIsReadCompletely(handler: Option<DataHandler>, trace: seq<Receive>)
    requires forall i :: 0 <= i < |trace| ==> !Fatal(handler, trace[i])
    ensures Consumed(handler, trace) == |trace|
  {
    ConsumedStopsAtFirstFatal(handler, trace);
  }

  // ---------------------------------------------------------------------
  // The client object

  class UDPClient {
    var port: int
    var state: ClientState
    var handleData: Option<DataHandler>
    var socket: Option<Socket>
    var thread: Option<Worker>
    var log: seq<Event>

    /** A RUNNING client holds a socket and a worker; a STOPPED one holds no
        worker (it may still hold the socket of a failed `listen`). */
    predicate Valid()
      reads this
    {
      (state == Running ==> socket.Some? && thread.Some?) &&
      (state == Stopped ==> thread.None?)
    }

    /** `UDPClient.__init__`. */
    constructor ()
      ensures Valid()
      ensures port == DefaultPort && state == Stopped
      ensures handleData == None && socket == None && thread == None && log == []
    {
      port := DefaultPort;
      state := Stopped;
      handleData := None;
      socket := None;
      thread := None;
      log := [];
    }

    /** The `on_data` decorator: the last handler registered wins. */
    method OnData(handler: DataHandler)
      modifies this
      ensures handleData == Some(handler)
      ensures port == old(port) && state == old(state) && socket == old(socket)
      ensures thread == old(thread) && log == old(log)
    {
      handleData := Some(handler);
    }

    /** `listen(port)`, where `setup` is what the operating system does. */
    method Listen(setup: SocketSetup, port: int := DefaultPort)
      requires Valid()
      modifies this
      ensures Valid()
      ensures handleData == old(handleData)
      ensures old(state) == Running ==>
                state == Running && this.port == old(this.port) && socket == old(socket) &&
                thread == old(thread) && log == old(log) + [AlreadyListening(old(this.port))]
      ensures old(state) == Stopped ==> this.port == port
      ensures old(state) == Stopped && setup == Bound ==>
                state == Running &&
                socket.Some? && fresh(socket.value) && thread.Some? && fresh(thread.value) &&
                log == old(log) + [Starting, ListenerStarted]
      ensures old(state) == Stopped && setup == BindFails ==>
                state == Stopped && socket.Some? && fresh(socket.value) && thread == None &&
                log == old(log) + [Starting, SocketInitError]
      ensures old(state) == Stopped && setup == CreateFails ==>
                state == Stopped && socket == old(socket) && thread == None &&
                log == old(log) + [Starting, SocketInitError]
    {
      if state == Running {
        log := log + [AlreadyListening(this.port)];
        return;
      }
      state := Running;
      log := log + [Starting];
      this.port := port;
      if setup != CreateFails {
        var s := new Socket;
        socket := Some(s);
      }
      if setup != Bound {
        log := log + [SocketInitError];
        state := Stopped;
        return;
      }
      var w := new Worker;
      thread := Some(w);
      log := log + [ListenerStarted];
    }

    /** `stop()`: the state becomes STOPPED first, then the socket is closed
        and the worker joined, and both handles are cleared. */
    method Stop()
      requires Valid()
      modifies this
      ensures Valid()
      ensures port == old(port) && handleData == old(handleData)
      ensures old(state) == Stopped ==>
                state == Stopped && socket == old(socket) && thread == old(thread) &&
                log == old(log) + [AlreadyStopped]
      ensures old(state) == Running ==>
                state == Stopped && socket == None && thread == None &&
                log == old(log) + [Stopping, SocketClosed(old(socket).value),
                                   WorkerJoined(old(thread).value), ListenerStopped]
    {
      if state == Stopped {
        log := log + [AlreadyStopped];
        return;
      }
      state := Stopped;
      log := log + [Stopping];
      if socket.Some? {
        log := log + [SocketClosed(socket.value)];
        socket := None;
      }
      if thread.Some? {
        log := log + [WorkerJoined(thread.value)];
        thread := None;
      }
      log := log + [ListenerStopped];
    }

    /** One pass of `_loop`'s try block on the outcome `r`; `done` tells
        whether it left the loop (`break`) rather than going on (`continue`
        or falling through). */
    method ReceiveOnce(r: Receive) returns (done: bool)
      requires state == Running
      modifies this
      ensures state == old(state) && port == old(port) && handleData == old(handleData)
      ensures socket == old(socket) && thread == old(thread)
      ensures log == old(log) + Handle(handleData, r)
      ensures done == Fatal(handleData, r)
    {
      done := false;
      match r
      case Datagram(payload, from, reaction) =>
        if handleData.Some? {
          log := log + [Delivered(handleData.value.name, payload, from)];
          match reaction
          case Returns =>
          case RaisesTimeout =>
          case RaisesOSError =>
            done := true;
          case RaisesOther =>
            if state == Running {
              log := log + [ReceiveError];
            }
        } else {
          log := log + [Received(payload, from)];
        }
      case Timeout =>
      case SocketError =>
        done := true;
      case OtherError =>
        if state == Running {
          log := log + [ReceiveError];
        }
    }

    /** `_loop`, reading the outcomes in `trace` while the state stays RUNNING;
        `read` is how many of them it took. */
    method ReceiveLoop(trace: seq<Receive>) returns (read: nat)
      requires state == Running
      modifies this
      ensures state == old(state) && port == old(port) && handleData == old(handleData)
      ensures socket == old(socket) && thread == old(thread)
      ensures log == old(log) + [Listening(port)] + LoopReport(handleData, trace)
      ensures read == Consumed(handleData, trace)
    {
      log := log + [Listening(port)];
      ghost var start := log;
      var i := 0;
      while state == Running && i < |trace|
        invariant 0 <= i <= |trace|
        invariant state == Running && port == old(port) && handleData == old(handleData)
        invariant socket == old(socket) && thread == old(thread)
        invariant log + LoopReport(handleData, trace[i..]) == start + LoopReport(handleData, trace)
        invariant i + Consumed(handleData, trace[i..]) == Consumed(handleData, trace)
        decreases |trace| - i
      {
        LoopUnfolds(handleData, trace, i);
        ghost var before := log;
        var done := ReceiveOnce(trace[i]);
        i := i + 1;
        if done {
          assert log == before + LoopReport(handleData, trace[i - 1..]);
          break;
        }
        AppendIsAssociative(before, Handle(handleData, trace[i - 1]), LoopReport(handleData, trace[i..]));
      }
      read := i;
    }
  }
}
