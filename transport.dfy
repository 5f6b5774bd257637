/** Transports move raw bytes between a module and the host: an AF_UNIX datagram socket,
    and a stream socket whose send and receive are stubs. */
module Transport {
  import opened Wrappers
  import opened Utf8
  import Os

  datatype TransportError = IOError(cause: Os.IoError) | SocketError

  /** `From<std::io::Error> for TransportError`: the io error is kept inside `IOError`. */
  function FromIoError(e: Os.IoError): (t: TransportError)
    ensures t.IOError? && t.cause == e
    ensures t != SocketError
  {
    IOError(e)
  }

  /** The `?` of an io result inside a function returning a transport result. */
  function Lift<T>(r: Result<T, Os.IoError>): (l: Result<T, TransportError>)
    ensures l.Ok? <==> r.Ok?
    ensures r.Ok? ==> l.value == r.value
    ensures r.Err? ==> l.error == FromIoError(r.error)
  {
    match r
    case Ok(v) => Ok(v)
    case Err(e) => Err(FromIoError(e))
  }

  /** What a run of `send_all` returns and how many times it called `send`. */
  datatype SendAllOutcome = SendAllOutcome(result: Result<nat, TransportError>, calls: nat)

  /** The `send_all` loop, run against the answers `send` gives in turn: while fewer than
      `len` bytes are counted as sent, send the whole buffer again and add the count; the
      first error ends the run. `None` when the answers run out first, which is how a
      `send` that keeps answering 0 (the loop never ends) shows here. */
  function SendAllRun(replies: seq<Result<nat, Os.IoError>>, len: nat, sent: nat): Option<SendAllOutcome>
    decreases |replies|
  {
    if sent >= len then Some(SendAllOutcome(Ok(sent), 0))
    else if replies == [] then None
    else match replies[0]
      case Err(e) => Some(SendAllOutcome(Err(FromIoError(e)), 1))
      case Ok(n) =>
        var rest :- SendAllRun(replies[1..], len, sent + n);
        Some(SendAllOutcome(rest.result, rest.calls + 1))
  }

  /** The log of `k` sends of the same buffer. */
  function Repeat(buf: seq<byte>, k: nat): (r: seq<seq<byte>>)
    ensures |r| == k
    ensures forall i :: 0 <= i < k ==> r[i] == buf
  {
    if k == 0 then [] else Repeat(buf, k - 1) + [buf]
  }

  predicate AllOk(replies: seq<Result<nat, Os.IoError>>) {
    forall i :: 0 <= i < |replies| ==> replies[i].Ok?
  }

  /** The sum of the counts of successful sends. */
  function Total(replies: seq<Result<nat, Os.IoError>>): nat
    requires AllOk(replies)
    decreases |replies|
  {
    if replies == [] then 0 else replies[0].value + Total(replies[1..])
  }

  /** A successful run made `calls` successful sends; what it returns is the sum of their
      counts, which is at least the length and can exceed it; and it stopped at the first
      point where the sum reached the length. */
  lemma {:induction false} SendAllSums(replies: seq<Result<nat, Os.IoError>>, len: nat, sent: nat, o: SendAllOutcome)
    requires SendAllRun(replies, len, sent) == Some(o) && o.result.Ok?
    ensures o.calls <= |replies| && AllOk(replies[..o.calls])
    ensures o.result.value == sent + Total(replies[..o.calls])
    ensures o.result.value >= len
    ensures forall j :: 0 <= j < o.calls ==> AllOk(replies[..j]) && sent + Total(replies[..j]) < len
    decreases |replies|
  {
    if sent >= len {
      assert replies[..0] == [];
    } else {
      var n := replies[0].value;
      var rest := SendAllRun(replies[1..], len, sent + n).value;
      SendAllSums(replies[1..], len, sent + n, rest);
      assert o.calls == rest.calls + 1;
      var prefix := replies[..o.calls];
      assert prefix[1..] == replies[1..][..rest.calls];
      assert AllOk(prefix);
      forall j | 0 <= j < o.calls
        ensures AllOk(replies[..j]) && sent + Total(replies[..j]) < len
      {
        if j > 0 {
          assert replies[..j][1..] == replies[1..][..j - 1];
        }
      }
    }
  }

  /** A failed run ends at the first failing send, whose error it returns; the sends before
      it all succeeded without reaching the length. */
  lemma {:induction false} SendAllFirstError(replies: seq<Result<nat, Os.IoError>>, len: nat, sent: nat, o: SendAllOutcome)
    requires SendAllRun(replies, len, sent) == Some(o) && o.result.Err?
    ensures 1 <= o.calls <= |replies|
    ensures replies[o.calls - 1].Err? && o.result.error == FromIoError(replies[o.calls - 1].error)
    ensures AllOk(replies[..o.calls - 1]) && sent + Total(replies[..o.calls - 1]) < len
    decreases |replies|
  {
    if replies[0].Err? {
      assert replies[..0] == [];
    } else {
      var n := replies[0].value;
      var rest := SendAllRun(replies[1..], len, sent + n).value;
      SendAllFirstError(replies[1..], len, sent + n, rest);
      var prefix := replies[..o.calls - 1];
      assert prefix[1..] == replies[1..][..rest.calls - 1];
    }
  }

  /** When every send reports at least one byte, the loop ends within `len` sends. */
  lemma {:induction false} SendAllTerminates(replies: seq<Result<nat, Os.IoError>>, len: nat, sent: nat)
    requires forall i :: 0 <= i < |replies| ==> replies[i].Ok? && replies[i].value >= 1
    requires sent + |replies| >= len
    ensures SendAllRun(replies, len, sent).Some?
    ensures SendAllRun(replies, len, sent).value.result.Ok?
    decreases |replies|
  {
    if sent < len {
      SendAllTerminates(replies[1..], len, sent + replies[0].value);
    }
  }

  /** When every send reports zero bytes, a non-empty buffer is never sent: the loop does not
      end however many answers there are. */
  lemma {:induction false} SendAllZeroNeverEnds(replies: seq<Result<nat, Os.IoError>>, len: nat, sent: nat)
    requires forall i :: 0 <= i < |replies| ==> replies[i] == Ok(0)
    requires sent < len
    ensures SendAllRun(replies, len, sent) == None
    decreases |replies|
  {
    if replies != [] {
      SendAllZeroNeverEnds(replies[1..], len, sent);
    }
  }

  /** Two sends of a three-byte buffer answering 2 and then 3 make `send_all` report five bytes. */
  lemma SendAllOvershoots()
    ensures SendAllRun([Ok(2), Ok(3)], 3, 0) == Some(SendAllOutcome(Ok(5), 2))
  {
    var replies: seq<Result<nat, Os.IoError>> := [Ok(2), Ok(3)];
    assert replies[1..] == [Ok(3)];
    assert replies[1..][1..] == [];
  }

  /** `UnixDGRAMSocket`. */
  class UnixDgramSocket {
    const socket: Os.UnixDatagram

    constructor(socket: Os.UnixDatagram)
      ensures this.socket == socket
    {
      this.socket := socket;
    }

    /** `new`: bind to the source address (the empty one when there is none), then connect to
        the destination; either failure is the result. */
    static method New(dst: string, src: Option<string>, bindFailure: Option<Os.IoError>, script: Os.Script)
      returns (r: Result<UnixDgramSocket, TransportError>)
      requires bindFailure.None? ==> script.connectReplies != []
      ensures bindFailure.Some? ==> r == Err(IOError(bindFailure.value))
      ensures bindFailure.None? && script.connectReplies[0].Some? ==>
        r == Err(IOError(script.connectReplies[0].value))
      ensures bindFailure.None? && script.connectReplies[0].None? ==>
        (r.Ok? && fresh(r.value) && fresh(r.value.socket) &&
         r.value.socket.local == Some(if src.Some? then src.value else "") &&
         r.value.socket.peer == Some(dst) && r.value.socket.sent == [] &&
         !r.value.socket.isShutDown &&
         r.value.socket.script == script.(connectReplies := script.connectReplies[1..]))
    {
      var bound := Os.Bind(if src.Some? then src.value else "", bindFailure, script);
      if bound.Err? {
        return Err(FromIoError(bound.error));
      }
      var instance := new UnixDgramSocket(bound.value);
      var connected := instance.socket.Connect(dst);
      if connected.Some? {
        return Err(FromIoError(connected.value));
      }
      r := Ok(instance);
    }

    /** `close`: shut the socket down in both directions. */
    method Close() returns (r: Result<Unit, TransportError>)
      requires socket.script.shutdownReplies != []
      modifies socket
      ensures old(socket.script.shutdownReplies[0]).None? ==> r == Ok(Unit) && socket.isShutDown
      ensures old(socket.script.shutdownReplies[0]).Some? ==>
        r == Err(IOError(old(socket.script.shutdownReplies[0]).value))
      ensures socket.script == old(socket.script.(shutdownReplies := socket.script.shutdownReplies[1..]))
      ensures socket.isShutDown == (old(socket.script.shutdownReplies[0]).None? || old(socket.isShutDown))
      ensures socket.sent == old(socket.sent) && socket.peer == old(socket.peer) && socket.local == old(socket.local)
    {
      var shut := socket.Shutdown();
      if shut.Some? {
        return Err(FromIoError(shut.value));
      }
      r := Ok(Unit);
    }

    /** `recv`: what the socket's receive gives, with its error converted. */
    method Recv(buf: array<byte>) returns (r: Result<nat, TransportError>)
      requires socket.script.recvReplies != []
      modifies socket, buf
      ensures socket.script == old(socket.script.(recvReplies := socket.script.recvReplies[1..]))
      ensures old(socket.script.recvReplies[0]).Err? ==>
        r == Err(IOError(old(socket.script.recvReplies[0]).error)) && buf[..] == old(buf[..])
      ensures old(socket.script.recvReplies[0]).Ok? ==>
        var data := old(socket.script.recvReplies[0]).value;
        r == Ok(if |data| < buf.Length then |data| else buf.Length) &&
        buf[..] == Os.Delivered(old(buf[..]), data)
      ensures socket.sent == old(socket.sent) && socket.peer == old(socket.peer) && socket.local == old(socket.local)
      ensures socket.isShutDown == old(socket.isShutDown)
    {
      var received := socket.Recv(buf);
      r := Lift(received);
    }

    /** `send`: what the socket's send gives, with its error converted. */
    method Send(buf: seq<byte>) returns (r: Result<nat, TransportError>)
      requires socket.script.sendReplies != []
      modifies socket
      ensures r == Lift(old(socket.script.sendReplies[0]))
      ensures socket.script == old(socket.script.(sendReplies := socket.script.sendReplies[1..]))
      ensures socket.sent == old(socket.sent) + [buf]
      ensures socket.peer == old(socket.peer) && socket.isShutDown == old(socket.isShutDown)
      ensures socket.local == old(socket.local)
    {
      var sent := socket.Send(buf);
      r := Lift(sent);
    }

    /** `send_all`: the run SendAllRun describes. Every send is handed the whole buffer, and
        an empty buffer is never sent at all. */
    method SendAll(buf: seq<byte>) returns (r: Result<nat, TransportError>, ghost calls: nat)
      requires SendAllRun(socket.script.sendReplies, |buf|, 0).Some?
      modifies socket
      ensures r == SendAllRun(old(socket.script.sendReplies), |buf|, 0).value.result
      ensures calls == SendAllRun(old(socket.script.sendReplies), |buf|, 0).value.calls
      ensures calls <= |old(socket.script.sendReplies)|
      ensures socket.script == old(socket.script.(sendReplies := socket.script.sendReplies[calls..]))
      ensures socket.sent == old(socket.sent) + Repeat(buf, calls)
      ensures |buf| == 0 ==> r == Ok(0) && calls == 0
      ensures socket.peer == old(socket.peer) && socket.isShutDown == old(socket.isShutDown)
      ensures socket.local == old(socket.local)
    {
      ghost var replies := socket.script.sendReplies;
      ghost var outcome := SendAllRun(replies, |buf|, 0).value;
      var sent: nat := 0;
      calls := 0;
      while sent < |buf|
        invariant calls <= |replies|
        invariant socket.script == old(socket.script.(sendReplies := replies[calls..]))
        invariant socket.sent == old(socket.sent) + Repeat(buf, calls)
        invariant socket.peer == old(socket.peer) && socket.isShutDown == old(socket.isShutDown)
        invariant socket.local == old(socket.local)
        invariant SendAllRun(replies[calls..], |buf|, sent).Some?
        invariant outcome.result == SendAllRun(replies[calls..], |buf|, sent).value.result
        invariant outcome.calls == SendAllRun(replies[calls..], |buf|, sent).value.calls + calls
        decreases |replies| - calls
      {
        assert replies[calls..][1..] == replies[calls + 1..];
        var n := Send(buf);
        calls := calls + 1;
        if n.Err? {
          return Err(n.error), calls;
        }
        sent := sent + n.value;
      }
      r := Ok(sent);
    }
  }

  /** `UnixSTREAMSocket`: connected on creation; its send and receive do no I/O. */
  class UnixStreamSocket {
    const socket: Os.UnixStream

    constructor(socket: Os.UnixStream)
      ensures this.socket == socket
    {
      this.socket := socket;
    }

    /** `new`: connect to the destination; the source address is not used. */
    static method New(dst: string, src: Option<string>, connectFailure: Option<Os.IoError>,
                      shutdownReplies: seq<Option<Os.IoError>>)
      returns (r: Result<UnixStreamSocket, TransportError>)
      ensures connectFailure.Some? ==> r == Err(IOError(connectFailure.value))
      ensures connectFailure.None? ==>
        (r.Ok? && fresh(r.value) && fresh(r.value.socket) && r.value.socket.peer == dst &&
         r.value.socket.shutdownReplies == shutdownReplies && !r.value.socket.isShutDown)
    {
      var stream := Os.ConnectStream(dst, connectFailure, shutdownReplies);
      if stream.Err? {
        return Err(FromIoError(stream.error));
      }
      var instance := new UnixStreamSocket(stream.value);
      r := Ok(instance);
    }

    /** `close`: shut the stream down in both directions. */
    method Close() returns (r: Result<Unit, TransportError>)
      requires socket.shutdownReplies != []
      modifies socket
      ensures old(socket.shutdownReplies[0]).None? ==> r == Ok(Unit) && socket.isShutDown
      ensures old(socket.shutdownReplies[0]).Some? ==> r == Err(IOError(old(socket.shutdownReplies[0]).value))
      ensures socket.shutdownReplies == old(socket.shutdownReplies[1..])
      ensures socket.isShutDown == (old(socket.shutdownReplies[0]).None? || old(socket.isShutDown))
    {
      var shut := socket.Shutdown();
      if shut.Some? {
        return Err(FromIoError(shut.value));
      }
      r := Ok(Unit);
    }

    /** `recv`: reports one byte and leaves the buffer as it was (nothing is modified). */
    method Recv(buf: array<byte>) returns (r: Result<nat, TransportError>)
      ensures r == Ok(1)
    {
      r := Ok(1);
    }

    /** `send`: reports one byte, whatever the buffer. */
    method Send(buf: seq<byte>) returns (r: Result<nat, TransportError>)
      ensures r == Ok(1)
    {
      r := Ok(1);
    }

    /** `send_all`: the same loop as the datagram socket's; as every send reports one byte it
        makes exactly one call per byte and reports the buffer's length. */
    method SendAll(buf: seq<byte>) returns (r: Result<nat, TransportError>, ghost calls: nat)
      ensures r == Ok(|buf|)
      ensures calls == |buf|
    {
      var sent: nat := 0;
      calls := 0;
      while sent < |buf|
        invariant sent == calls <= |buf|
      {
        var n := Send(buf);
        // `Send` always succeeds, so the `?` of the source never returns here.
        sent := sent + n.value;
        calls := calls + 1;
      }
      r := Ok(sent);
    }
  }

  /** `unixdgramsocket_send_all`: with a peer that takes the three bytes of "foo" in one
      datagram, `send_all` sends that datagram once and reports three bytes. */
  method SendAllFoo() returns (r: Result<nat, TransportError>, datagrams: seq<seq<byte>>)
    ensures r == Ok(3)
    ensures datagrams == [[0x66, 0x6F, 0x6F]]
  {
    var script := Os.Script([None], [Ok(3)], [], []);
    var transport := UnixDgramSocket.New("/tmp/socket", None, None, script);
    var foo: seq<byte> := [0x66, 0x6F, 0x6F];
    assert script.sendReplies[1..] == [];
    ghost var calls;
    r, calls := transport.value.SendAll(foo);
    datagrams := transport.value.socket.sent;
  }
}
