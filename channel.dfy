/** The command channel: messages encoded as JSON and carried over an AF_UNIX datagram
    transport. Sending hands the encoded bytes to the transport's `send_all`; receiving reads
    one datagram into a zero-filled buffer of 1024 bytes and decodes the whole buffer. */
module Channel {
  import opened Wrappers
  import opened Utf8
  import Os
  import Transport
  import Protocol

  datatype ChannelError =
    | TransportError(transport: Transport.TransportError)
    | ProtocolError(protocol: Protocol.ProtocolError)
    | EncodingError(encoding: Protocol.EncodingError)

  /** The three `From` conversions: each error is kept inside its own variant. */
  function FromTransportError(e: Transport.TransportError): (c: ChannelError)
    ensures c.TransportError? && c.transport == e
  {
    TransportError(e)
  }

  function FromProtocolError(e: Protocol.ProtocolError): (c: ChannelError)
    ensures c.ProtocolError? && c.protocol == e
  {
    ProtocolError(e)
  }

  function FromEncodingError(e: Protocol.EncodingError): (c: ChannelError)
    ensures c.EncodingError? && c.encoding == e
  {
    EncodingError(e)
  }

  /** The `?` of a transport result inside a channel operation. */
  function FromTransport<T>(r: Result<T, Transport.TransportError>): (c: Result<T, ChannelError>)
    ensures c.Ok? <==> r.Ok?
    ensures r.Ok? ==> c.value == r.value
    ensures r.Err? ==> c.error == FromTransportError(r.error)
  {
    match r
    case Ok(v) => Ok(v)
    case Err(e) => Err(FromTransportError(e))
  }

  /** The `?` of a decoding result inside a channel operation. */
  function FromDecode(r: Result<Protocol.Message, Protocol.EncodingError>): (c: Result<Protocol.Message, ChannelError>)
    ensures c.Ok? <==> r.Ok?
    ensures r.Ok? ==> c.value == r.value
    ensures r.Err? ==> c.error == FromEncodingError(r.error)
  {
    match r
    case Ok(m) => Ok(m)
    case Err(e) => Err(FromEncodingError(e))
  }

  /** The size of the receive buffer. */
  const BufferSize: nat := 1024

  /** Where `new_default` connects. */
  const DefaultPath: string := "/run/osbuild/api/log"

  function Zeros(n: nat): (z: seq<byte>)
    ensures |z| == n && forall i :: 0 <= i < n ==> z[i] == 0
  {
    seq(n, _ => 0)
  }

  /** The receive buffer after a datagram arrived: as much of the datagram as fits, then the
      zeros the buffer was filled with. */
  function Filled(data: seq<byte>): (buf: seq<byte>)
    ensures |buf| == BufferSize
    ensures forall i :: 0 <= i < BufferSize ==> buf[i] == if i < |data| then data[i] else 0
  {
    Os.Delivered(Zeros(BufferSize), data)
  }

  /** The part of the buffer the datagram was copied into. */
  function Received(data: seq<byte>): (buf: seq<byte>)
    ensures |buf| <= BufferSize && buf == Filled(data)[..|buf|]
    ensures |data| <= BufferSize ==> buf == data
  {
    if |data| <= BufferSize then data else data[..BufferSize]
  }

  /** The bytes a message is sent as. */
  function Wire(m: Protocol.Message): seq<byte> {
    Protocol.Encode(m).value
  }

  /** The script answer the next receive of `socket` gives. */
  function NextDatagram(socket: Os.UnixDatagram): Result<seq<byte>, Os.IoError>
    requires socket.script.recvReplies != []
    reads socket
  {
    socket.script.recvReplies[0]
  }

  /** `CommandChannel`: a datagram transport and the JSON protocol. */
  class CommandChannel {
    const transport: Transport.UnixDgramSocket
    const protocol: Protocol.JsonProtocol

    constructor(transport: Transport.UnixDgramSocket, protocol: Protocol.JsonProtocol)
      ensures this.transport == transport && this.protocol == protocol
    {
      this.transport := transport;
      this.protocol := protocol;
    }

    /** `new_default`: a datagram transport to the default path, bound to no source path,
        with its error converted. */
    static method NewDefault(bindFailure: Option<Os.IoError>, script: Os.Script)
      returns (r: Result<CommandChannel, ChannelError>)
      requires bindFailure.None? ==> script.connectReplies != []
      ensures bindFailure.Some? ==> r == Err(TransportError(Transport.IOError(bindFailure.value)))
      ensures bindFailure.None? && script.connectReplies[0].Some? ==>
        r == Err(TransportError(Transport.IOError(script.connectReplies[0].value)))
      ensures bindFailure.None? && script.connectReplies[0].None? ==>
        (r.Ok? && fresh(r.value) && fresh(r.value.transport) && fresh(r.value.transport.socket) &&
         r.value.transport.socket.peer == Some(DefaultPath) &&
         r.value.transport.socket.local == Some("") && r.value.transport.socket.sent == [] &&
         !r.value.transport.socket.isShutDown &&
         r.value.transport.socket.script == script.(connectReplies := script.connectReplies[1..]))
    {
      var transport := Transport.UnixDgramSocket.New(DefaultPath, None, bindFailure, script);
      if transport.Err? {
        return Err(FromTransportError(transport.error));
      }
      var channel := new CommandChannel(transport.value, Protocol.JsonProtocol);
      r := Ok(channel);
    }

    /** `send`: the message's encoding handed to `send_all`; its count or its error, converted,
        is the result. Encoding cannot fail, so its error branch is not there. */
    method Send(m: Protocol.Message) returns (r: Result<nat, ChannelError>, ghost calls: nat)
      requires Transport.SendAllRun(transport.socket.script.sendReplies, |Wire(m)|, 0).Some?
      modifies transport.socket
      ensures r == FromTransport(Transport.SendAllRun(old(transport.socket.script.sendReplies), |Wire(m)|, 0).value.result)
      ensures calls == Transport.SendAllRun(old(transport.socket.script.sendReplies), |Wire(m)|, 0).value.calls
      ensures transport.socket.sent == old(transport.socket.sent) + Transport.Repeat(Wire(m), calls)
      ensures calls <= |old(transport.socket.script.sendReplies)|
      ensures transport.socket.script ==
        old(transport.socket.script.(sendReplies := transport.socket.script.sendReplies[calls..]))
      ensures transport.socket.peer == old(transport.socket.peer) && transport.socket.local == old(transport.socket.local)
      ensures transport.socket.isShutDown == old(transport.socket.isShutDown)
    {
      match Protocol.Encode(m)
      case Ok(bytes) =>
        var sent;
        sent, calls := transport.SendAll(bytes);
        r := FromTransport(sent);
    }

    /** `recv`, as written: a zero-filled buffer of 1024 bytes receives one datagram, the
        count of bytes received is dropped, and the whole buffer is decoded. The buffer must
        be UTF-8 (the conversion is unwrapped). */
    method Recv(shape: Protocol.Shape) returns (r: Result<Protocol.Message, ChannelError>)
      requires transport.socket.script.recvReplies != []
      requires NextDatagram(transport.socket).Ok? ==> Utf8.Decode(Filled(NextDatagram(transport.socket).value)).Some?
      modifies transport.socket
      ensures old(NextDatagram(transport.socket)).Err? ==>
        r == Err(TransportError(Transport.IOError(old(NextDatagram(transport.socket)).error)))
      ensures old(NextDatagram(transport.socket)).Ok? ==>
        r == FromDecode(Protocol.Decode(shape, Utf8.Decode(Filled(old(NextDatagram(transport.socket)).value)).value))
      ensures transport.socket.script ==
        old(transport.socket.script.(recvReplies := transport.socket.script.recvReplies[1..]))
      ensures transport.socket.sent == old(transport.socket.sent) && transport.socket.peer == old(transport.socket.peer)
      ensures transport.socket.local == old(transport.socket.local)
      ensures transport.socket.isShutDown == old(transport.socket.isShutDown)
    {
      var dat := new byte[BufferSize](_ => 0);
      assert dat[..] == Zeros(BufferSize);
      var received := transport.Recv(dat);
      if received.Err? {
        return Err(FromTransportError(received.error));
      }
      var text := Utf8.Decode(dat[..]);
      r := FromDecode(Protocol.Decode(shape, text.value));
    }

    /** `recv` decoding only the bytes the datagram filled: the count the transport reports
        bounds the text. */
    method RecvFramed(shape: Protocol.Shape) returns (r: Result<Protocol.Message, ChannelError>)
      requires transport.socket.script.recvReplies != []
      requires NextDatagram(transport.socket).Ok? ==> Utf8.Decode(Received(NextDatagram(transport.socket).value)).Some?
      modifies transport.socket
      ensures old(NextDatagram(transport.socket)).Err? ==>
        r == Err(TransportError(Transport.IOError(old(NextDatagram(transport.socket)).error)))
      ensures old(NextDatagram(transport.socket)).Ok? ==>
        r == FromDecode(Protocol.Decode(shape, Utf8.Decode(Received(old(NextDatagram(transport.socket)).value)).value))
      ensures transport.socket.script ==
        old(transport.socket.script.(recvReplies := transport.socket.script.recvReplies[1..]))
      ensures transport.socket.sent == old(transport.socket.sent) && transport.socket.peer == old(transport.socket.peer)
      ensures transport.socket.local == old(transport.socket.local)
      ensures transport.socket.isShutDown == old(transport.socket.isShutDown)
    {
      var dat := new byte[BufferSize](_ => 0);
      assert dat[..] == Zeros(BufferSize);
      var received := transport.Recv(dat);
      if received.Err? {
        return Err(FromTransportError(received.error));
      }
      var n := received.value;
      assert dat[..n] == Received(old(NextDatagram(transport.socket)).value);
      var text := Utf8.Decode(dat[..n]);
      r := FromDecode(Protocol.Decode(shape, text.value));
    }

    /** `send_and_recv`: send, stopping at its error, then receive as `recv` does. */
    method SendAndRecv(m: Protocol.Message, shape: Protocol.Shape)
      returns (r: Result<Protocol.Message, ChannelError>, ghost calls: nat)
      requires Transport.SendAllRun(transport.socket.script.sendReplies, |Wire(m)|, 0).Some?
      requires transport.socket.script.recvReplies != []
      requires NextDatagram(transport.socket).Ok? ==> Utf8.Decode(Filled(NextDatagram(transport.socket).value)).Some?
      modifies transport.socket
      ensures Transport.SendAllRun(old(transport.socket.script.sendReplies), |Wire(m)|, 0).value.result.Err? ==>
        r == Err(TransportError(Transport.SendAllRun(old(transport.socket.script.sendReplies), |Wire(m)|, 0).value.result.error)) &&
        transport.socket.script.recvReplies == old(transport.socket.script.recvReplies)
      ensures Transport.SendAllRun(old(transport.socket.script.sendReplies), |Wire(m)|, 0).value.result.Ok? ==>
        (old(NextDatagram(transport.socket)).Err? ==>
          r == Err(TransportError(Transport.IOError(old(NextDatagram(transport.socket)).error)))) &&
        (old(NextDatagram(transport.socket)).Ok? ==>
          r == FromDecode(Protocol.Decode(shape, Utf8.Decode(Filled(old(NextDatagram(transport.socket)).value)).value))) &&
        transport.socket.script.recvReplies == old(transport.socket.script.recvReplies[1..])
      ensures calls == Transport.SendAllRun(old(transport.socket.script.sendReplies), |Wire(m)|, 0).value.calls
      ensures calls <= |old(transport.socket.script.sendReplies)|
      ensures transport.socket.sent == old(transport.socket.sent) + Transport.Repeat(Wire(m), calls)
      ensures transport.socket.script.sendReplies == old(transport.socket.script.sendReplies[calls..])
      ensures transport.socket.script.connectReplies == old(transport.socket.script.connectReplies)
      ensures transport.socket.script.shutdownReplies == old(transport.socket.script.shutdownReplies)
      ensures transport.socket.peer == old(transport.socket.peer) && transport.socket.local == old(transport.socket.local)
      ensures transport.socket.isShutDown == old(transport.socket.isShutDown)
    {
      var sent;
      sent, calls := Send(m);
      if sent.Err? {
        return Err(sent.error), calls;
      }
      r := Recv(shape);
    }

    /** `open`: nothing to do; the transport was connected on creation. */
    method Open(path: string) returns (r: Result<Unit, ChannelError>)
      ensures r == Ok(Unit)
    {
      r := Ok(Unit);
    }

    /** `close`: the transport's close, with its error converted. */
    method Close() returns (r: Result<Unit, ChannelError>)
      requires transport.socket.script.shutdownReplies != []
      modifies transport.socket
      ensures old(transport.socket.script.shutdownReplies[0]).None? ==> r == Ok(Unit) && transport.socket.isShutDown
      ensures old(transport.socket.script.shutdownReplies[0]).Some? ==>
        r == Err(TransportError(Transport.IOError(old(transport.socket.script.shutdownReplies[0]).value)))
      ensures transport.socket.script ==
        old(transport.socket.script.(shutdownReplies := transport.socket.script.shutdownReplies[1..]))
      ensures transport.socket.isShutDown ==
        (old(transport.socket.script.shutdownReplies[0]).None? || old(transport.socket.isShutDown))
      ensures transport.socket.sent == old(transport.socket.sent) && transport.socket.peer == old(transport.socket.peer)
      ensures transport.socket.local == old(transport.socket.local)
    {
      var closed := transport.Close();
      if closed.Err? {
        return Err(FromTransportError(closed.error));
      }
      r := Ok(Unit);
    }
  }

  // ---------------------------------------------------------------- properties

  /** A string of `n` NUL characters: the zeros of the buffer, read as text. */
  function Nuls(n: nat): (s: string)
    ensures |s| == n && forall i :: 0 <= i < n ==> s[i] == 0 as char
  {
    seq(n, _ => 0 as char)
  }

  lemma ZerosAreNuls(n: nat)
    ensures Utf8.Encode(Nuls(n)) == Zeros(n)
  {
    Utf8.EncodeAscii(Nuls(n));
  }

  /** NUL is neither whitespace nor the start of a token. */
  lemma NulsNotTokens(n: nat)
    requires n >= 1
    ensures Protocol.Tokens(Nuls(n)) == None
  {
    var s := Nuls(n);
    assert s[0] == 0 as char;
    assert !Protocol.IsWhitespace(s[0]);
    assert Protocol.SkipWhitespace(s) == s;
  }

  /** The buffer the encoding `w` of a text `t` leaves when it is shorter than the buffer:
      read as UTF-8, it is `t` and then NULs. */
  lemma FilledText(w: seq<byte>, t: string)
    requires |w| < BufferSize && Utf8.Encode(t) == w
    ensures Utf8.Decode(Filled(w)) == Some(t + Nuls(BufferSize - |w|))
  {
    var k := BufferSize - |w|;
    ZerosAreNuls(k);
    Utf8.EncodeAppend(t, Nuls(k));
    assert Filled(w) == w + Zeros(k);
    Utf8.DecodeEncode(t + Nuls(k));
  }

  /** Decoding the whole buffer fails for every message shorter than the buffer, whatever
      record is asked for: the NULs after the text are not JSON. The buffer is UTF-8, so
      `recv` reaches the decoder and returns its error. */
  lemma PaddedBufferFails(m: Protocol.Message, shape: Protocol.Shape)
    requires |Wire(m)| < BufferSize
    ensures Utf8.Decode(Filled(Wire(m))).Some?
    ensures FromDecode(Protocol.Decode(shape, Utf8.Decode(Filled(Wire(m))).value))
      == Err(EncodingError(Protocol.ParseError))
  {
    Protocol.TextTokens(m, Nuls(BufferSize - |Wire(m)|));
    PaddedFails(Wire(m), Protocol.Text(m), Protocol.TokensOf(m), shape);
  }

  /** The same for any text whose tokens are followed by whatever follows it. */
  lemma PaddedFails(w: seq<byte>, t: string, ts: seq<Protocol.Token>, shape: Protocol.Shape)
    requires |w| < BufferSize && Utf8.Encode(t) == w
    requires Protocol.Tokens(t + Nuls(BufferSize - |w|)) == Protocol.Append(ts, Protocol.Tokens(Nuls(BufferSize - |w|)))
    ensures Utf8.Decode(Filled(w)).Some?
    ensures FromDecode(Protocol.Decode(shape, Utf8.Decode(Filled(w)).value)) == Err(EncodingError(Protocol.ParseError))
  {
    FilledText(w, t);
    NulsNotTokens(BufferSize - |w|);
  }

  /** With only the received bytes decoded, every message that fits the buffer comes back. */
  lemma FramedRoundTrip(m: Protocol.Message)
    requires |Wire(m)| <= BufferSize
    ensures Utf8.Decode(Received(Wire(m))) == Some(Protocol.Text(m))
    ensures FromDecode(Protocol.Decode(Protocol.ShapeOf(m), Utf8.Decode(Received(Wire(m))).value)) == Ok(m)
  {
    Protocol.DecodeEncode(m);
  }

  /** No channel operation produces a protocol error: the JSON protocol cannot fail. */
  lemma NoProtocolErrors(shape: Protocol.Shape, text: string)
    ensures !FromDecode(Protocol.Decode(shape, text)).Err? || !FromDecode(Protocol.Decode(shape, text)).error.ProtocolError?
    ensures Protocol.NewJsonProtocol().Ok?
  {
  }

  /** A datagram socket connected to `path`, whose receive answers with `datagram`. */
  method Receiving(path: string, datagram: seq<byte>) returns (channel: CommandChannel)
    ensures fresh(channel) && fresh(channel.transport) && fresh(channel.transport.socket)
    ensures channel.transport.socket.script.recvReplies == [Ok(datagram)]
  {
    var script := Os.Script([None], [], [Ok(datagram)], []);
    var transport := Transport.UnixDgramSocket.New(path, None, None, script);
    channel := new CommandChannel(transport.value, Protocol.JsonProtocol);
  }

  /** A message sent by one command channel and received, as written, by another fails to
      decode when it is shorter than the receive buffer. */
  method EchoAsWritten(m: Protocol.Message) returns (r: Result<Protocol.Message, ChannelError>)
    requires |Wire(m)| < BufferSize
    ensures r == Err(EncodingError(Protocol.ParseError))
  {
    var channel := Receiving(DefaultPath, Wire(m));
    PaddedBufferFails(m, Protocol.ShapeOf(m));
    r := channel.Recv(Protocol.ShapeOf(m));
  }

  /** The same exchange with only the received bytes decoded gives the message back. */
  method EchoFramed(m: Protocol.Message) returns (r: Result<Protocol.Message, ChannelError>)
    requires |Wire(m)| <= BufferSize
    ensures r == Ok(m)
  {
    var channel := Receiving(DefaultPath, Wire(m));
    FramedRoundTrip(m);
    r := channel.RecvFramed(Protocol.ShapeOf(m));
  }

  /** The message the channel test sends. */
  function TestMessage(): Protocol.Message {
    Protocol.Message.Method(Protocol.MessageType.Method, "test", Protocol.MethodData("name"))
  }

  /** The literal the channel test expects on the wire, written member by member. */
  const TestText: string :=
    "{" + "\"type\":\"Method\"" + "," + "\"method\":\"test\"" + "," +
    "\"data\":{" + "\"name\":\"name\"" + "}}"

  /** The test's literal written in one piece equals TestText. */
  lemma TestLiteral()
    ensures TestText == "{\"type\":\"Method\",\"method\":\"test\",\"data\":{\"name\":\"name\"}}"
  {
    var a := "{" + "\"type\":\"Method\"";
    assert a == "{\"type\":\"Method\"";
    var b := a + "," + "\"method\":\"test\"";
    assert b == "{\"type\":\"Method\",\"method\":\"test\"";
    var c := b + "," + "\"data\":{";
    assert c == "{\"type\":\"Method\",\"method\":\"test\",\"data\":{";
    var d := c + "\"name\":\"name\"" + "}}";
    assert d == "{\"type\":\"Method\",\"method\":\"test\",\"data\":{\"name\":\"name\"}}";
  }

  /** Proof helper: the pieces of the test's literal, one member at a time. */
  lemma TestChunks()
    ensures Protocol.TypeName(Protocol.MessageType.Method) == "Method"
    ensures Protocol.Plain("test") && Protocol.Plain("name")
    ensures Protocol.PlainMember("type", "Method") == "\"type\":\"Method\""
    ensures Protocol.PlainMember("method", "test") == "\"method\":\"test\""
    ensures Protocol.ObjectKey("data") == "\"data\":{"
    ensures Protocol.PlainMember("name", "name") == "\"name\":\"name\""
  {
  }

  lemma TestRendering(name: string, dataName: string)
    requires name == "test" && dataName == "name"
    ensures Protocol.Text(Protocol.Message.Method(Protocol.MessageType.Method, name, Protocol.MethodData(dataName))) == TestText
  {
    TestChunks();
    Protocol.MethodText(Protocol.MessageType.Method, name, dataName);
  }

  /** Proof helper: the test's literal is 56 ASCII characters. */
  lemma TestAscii()
    ensures |TestText| == 56
    ensures forall i :: 0 <= i < |TestText| ==> TestText[i] as int < 0x80
  {
  }

  /** The test's message is written as the literal it expects, 56 ASCII bytes. */
  lemma TestWire()
    ensures Protocol.Text(TestMessage()) == TestText
    ensures |Wire(TestMessage())| == 56
    ensures forall i :: 0 <= i < 56 ==> Wire(TestMessage())[i] as int == TestText[i] as int
  {
    TestRendering("test", "name");
    TestAscii();
    Utf8.EncodeAscii(TestText);
  }

  /** `command_channel_send`: a channel to a socket that takes each datagram whole sends the
      test message as one datagram holding the literal bytes, and reports their number. */
  method CommandChannelSend() returns (size: Result<nat, ChannelError>, datagrams: seq<seq<byte>>)
    ensures size == Ok(56)
    ensures |datagrams| == 1 && |datagrams[0]| == 56
    ensures forall i :: 0 <= i < 56 ==> datagrams[0][i] as int == TestText[i] as int
  {
    TestWire();
    var script := Os.Script([None], [Ok(56)], [], []);
    var transport := Transport.UnixDgramSocket.New("/tmp/channel", None, None, script);
    var channel := new CommandChannel(transport.value, Protocol.JsonProtocol);
    ghost var calls;
    size, calls := channel.Send(TestMessage());
    datagrams := channel.transport.socket.sent;
  }
}
