/** The first layout of the library: a datagram transport that remembers the path it was
    opened on and the path it is bound to, message records that are still empty structs with
    decoders that ignore their input, and three channels that only open and close their
    transport. */
module Legacy {
  import opened Wrappers
  import opened Utf8
  import Os
  import Transport
  import Protocol

  // ---------------------------------------------------------------- transport

  /** `UnixSocket`: an unbound datagram socket with the address it was last opened on and the
      address its own end is bound to. */
  class UnixSocket {
    const socket: Os.UnixDatagram
    var path: Option<string>
    var bind: Option<string>

    constructor(socket: Os.UnixDatagram)
      ensures this.socket == socket && path.None? && bind.None?
    {
      this.socket := socket;
      path := None;
      bind := None;
    }

    /** No operation of this transport binds its socket to a file. */
    predicate Unbound()
      reads this
    {
      bind.None?
    }

    /** `new`: an unbound socket that has not been opened, or the error of creating it. */
    static method New(failure: Option<Os.IoError>, script: Os.Script)
      returns (r: Result<UnixSocket, Transport.TransportError>)
      ensures failure.Some? ==> r == Err(Transport.IOError(failure.value))
      ensures failure.None? ==>
        (r.Ok? && fresh(r.value) && fresh(r.value.socket) &&
         r.value.path.None? && r.value.Unbound() &&
         r.value.socket.local.None? && r.value.socket.peer.None? &&
         r.value.socket.script == script && r.value.socket.sent == [] &&
         !r.value.socket.isShutDown)
    {
      var unbound := Os.Unbound(failure, script);
      if unbound.Err? {
        return Err(Transport.FromIoError(unbound.error));
      }
      var instance := new UnixSocket(unbound.value);
      r := Ok(instance);
    }

    /** `open`: the path is recorded first and the socket then connected to it, so a failed
        connect still leaves the path recorded. */
    method Open(p: string) returns (r: Result<Unit, Transport.TransportError>)
      requires socket.script.connectReplies != []
      modifies this, socket
      ensures path == Some(p) && bind == old(bind)
      ensures old(socket.script.connectReplies[0]).None? ==> r == Ok(Unit) && socket.peer == Some(p)
      ensures old(socket.script.connectReplies[0]).Some? ==>
        r == Err(Transport.IOError(old(socket.script.connectReplies[0]).value)) &&
        socket.peer == old(socket.peer)
      ensures socket.script == old(socket.script.(connectReplies := socket.script.connectReplies[1..]))
      ensures socket.sent == old(socket.sent) && socket.isShutDown == old(socket.isShutDown)
      ensures socket.local == old(socket.local)
    {
      path := Some(p);
      var connected := socket.Connect(p);
      if connected.Some? {
        return Err(Transport.FromIoError(connected.value));
      }
      r := Ok(Unit);
    }

    /** `close`: shut the socket down, stopping at an error; then, only when the socket is
        bound, remove its file. */
    method Close(fs: Os.FileSystem) returns (r: Result<Unit, Transport.TransportError>)
      requires socket.script.shutdownReplies != []
      requires bind.Some? ==> fs.removeReplies != []
      modifies socket, fs
      ensures socket.script == old(socket.script.(shutdownReplies := socket.script.shutdownReplies[1..]))
      ensures socket.sent == old(socket.sent) && socket.peer == old(socket.peer) && socket.local == old(socket.local)
      ensures socket.isShutDown == (old(socket.script.shutdownReplies[0]).None? || old(socket.isShutDown))
      ensures old(socket.script.shutdownReplies[0]).Some? ==>
        r == Err(Transport.IOError(old(socket.script.shutdownReplies[0]).value)) &&
        fs.removeReplies == old(fs.removeReplies) && fs.removed == old(fs.removed)
      ensures old(socket.script.shutdownReplies[0]).None? && bind.None? ==>
        r == Ok(Unit) && socket.isShutDown &&
        fs.removeReplies == old(fs.removeReplies) && fs.removed == old(fs.removed)
      ensures old(socket.script.shutdownReplies[0]).None? && bind.Some? ==>
        socket.isShutDown && fs.removeReplies == old(fs.removeReplies[1..]) &&
        (if old(fs.removeReplies[0]).None?
         then r == Ok(Unit) && fs.removed == old(fs.removed) + [bind.value]
         else r == Err(Transport.IOError(old(fs.removeReplies[0]).value)) && fs.removed == old(fs.removed))
    {
      var shut := socket.Shutdown();
      if shut.Some? {
        return Err(Transport.FromIoError(shut.value));
      }
      if bind.Some? {
        var removed := fs.RemoveFile(bind.value);
        if removed.Some? {
          return Err(Transport.FromIoError(removed.value));
        }
      }
      r := Ok(Unit);
    }

    /** `recv`: what the socket's receive gives, with its error converted. */
    method Recv(buf: array<byte>) returns (r: Result<nat, Transport.TransportError>)
      requires socket.script.recvReplies != []
      modifies socket, buf
      ensures socket.script == old(socket.script.(recvReplies := socket.script.recvReplies[1..]))
      ensures old(socket.script.recvReplies[0]).Err? ==>
        r == Err(Transport.IOError(old(socket.script.recvReplies[0]).error)) && buf[..] == old(buf[..])
      ensures old(socket.script.recvReplies[0]).Ok? ==>
        var data := old(socket.script.recvReplies[0]).value;
        r == Ok(if |data| < buf.Length then |data| else buf.Length) &&
        buf[..] == Os.Delivered(old(buf[..]), data)
      ensures socket.sent == old(socket.sent) && socket.peer == old(socket.peer) && socket.local == old(socket.local)
      ensures socket.isShutDown == old(socket.isShutDown)
    {
      var size := socket.Recv(buf);
      r := Transport.Lift(size);
    }

    /** `send`: what the socket's send gives, with its error converted. */
    method Send(buf: seq<byte>) returns (r: Result<nat, Transport.TransportError>)
      requires socket.script.sendReplies != []
      modifies socket
      ensures r == Transport.Lift(old(socket.script.sendReplies[0]))
      ensures socket.script == old(socket.script.(sendReplies := socket.script.sendReplies[1..]))
      ensures socket.sent == old(socket.sent) + [buf]
      ensures socket.peer == old(socket.peer) && socket.isShutDown == old(socket.isShutDown)
      ensures socket.local == old(socket.local)
    {
      var size := socket.Send(buf);
      r := Transport.Lift(size);
    }
  }

  // ---------------------------------------------------------------- messages and encoding

  /** `Envelope`: a wrapper naming a type and carrying data, both as strings. */
  datatype Envelope = Envelope(typ: string, data: string)

  /** `Envelope::new`: the placeholder envelope of type "bar" holding "foo". */
  function NewEnvelope(): (e: Envelope)
    ensures e.typ == "bar" && e.data == "foo"
  {
    Envelope("bar", "foo")
  }

  /** The five message records, each still a struct without fields. */
  datatype Record = MessageRecord | MethodRecord | ReplyRecord | SignalRecord | ExceptionRecord

  /** A struct without fields, as serde_json writes it. */
  const EmptyObject: string := "{}"

  /** `encode_message`, `encode_method`, `encode_reply`, `encode_signal`, `encode_exception`:
      every record is written as an empty JSON object, two ASCII bytes. */
  function EncodeRecord(record: Record): (r: Result<seq<byte>, Protocol.EncodingError>)
    ensures r.Ok? && Utf8.Decode(r.value) == Some(EmptyObject)
    ensures |r.value| == 2 && r.value[0] as int == '{' as int && r.value[1] as int == '}' as int
  {
    Utf8.DecodeEncode(EmptyObject);
    Utf8.EncodeAscii(EmptyObject);
    Ok(Utf8.Encode(EmptyObject))
  }

  /** `decode_message` and the four other decoders: whatever the text, the (empty) record of
      the kind asked for. The input is never read. */
  function DecodeRecord(kind: Record, text: string): (r: Result<Record, Protocol.EncodingError>)
    ensures r == Ok(kind)
  {
    Ok(kind)
  }

  /** Every record survives an encode and a decode of its kind, and so does any text at all:
      a decoder cannot reject malformed input. */
  lemma RecordRoundTrip(record: Record, garbage: string)
    ensures Utf8.Decode(EncodeRecord(record).value).Some?
    ensures DecodeRecord(record, Utf8.Decode(EncodeRecord(record).value).value) == Ok(record)
    ensures DecodeRecord(record, garbage) == Ok(record)
  {
  }

  /** The wire does not say which record it carries: all five are written alike. */
  lemma EncodingForgetsKind(a: Record, b: Record)
    ensures EncodeRecord(a) == EncodeRecord(b)
  {
  }

  // ---------------------------------------------------------------- channels

  /** `ChannelError`: a transport or a protocol error; encoding errors cannot reach a channel. */
  datatype ChannelError =
    | TransportError(transport: Transport.TransportError)
    | ProtocolError(protocol: Protocol.ProtocolError)

  /** `From<TransportError> for ChannelError`. */
  function FromTransportError(e: Transport.TransportError): (c: ChannelError)
    ensures c.TransportError? && c.transport == e
  {
    TransportError(e)
  }

  /** `From<ProtocolError> for ChannelError`. */
  function FromProtocolError(e: Protocol.ProtocolError): (c: ChannelError)
    ensures c.ProtocolError? && c.protocol == e
  {
    ProtocolError(e)
  }

  /** The `?` of a transport result inside a function returning a channel result. */
  function LiftTransport(r: Result<Unit, Transport.TransportError>): (l: Result<Unit, ChannelError>)
    ensures l.Ok? <==> r.Ok?
    ensures r.Err? ==> l.error == FromTransportError(r.error)
  {
    match r
    case Ok(_) => Ok(Unit)
    case Err(e) => Err(FromTransportError(e))
  }

  /** Which of the three channel structs a channel is; they behave alike. */
  datatype Purpose =
    | Command   // receives commands from the host
    | Log       // sends logs back to the host
    | Progress  // sends progress back to the host

  /** `CommandChannel`, `LogChannel` and `ProgressChannel`: a transport and a protocol. */
  class Channel {
    const purpose: Purpose
    const transport: UnixSocket
    const protocol: Protocol.JsonProtocol

    constructor(purpose: Purpose, transport: UnixSocket, protocol: Protocol.JsonProtocol)
      ensures this.purpose == purpose && this.transport == transport && this.protocol == protocol
    {
      this.purpose := purpose;
      this.transport := transport;
      this.protocol := protocol;
    }

    /** `open`: open the transport on `path`; its error becomes a channel error. */
    method Open(path: string) returns (r: Result<Unit, ChannelError>)
      requires transport.socket.script.connectReplies != []
      modifies transport, transport.socket
      ensures transport.path == Some(path) && transport.bind == old(transport.bind)
      ensures old(transport.socket.script.connectReplies[0]).None? ==>
        r == Ok(Unit) && transport.socket.peer == Some(path)
      ensures old(transport.socket.script.connectReplies[0]).Some? ==>
        r == Err(TransportError(Transport.IOError(old(transport.socket.script.connectReplies[0]).value))) &&
        transport.socket.peer == old(transport.socket.peer)
      ensures transport.socket.script ==
        old(transport.socket.script.(connectReplies := transport.socket.script.connectReplies[1..]))
      ensures transport.socket.isShutDown == old(transport.socket.isShutDown)
      ensures transport.socket.sent == old(transport.socket.sent) && transport.socket.local == old(transport.socket.local)
    {
      var openResult := transport.Open(path);
      r := LiftTransport(openResult);
    }

    /** `close`: close the transport; its error becomes a channel error. */
    method Close(fs: Os.FileSystem) returns (r: Result<Unit, ChannelError>)
      requires transport.socket.script.shutdownReplies != []
      requires transport.bind.Some? ==> fs.removeReplies != []
      modifies transport.socket, fs
      ensures transport.socket.script ==
        old(transport.socket.script.(shutdownReplies := transport.socket.script.shutdownReplies[1..]))
      ensures transport.socket.peer == old(transport.socket.peer) && transport.socket.sent == old(transport.socket.sent)
      ensures transport.socket.local == old(transport.socket.local)
      ensures transport.socket.isShutDown ==
        (old(transport.socket.script.shutdownReplies[0]).None? || old(transport.socket.isShutDown))
      ensures old(transport.socket.script.shutdownReplies[0]).Some? ==>
        r == Err(TransportError(Transport.IOError(old(transport.socket.script.shutdownReplies[0]).value))) &&
        fs.removeReplies == old(fs.removeReplies) && fs.removed == old(fs.removed)
      ensures old(transport.socket.script.shutdownReplies[0]).None? && transport.Unbound() ==>
        r == Ok(Unit) && fs.removeReplies == old(fs.removeReplies) && fs.removed == old(fs.removed)
      ensures old(transport.socket.script.shutdownReplies[0]).None? && transport.bind.Some? ==>
        fs.removeReplies == old(fs.removeReplies[1..]) &&
        (if old(fs.removeReplies[0]).None?
         then r == Ok(Unit) && fs.removed == old(fs.removed) + [transport.bind.value]
         else r == Err(TransportError(Transport.IOError(old(fs.removeReplies[0]).value))) && fs.removed == old(fs.removed))
    {
      var closeResult := transport.Close(fs);
      r := LiftTransport(closeResult);
    }
  }

  /** The setup of the tests: a new unbound socket, wrapped in a channel of `purpose`; the
      system answers connects, shutdowns and file removals as scripted. */
  method NewChannel(purpose: Purpose, connectReplies: seq<Option<Os.IoError>>,
                    shutdownReplies: seq<Option<Os.IoError>>)
    returns (channel: Channel)
    ensures fresh(channel) && fresh(channel.transport) && fresh(channel.transport.socket)
    ensures channel.purpose == purpose && channel.transport.path.None? && channel.transport.Unbound()
    ensures channel.transport.socket.script == Os.Script(connectReplies, [], [], shutdownReplies)
    ensures channel.transport.socket.peer.None? && !channel.transport.socket.isShutDown
    ensures channel.transport.socket.local.None? && channel.transport.socket.sent == []
  {
    var socket := UnixSocket.New(None, Os.Script(connectReplies, [], [], shutdownReplies));
    var protocol := Protocol.NewJsonProtocol();
    channel := new Channel(purpose, socket.value, protocol.value);
  }

  /** `unixsocket_non_existent_directory`: with the connect refused, opening fails, yet the
      path is recorded and closing succeeds without touching the file system. */
  method NonExistentDirectory(purpose: Purpose, refused: Os.IoError)
    returns (openResult: Result<Unit, ChannelError>, closeResult: Result<Unit, ChannelError>,
             path: Option<string>, removed: seq<string>)
    ensures openResult == Err(TransportError(Transport.IOError(refused)))
    ensures closeResult == Ok(Unit)
    ensures path == Some("/non-existent/non-existent")
    ensures removed == []
  {
    var channel := NewChannel(purpose, [Some(refused)], [None]);
    var fs := new Os.FileSystem([]);
    openResult := channel.Open("/non-existent/non-existent");
    closeResult := channel.Close(fs);
    path := channel.transport.path;
    removed := fs.removed;
  }

  /** `unixsocket_existant`: with a socket listening on the path, opening connects to it and
      closing shuts the socket down; no file of the channel's own is removed. */
  method Existing(purpose: Purpose)
    returns (openResult: Result<Unit, ChannelError>, closeResult: Result<Unit, ChannelError>,
             peer: Option<string>, removed: seq<string>)
    ensures openResult == Ok(Unit) && closeResult == Ok(Unit)
    ensures peer == Some("/tmp/socket")
    ensures removed == []
  {
    var channel := NewChannel(purpose, [None], [None]);
    var fs := new Os.FileSystem([]);
    openResult := channel.Open("/tmp/socket");
    closeResult := channel.Close(fs);
    peer := channel.transport.socket.peer;
    removed := fs.removed;
  }
}
