/** The operating system's side of the AF_UNIX sockets and the file system, as seen by the
    transports. The kernel is not modelled: each socket answers its calls from a script fixed
    when it was created, one answer per call, and keeps a log of what it was asked to send.
    A precondition that a script still holds an answer says that the system call returns. */
module Os {
  import opened Wrappers
  import opened Utf8

  /** An `std::io::Error`; only its identity matters here. */
  datatype IoError = IoError(code: int)

  /** The answers a datagram socket gives, in call order, for each kind of call. */
  datatype Script = Script(
    connectReplies: seq<Option<IoError>>,
    sendReplies: seq<Result<nat, IoError>>,
    recvReplies: seq<Result<seq<byte>, IoError>>,
    shutdownReplies: seq<Option<IoError>>)

  /** The buffer after a receive of the datagram `data`: as much of it as fits is copied to
      the front, the rest of the buffer keeps what it held. */
  function Delivered(before: seq<byte>, data: seq<byte>): (after: seq<byte>)
    ensures |after| == |before|
    ensures forall i :: 0 <= i < |after| ==> after[i] == (if i < |data| then data[i] else before[i])
  {
    if |data| >= |before| then data[..|before|] else data + before[|data|..]
  }

  /** A `std::os::unix::net::UnixDatagram`. */
  class UnixDatagram {
    var local: Option<string>
    var peer: Option<string>
    var script: Script
    /** Every buffer handed to `send`, in order. */
    var sent: seq<seq<byte>>
    var isShutDown: bool

    constructor(local: Option<string>, script: Script)
      ensures this.local == local && peer.None? && this.script == script
      ensures sent == [] && !isShutDown
    {
      this.local := local;
      peer := None;
      this.script := script;
      sent := [];
      isShutDown := false;
    }

    /** `connect`: on success the socket's peer is `path`. */
    method Connect(path: string) returns (r: Option<IoError>)
      requires script.connectReplies != []
      modifies this
      ensures r == old(script.connectReplies[0])
      ensures script == old(script.(connectReplies := script.connectReplies[1..]))
      ensures peer == (if r.None? then Some(path) else old(peer))
      ensures local == old(local) && sent == old(sent) && isShutDown == old(isShutDown)
    {
      r := script.connectReplies[0];
      script := script.(connectReplies := script.connectReplies[1..]);
      if r.None? {
        peer := Some(path);
      }
    }

    /** `send`: the whole buffer is handed to the kernel, which answers with a count or an error. */
    method Send(buf: seq<byte>) returns (r: Result<nat, IoError>)
      requires script.sendReplies != []
      modifies this
      ensures r == old(script.sendReplies[0])
      ensures script == old(script.(sendReplies := script.sendReplies[1..]))
      ensures sent == old(sent) + [buf]
      ensures local == old(local) && peer == old(peer) && isShutDown == old(isShutDown)
    {
      r := script.sendReplies[0];
      script := script.(sendReplies := script.sendReplies[1..]);
      sent := sent + [buf];
    }

    /** `recv`: one datagram is copied into the buffer, truncated to its length, and the
        number of bytes copied is returned; on an error the buffer is untouched. */
    method Recv(buf: array<byte>) returns (r: Result<nat, IoError>)
      requires script.recvReplies != []
      modifies this, buf
      ensures script == old(script.(recvReplies := script.recvReplies[1..]))
      ensures old(script.recvReplies[0]).Err? ==>
        r == Err(old(script.recvReplies[0]).error) && buf[..] == old(buf[..])
      ensures old(script.recvReplies[0]).Ok? ==>
        var data := old(script.recvReplies[0]).value;
        r == Ok(if |data| < buf.Length then |data| else buf.Length) &&
        buf[..] == Delivered(old(buf[..]), data)
      ensures local == old(local) && peer == old(peer) && sent == old(sent)
      ensures isShutDown == old(isShutDown)
    {
      var reply := script.recvReplies[0];
      script := script.(recvReplies := script.recvReplies[1..]);
      match reply
      case Err(e) =>
        r := Err(e);
      case Ok(data) =>
        var n := if |data| < buf.Length then |data| else buf.Length;
        ghost var before := buf[..];
        for i := 0 to n
          modifies buf
          invariant forall k :: 0 <= k < buf.Length ==> buf[k] == (if k < i then data[k] else before[k])
        {
          buf[i] := data[i];
        }
        assert buf[..] == Delivered(before, data);
        r := Ok(n);
    }

    /** `shutdown(Shutdown::Both)`. */
    method Shutdown() returns (r: Option<IoError>)
      requires script.shutdownReplies != []
      modifies this
      ensures r == old(script.shutdownReplies[0])
      ensures script == old(script.(shutdownReplies := script.shutdownReplies[1..]))
      ensures isShutDown == (r.None? || old(isShutDown))
      ensures local == old(local) && peer == old(peer) && sent == old(sent)
    {
      r := script.shutdownReplies[0];
      script := script.(shutdownReplies := script.shutdownReplies[1..]);
      if r.None? {
        isShutDown := true;
      }
    }
  }

  /** `UnixDatagram::bind(path)`: a socket bound to `path`, or the error the system reports. */
  method Bind(path: string, failure: Option<IoError>, script: Script) returns (r: Result<UnixDatagram, IoError>)
    ensures failure.Some? ==> r == Err(failure.value)
    ensures failure.None? ==> (r.Ok? && fresh(r.value) && r.value.local == Some(path) &&
      r.value.peer.None? && r.value.script == script && r.value.sent == [] && !r.value.isShutDown)
  {
    if failure.Some? {
      return Err(failure.value);
    }
    var socket := new UnixDatagram(Some(path), script);
    r := Ok(socket);
  }

  /** `UnixDatagram::unbound()`: a socket bound to no address, or the error the system reports. */
  method Unbound(failure: Option<IoError>, script: Script) returns (r: Result<UnixDatagram, IoError>)
    ensures failure.Some? ==> r == Err(failure.value)
    ensures failure.None? ==> (r.Ok? && fresh(r.value) && r.value.local.None? &&
      r.value.peer.None? && r.value.script == script && r.value.sent == [] && !r.value.isShutDown)
  {
    if failure.Some? {
      return Err(failure.value);
    }
    var socket := new UnixDatagram(None, script);
    r := Ok(socket);
  }

  /** A `std::os::unix::net::UnixStream`, connected when it exists. */
  class UnixStream {
    const peer: string
    var shutdownReplies: seq<Option<IoError>>
    var isShutDown: bool

    constructor(peer: string, shutdownReplies: seq<Option<IoError>>)
      ensures this.peer == peer && this.shutdownReplies == shutdownReplies && !isShutDown
    {
      this.peer := peer;
      this.shutdownReplies := shutdownReplies;
      isShutDown := false;
    }

    /** `shutdown(Shutdown::Both)`. */
    method Shutdown() returns (r: Option<IoError>)
      requires shutdownReplies != []
      modifies this
      ensures r == old(shutdownReplies[0]) && shutdownReplies == old(shutdownReplies[1..])
      ensures isShutDown == (r.None? || old(isShutDown))
    {
      r := shutdownReplies[0];
      shutdownReplies := shutdownReplies[1..];
      if r.None? {
        isShutDown := true;
      }
    }
  }

  /** `UnixStream::connect(path)`: a stream to `path`, or the error the system reports. */
  method ConnectStream(path: string, failure: Option<IoError>, shutdownReplies: seq<Option<IoError>>)
    returns (r: Result<UnixStream, IoError>)
    ensures failure.Some? ==> r == Err(failure.value)
    ensures failure.None? ==> (r.Ok? && fresh(r.value) && r.value.peer == path &&
      r.value.shutdownReplies == shutdownReplies && !r.value.isShutDown)
  {
    if failure.Some? {
      return Err(failure.value);
    }
    var stream := new UnixStream(path, shutdownReplies);
    r := Ok(stream);
  }

  /** The file system, as far as `std::fs::remove_file` touches it. */
  class FileSystem {
    var removeReplies: seq<Option<IoError>>
    /** Every path successfully removed, in order. */
    var removed: seq<string>

    constructor(removeReplies: seq<Option<IoError>>)
      ensures this.removeReplies == removeReplies && removed == []
    {
      this.removeReplies := removeReplies;
      removed := [];
    }

    method RemoveFile(path: string) returns (r: Option<IoError>)
      requires removeReplies != []
      modifies this
      ensures r == old(removeReplies[0]) && removeReplies == old(removeReplies[1..])
      ensures removed == old(removed) + (if r.None? then [path] else [])
    {
      r := removeReplies[0];
      removeReplies := removeReplies[1..];
      if r.None? {
        removed := removed + [path];
      }
    }
  }
}
