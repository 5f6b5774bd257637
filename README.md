# libosbuild core, modelled in Dafny

This project models the sequential core of `libosbuild`, the Rust library osbuild modules use to
describe manifest locations, collect validation errors and talk to the osbuild host over an
AF_UNIX socket. It proves properties of that model. The model covers three parts:

- **Manifest paths and validation results** (`manifest_path.dfy`, `core_validation.dfy`,
  `description_validation.dfy`).
  - A path is a list of `Name`/`Index` parts. It renders as the locator `.foo[42].'ba r'`.
  - Rendering is the `fold` of `Display`, checked against a separate reference concatenation.
  - `ValidationError::id` rebuilds the same string in a loop; that loop is proved to agree
    with the fold.
  - Around these sit the error accumulators (`ValidationResult`, `validation::Result`) and
    the `Schema` check rule.
- **The channel data path** (`os.dfy`, `transport.dfy`, `utf8.dfy`, `protocol.dfy`,
  `channel.dfy`).
  - The operating system is a scripted oracle. Each socket answers its calls from a script
    fixed when it is created and logs every buffer it is asked to send.
  - `send_all` is the retry loop over `send`. It is proved against the function `SendAllRun`.
  - The four message records have a JSON encoding: serde_json's compact form, fields in
    declaration order, serde_json's string escapes, UTF-8 on the wire. Decoding is proved to
    be its inverse, and the test's literal wire bytes are derived from it.
  - `CommandChannel` ties the encoding to the transport.
- **The first layout of the library** (`legacy.dfy`, the root `src/lib.rs`).
  - A `UnixSocket` with mutable `path`/`bind` fields.
  - Stub encoders and decoders of empty records.
  - A two-variant `ChannelError`.
  - `CommandChannel`/`LogChannel`/`ProgressChannel`, which delegate to the transport.

Several files in the repository are copies of one another. Each concept is defined once here:
- `libosbuild/src/manifest/path.rs` repeats `libosbuild/src/manifest/path/mod.rs`.
- The core's `ValidationPath` has the same two kinds of part as a manifest `Part`.
- `libosbuild/src/lib.rs` lines 135-707 repeat the transport, protocol and channel files.
- `libosbuild/src/manifest/meta.rs` repeats `Schema` from `libosbuild/src/core/mod.rs`.
- The two `TransportError`s, the two `ProtocolError`s and the two `JSONProtocol::new` are one
  datatype or function each.

Rows below cite whichever copy the member's contract is closest to.

Where the behaviour depends on serde_json, the model follows what serde_json does for these
record types:
- serde_json writes the compact form without whitespace.
- A unit enum variant is written as its name in a JSON string.
- An empty braced struct is written as `{}`.
- `from_str` allows whitespace around the value and rejects anything else after it.

## Model

| member | source | states |
|---|---|---|
| ManifestPath.New | libosbuild/src/manifest/path/mod.rs:17-29 | dereferencing a new path gives back exactly the parts it was made from |
| ManifestPath.Decimal | libosbuild/src/manifest/path/mod.rs:44 | an index is written as a non-empty string of decimal digits with no leading zero unless it is 0 |
| ManifestPath.DecimalRoundTrip | libosbuild/src/manifest/path/mod.rs:44 | the digits written for an index denote that index |
| ManifestPath.DecimalInjective | libosbuild/src/manifest/path/mod.rs:44 | two different indices are never written alike |
| ManifestPath.Render | libosbuild/src/manifest/path/mod.rs:31-48 | the empty path renders as "."; a non-empty path renders as its parts' texts in order |
| ManifestPath.FoldIsConcat | libosbuild/src/manifest/path.rs:25-42 | the fold of `Display`, started from what was written so far, appends the parts' texts in order |
| ManifestPath.ToString | libosbuild/src/manifest/path/mod.rs:50-54 | `String::from(path)` is the `Display` output and is never empty |
| ManifestPath.ConcatAppend | libosbuild/src/manifest/path/mod.rs:36-45 | the text of a concatenation of parts is the concatenation of their texts |
| ManifestPath.RenderAppend | libosbuild/src/manifest/path/test.rs:23-30 | for non-empty p and q, render(p ++ q) = render(p) + render(q) |
| ManifestPath.RenderNonEmpty | libosbuild/src/manifest/path/mod.rs:31-48 | every rendering has at least one character |
| ManifestPath.RenderStartsWithDotOrBracket | libosbuild/src/manifest/path/mod.rs:39-44 | a non-empty path's rendering starts with '.' or '[' |
| ManifestPath.RenderEmpty | libosbuild/src/manifest/path/mod.rs:33-34 | the empty path renders as "." |
| ManifestPath.RenderPlainName | libosbuild/src/manifest/path/mod.rs:40-41 | a name without a space renders as "." followed by the name |
| ManifestPath.RenderQuotedName | libosbuild/src/manifest/path/mod.rs:38-39 | a name containing the space character renders as ".'name'" |
| ManifestPath.RenderIndex | libosbuild/src/manifest/path/mod.rs:44 | an index renders as "[" + its decimal + "]", with no leading dot |
| ManifestPath.RenderNotInjective | libosbuild/src/manifest/path/mod.rs:36-45 | the locator does not identify the path: `a.b` reads like `a` then `b`, and the empty name like the empty path |
| ManifestPath.DotSplitsName | libosbuild/src/manifest/path/mod.rs:36-45 | for all space-free names `a` and `b`, the one name `a.b` renders exactly like the two names `a`, `b` |
| ManifestPath.EmptyNameIsRoot | libosbuild/src/manifest/path/mod.rs:31-45 | a path holding only the empty name renders as `.`, the root's locator |
| ManifestPath.RenderPlainCases | libosbuild/src/manifest/path/test.rs:3-31 | the four unquoted renderings of `fmt_path`: ".foo", ".foo.bar", ".foo.bar[1337]", ".foo[42].bar[1337]" |
| ManifestPath.RenderQuotedCase | libosbuild/src/manifest/path/test.rs:33-43 | names holding a space are quoted: ".'f oo'[42].'ba r'[1337]" |
| ManifestPath.RenderDoubleIndexCases | libosbuild/src/manifest/path/test.rs:45-68 | a leading index gives no dot: "[42][1337]", "[42].bar[1337]", plus ".foo[42].bar[1337]" |
| ManifestPath.CaseFoo | libosbuild/src/manifest/path.rs:50-51 | the inline test's single name renders as ".foo" |
| ManifestPath.CaseFooBar | libosbuild/src/manifest/path.rs:53-58 | two names render as ".foo.bar" |
| ManifestPath.CaseFooBarIndex | libosbuild/src/manifest/path.rs:60-66 | two names and an index render as ".foo.bar[1337]" |
| ManifestPath.CaseInterleaved | libosbuild/src/manifest/path.rs:68-75 | interleaved names and indices render as ".foo[42].bar[1337]" |
| ManifestPath.CaseQuoted | libosbuild/src/manifest/path.rs:78-88 | spaced names render quoted: ".'f oo'[42].'ba r'[1337]" |
| ManifestPath.CaseIndexIndex | libosbuild/src/manifest/path.rs:94-96 | two indices render as "[42][1337]" |
| ManifestPath.CaseIndexName | libosbuild/src/manifest/path.rs:98-104 | a leading index then a name renders as "[42].bar[1337]" |
| Core.Id | libosbuild/src/core/mod.rs:14-37 | the loop that rebuilds the string part by part gives the fold rendering of the same parts; "." for the empty path |
| Core.ValidationResult.constructor | libosbuild/src/core/mod.rs:46-51 | a new result has origin Some(o), no errors, and converts to true |
| Core.ValidationResult.Add | libosbuild/src/core/mod.rs:54-56 | appends exactly the one error at the end, earlier errors and origin unchanged; the result is then invalid |
| Core.ValidationResult.Fail | libosbuild/src/core/mod.rs:59-64 | appends one error with the message and the empty path |
| Core.ValidationResult.Merge | libosbuild/src/core/mod.rs:66-72 | appends all of the other result's errors in order with their paths untouched (the path argument is ignored); valid afterwards iff both were valid |
| Core.FreshValidFailedInvalid | libosbuild/src/core/test.rs:73-89 | a new result converts to true, and the same result after `fail` converts to false |
| Core.Check | libosbuild/src/core/mod.rs:88-96 | needs the schema name; the result is named after it and holds exactly one "could not find schema information" error iff data is None, none otherwise |
| Core.Validate | libosbuild/src/core/mod.rs:98-100 | needs the schema name; a result named after it with no errors |
| Core.CheckedValid | libosbuild/src/manifest/meta.rs:10-17 | checking gives a valid result iff the schema has data; an invalid one carries only the missing-schema message |
| Core.ValidateIgnoresTarget | libosbuild/src/manifest/meta.rs:20-22 | two validations against different targets give the same valid result with the schema's name |
| DescriptionValidation.Id | libosbuild/src/manifest/description/validation/mod.rs:13-19 | the id is the rendering of the error's path, never empty, "." for the empty path |
| DescriptionValidation.IdsAgree | libosbuild/src/manifest/description/validation/mod.rs:16-18 | the core's loop id and the description's formatted id of the same parts are the same string |
| DescriptionValidation.Result.constructor | libosbuild/src/manifest/description/validation/mod.rs:26-28 | a new result has no errors and converts to true |
| DescriptionValidation.Result.AddError | libosbuild/src/manifest/description/validation/mod.rs:31-33 | appends exactly the one error at the end; the result then converts to false |
| DescriptionValidation.FreshValidAddedInvalid | libosbuild/src/manifest/description/validation/test.rs:5-23 | a new result is valid, and invalid once an error is added |
| Utf8.DecodeEncode | libosbuild/src/sandbox/communication/channel/protocol.rs:133-135 | the bytes `encode` produces are valid UTF-8 and `from_utf8` gives back the text |
| Utf8.EncodeDecode | libosbuild/src/communication/channel/mod.rs:106 | any bytes `from_utf8` accepts are exactly the encoding of the text it returns |
| Transport.FromIoError | libosbuild/src/communication/channel/transport.rs:10-14 | an io error becomes `IOError` holding that error, never `SocketError` |
| Transport.Lift | libosbuild/src/communication/channel/transport.rs:51-57 | the `?` of an io result: success passes through unchanged, an error is converted |
| Transport.SendAllSums | libosbuild/src/communication/channel/transport.rs:60-66 | a successful `send_all` returns the sum of the counts of its sends, which is at least the length and can exceed it, and stops at the first point the sum reaches the length |
| Transport.SendAllFirstError | libosbuild/src/communication/channel/transport.rs:63 | a failing `send_all` returns the first send error unchanged, after sends that all succeeded without reaching the length |
| Transport.SendAllTerminates | libosbuild/src/communication/channel/transport.rs:62-64 | when every send reports at least one byte the loop ends, successfully, within the length in sends |
| Transport.SendAllZeroNeverEnds | libosbuild/src/communication/channel/transport.rs:62-64 | when every send reports zero bytes a non-empty buffer never finishes sending |
| Transport.SendAllOvershoots | libosbuild/src/lib.rs:194-202 | sends answering 2 then 3 for a three-byte buffer make `send_all` report 5 after 2 calls |
| Transport.UnixDgramSocket.New | libosbuild/src/communication/channel/transport.rs:35-43 | binds to the source path (the empty one when none), then connects to the destination; either failure is the error; on success a fresh socket, connected, nothing sent, not shut down |
| Transport.UnixDgramSocket.Close | libosbuild/src/communication/channel/transport.rs:45-49 | shuts the socket down, returning the shutdown's error; the socket is shut down exactly when the shutdown succeeds or it already was, and nothing else about it changes |
| Transport.UnixDgramSocket.Recv | libosbuild/src/communication/channel/transport.rs:51-53 | copies as much of one datagram as fits into the buffer and returns that count; an error leaves the buffer as it was; addresses, sent log and shutdown state unchanged |
| Transport.UnixDgramSocket.Send | libosbuild/src/communication/channel/transport.rs:55-57 | hands the buffer to the socket once and returns its count or converted error |
| Transport.UnixDgramSocket.SendAll | libosbuild/src/communication/channel/transport.rs:59-67 | the result and the number of sends are those of `SendAllRun`; every send is handed the whole buffer; an empty buffer returns 0 without sending |
| Transport.UnixStreamSocket.New | libosbuild/src/communication/channel/transport.rs:77-81 | connects to the destination, ignoring the source; on success a fresh stream, not shut down, with the given shutdown answers |
| Transport.UnixStreamSocket.Close | libosbuild/src/communication/channel/transport.rs:83-87 | shuts the stream down, returning the shutdown's error; the stream is shut down exactly when the shutdown succeeds or it already was |
| Transport.UnixStreamSocket.Recv | libosbuild/src/communication/channel/transport.rs:89-91 | returns Ok(1) and writes nothing |
| Transport.UnixStreamSocket.Send | libosbuild/src/communication/channel/transport.rs:93-95 | returns Ok(1) whatever the buffer |
| Transport.UnixStreamSocket.SendAll | libosbuild/src/communication/channel/transport.rs:97-105 | makes exactly one call per byte and returns Ok of the buffer's length |
| Transport.SendAllFoo | libosbuild/src/communication/channel/transport.rs:173-186 | with a peer taking "foo" whole, `send_all` sends exactly one datagram "foo" and reports 3 |
| Protocol.NewJsonProtocol | libosbuild/src/sandbox/communication/channel/protocol.rs:13-17 | `JSONProtocol::new` always succeeds |
| Protocol.Encode | libosbuild/src/sandbox/communication/channel/protocol.rs:111-113 | encoding a record never fails |
| Protocol.Decode | libosbuild/src/sandbox/communication/channel/protocol.rs:115-117 | a successful decode yields a record of the requested type whose tokens are exactly the text's tokens |
| Protocol.SkipWhitespace | libosbuild/src/sandbox/communication/channel/protocol.rs:115-117 | leading JSON whitespace is dropped and nothing else: a suffix of the input not starting with whitespace |
| Protocol.TagOf | libosbuild/src/sandbox/communication/channel/protocol.rs:24-30 | a recognised type string is the name of the variant it returns |
| Protocol.TagOfTypeName | libosbuild/src/lib.rs:359-364 | each of the four `MessageType` variants is read back from its name |
| Protocol.FromTokens | libosbuild/src/sandbox/communication/channel/protocol.rs:37-84 | a record read from tokens has the requested type and those tokens are exactly its own |
| Protocol.FromTokensOf | libosbuild/src/lib.rs:456-461 | a record's own tokens are read back as that record |
| Protocol.EscapeCharRoundTrip | libosbuild/src/sandbox/communication/channel/protocol.rs:111-117 | each character, written with serde_json's escaping, is read back as itself whatever follows |
| Protocol.StringBodyRoundTrip | libosbuild/src/sandbox/communication/channel/protocol.rs:111-117 | any string, escaped and closed by a quote, is read back as the string followed by the rest |
| Protocol.TokensRender | libosbuild/src/lib.rs:449-461 | tokens written without separators read back as those tokens, followed by the tokens of what comes after |
| Protocol.TextTokens | libosbuild/src/lib.rs:449-454 | a record's text reads back as its tokens, then those of whatever follows |
| Protocol.EscapePlain | libosbuild/src/sandbox/communication/channel/protocol.rs:111-113 | a string with no quote, backslash or control character is written as itself between quotes |
| Protocol.HeadText | libosbuild/src/sandbox/communication/channel/protocol.rs:43-44 | every record starts with `{"type":"<variant name>",` |
| Protocol.MethodText | libosbuild/src/sandbox/communication/channel/protocol.rs:37-47 | a Method is written as its type, method and data{name} members in that order, the type being the bare variant name |
| Protocol.EmptyText | libosbuild/src/sandbox/communication/channel/protocol.rs:51-69 | Reply and Signal are written as their type and an empty `data` object |
| Protocol.ExceptionText | libosbuild/src/sandbox/communication/channel/protocol.rs:73-84 | an Exception's data carries name, value and backtrace in that order |
| Protocol.DecodeText | libosbuild/src/sandbox/communication/channel/protocol.rs:115-117 | decoding a record's text as the same type gives the record back |
| Protocol.ForeignTextRejected | libosbuild/src/sandbox/communication/channel/protocol.rs:51-69 | the model rejects a Method or Exception text decoded as a Reply or a Signal, which serde's member-skipping decoders accept (see Left out) |
| Protocol.DecodeEncode | libosbuild/src/sandbox/communication/channel/protocol.rs:125-184 | the tests' round trip for every record of all four types: the encoding is UTF-8 and decodes, as the same type, to the record |
| Protocol.DecodeAllowsWhitespace | libosbuild/src/sandbox/communication/channel/protocol.rs:115-117 | JSON whitespace before and after the record is accepted |
| Protocol.DecodeRejectsTrailing | libosbuild/src/sandbox/communication/channel/protocol.rs:115-117 | anything but whitespace after the record makes decoding fail |
| Protocol.ReplySignalIndistinguishable | libosbuild/src/sandbox/communication/channel/protocol.rs:51-69 | a Reply and a Signal with the same type field have the same text, so the requested type decides which is decoded |
| Protocol.EncodeInjective | libosbuild/src/sandbox/communication/channel/protocol.rs:108-118 | two records of the same type with equal encodings are equal; encoding is a function of the record alone |
| Channel.FromTransportError | libosbuild/src/communication/channel/mod.rs:27-31 | a transport error becomes `ChannelError::TransportError` holding it |
| Channel.FromProtocolError | libosbuild/src/communication/channel/mod.rs:33-37 | a protocol error becomes `ChannelError::ProtocolError` holding it |
| Channel.FromEncodingError | libosbuild/src/communication/channel/mod.rs:39-43 | an encoding error becomes `ChannelError::EncodingError` holding it |
| Channel.FromTransport | libosbuild/src/communication/channel/mod.rs:95 | the `?` of a transport result: success unchanged, error converted |
| Channel.FromDecode | libosbuild/src/communication/channel/mod.rs:106 | the `?` of a decode result: success unchanged, error converted |
| Channel.Filled | libosbuild/src/communication/channel/mod.rs:102-104 | the 1024-byte buffer after a receive: the datagram's bytes that fit, then zeros |
| Channel.Received | libosbuild/src/lib.rs:634 | the bytes the receive reported, a prefix of the filled buffer; all of a datagram that fits |
| Channel.CommandChannel.NewDefault | libosbuild/src/communication/channel/mod.rs:82-90 | a datagram transport connected to /run/osbuild/api/log and bound to no source path, nothing sent and not shut down, or the converted error |
| Channel.CommandChannel.Send | libosbuild/src/communication/channel/mod.rs:92-96 | exactly what `send_all` of the message's encoding returns, with its error converted; the encoding is logged once per send call; addresses and shutdown state unchanged |
| Channel.CommandChannel.Recv | libosbuild/src/communication/channel/mod.rs:98-107 | one receive into a fresh zeroed 1024-byte buffer; the count is dropped and the whole buffer is decoded; nothing but the receive script changes |
| Channel.CommandChannel.RecvFramed | libosbuild/src/lib.rs:628-637 | corrected receive of the Findings row (not in the source, which decodes the whole buffer): the same receive, decoding only the bytes the receive reported; nothing but the receive script changes |
| Channel.CommandChannel.SendAndRecv | libosbuild/src/communication/channel/mod.rs:109-123 | `send`, stopping at its error before any receive, then `recv`: the encoding is put on the wire once per send call, those send answers are used up, one receive answer is used up only after a successful send, and addresses and shutdown state stay as they were |
| Channel.CommandChannel.Open | libosbuild/src/communication/channel/mod.rs:125-127 | always Ok, whatever the path, and changes nothing |
| Channel.CommandChannel.Close | libosbuild/src/communication/channel/mod.rs:129-132 | the transport's close, with its error converted; shut down exactly when the shutdown succeeds or it already was; sent log and addresses unchanged |
| Channel.FilledText | libosbuild/src/communication/channel/mod.rs:102-106 | the zero-filled buffer holding the encoding of any text shorter than the buffer reads back as that text followed by NUL characters |
| Channel.PaddedBufferFails | libosbuild/src/communication/channel/mod.rs:98-107 | decoding the whole buffer fails with `ParseError` for every message shorter than 1024 bytes, of whatever type |
| Channel.FramedRoundTrip | libosbuild/src/lib.rs:628-637 | corrected receive of the Findings row (not in the source, which decodes the whole buffer): decoding only the received bytes gives back every message that fits the buffer |
| Channel.NoProtocolErrors | libosbuild/src/sandbox/communication/channel/protocol.rs:1-17 | no channel decode yields a protocol error, and creating the protocol cannot fail |
| Channel.EchoAsWritten | libosbuild/src/communication/channel/mod.rs:98-107 | a message shorter than the buffer, received by the channel as written, comes back as `EncodingError(ParseError)` |
| Channel.EchoFramed | libosbuild/src/communication/channel/mod.rs:101-106 | the framed receive gives the message back |
| Channel.TestRendering | libosbuild/src/lib.rs:684-702 | the test's Method record is written as the test's literal |
| Channel.TestLiteral | libosbuild/src/communication/channel/mod.rs:169-172 | the member-by-member TestText is the test's single literal |
| Channel.TestWire | libosbuild/src/communication/channel/mod.rs:154-172 | the test's Method is the literal `{"type":"Method","method":"test","data":{"name":"name"}}`, 56 ASCII bytes |
| Channel.CommandChannelSend | libosbuild/src/communication/channel/mod.rs:142-175 | sending the test's Method puts one datagram holding exactly the literal bytes on the wire and returns its length, 56 |
| Legacy.UnixSocket.New | src/lib.rs:91-100 | an unbound socket with path None and bind None, or the converted creation error |
| Legacy.UnixSocket.Open | src/lib.rs:102-108 | records path = Some(p) before connecting, so a failed connect still leaves it recorded; the connect's error is the result |
| Legacy.UnixSocket.Close | src/lib.rs:110-124 | shuts down first and stops at its error; removes the bind file only when bind is Some, returning the removal's error; shut down exactly when the shutdown succeeds or it already was |
| Legacy.UnixSocket.Recv | src/lib.rs:126-135 | the socket's receive, with its error converted; addresses, sent log and shutdown state unchanged |
| Legacy.UnixSocket.Send | src/lib.rs:137-146 | the socket's send, with its error converted |
| Legacy.NewEnvelope | src/lib.rs:200-207 | type "bar" and data "foo" |
| Legacy.EncodeRecord | src/lib.rs:248-291 | every record is encoded, without failing, as the two bytes `{}` |
| Legacy.DecodeRecord | src/lib.rs:255-298 | every decoder returns Ok of the empty record it is asked for, whatever the input |
| Legacy.RecordRoundTrip | src/lib.rs:255-298 | each empty record survives encode then decode, and so does arbitrary text |
| Legacy.EncodingForgetsKind | src/lib.rs:185-198 | all five empty records have the same encoding |
| Legacy.FromTransportError | src/lib.rs:309-313 | a transport error becomes `ChannelError::TransportError` holding it |
| Legacy.FromProtocolError | src/lib.rs:315-319 | a protocol error becomes `ChannelError::ProtocolError` holding it |
| Legacy.LiftTransport | src/lib.rs:333-335 | the `?` of a transport result in a channel: Ok stays Ok, an error is converted |
| Legacy.Channel.constructor | src/lib.rs:327-330 | a channel holds the transport and protocol it is given |
| Legacy.Channel.Open | src/lib.rs:332-336 | exactly the transport's open on the path, its error mapped; the path is recorded either way, and a failed connect leaves the peer as it was |
| Legacy.Channel.Close | src/lib.rs:338-341 | exactly the transport's close, its error mapped: a failed shutdown touches no file; after a shutdown an unbound transport removes nothing and a bound one removes its file, returning the removal's error |
| Legacy.NewChannel | src/lib.rs:392-395 | the tests' channel: a new unbound socket with no path, no local or peer address, nothing sent and not shut down, over the scripted system |
| Legacy.NonExistentDirectory | src/lib.rs:400-409 | with the connect refused, opening fails yet records the path, and closing succeeds and removes no file |
| Legacy.Existing | src/lib.rs:411-426 | with a peer listening, opening connects to it and closing succeeds, removing no file |

## Left out

- Real sockets and files are not modelled: bind, connect, shutdown, send, recv and unlink are
  the scripted oracle `Os`. The system's answers are inputs. Tests that depend on what exists
  on the file system become scenarios with those answers fixed. Examples: `unixdgramsocket_non_existent_path`,
  `unixdgramsocket_exists` and `unixstreamsocket_non_existent_path`, which `Transport.UnixDgramSocket.New`
  and `Transport.UnixStreamSocket.New` cover for either answer.
- A receive's effect on the buffer (copy as much as fits) is the kernel's. It is stated as `Os.Delivered`.
- The `rand`-based `with_path` test helper, `debug!` logging, and the `Hello, world!` command-line
  programs are not modelled.
- These files are empty stubs or re-exports and are not modelled: the description stubs, the
  module traits, `libosbuild/src/communication/mod.rs`, and `libosbuild/src/module/test.rs`.
  The last refers to types the shown code does not have.
- The description tests call `Schema::new` and `is_valid`, which the shown code does not define.
  `Core.CheckedValid` states the rule they test in terms of `check`.
- The error payloads (`std::io::Error`, `serde_json::Error`) are abstract. An io error is a
  code, and a parse error carries nothing.
- serde_json's general JSON parser is not modelled. Only the four record shapes are decoded.
- Protocol.Decode: narrower than serde_json in what it accepts. It takes fields only in
  declaration order and no unknown, duplicate or missing fields, and it rejects the array form
  serde also accepts for structs. The two agree on a text the encoder writes (with any
  whitespace around it) decoded as its own record type. They disagree across record types:
  the derived decoders skip members they do not know, so serde reads the text of a `Method` or
  an `Exception` as a `Reply` or a `Signal` (keeping only `type`), while the model rejects it
  (`Protocol.ForeignTextRejected`). Both read a `Reply` text as a `Signal` and back.
- Channel.CommandChannel.Send: the encoding error branch of `send` and `send_and_recv` is
  absent, since serde_json cannot fail on these records (`Protocol.Encode` always succeeds).
- Channel.CommandChannel.Recv: the panic of `str::from_utf8(..).unwrap()` on a buffer that is
  not UTF-8 is a precondition. The same applies to `RecvFramed` and `SendAndRecv`.
- Transport.UnixDgramSocket.SendAll: counts are unbounded naturals. The `usize` overflow of
  `sent` that many large sends could cause is not modelled.
- Transport.SendAllRun: a `send_all` that never ends shows up as the script running out, so
  non-termination appears as `None` rather than as divergence.
- The channels hold `Box<dyn Transport>` / `&mut dyn Transport`. Here each holds the one
  transport it is built with in the source: the datagram socket, or the legacy `UnixSocket`.
- The three legacy channel structs have identical bodies. They are one class with a
  `Purpose` field.
- `Channel.CommandChannel.SendAndRecv` follows the source and decodes the whole buffer. The
  corrected receive is `Channel.CommandChannel.RecvFramed`.
- A record's `type` field is independent of the record. Nothing ties the two together, as in
  the source.

## Findings

| source | as written | input that shows it | evidently intended | confidence | as-written member | corrected member |
|---|---|---|---|---|---|---|
| libosbuild/src/communication/channel/mod.rs:98-107 | `recv` decodes all 1024 bytes of its zero-filled buffer and drops the count the receive returns | any message shorter than 1024 bytes, e.g. the test's 56-byte Method: the decoder sees its text followed by 968 NUL characters. NUL is not JSON whitespace, so `from_str` fails with trailing characters | decode only the first `n` bytes, `n` being the count `recv` returned | not executed | Channel.EchoAsWritten | Channel.EchoFramed |
