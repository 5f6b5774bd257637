/** The messages a channel carries and their JSON encoding. Each of the four records is a
    JSON object whose members appear in the records' declaration order; a message is encoded
    in serde_json's compact form (no whitespace) as UTF-8 bytes, and decoded from text for
    the record type the receiver asks for. */
module Protocol {
  import opened Wrappers
  import Utf8

  /** `ProtocolError` has no variants in the source, so no value of it is ever made; Dafny
      needs one constructor to state that. */
  datatype ProtocolError = ProtocolError

  datatype JsonProtocol = JsonProtocol

  /** `JSONProtocol::new`: always succeeds. */
  function NewJsonProtocol(): (r: Result<JsonProtocol, ProtocolError>)
    ensures r.Ok?
  {
    Ok(JsonProtocol)
  }

  datatype MessageType = Method | Reply | Signal | Exception

  datatype MethodData = MethodData(name: string)

  datatype ExceptionData = ExceptionData(name: string, value: string, backtrace: string)

  /** The four records. Each carries its own `type` field, which the code never ties to the record. */
  datatype Message =
    | Method(kind: MessageType, methodName: string, data: MethodData)
    | Reply(kind: MessageType)
    | Signal(kind: MessageType)
    | Exception(kind: MessageType, exception: ExceptionData)

  /** Which record a receiver asks to decode: the type parameter of `decode`. */
  datatype Shape = MethodShape | ReplyShape | SignalShape | ExceptionShape

  function ShapeOf(m: Message): Shape {
    match m
    case Method(_, _, _) => MethodShape
    case Reply(_) => ReplyShape
    case Signal(_) => SignalShape
    case Exception(_, _) => ExceptionShape
  }

  /** `EncodingError::ParseError`; the serde_json error inside it is not modelled. */
  datatype EncodingError = ParseError

  // ---------------------------------------------------------------- encoding

  /** A unit variant of `MessageType` is encoded as its name. */
  function TypeName(k: MessageType): string {
    match k
    case Method => "Method"
    case Reply => "Reply"
    case Signal => "Signal"
    case Exception => "Exception"
  }

  function HexDigit(d: nat): (c: char)
    requires d < 16
  {
    "0123456789abcdef"[d]
  }

  /** serde_json's escaping of one character of a string: quote and backslash are escaped,
      the control characters with a short form use it, the other control characters are
      written as `\u00xx`, and everything else is written as itself. */
  function EscapeChar(c: char): (e: string)
    ensures |e| >= 1
  {
    if c == '"' then "\\\""
    else if c == '\\' then "\\\\"
    else if c as int == 0x08 then "\\b"
    else if c as int == 0x0C then "\\f"
    else if c == '\n' then "\\n"
    else if c == '\r' then "\\r"
    else if c == '\t' then "\\t"
    else if c as int < 0x20 then "\\u00" + [HexDigit(c as int / 16), HexDigit(c as int % 16)]
    else [c]
  }

  function Escape(s: string): string
    decreases |s|
  {
    if s == [] then "" else EscapeChar(s[0]) + Escape(s[1..])
  }

  function Quote(s: string): string {
    "\"" + Escape(s) + "\""
  }


  /** The lexical tokens of the records' JSON text: punctuation and strings. */
  datatype Token = Punct(c: char) | Str(s: string)

  function TokenText(t: Token): string {
    match t
    case Punct(c) => [c]
    case Str(s) => Quote(s)
  }

  /** Tokens written one after the other with nothing between them: serde_json's compact form. */
  function Render(ts: seq<Token>): string
    decreases |ts|
  {
    if ts == [] then "" else TokenText(ts[0]) + Render(ts[1..])
  }

  /** The object start, the `type` member every record begins with, and the comma after it. */
  function HeadTokens(k: MessageType): seq<Token> {
    [Punct('{'), Str("type"), Punct(':'), Str(TypeName(k)), Punct(',')]
  }

  /** The tokens of a record: its members in declaration order, then the closing brace. The
      `data` member of each record is an object of its own. */
  function TokensOf(m: Message): seq<Token> {
    HeadTokens(m.kind) +
    match m
    case Method(_, methodName, data) =>
      [Str("method"), Punct(':'), Str(methodName), Punct(','),
       Str("data"), Punct(':'), Punct('{'), Str("name"), Punct(':'), Str(data.name), Punct('}'), Punct('}')]
    case Reply(_) => [Str("data"), Punct(':'), Punct('{'), Punct('}'), Punct('}')]
    case Signal(_) => [Str("data"), Punct(':'), Punct('{'), Punct('}'), Punct('}')]
    case Exception(_, e) =>
      [Str("data"), Punct(':'), Punct('{'), Str("name"), Punct(':'), Str(e.name), Punct(','),
       Str("value"), Punct(':'), Str(e.value), Punct(','), Str("backtrace"), Punct(':'), Str(e.backtrace),
       Punct('}'), Punct('}')]
  }

  /** The compact JSON text of a message. */
  function Text(m: Message): string {
    Render(TokensOf(m))
  }

  /** `JSONEncoding::encode`: `serde_json::to_vec`, which cannot fail on these records. */
  function Encode(m: Message): (r: Result<seq<Utf8.byte>, EncodingError>)
    ensures r.Ok?
  {
    Ok(Utf8.Encode(Text(m)))
  }

  // ---------------------------------------------------------------- decoding

  /** The four whitespace characters JSON allows between tokens. */
  predicate IsWhitespace(c: char) {
    c == ' ' || c == '\t' || c == '\n' || c == '\r'
  }

  function SkipWhitespace(s: string): (t: string)
    ensures |t| <= |s| && t == s[|s| - |t|..]
    ensures t == [] || !IsWhitespace(t[0])
    decreases |s|
  {
    if s != [] && IsWhitespace(s[0]) then SkipWhitespace(s[1..]) else s
  }



  function HexValue(c: char): (r: Option<nat>)
    ensures r.Some? ==> r.value < 16
  {
    if '0' <= c <= '9' then Some(c as int - '0' as int)
    else if 'a' <= c <= 'f' then Some(c as int - 'a' as int + 10)
    else if 'A' <= c <= 'F' then Some(c as int - 'A' as int + 10)
    else None
  }

  /** Four hexadecimal digits, in either case. */
  function Hex4(s: string): (r: Option<nat>)
    ensures r.Some? ==> r.value < 0x10000
  {
    if |s| < 4 then None
    else
      var a :- HexValue(s[0]);
      var b :- HexValue(s[1]);
      var c :- HexValue(s[2]);
      var d :- HexValue(s[3]);
      Some(((a * 16 + b) * 16 + c) * 16 + d)
  }

  /** The character a surrogate pair stands for. */
  function Combine(high: nat, low: nat): (c: char)
    requires 0xD800 <= high < 0xDC00 && 0xDC00 <= low < 0xE000
    ensures 0x10000 <= c as int
  {
    var n := 0x10000 + (high - 0xD800) * 0x400 + (low - 0xDC00);
    assert n <= 0x10FFFF by {
      assert (high - 0xD800) * 0x400 <= 0x3FF * 0x400;
    }
    n as char
  }

  /** The escape sequence after a backslash: the character it stands for and its length. A
      `\u` escape of a surrogate must be a high surrogate followed by an escaped low one. */
  function EscapeSequence(s: string): (r: Option<(char, nat)>)
    ensures r.Some? ==> 1 <= r.value.1 <= |s|
  {
    if s == [] then None
    else if s[0] == '"' then Some(('"', 1))
    else if s[0] == '\\' then Some(('\\', 1))
    else if s[0] == '/' then Some(('/', 1))
    else if s[0] == 'b' then Some((0x08 as char, 1))
    else if s[0] == 'f' then Some((0x0C as char, 1))
    else if s[0] == 'n' then Some(('\n', 1))
    else if s[0] == 'r' then Some(('\r', 1))
    else if s[0] == 't' then Some(('\t', 1))
    else if s[0] == 'u' then
      var u :- Hex4(s[1..]);
      if 0xD800 <= u < 0xDC00 then
        if |s| >= 11 && s[5] == '\\' && s[6] == 'u' then
          var low :- Hex4(s[7..]);
          if 0xDC00 <= low < 0xE000 then Some((Combine(u, low), 11)) else None
        else None
      else if 0xDC00 <= u < 0xE000 then None
      else Some((u as char, 5))
    else None
  }

  /** The rest of a string after its opening quote: its value and what follows the closing
      quote. Raw control characters are not allowed inside a string. */
  function StringBody(s: string): (r: Option<(string, string)>)
    ensures r.Some? ==> |r.value.1| < |s|
    decreases |s|
  {
    if s == [] then None
    else if s[0] == '"' then Some(("", s[1..]))
    else if s[0] == '\\' then
      var e :- EscapeSequence(s[1..]);
      var tail :- StringBody(s[1 + e.1..]);
      Some(([e.0] + tail.0, tail.1))
    else if s[0] as int < 0x20 then None
    else
      var tail :- StringBody(s[1..]);
      Some(([s[0]] + tail.0, tail.1))
  }

  predicate IsPunct(c: char) {
    c == '{' || c == '}' || c == ':' || c == ','
  }

  function Prepend(t: Token, r: Option<seq<Token>>): (q: Option<seq<Token>>)
    ensures q.Some? <==> r.Some?
    ensures q.Some? ==> q.value == [t] + r.value
  {
    match r
    case None => None
    case Some(ts) => Some([t] + ts)
  }

  /** The tokens of a text, skipping the whitespace around them; None when the text holds
      anything that is not a token of these records. */
  function Tokens(s: string): (r: Option<seq<Token>>)
    decreases |s|
  {
    var t := SkipWhitespace(s);
    if t == [] then Some([])
    else if IsPunct(t[0]) then Prepend(Punct(t[0]), Tokens(t[1..]))
    else if t[0] == '"' then
      match StringBody(t[1..])
      case None => None
      case Some((value, rest)) => Prepend(Str(value), Tokens(rest))
    else None
  }

  /** The `MessageType` variant a string names. */
  function TagOf(name: string): (r: Option<MessageType>)
    ensures r.Some? ==> TypeName(r.value) == name
  {
    if name == "Method" then Some(MessageType.Method)
    else if name == "Reply" then Some(MessageType.Reply)
    else if name == "Signal" then Some(MessageType.Signal)
    else if name == "Exception" then Some(MessageType.Exception)
    else None
  }

  /** One record of the given shape read from tokens, members in declaration order, with
      nothing after it: the message whose tokens they are, if there is one. */
  function FromTokens(shape: Shape, ts: seq<Token>): (r: Option<Message>)
    ensures r.Some? ==> ShapeOf(r.value) == shape && TokensOf(r.value) == ts
  {
    if |ts| < 5 || !ts[3].Str? || TagOf(ts[3].s).None? then None
    else
      var kind := TagOf(ts[3].s).value;
      var b := ts[5..];
      if ts[..5] != HeadTokens(kind) then None
      else
        assert ts == HeadTokens(kind) + b;
        match shape
        case MethodShape =>
          if |b| == 12 && b[2].Str? && b[9].Str? &&
             b == [Str("method"), Punct(':'), b[2], Punct(','), Str("data"), Punct(':'), Punct('{'),
                   Str("name"), Punct(':'), b[9], Punct('}'), Punct('}')]
          then Some(Message.Method(kind, b[2].s, MethodData(b[9].s)))
          else None
        case ReplyShape =>
          if b == [Str("data"), Punct(':'), Punct('{'), Punct('}'), Punct('}')]
          then Some(Message.Reply(kind))
          else None
        case SignalShape =>
          if b == [Str("data"), Punct(':'), Punct('{'), Punct('}'), Punct('}')]
          then Some(Message.Signal(kind))
          else None
        case ExceptionShape =>
          if |b| == 16 && b[5].Str? && b[9].Str? && b[13].Str? &&
             b == [Str("data"), Punct(':'), Punct('{'), Str("name"), Punct(':'), b[5], Punct(','),
                   Str("value"), Punct(':'), b[9], Punct(','), Str("backtrace"), Punct(':'), b[13],
                   Punct('}'), Punct('}')]
          then Some(Message.Exception(kind, ExceptionData(b[5].s, b[9].s, b[13].s)))
          else None
  }

  /** `JSONEncoding::decode`: `serde_json::from_str` into the record the receiver asks for.
      A decoded message is the record of that shape whose tokens the text holds, with only
      whitespace around them. */
  function Decode(shape: Shape, text: string): (r: Result<Message, EncodingError>)
    ensures r.Ok? ==> ShapeOf(r.value) == shape && Tokens(text) == Some(TokensOf(r.value))
  {
    match Tokens(text)
    case None => Err(ParseError)
    case Some(ts) =>
      match FromTokens(shape, ts)
      case None => Err(ParseError)
      case Some(m) => Ok(m)
  }

  // ---------------------------------------------------------------- round trip

  lemma Skip(c: char, rest: string)
    requires !IsWhitespace(c)
    ensures SkipWhitespace([c] + rest) == [c] + rest
  {
  }

  /** A character written as itself is read back as itself. */
  lemma PlainCharRoundTrip(c: char, rest: string, value: string, after: string)
    requires c != '"' && c != '\\' && c as int >= 0x20
    requires StringBody(rest) == Some((value, after))
    ensures StringBody([c] + rest) == Some(([c] + value, after))
  {
    assert ([c] + rest)[1..] == rest;
  }

  /** A character written with a two-character escape is read back as itself. */
  lemma ShortEscapeRoundTrip(c: char, rest: string, value: string, after: string)
    requires c == '"' || c == '\\' || c as int == 0x08 || c as int == 0x0C || c == '\n' || c == '\r' || c == '\t'
    requires StringBody(rest) == Some((value, after))
    ensures StringBody(EscapeChar(c) + rest) == Some(([c] + value, after))
  {
    var s := EscapeChar(c) + rest;
    assert |EscapeChar(c)| == 2 && EscapeChar(c)[0] == '\\';
    assert s[1..][1..] == rest;
    assert EscapeSequence(s[1..]) == Some((c, 1));
    assert s[2..] == rest;
  }

  /** A control character written as `\u00xx` is read back as itself. */
  lemma UnicodeEscapeRoundTrip(c: char, rest: string, value: string, after: string)
    requires c as int < 0x20
    requires c as int != 0x08 && c as int != 0x0C && c != '\n' && c != '\r' && c != '\t'
    requires StringBody(rest) == Some((value, after))
    ensures StringBody(EscapeChar(c) + rest) == Some(([c] + value, after))
  {
    var hi, lo := HexDigit(c as int / 16), HexDigit(c as int % 16);
    var s := EscapeChar(c) + rest;
    var e := ['u', '0', '0', hi, lo] + rest;
    assert s == ['\\'] + e;
    assert s[1..] == e;
    UnicodeSequence(c, rest);
    assert s[6..] == rest;
  }

  /** `u00` and two hexadecimal digits stand for the control character they spell. */
  lemma UnicodeSequence(c: char, rest: string)
    requires c as int < 0x20
    ensures EscapeSequence(['u', '0', '0', HexDigit(c as int / 16), HexDigit(c as int % 16)] + rest) == Some((c, 5))
  {
    var hi, lo := HexDigit(c as int / 16), HexDigit(c as int % 16);
    var e := ['u', '0', '0', hi, lo] + rest;
    assert e[1..] == ['0', '0', hi, lo] + rest;
    HexDigitValue(c as int / 16);
    HexDigitValue(c as int % 16);
    assert Hex4(e[1..]) == Some(c as int);
  }

  lemma HexDigitValue(d: nat)
    requires d < 16
    ensures HexValue(HexDigit(d)) == Some(d)
  {
  }

  /** An escaped character is read back as itself, whatever follows it. */
  lemma EscapeCharRoundTrip(c: char, rest: string, value: string, after: string)
    requires StringBody(rest) == Some((value, after))
    ensures StringBody(EscapeChar(c) + rest) == Some(([c] + value, after))
  {
    if c == '"' || c == '\\' || c as int == 0x08 || c as int == 0x0C || c == '\n' || c == '\r' || c == '\t' {
      ShortEscapeRoundTrip(c, rest, value, after);
    } else if c as int < 0x20 {
      UnicodeEscapeRoundTrip(c, rest, value, after);
    } else {
      assert EscapeChar(c) == [c];
      PlainCharRoundTrip(c, rest, value, after);
    }
  }

  /** A string's escaped body followed by a closing quote is read back as the string. */
  lemma {:induction false} StringBodyRoundTrip(s: string, rest: string)
    ensures StringBody(Escape(s) + "\"" + rest) == Some((s, rest))
    decreases |s|
  {
    if s == [] {
      assert Escape(s) + "\"" + rest == ['"'] + rest;
      assert (['"'] + rest)[1..] == rest;
    } else {
      StringBodyRoundTrip(s[1..], rest);
      EscapeCharRoundTrip(s[0], Escape(s[1..]) + "\"" + rest, s[1..], rest);
      assert Escape(s) + "\"" + rest == EscapeChar(s[0]) + (Escape(s[1..]) + "\"" + rest);
      assert [s[0]] + s[1..] == s;
    }
  }

  /** Every punctuation token is one of the four the records use. */
  predicate ValidTokens(ts: seq<Token>) {
    forall i :: 0 <= i < |ts| ==> ts[i].Punct? ==> IsPunct(ts[i].c)
  }

  function Append(ts: seq<Token>, r: Option<seq<Token>>): Option<seq<Token>> {
    match r
    case None => None
    case Some(us) => Some(ts + us)
  }

  lemma PunctTokens(c: char, rest: string)
    requires IsPunct(c)
    ensures Tokens([c] + rest) == Prepend(Punct(c), Tokens(rest))
  {
    Skip(c, rest);
    assert ([c] + rest)[1..] == rest;
  }

  lemma StrTokens(v: string, rest: string)
    ensures Tokens(Quote(v) + rest) == Prepend(Str(v), Tokens(rest))
  {
    var body := Escape(v) + "\"" + rest;
    assert Quote(v) + rest == ['"'] + body;
    Skip('"', body);
    assert (['"'] + body)[1..] == body;
    StringBodyRoundTrip(v, rest);
  }

  lemma AppendCons(t: Token, ts: seq<Token>, r: Option<seq<Token>>)
    requires ts != [] && t == ts[0]
    ensures Prepend(t, Append(ts[1..], r)) == Append(ts, r)
  {
    if r.Some? {
      assert [t] + (ts[1..] + r.value) == ts + r.value;
    }
  }

  lemma ValidTail(ts: seq<Token>)
    requires ts != [] && ValidTokens(ts)
    ensures ValidTokens(ts[1..])
    ensures ts[0].Punct? ==> IsPunct(ts[0].c)
  {
    forall i | 0 <= i < |ts[1..]|
      ensures ts[1..][i].Punct? ==> IsPunct(ts[1..][i].c)
    {
      assert ts[1..][i] == ts[i + 1];
    }
  }

  /** Proof helper: string concatenation regrouped. */
  lemma Assoc(a: string, b: string, c: string)
    ensures a + b + c == a + (b + c)
  {
  }

  /** Reading one rendered token gives it back, followed by the tokens of what comes after. */
  lemma TokenTokens(t: Token, x: string)
    requires t.Punct? ==> IsPunct(t.c)
    ensures Tokens(TokenText(t) + x) == Prepend(t, Tokens(x))
  {
    match t
    case Punct(c) => PunctTokens(c, x);
    case Str(v) => StrTokens(v, x);
  }

  /** Reading rendered tokens gives them back, followed by the tokens of what comes after. */
  lemma {:induction false} TokensRender(ts: seq<Token>, rest: string)
    requires ValidTokens(ts)
    ensures Tokens(Render(ts) + rest) == Append(ts, Tokens(rest))
    decreases |ts|
  {
    if ts == [] {
      assert Render(ts) + rest == rest;
      if Tokens(rest).Some? {
        assert ts + Tokens(rest).value == Tokens(rest).value;
      }
    } else {
      var x := Render(ts[1..]) + rest;
      ValidTail(ts);
      TokensRender(ts[1..], rest);
      assert Render(ts) == TokenText(ts[0]) + Render(ts[1..]);
      Assoc(TokenText(ts[0]), Render(ts[1..]), rest);
      TokenTokens(ts[0], x);
      AppendCons(ts[0], ts, Tokens(rest));
    }
  }

  /** A string no character of which needs escaping. */
  predicate Plain(s: string) {
    forall i :: 0 <= i < |s| ==> s[i] != '"' && s[i] != '\\' && s[i] as int >= 0x20
  }

  /** A string with no character that needs escaping is written as itself, between quotes. */
  lemma {:induction false} EscapePlain(s: string)
    requires Plain(s)
    ensures Escape(s) == s
    ensures Quote(s) == "\"" + s + "\""
    decreases |s|
  {
    if s != [] {
      EscapePlain(s[1..]);
      assert EscapeChar(s[0]) == [s[0]];
      assert [s[0]] + s[1..] == s;
    }
  }

  lemma RenderCons(t: Token, ts: seq<Token>)
    ensures Render([t] + ts) == TokenText(t) + Render(ts)
  {
    assert ([t] + ts)[1..] == ts;
  }

  // ---------------------------------------------------------------- the compact form

  /** A member whose key and string value need no escaping, as serde_json writes it. */
  function PlainMember(key: string, value: string): string {
    "\"" + key + "\":\"" + value + "\""
  }

  /** The start of a member whose value is an object. */
  function ObjectKey(key: string): string {
    "\"" + key + "\":{"
  }

  lemma PlainMemberTokens(key: string, value: string, ts: seq<Token>)
    requires Plain(key) && Plain(value)
    ensures Render([Str(key), Punct(':'), Str(value)] + ts) == PlainMember(key, value) + Render(ts)
  {
    EscapePlain(key);
    EscapePlain(value);
    var r := Render(ts);
    var q := "\"";
    RenderCons(Str(value), ts);
    RenderCons(Punct(':'), [Str(value)] + ts);
    RenderCons(Str(key), [Punct(':')] + ([Str(value)] + ts));
    assert [Str(key), Punct(':'), Str(value)] + ts == [Str(key)] + ([Punct(':')] + ([Str(value)] + ts));
    calc {
      Render([Str(key), Punct(':'), Str(value)] + ts);
      (q + key + q) + (":" + ((q + value + q) + r));
      { Assoc(q + key, q, ":" + ((q + value + q) + r)); }
      q + key + (q + (":" + ((q + value + q) + r)));
      { Assoc(q + value, q, r); Assoc(q, value, q + r); }
      q + key + (q + (":" + (q + (value + (q + r)))));
      { Assoc(q, ":", q + (value + (q + r))); Assoc(q + ":", q, value + (q + r));
        assert q + ":" + q == "\":\""; }
      q + key + ("\":\"" + (value + (q + r)));
      { Assoc(q + key, "\":\"", value + (q + r)); }
      q + key + "\":\"" + (value + (q + r));
      { Assoc(q + key + "\":\"", value, q + r); }
      q + key + "\":\"" + value + (q + r);
      { Assoc(q + key + "\":\"" + value, q, r); }
      PlainMember(key, value) + r;
    }
  }

  lemma ObjectKeyTokens(key: string, ts: seq<Token>)
    requires Plain(key)
    ensures Render([Str(key), Punct(':'), Punct('{')] + ts) == ObjectKey(key) + Render(ts)
  {
    EscapePlain(key);
    var r := Render(ts);
    var q := "\"";
    RenderCons(Punct('{'), ts);
    RenderCons(Punct(':'), [Punct('{')] + ts);
    RenderCons(Str(key), [Punct(':')] + ([Punct('{')] + ts));
    assert [Str(key), Punct(':'), Punct('{')] + ts == [Str(key)] + ([Punct(':')] + ([Punct('{')] + ts));
    calc {
      Render([Str(key), Punct(':'), Punct('{')] + ts);
      (q + key + q) + (":" + ("{" + r));
      { Assoc(q + key, q, ":" + ("{" + r)); }
      q + key + (q + (":" + ("{" + r)));
      { Assoc(q, ":", "{" + r); Assoc(q + ":", "{", r); assert q + ":" + "{" == "\":{"; }
      q + key + ("\":{" + r);
      { Assoc(q + key, "\":{", r); }
      ObjectKey(key) + r;
    }
  }

  lemma PunctTokens2(a: char, b: char, ts: seq<Token>)
    ensures Render([Punct(a), Punct(b)] + ts) == [a, b] + Render(ts)
  {
    RenderCons(Punct(b), ts);
    RenderCons(Punct(a), [Punct(b)] + ts);
    assert [Punct(a), Punct(b)] + ts == [Punct(a)] + ([Punct(b)] + ts);
    Assoc([a], [b], Render(ts));
  }

  lemma KeysPlain()
    ensures Plain("type") && Plain("method") && Plain("data") && Plain("name")
    ensures Plain("value") && Plain("backtrace")
    ensures forall k :: Plain(TypeName(k))
  {
  }

  /** The record start: the `type` member and the comma after it. */
  lemma HeadText(k: MessageType, ts: seq<Token>)
    ensures Render(HeadTokens(k) + ts) == "{" + PlainMember("type", TypeName(k)) + "," + Render(ts)
  {
    KeysPlain();
    OpenMemberText("type", TypeName(k), ts);
  }

  /** An object's opening brace, its first plain member and the comma after it. */
  lemma OpenMemberText(key: string, value: string, ts: seq<Token>)
    requires Plain(key) && Plain(value)
    ensures Render([Punct('{'), Str(key), Punct(':'), Str(value), Punct(',')] + ts) ==
      "{" + PlainMember(key, value) + "," + Render(ts)
  {
    var r := Render(ts);
    var pm := PlainMember(key, value);
    RenderCons(Punct(','), ts);
    PlainMemberTokens(key, value, [Punct(',')] + ts);
    RenderCons(Punct('{'), [Str(key), Punct(':'), Str(value)] + ([Punct(',')] + ts));
    assert [Punct('{'), Str(key), Punct(':'), Str(value), Punct(',')] + ts ==
      [Punct('{')] + ([Str(key), Punct(':'), Str(value)] + ([Punct(',')] + ts));
    calc {
      Render([Punct('{'), Str(key), Punct(':'), Str(value), Punct(',')] + ts);
      "{" + (pm + ("," + r));
      { Assoc(pm, ",", r); }
      "{" + (pm + "," + r);
      { Assoc("{", pm + ",", r); }
      "{" + (pm + ",") + r;
      { Assoc("{", pm, ","); }
      "{" + pm + "," + r;
    }
  }

  /** A `Method` with plain strings is written as its `type`, `method` and `data` members in
      that order, with no whitespace; the type is the bare variant name. */
  lemma MethodText(k: MessageType, name: string, dataName: string)
    requires Plain(name) && Plain(dataName)
    ensures Text(Message.Method(k, name, MethodData(dataName))) ==
      "{" + PlainMember("type", TypeName(k)) + "," + PlainMember("method", name) + "," +
      ObjectKey("data") + PlainMember("name", dataName) + "}}"
  {
    KeysPlain();
    var head := "{" + PlainMember("type", TypeName(k)) + ",";
    var pm1, pm2 := PlainMember("method", name), PlainMember("name", dataName);
    var dk := ObjectKey("data");
    var t4 := [Punct('}'), Punct('}')];
    var t3 := [Str("name"), Punct(':'), Str(dataName)] + t4;
    var t2 := [Str("data"), Punct(':'), Punct('{')] + t3;
    var t1 := [Str("method"), Punct(':'), Str(name)] + ([Punct(',')] + t2);
    assert TokensOf(Message.Method(k, name, MethodData(dataName))) == HeadTokens(k) + t1;
    assert t4 == [Punct('}'), Punct('}')] + [];
    PunctTokens2('}', '}', []);
    PlainMemberTokens("name", dataName, t4);
    ObjectKeyTokens("data", t3);
    RenderCons(Punct(','), t2);
    PlainMemberTokens("method", name, [Punct(',')] + t2);
    HeadText(k, t1);
    assert Render(t4) == "}}";
    calc {
      Render(HeadTokens(k) + t1);
      head + (pm1 + ("," + (dk + (pm2 + "}}"))));
      { Assoc(dk, pm2, "}}"); Assoc(",", dk + pm2, "}}"); Assoc(",", dk, pm2); }
      head + (pm1 + ("," + dk + pm2 + "}}"));
      { Assoc(pm1, "," + dk + pm2, "}}"); Assoc(pm1, "," + dk, pm2); Assoc(pm1, ",", dk); }
      head + (pm1 + "," + dk + pm2 + "}}");
      { Assoc(head, pm1 + "," + dk + pm2, "}}"); Assoc(head, pm1 + "," + dk, pm2);
        Assoc(head, pm1 + ",", dk); Assoc(head, pm1, ","); }
      head + pm1 + "," + dk + pm2 + "}}";
    }
  }

  /** A `Reply` or a `Signal` is written as its `type` member and an empty `data` object. */
  lemma EmptyText(m: Message)
    requires m.Reply? || m.Signal?
    ensures Text(m) == "{" + PlainMember("type", TypeName(m.kind)) + "," + ObjectKey("data") + "}}"
  {
    KeysPlain();
    var t4 := [Punct('}'), Punct('}')];
    var t1 := [Str("data"), Punct(':'), Punct('{')] + t4;
    assert TokensOf(m) == HeadTokens(m.kind) + t1;
    assert t4 == [Punct('}'), Punct('}')] + [];
    PunctTokens2('}', '}', []);
    ObjectKeyTokens("data", t4);
    HeadText(m.kind, t1);
    Assoc("{" + PlainMember("type", TypeName(m.kind)) + ",", ObjectKey("data"), "}}");
  }

  /** An `Exception` with plain strings is written as its `type` member and a `data` object
      holding `name`, `value` and `backtrace` in that order. */
  lemma ExceptionText(k: MessageType, e: ExceptionData)
    requires Plain(e.name) && Plain(e.value) && Plain(e.backtrace)
    ensures Text(Message.Exception(k, e)) ==
      "{" + PlainMember("type", TypeName(k)) + "," + ObjectKey("data") + PlainMember("name", e.name) + "," +
      PlainMember("value", e.value) + "," + PlainMember("backtrace", e.backtrace) + "}}"
  {
    KeysPlain();
    var t1 := [Str("data"), Punct(':'), Punct('{'), Str("name"), Punct(':'), Str(e.name), Punct(','),
       Str("value"), Punct(':'), Str(e.value), Punct(','), Str("backtrace"), Punct(':'), Str(e.backtrace),
       Punct('}'), Punct('}')];
    assert TokensOf(Message.Exception(k, e)) == HeadTokens(k) + t1;
    ExceptionDataText("data", "name", "value", "backtrace", e.name, e.value, e.backtrace);
    HeadText(k, t1);
    ExceptionFlatten("{" + PlainMember("type", TypeName(k)) + ",", ObjectKey("data"),
      PlainMember("name", e.name), PlainMember("value", e.value), PlainMember("backtrace", e.backtrace));
  }

  /** The `data` object of an `Exception`, for any plain keys and values. */
  lemma ExceptionDataText(d: string, n: string, v: string, b: string, x: string, y: string, z: string)
    requires Plain(d) && Plain(n) && Plain(v) && Plain(b) && Plain(x) && Plain(y) && Plain(z)
    ensures Render([Str(d), Punct(':'), Punct('{'), Str(n), Punct(':'), Str(x), Punct(','),
       Str(v), Punct(':'), Str(y), Punct(','), Str(b), Punct(':'), Str(z), Punct('}'), Punct('}')]) ==
      ObjectKey(d) + (PlainMember(n, x) + ("," + (PlainMember(v, y) + ("," + (PlainMember(b, z) + "}}")))))
  {
    var t6 := [Punct('}'), Punct('}')];
    var t5 := [Str(b), Punct(':'), Str(z)] + t6;
    var t4 := [Str(v), Punct(':'), Str(y)] + ([Punct(',')] + t5);
    var t3 := [Str(n), Punct(':'), Str(x)] + ([Punct(',')] + t4);
    var t1 := [Str(d), Punct(':'), Punct('{')] + t3;
    assert t1 == [Str(d), Punct(':'), Punct('{'), Str(n), Punct(':'), Str(x), Punct(','),
       Str(v), Punct(':'), Str(y), Punct(','), Str(b), Punct(':'), Str(z), Punct('}'), Punct('}')];
    assert t6 == [Punct('}'), Punct('}')] + [];
    PunctTokens2('}', '}', []);
    assert Render(t6) == "}}";
    PlainMemberTokens(b, z, t6);
    RenderCons(Punct(','), t5);
    PlainMemberTokens(v, y, [Punct(',')] + t5);
    RenderCons(Punct(','), t4);
    PlainMemberTokens(n, x, [Punct(',')] + t4);
    ObjectKeyTokens(d, t3);
  }

  lemma ExceptionFlatten(head: string, dk: string, pn: string, pv: string, pb: string)
    ensures head + (dk + (pn + ("," + (pv + ("," + (pb + "}}")))))) ==
      head + dk + pn + "," + pv + "," + pb + "}}"
  {
    var x := pb + "}}";
    calc {
      head + (dk + (pn + ("," + (pv + ("," + x)))));
      { Assoc(pv, ",", x); Assoc(",", pv + ",", x); Assoc(",", pv, ","); }
      head + (dk + (pn + ("," + pv + "," + x)));
      { Assoc(pn, "," + pv + ",", x); Assoc(pn, "," + pv, ","); Assoc(pn, ",", pv); }
      head + (dk + (pn + "," + pv + "," + x));
      { Assoc(dk, pn + "," + pv + ",", x); Assoc(dk, pn + "," + pv, ","); Assoc(dk, pn + ",", pv);
        Assoc(dk, pn, ","); }
      head + (dk + pn + "," + pv + "," + x);
      { Assoc(head, dk + pn + "," + pv + ",", x); Assoc(head, dk + pn + "," + pv, ",");
        Assoc(head, dk + pn + ",", pv); Assoc(head, dk + pn, ","); Assoc(head, dk, pn); }
      head + dk + pn + "," + pv + "," + x;
      { Assoc(head + dk + pn + "," + pv + ",", pb, "}}"); }
      head + dk + pn + "," + pv + "," + pb + "}}";
    }
  }

  lemma TokensOfValid(m: Message)
    ensures ValidTokens(TokensOf(m))
  {
  }

  /** The text of a message reads back as its tokens, followed by those of what comes after. */
  lemma TextTokens(m: Message, rest: string)
    ensures Tokens(Text(m) + rest) == Append(TokensOf(m), Tokens(rest))
  {
    TokensOfValid(m);
    TokensRender(TokensOf(m), rest);
  }

  lemma TagOfTypeName(k: MessageType)
    ensures TagOf(TypeName(k)) == Some(k)
  {
  }

  /** A message's own tokens are read as that message. */
  lemma FromTokensOf(m: Message)
    ensures FromTokens(ShapeOf(m), TokensOf(m)) == Some(m)
  {
    TagOfTypeName(m.kind);
    var ts := TokensOf(m);
    assert ts[..5] == HeadTokens(m.kind);
  }

  /** A text holding exactly a message's tokens decodes, as that record, to the message. */
  lemma DecodeTokens(m: Message, text: string)
    requires Tokens(text) == Some(TokensOf(m))
    ensures Decode(ShapeOf(m), text) == Ok(m)
  {
    FromTokensOf(m);
  }

  /** Decoding a message's text as its own record gives the message back. */
  lemma DecodeText(m: Message)
    ensures Decode(ShapeOf(m), Text(m)) == Ok(m)
  {
    TextTokens(m, "");
    assert Text(m) + "" == Text(m);
    assert TokensOf(m) + [] == TokensOf(m);
    DecodeTokens(m, Text(m));
  }

  /** Only a record's own tokens are accepted: the text of a `Method` or an `Exception` is
      not read as a `Reply` or a `Signal`. (serde's derived decoders, which skip members they
      do not know, would read it as one.) */
  lemma ForeignTextRejected(m: Message, shape: Shape)
    requires m.Method? || m.Exception?
    requires shape == ReplyShape || shape == SignalShape
    ensures Decode(shape, Text(m)) == Err(ParseError)
  {
    OwnTokens(m);
    TokenCounts(m);
    EmptyRecordOnly(shape, TokensOf(m));
  }

  lemma OwnTokens(m: Message)
    ensures Tokens(Text(m)) == Some(TokensOf(m))
  {
    TextTokens(m, "");
    NothingAfter(Text(m), TokensOf(m));
  }

  lemma NothingAfter(text: string, ts: seq<Token>)
    requires Tokens(text + "") == Append(ts, Tokens(""))
    ensures Tokens(text) == Some(ts)
  {
    assert text + "" == text;
    assert ts + [] == ts;
  }

  /** A `Reply` or a `Signal` has ten tokens, a `Method` or an `Exception` more. */
  lemma TokenCounts(m: Message)
    ensures (m.Reply? || m.Signal?) <==> |TokensOf(m)| == 10
  {
  }

  lemma EmptyRecordOnly(shape: Shape, ts: seq<Token>)
    requires shape == ReplyShape || shape == SignalShape
    requires |ts| != 10
    ensures FromTokens(shape, ts) == None
  {
    var r := FromTokens(shape, ts);
    if r.Some? {
      TokenCounts(r.value);
    }
  }

  /** The round trip of the encoding tests: the encoded bytes are valid UTF-8, and decoding
      their text as the same record gives the message back. */
  lemma DecodeEncode(m: Message)
    ensures Utf8.Decode(Encode(m).value) == Some(Text(m))
    ensures Decode(ShapeOf(m), Utf8.Decode(Encode(m).value).value) == Ok(m)
  {
    Utf8.DecodeEncode(Text(m));
    DecodeText(m);
  }

  lemma {:induction false} SkipAll(pre: string, s: string)
    requires forall i :: 0 <= i < |pre| ==> IsWhitespace(pre[i])
    ensures SkipWhitespace(pre + s) == SkipWhitespace(s)
    decreases |pre|
  {
    if pre != [] {
      assert (pre + s)[0] == pre[0];
      assert (pre + s)[1..] == pre[1..] + s;
      SkipAll(pre[1..], s);
    } else {
      assert pre + s == s;
    }
  }

  /** Whitespace before the tokens is skipped. */
  lemma TokensSkip(pre: string, s: string)
    requires forall i :: 0 <= i < |pre| ==> IsWhitespace(pre[i])
    ensures Tokens(pre + s) == Tokens(s)
  {
    SkipAll(pre, s);
  }

  /** Whitespace around the record is accepted. */
  lemma DecodeAllowsWhitespace(m: Message, pre: string, post: string)
    requires forall i :: 0 <= i < |pre| ==> IsWhitespace(pre[i])
    requires forall i :: 0 <= i < |post| ==> IsWhitespace(post[i])
    ensures Decode(ShapeOf(m), pre + Text(m) + post) == Ok(m)
  {
    assert pre + Text(m) + post == pre + (Text(m) + post);
    TokensSkip(pre, Text(m) + post);
    TextTokens(m, post);
    TokensSkip(post, "");
    assert post + "" == post;
    assert TokensOf(m) + [] == TokensOf(m);
    DecodeTokens(m, pre + Text(m) + post);
  }

  /** Anything but whitespace after the record makes decoding fail. */
  lemma DecodeRejectsTrailing(m: Message, rest: string)
    requires SkipWhitespace(rest) != []
    ensures Decode(ShapeOf(m), Text(m) + rest).Err?
  {
    TextTokens(m, rest);
  }

  /** A reply and a signal with the same type field have the same text, so the receiver's
      choice of record, not the bytes, decides which of the two is decoded; the type field
      is not checked against it. */
  lemma ReplySignalIndistinguishable(k: MessageType)
    ensures Text(Message.Reply(k)) == Text(Message.Signal(k))
    ensures Decode(ReplyShape, Text(Message.Signal(k))) == Ok(Message.Reply(k))
    ensures Decode(SignalShape, Text(Message.Reply(k))) == Ok(Message.Signal(k))
  {
    EmptyRecordTokens(k);
    SameTokens(Message.Reply(k), Message.Signal(k));
    SameTokens(Message.Signal(k), Message.Reply(k));
  }

  lemma EmptyRecordTokens(k: MessageType)
    ensures TokensOf(Message.Reply(k)) == TokensOf(Message.Signal(k))
  {
  }

  /** Two messages with the same tokens have the same text, which decodes as either shape. */
  lemma SameTokens(m: Message, n: Message)
    requires TokensOf(m) == TokensOf(n)
    ensures Text(m) == Text(n)
    ensures Decode(ShapeOf(n), Text(m)) == Ok(n)
  {
    DecodeText(n);
  }

  /** Different messages of one record have different encodings. */
  lemma EncodeInjective(m: Message, n: Message)
    requires ShapeOf(m) == ShapeOf(n) && Encode(m) == Encode(n)
    ensures m == n
  {
    DecodeEncode(m);
    DecodeEncode(n);
  }
}
