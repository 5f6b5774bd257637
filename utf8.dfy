/** UTF-8, the byte form of the JSON text on the wire: `serde_json::to_vec` writes the
    UTF-8 bytes of the encoded text, and the channel reads a buffer back with
    `str::from_utf8`, which accepts exactly the well-formed UTF-8 byte sequences
    (no overlong forms, no surrogates, nothing above U+10FFFF). */
module Utf8 {
  import opened Wrappers

  newtype byte = b: int | 0 <= b < 0x100

  predicate IsContinuation(b: byte) {
    0x80 <= b < 0xC0
  }

  /** The one to four bytes of one Unicode scalar value. */
  function EncodeChar(c: char): (r: seq<byte>)
    ensures 1 <= |r| <= 4
    ensures (c as int < 0x80) <==> |r| == 1
  {
    var n := c as int;
    if n < 0x80 then
      [n as byte]
    else if n < 0x800 then
      [(0xC0 + n / 0x40) as byte, (0x80 + n % 0x40) as byte]
    else if n < 0x10000 then
      [(0xE0 + n / 0x1000) as byte, (0x80 + (n / 0x40) % 0x40) as byte, (0x80 + n % 0x40) as byte]
    else
      [(0xF0 + n / 0x40000) as byte, (0x80 + (n / 0x1000) % 0x40) as byte,
       (0x80 + (n / 0x40) % 0x40) as byte, (0x80 + n % 0x40) as byte]
  }

  function Encode(s: string): (r: seq<byte>)
    decreases |s|
  {
    if s == [] then [] else EncodeChar(s[0]) + Encode(s[1..])
  }

  /** Reads one scalar value from the front of `b`: the character and the number of bytes it took.
      None when the front of `b` is not a well-formed UTF-8 sequence. */
  function DecodeChar(b: seq<byte>): (r: Option<(char, nat)>)
    ensures r.Some? ==> 1 <= r.value.1 <= |b| && r.value.1 <= 4
  {
    if b == [] then None
    else
      var b0 := b[0] as int;
      if b0 < 0x80 then
        Some((b0 as char, 1))
      else if 0xC2 <= b0 < 0xE0 then
        if |b| >= 2 && IsContinuation(b[1]) then
          Some((((b0 - 0xC0) * 0x40 + (b[1] as int - 0x80)) as char, 2))
        else None
      else if 0xE0 <= b0 < 0xF0 then
        if |b| >= 3 && IsContinuation(b[1]) && IsContinuation(b[2]) then
          var n := (b0 - 0xE0) * 0x1000 + (b[1] as int - 0x80) * 0x40 + (b[2] as int - 0x80);
          if 0x800 <= n && !(0xD800 <= n < 0xE000) then Some((n as char, 3)) else None
        else None
      else if 0xF0 <= b0 < 0xF5 then
        if |b| >= 4 && IsContinuation(b[1]) && IsContinuation(b[2]) && IsContinuation(b[3]) then
          var n := (b0 - 0xF0) * 0x40000 + (b[1] as int - 0x80) * 0x1000
                   + (b[2] as int - 0x80) * 0x40 + (b[3] as int - 0x80);
          if 0x10000 <= n < 0x110000 then Some((n as char, 4)) else None
        else None
      else None
  }

  /** `str::from_utf8`: the text the bytes spell, or None when they are not well-formed UTF-8. */
  function Decode(b: seq<byte>): Option<string>
    decreases |b|
  {
    if b == [] then Some([])
    else
      var first :- DecodeChar(b);
      var tail :- Decode(b[first.1..]);
      Some([first.0] + tail)
  }

  lemma {:induction false} EncodeAppend(s: string, t: string)
    ensures Encode(s + t) == Encode(s) + Encode(t)
    decreases |s|
  {
    if s != [] {
      assert (s + t)[0] == s[0];
      assert (s + t)[1..] == s[1..] + t;
      assert Encode(s + t) == EncodeChar(s[0]) + Encode(s[1..] + t);
      EncodeAppend(s[1..], t);
    } else {
      assert s + t == t;
    }
  }

  /** Decoding the front of an encoded character gives that character back. */
  lemma DecodeEncodeChar(c: char, rest: seq<byte>)
    ensures DecodeChar(EncodeChar(c) + rest) == Some((c, |EncodeChar(c)|))
  {
    var n := c as int;
    if n < 0x80 {
    } else if n < 0x800 {
      DecodeTwo(c, rest);
    } else if n < 0x10000 {
      DecodeThree(c, rest);
    } else {
      DecodeFour(c, rest);
    }
  }

  lemma DecodeTwo(c: char, rest: seq<byte>)
    requires 0x80 <= c as int < 0x800
    ensures DecodeChar(EncodeChar(c) + rest) == Some((c, 2))
  {
    var n := c as int;
    var hi, lo := n / 0x40, n % 0x40;
    assert n == hi * 0x40 + lo && 2 <= hi < 0x20 && 0 <= lo < 0x40;
    var b := EncodeChar(c) + rest;
    assert b[0] as int == 0xC0 + hi && b[1] as int == 0x80 + lo;
  }

  lemma DecodeThree(c: char, rest: seq<byte>)
    requires 0x800 <= c as int < 0x10000
    ensures DecodeChar(EncodeChar(c) + rest) == Some((c, 3))
  {
    var n := c as int;
    var hi, mid, lo := n / 0x1000, (n / 0x40) % 0x40, n % 0x40;
    Split3(n);
    var b := EncodeChar(c) + rest;
    assert b[0] as int == 0xE0 + hi && b[1] as int == 0x80 + mid && b[2] as int == 0x80 + lo;
  }

  lemma Split3(n: int)
    requires 0 <= n < 0x10000
    ensures n == (n / 0x1000) * 0x1000 + ((n / 0x40) % 0x40) * 0x40 + n % 0x40
    ensures 0 <= n / 0x1000 < 0x10 && 0 <= (n / 0x40) % 0x40 < 0x40 && 0 <= n % 0x40 < 0x40
  {
    var q := n / 0x40;
    assert n == q * 0x40 + n % 0x40;
    assert q == (q / 0x40) * 0x40 + q % 0x40;
    assert q / 0x40 == n / 0x1000;
  }

  lemma DecodeFour(c: char, rest: seq<byte>)
    requires 0x10000 <= c as int
    ensures DecodeChar(EncodeChar(c) + rest) == Some((c, 4))
  {
    var n := c as int;
    var top, hi, mid, lo := n / 0x40000, (n / 0x1000) % 0x40, (n / 0x40) % 0x40, n % 0x40;
    Split4(n);
    var b := EncodeChar(c) + rest;
    assert b[0] as int == 0xF0 + top && b[1] as int == 0x80 + hi;
    assert b[2] as int == 0x80 + mid && b[3] as int == 0x80 + lo;
  }

  lemma Split4(n: int)
    requires 0 <= n < 0x110000
    ensures n == (n / 0x40000) * 0x40000 + ((n / 0x1000) % 0x40) * 0x1000
                 + ((n / 0x40) % 0x40) * 0x40 + n % 0x40
    ensures 0 <= n / 0x40000 < 5 && 0 <= (n / 0x1000) % 0x40 < 0x40
    ensures 0 <= (n / 0x40) % 0x40 < 0x40 && 0 <= n % 0x40 < 0x40
  {
    var q := n / 0x40;
    var r := q / 0x40;
    assert n == q * 0x40 + n % 0x40;
    assert q == r * 0x40 + q % 0x40;
    assert r == (r / 0x40) * 0x40 + r % 0x40;
    assert r == n / 0x1000;
    assert r / 0x40 == n / 0x40000;
  }

  /** `str::from_utf8` accepts every encoded text and gives it back. */
  lemma {:induction false} DecodeEncode(s: string)
    ensures Decode(Encode(s)) == Some(s)
    decreases |s|
  {
    if s != [] {
      var e := EncodeChar(s[0]);
      assert Encode(s) == e + Encode(s[1..]);
      DecodeEncodeChar(s[0], Encode(s[1..]));
      assert (e + Encode(s[1..]))[|e|..] == Encode(s[1..]);
      DecodeEncode(s[1..]);
      assert [s[0]] + s[1..] == s;
    }
  }

  /** A character read from the front of `b` is encoded by exactly the bytes it was read from. */
  lemma EncodeDecodeChar(b: seq<byte>)
    requires DecodeChar(b).Some?
    ensures EncodeChar(DecodeChar(b).value.0) == b[..DecodeChar(b).value.1]
  {
    var b0 := b[0] as int;
    if b0 < 0x80 {
    } else if b0 < 0xE0 {
      EncodeDecodeTwo(b);
    } else if b0 < 0xF0 {
      EncodeDecodeThree(b);
    } else {
      EncodeDecodeFour(b);
    }
  }

  lemma EncodeDecodeTwo(b: seq<byte>)
    requires DecodeChar(b).Some? && 0x80 <= b[0] < 0xE0
    ensures EncodeChar(DecodeChar(b).value.0) == b[..2]
  {
    var n := DecodeChar(b).value.0 as int;
    var x, y := b[0] as int - 0xC0, b[1] as int - 0x80;
    assert n == x * 0x40 + y && 2 <= x < 0x20 && 0 <= y < 0x40;
    assert n / 0x40 == x && n % 0x40 == y;
  }

  lemma EncodeDecodeThree(b: seq<byte>)
    requires DecodeChar(b).Some? && 0xE0 <= b[0] < 0xF0
    ensures EncodeChar(DecodeChar(b).value.0) == b[..3]
  {
    var n := DecodeChar(b).value.0 as int;
    var x, y, z := b[0] as int - 0xE0, b[1] as int - 0x80, b[2] as int - 0x80;
    assert n == x * 0x1000 + y * 0x40 + z && 0 <= y < 0x40 && 0 <= z < 0x40;
    Join3(x, y, z);
  }

  lemma Join3(x: int, y: int, z: int)
    requires 0 <= x < 0x10 && 0 <= y < 0x40 && 0 <= z < 0x40
    ensures var n := x * 0x1000 + y * 0x40 + z;
      n / 0x1000 == x && (n / 0x40) % 0x40 == y && n % 0x40 == z
  {
    var n := x * 0x1000 + y * 0x40 + z;
    assert n == (x * 0x40 + y) * 0x40 + z;
    assert n / 0x40 == x * 0x40 + y;
    assert n / 0x1000 == x;
  }

  lemma EncodeDecodeFour(b: seq<byte>)
    requires DecodeChar(b).Some? && 0xF0 <= b[0]
    ensures EncodeChar(DecodeChar(b).value.0) == b[..4]
  {
    var n := DecodeChar(b).value.0 as int;
    var w, x, y, z := b[0] as int - 0xF0, b[1] as int - 0x80, b[2] as int - 0x80, b[3] as int - 0x80;
    assert n == w * 0x40000 + x * 0x1000 + y * 0x40 + z;
    assert 0 <= w < 5 && 0 <= x < 0x40 && 0 <= y < 0x40 && 0 <= z < 0x40;
    Join4(w, x, y, z);
  }

  lemma Join4(w: int, x: int, y: int, z: int)
    requires 0 <= w < 5 && 0 <= x < 0x40 && 0 <= y < 0x40 && 0 <= z < 0x40
    ensures var n := w * 0x40000 + x * 0x1000 + y * 0x40 + z;
      n / 0x40000 == w && (n / 0x1000) % 0x40 == x && (n / 0x40) % 0x40 == y && n % 0x40 == z
  {
    var n := w * 0x40000 + x * 0x1000 + y * 0x40 + z;
    var q := (w * 0x40 + x) * 0x40 + y;
    assert n == q * 0x40 + z;
    assert n / 0x40 == q;
    assert q == (w * 0x40 + x) * 0x40 + y;
    assert q / 0x40 == w * 0x40 + x;
    assert n / 0x1000 == q / 0x40;
    assert n / 0x40000 == (w * 0x40 + x) / 0x40;
  }

  /** The converse of DecodeEncode: whatever `str::from_utf8` accepts is the encoding of the text
      it yields, so each text has exactly one UTF-8 form. */
  lemma {:induction false} EncodeDecode(b: seq<byte>)
    requires Decode(b).Some?
    ensures Encode(Decode(b).value) == b
    decreases |b|
  {
    if b != [] {
      DecodeCons(b);
      var k := DecodeChar(b).value.1;
      EncodeDecode(b[k..]);
      EncodeDecodeChar(b);
      JoinStep(b, DecodeChar(b).value.0, k, Decode(b[k..]).value, Decode(b).value);
    }
  }

  lemma JoinStep(b: seq<byte>, c: char, k: nat, tail: string, s: string)
    requires k <= |b| && s == [c] + tail
    requires EncodeChar(c) == b[..k] && Encode(tail) == b[k..]
    ensures Encode(s) == b
  {
    EncodeCons(c, tail);
    assert b == b[..k] + b[k..];
  }

  /** A successful decode is the first character followed by the decode of the rest. */
  lemma DecodeCons(b: seq<byte>)
    requires b != [] && Decode(b).Some?
    ensures DecodeChar(b).Some? && Decode(b[DecodeChar(b).value.1..]).Some?
    ensures Decode(b).value == [DecodeChar(b).value.0] + Decode(b[DecodeChar(b).value.1..]).value
  {
  }

  lemma EncodeCons(c: char, s: string)
    ensures Encode([c] + s) == EncodeChar(c) + Encode(s)
  {
    assert ([c] + s)[1..] == s;
  }

  /** Text made only of ASCII characters takes one byte per character. */
  lemma {:induction false} EncodeAscii(s: string)
    requires forall i :: 0 <= i < |s| ==> s[i] as int < 0x80
    ensures |Encode(s)| == |s|
    ensures forall i :: 0 <= i < |s| ==> Encode(s)[i] as int == s[i] as int
    decreases |s|
  {
    if s != [] {
      EncodeAscii(s[1..]);
    }
  }
}
