/** UTF-8 as Python's `str.encode('utf-8')` and strict `bytes.decode('utf-8')`
    apply it. A Dafny `char` is a Unicode scalar value, so every string encodes;
    decoding rejects overlong forms, surrogates and code points past U+10FFFF. */
module Utf8 {
  import opened Python

  /** Continuation byte 10xxxxxx. */
  predicate IsCont(b: byte) { 0x80 <= b < 0xC0 }

  /** The one to four bytes of a single scalar value. */
  function EncodeChar(c: char): (r: seq<byte>)
    ensures 1 <= |r| <= 4
  {
    var cp := c as int;
    if cp < 0x80 then [cp as byte]
    else if cp < 0x800 then [(0xC0 + cp / 64) as byte, (0x80 + cp % 64) as byte]
    else if cp < 0x1_0000 then
      [(0xE0 + cp / 4096) as byte, (0x80 + cp / 64 % 64) as byte, (0x80 + cp % 64) as byte]
    else
      [(0xF0 + cp / 262144) as byte, (0x80 + cp / 4096 % 64) as byte,
       (0x80 + cp / 64 % 64) as byte, (0x80 + cp % 64) as byte]
  }

  function Encode(s: string): seq<byte>
  {
    if s == [] then [] else EncodeChar(s[0]) + Encode(s[1..])
  }

  /** The scalar value at the head of `b` and how many bytes it takes, if the
      head is a well-formed, shortest-form UTF-8 sequence. */
  function DecodeFirst(b: seq<byte>): (r: Option<(char, nat)>)
    requires |b| > 0
    ensures r.Some? ==> 1 <= r.value.1 <= 4 && r.value.1 <= |b|
  {
    var b0 := b[0] as int;
    if b0 < 0x80 then Some((b0 as char, 1))
    else if 0xC0 <= b0 < 0xE0 && |b| >= 2 && IsCont(b[1]) then
      var cp := (b0 - 0xC0) * 64 + (b[1] as int - 0x80);
      if 0x80 <= cp then Some((cp as char, 2)) else None
    else if 0xE0 <= b0 < 0xF0 && |b| >= 3 && IsCont(b[1]) && IsCont(b[2]) then
      var cp := (b0 - 0xE0) * 4096 + (b[1] as int - 0x80) * 64 + (b[2] as int - 0x80);
      if 0x800 <= cp && !(0xD800 <= cp < 0xE000) then Some((cp as char, 3)) else None
    else if 0xF0 <= b0 < 0xF8 && |b| >= 4 && IsCont(b[1]) && IsCont(b[2]) && IsCont(b[3]) then
      var cp := (b0 - 0xF0) * 262144 + (b[1] as int - 0x80) * 4096
                + (b[2] as int - 0x80) * 64 + (b[3] as int - 0x80);
      if 0x1_0000 <= cp < 0x11_0000 then Some((cp as char, 4)) else None
    else None
  }

  /** Strict decoding: `None` where Python raises `UnicodeDecodeError`. */
  function Decode(b: seq<byte>): Option<string>
    decreases |b|
  {
    if b == [] then Some([])
    else match DecodeFirst(b)
      case None => None
      case Some((c, n)) =>
        match Decode(b[n..])
        case None => None
        case Some(rest) => Some([c] + rest)
  }

  /** Splitting off the last six bits of a number is undone by putting them back. */
  lemma Split64(q: int, r: int)
    requires 0 <= r < 64
    ensures (q * 64 + r) / 64 == q && (q * 64 + r) % 64 == r
  {
  }

  lemma DecodeFirstOfEncodeChar2(cp: int, rest: seq<byte>)
    requires 0x80 <= cp < 0x800
    ensures DecodeFirst(EncodeChar(cp as char) + rest) == Some((cp as char, 2))
  {
    var hi, lo := cp / 64, cp % 64;
    Split64(hi, lo);
    var b := EncodeChar(cp as char) + rest;
    assert b[0] as int == 0xC0 + hi && b[1] as int == 0x80 + lo;
  }

  lemma DecodeFirstOfEncodeChar3(cp: int, rest: seq<byte>)
    requires 0x800 <= cp < 0x1_0000 && !(0xD800 <= cp < 0xE000)
    ensures DecodeFirst(EncodeChar(cp as char) + rest) == Some((cp as char, 3))
  {
    var hi, mid, lo := cp / 4096, cp / 64 % 64, cp % 64;
    Split64(cp / 64, lo);
    Split64(hi, mid);
    assert cp == hi * 4096 + mid * 64 + lo;
    var b := EncodeChar(cp as char) + rest;
    assert b[0] as int == 0xE0 + hi && b[1] as int == 0x80 + mid && b[2] as int == 0x80 + lo;
  }

  lemma DecodeFirstOfEncodeChar4(cp: int, rest: seq<byte>)
    requires 0x1_0000 <= cp < 0x11_0000
    ensures DecodeFirst(EncodeChar(cp as char) + rest) == Some((cp as char, 4))
  {
    var top, hi, mid, lo := cp / 262144, cp / 4096 % 64, cp / 64 % 64, cp % 64;
    Split64(cp / 64, lo);
    Split64(cp / 4096, mid);
    Split64(top, hi);
    assert cp == top * 262144 + hi * 4096 + mid * 64 + lo;
    var b := EncodeChar(cp as char) + rest;
    assert b[0] as int == 0xF0 + top && b[1] as int == 0x80 + hi;
    assert b[2] as int == 0x80 + mid && b[3] as int == 0x80 + lo;
  }

  /** Decoding reads back the scalar value that was encoded, whatever follows it. */
  lemma DecodeFirstOfEncodeChar(c: char, rest: seq<byte>)
    ensures DecodeFirst(EncodeChar(c) + rest) == Some((c, |EncodeChar(c)|))
  {
    var cp := c as int;
    if cp < 0x80 {
    } else if cp < 0x800 {
      DecodeFirstOfEncodeChar2(cp, rest);
    } else if cp < 0x1_0000 {
      DecodeFirstOfEncodeChar3(cp, rest);
    } else {
      DecodeFirstOfEncodeChar4(cp, rest);
    }
  }

  /** The bytes a successful decode consumed are exactly the encoding of the
      scalar value it produced. */
  lemma EncodeCharOfDecodeFirst(b: seq<byte>)
    requires |b| > 0 && DecodeFirst(b).Some?
    ensures EncodeChar(DecodeFirst(b).value.0) == b[..DecodeFirst(b).value.1]
  {
    var b0 := b[0] as int;
    var c := DecodeFirst(b).value.0;
    var cp := c as int;
    if b0 < 0x80 {
    } else if 0xC0 <= b0 < 0xE0 {
      Split64(b0 - 0xC0, b[1] as int - 0x80);
    } else if 0xE0 <= b0 < 0xF0 {
      Split64(b0 - 0xE0, b[1] as int - 0x80);
      Split64((b0 - 0xE0) * 64 + (b[1] as int - 0x80), b[2] as int - 0x80);
    } else {
      Split64(b0 - 0xF0, b[1] as int - 0x80);
      Split64((b0 - 0xF0) * 64 + (b[1] as int - 0x80), b[2] as int - 0x80);
      Split64(((b0 - 0xF0) * 64 + (b[1] as int - 0x80)) * 64 + (b[2] as int - 0x80), b[3] as int - 0x80);
    }
  }

  /** Every string survives a trip through its encoding. */
  lemma {:induction false} DecodeEncode(s: string)
    ensures Decode(Encode(s)) == Some(s)
  {
    if s != [] {
      var e, tail := EncodeChar(s[0]), Encode(s[1..]);
      assert Encode(s) == e + tail;
      DecodeFirstOfEncodeChar(s[0], tail);
      assert (e + tail)[|e|..] == tail;
      DecodeEncode(s[1..]);
      assert [s[0]] + s[1..] == s;
    }
  }

  /** Whatever bytes decode successfully are re-created exactly by encoding the
      result: a decode followed by an encode is the identity on valid UTF-8. */
  lemma {:induction false} EncodeDecode(b: seq<byte>)
    requires Decode(b).Some?
    ensures Encode(Decode(b).value) == b
  {
    if b != [] {
      var c, n := DecodeFirst(b).value.0, DecodeFirst(b).value.1;
      var rest := Decode(b[n..]).value;
      assert Decode(b).value == [c] + rest;
      assert ([c] + rest)[0] == c && ([c] + rest)[1..] == rest;
      EncodeCharOfDecodeFirst(b);
      EncodeDecode(b[n..]);
      assert b == b[..n] + b[n..];
    }
  }
}
