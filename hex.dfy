/** Lowercase hexadecimal, as `hexdigest()` writes a digest. */
module Hex {
  import opened Python

  /** The lowercase digit for a four-bit value. */
  function Digit(n: int): char
    requires 0 <= n < 16
  {
    if n < 10 then ('0' as int + n) as char else ('a' as int + (n - 10)) as char
  }

  predicate IsLowerHexDigit(c: char) {
    '0' <= c <= '9' || 'a' <= c <= 'f'
  }

  /** The value of a lowercase hex digit; upper-case letters are not digits here. */
  function DigitValue(c: char): (r: Option<int>)
    ensures r.Some? <==> IsLowerHexDigit(c)
    ensures r.Some? ==> 0 <= r.value < 16 && Digit(r.value) == c
  {
    if '0' <= c <= '9' then Some(c as int - '0' as int)
    else if 'a' <= c <= 'f' then Some(c as int - 'a' as int + 10)
    else None
  }

  /** Two lowercase digits per byte, high four bits first. */
  function HexDigest(b: seq<byte>): string
  {
    if b == [] then [] else [Digit(b[0] as int / 16), Digit(b[0] as int % 16)] + HexDigest(b[1..])
  }

  /** Strict inverse of `HexDigest`: an even number of lowercase digits. */
  function Decode(s: string): Option<seq<byte>>
    decreases |s|
  {
    if |s| == 0 then Some([])
    else if |s| == 1 then None
    else
      var hi, lo := DigitValue(s[0]), DigitValue(s[1]);
      if hi.None? || lo.None? then None
      else
        match Decode(s[2..])
        case None => None
        case Some(rest) => Some([(hi.value * 16 + lo.value) as byte] + rest)
  }

  /** `s.upper()` on ASCII letters; every other character is kept. */
  function Upper(s: string): (r: string)
    ensures |r| == |s|
    ensures forall i :: 0 <= i < |s| ==> (r[i] == s[i] <==> !('a' <= s[i] <= 'z'))
    ensures IsAscii(s) ==> IsAscii(r)
  {
    if s == [] then []
    else [if 'a' <= s[0] <= 'z' then (s[0] as int - 32) as char else s[0]] + Upper(s[1..])
  }

  /** A digest is two lowercase hex digits per byte. */
  lemma {:induction false} HexDigestShape(b: seq<byte>)
    ensures |HexDigest(b)| == 2 * |b|
    ensures forall i :: 0 <= i < |HexDigest(b)| ==> IsLowerHexDigit(HexDigest(b)[i])
  {
    if b != [] {
      HexDigestShape(b[1..]);
    }
  }

  /** Decoding undoes `HexDigest`. */
  lemma {:induction false} DecodeHexDigest(b: seq<byte>)
    ensures Decode(HexDigest(b)) == Some(b)
  {
    if b != [] {
      var x := b[0] as int;
      var s := [Digit(x / 16), Digit(x % 16)] + HexDigest(b[1..]);
      assert HexDigest(b) == s && s[2..] == HexDigest(b[1..]);
      DecodeHexDigest(b[1..]);
      assert b == [(x / 16 * 16 + x % 16) as byte] + b[1..];
    }
  }

  /** `HexDigest` undoes decoding: the digest form of a byte string is unique. */
  lemma {:induction false} HexDigestDecode(s: string)
    requires Decode(s).Some?
    ensures HexDigest(Decode(s).value) == s
  {
    if |s| >= 2 {
      var hi, lo := DigitValue(s[0]).value, DigitValue(s[1]).value;
      var rest := Decode(s[2..]).value;
      var x := hi * 16 + lo;
      assert Decode(s).value == [x as byte] + rest;
      assert x / 16 == hi && x % 16 == lo;
      HexDigestDecode(s[2..]);
      assert s == [s[0], s[1]] + s[2..];
    }
  }

  /** A digest that has a letter among its digits is changed by upper-casing. */
  lemma UpperChangesDigest(b: seq<byte>, i: int)
    requires 0 <= i < |HexDigest(b)| && 'a' <= HexDigest(b)[i] <= 'f'
    ensures Upper(HexDigest(b)) != HexDigest(b)
  {
    assert Upper(HexDigest(b))[i] != HexDigest(b)[i];
  }
}
