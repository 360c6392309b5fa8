/** Base64 as `base64.b64encode` writes it: the alphabet of section 4 of
    RFC 4648, `=` padding, one line with no line breaks. */
module Base64 {
  import opened Python

  /** The character for a six-bit group. */
  function Char(i: int): char
    requires 0 <= i < 64
  {
    if i < 26 then ('A' as int + i) as char
    else if i < 52 then ('a' as int + (i - 26)) as char
    else if i < 62 then ('0' as int + (i - 52)) as char
    else if i == 62 then '+'
    else '/'
  }

  /** The six-bit group a character stands for, if it is in the alphabet. */
  function Index(c: char): (r: Option<int>)
    ensures r.Some? ==> 0 <= r.value < 64
  {
    if 'A' <= c <= 'Z' then Some(c as int - 'A' as int)
    else if 'a' <= c <= 'z' then Some(c as int - 'a' as int + 26)
    else if '0' <= c <= '9' then Some(c as int - '0' as int + 52)
    else if c == '+' then Some(62)
    else if c == '/' then Some(63)
    else None
  }

  /** `base64.b64encode(b).decode()`: each three bytes become four characters;
      a final one or two bytes are zero-filled and padded with `=`. */
  function Encode(b: seq<byte>): string
    decreases |b|
  {
    if |b| == 0 then []
    else if |b| == 1 then
      var x := b[0] as int;
      [Char(x / 4), Char(x % 4 * 16), '=', '=']
    else if |b| == 2 then
      var x, y := b[0] as int, b[1] as int;
      [Char(x / 4), Char(x % 4 * 16 + y / 16), Char(y % 16 * 4), '=']
    else Group(b[0] as int, b[1] as int, b[2] as int) + Encode(b[3..])
  }

  /** The four characters for three whole bytes. */
  function Group(x: int, y: int, z: int): string
    requires 0 <= x < 256 && 0 <= y < 256 && 0 <= z < 256
  {
    [Char(x / 4), Char(x % 4 * 16 + y / 16), Char(y % 16 * 4 + z / 64), Char(z % 64)]
  }

  /** The bytes of one group of four characters. Padding is accepted only in
      the final group (`last`), and the bits it leaves over must be zero. */
  function DecodeGroup(c0: char, c1: char, c2: char, c3: char, last: bool): Option<seq<byte>>
  {
    var i0, i1, i2, i3 := Index(c0), Index(c1), Index(c2), Index(c3);
    if i0.None? || i1.None? then None
    else
      var a, b := i0.value, i1.value;
      if last && c2 == '=' && c3 == '=' then
        if b % 16 == 0 then Some([(a * 4 + b / 16) as byte]) else None
      else if i2.None? then None
      else
        var c := i2.value;
        if last && c3 == '=' then
          if c % 4 == 0 then Some([(a * 4 + b / 16) as byte, (b % 16 * 16 + c / 4) as byte]) else None
        else if i3.None? then None
        else
          Some([(a * 4 + b / 16) as byte, (b % 16 * 16 + c / 4) as byte, (c % 4 * 64 + i3.value) as byte])
  }

  /** Strict decoding of canonical padded base64, the inverse of `Encode`:
      `None` on a character outside the alphabet, misplaced padding, a length
      that is not a multiple of four, or non-zero bits under the padding. */
  function Decode(s: string): Option<seq<byte>>
    decreases |s|
  {
    if |s| == 0 then Some([])
    else if |s| < 4 then None
    else
      match DecodeGroup(s[0], s[1], s[2], s[3], |s| == 4)
      case None => None
      case Some(group) =>
        match Decode(s[4..])
        case None => None
        case Some(rest) => Some(group + rest)
  }

  lemma IndexOfChar(i: int)
    requires 0 <= i < 64
    ensures Index(Char(i)) == Some(i)
  {
  }

  /** Four characters per started group of three bytes. */
  lemma {:induction false} EncodeLength(b: seq<byte>)
    ensures |Encode(b)| == 4 * ((|b| + 2) / 3)
  {
    if |b| >= 3 {
      EncodeLength(b[3..]);
      assert Encode(b) == Group(b[0] as int, b[1] as int, b[2] as int) + Encode(b[3..]);
      assert (|b| + 2) / 3 == (|b[3..]| + 2) / 3 + 1;
    }
  }

  /** The length of the encoding is four characters per started group of
      three bytes, and every character is in the alphabet or is `=`; in
      particular the encoding is ASCII and holds no line break. */
  lemma {:induction false} EncodeShape(b: seq<byte>)
    ensures |Encode(b)| == 4 * ((|b| + 2) / 3)
    ensures forall i :: 0 <= i < |Encode(b)| ==> Index(Encode(b)[i]).Some? || Encode(b)[i] == '='
    ensures IsAscii(Encode(b))
  {
    EncodeLength(b);
    if |b| >= 3 {
      var g, t := Group(b[0] as int, b[1] as int, b[2] as int), Encode(b[3..]);
      EncodeShape(b[3..]);
      assert Encode(b) == g + t;
      assert forall i :: 0 <= i < |g| ==> Index(g[i]).Some? && g[i] as int < 0x80;
      forall i | 0 <= i < |g + t|
        ensures Index((g + t)[i]).Some? || (g + t)[i] == '='
        ensures (g + t)[i] as int < 0x80
      {
        if i >= |g| {
          assert (g + t)[i] == t[i - |g|];
        }
      }
    }
  }

  /** The six-bit groups of three bytes put back together give those bytes. */
  lemma Regroup(x: int, y: int, z: int)
    requires 0 <= x < 256 && 0 <= y < 256 && 0 <= z < 256
    ensures var a, b, c, d := x / 4, x % 4 * 16 + y / 16, y % 16 * 4 + z / 64, z % 64;
      a * 4 + b / 16 == x && b % 16 * 16 + c / 4 == y && c % 4 * 64 + d == z
  {
  }

  lemma DecodeGroupOne(x: int)
    requires 0 <= x < 256
    ensures DecodeGroup(Char(x / 4), Char(x % 4 * 16), '=', '=', true) == Some([x as byte])
  {
    IndexOfChar(x / 4);
    IndexOfChar(x % 4 * 16);
  }

  lemma DecodeGroupTwo(x: int, y: int)
    requires 0 <= x < 256 && 0 <= y < 256
    ensures DecodeGroup(Char(x / 4), Char(x % 4 * 16 + y / 16), Char(y % 16 * 4), '=', true)
         == Some([x as byte, y as byte])
  {
    IndexOfChar(x / 4);
    IndexOfChar(x % 4 * 16 + y / 16);
    IndexOfChar(y % 16 * 4);
    Regroup(x, y, 0);
  }

  lemma DecodeGroupThree(x: byte, y: byte, z: byte, last: bool)
    ensures var g := Group(x as int, y as int, z as int);
      DecodeGroup(g[0], g[1], g[2], g[3], last) == Some([x, y, z])
  {
    var a, b, c := x as int, y as int, z as int;
    IndexOfChar(a / 4);
    IndexOfChar(a % 4 * 16 + b / 16);
    IndexOfChar(b % 16 * 4 + c / 64);
    IndexOfChar(c % 64);
    Regroup(a, b, c);
  }

  lemma DecodeEncodeOne(b: seq<byte>)
    requires |b| == 1
    ensures Decode(Encode(b)) == Some(b)
  {
    var x := b[0] as int;
    var s := [Char(x / 4), Char(x % 4 * 16), '=', '='];
    assert Encode(b) == s;
    DecodeGroupOne(x);
    assert Decode(s[4..]) == Some([]);
    assert b == [x as byte] + [];
  }

  lemma DecodeEncodeTwo(b: seq<byte>)
    requires |b| == 2
    ensures Decode(Encode(b)) == Some(b)
  {
    var x, y := b[0] as int, b[1] as int;
    var s := [Char(x / 4), Char(x % 4 * 16 + y / 16), Char(y % 16 * 4), '='];
    assert Encode(b) == s;
    DecodeGroupTwo(x, y);
    assert Decode(s[4..]) == Some([]);
    assert b == [x as byte, y as byte] + [];
  }

  /** A string that starts with a group of four characters decodes to that
      group's bytes followed by whatever the rest decodes to. */
  lemma DecodeAfterGroup(group: string, tail: string, bytes: seq<byte>)
    requires |group| == 4
    requires DecodeGroup(group[0], group[1], group[2], group[3], |tail| == 0) == Some(bytes)
    ensures Decode(group + tail) == match Decode(tail)
      case None => None
      case Some(rest) => Some(bytes + rest)
  {
    var s := group + tail;
    assert s[0] == group[0] && s[1] == group[1] && s[2] == group[2] && s[3] == group[3];
    assert s[4..] == tail;
  }

  lemma FirstThree(b: seq<byte>)
    requires |b| >= 3
    ensures b[..3] == [b[0], b[1], b[2]]
  {
  }

  /** A leading full group decodes to its three bytes, followed by whatever
      the rest of the encoding decodes to. */
  lemma DecodeEncodeStep(b: seq<byte>)
    requires |b| >= 3
    ensures Decode(Encode(b)) == match Decode(Encode(b[3..]))
      case None => None
      case Some(rest) => Some(b[..3] + rest)
  {
    var group := Group(b[0] as int, b[1] as int, b[2] as int);
    var tail := Encode(b[3..]);
    assert Encode(b) == group + tail;
    DecodeGroupThree(b[0], b[1], b[2], |tail| == 0);
    FirstThree(b);
    DecodeAfterGroup(group, tail, b[..3]);
  }

  /** Decoding undoes encoding, for every byte string. */
  lemma {:induction false} DecodeEncode(b: seq<byte>)
    ensures Decode(Encode(b)) == Some(b)
  {
    if |b| == 1 {
      DecodeEncodeOne(b);
    } else if |b| == 2 {
      DecodeEncodeTwo(b);
    } else if |b| >= 3 {
      DecodeEncodeStep(b);
      DecodeEncode(b[3..]);
      assert b == b[..3] + b[3..];
    }
  }
}
