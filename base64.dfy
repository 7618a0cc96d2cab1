/**
 * The base64 codec of section 4 of RFC 4648 (alphabet `A-Z a-z 0-9 + /`, `=` padding),
 * standing in for Python's `base64.b64encode` and `base64.b64decode`.
 */
module Base64 {
  import opened Wrappers

  type byte = x: int | 0 <= x < 256
  type sextet = x: int | 0 <= x < 64

  const PAD: char := '='

  /** The alphabet character for a 6-bit value. */
  function Char(i: sextet): (c: char)
    ensures Index(c) == Some(i)
    ensures c != PAD && c as int < 128
  {
    if i < 26 then ('A' as int + i) as char
    else if i < 52 then ('a' as int + (i - 26)) as char
    else if i < 62 then ('0' as int + (i - 52)) as char
    else if i == 62 then '+'
    else '/'
  }

  /** The 6-bit value of an alphabet character; None for every other character, `=` included. */
  function Index(c: char): Option<sextet>
  {
    if 'A' <= c <= 'Z' then Some(c as int - 'A' as int)
    else if 'a' <= c <= 'z' then Some(c as int - 'a' as int + 26)
    else if '0' <= c <= '9' then Some(c as int - '0' as int + 52)
    else if c == '+' then Some(62)
    else if c == '/' then Some(63)
    else None
  }

  /** A character that can appear in encoded text. */
  predicate IsEncodedChar(c: char)
  {
    Index(c).Some? || c == PAD
  }

  /** Encodes three bytes at a time; a final group of one or two bytes is padded with `=`. */
  function Encode(b: seq<byte>): (s: string)
    ensures |s| == (|b| + 2) / 3 * 4
    ensures forall k | 0 <= k < |s| :: IsEncodedChar(s[k]) && s[k] as int < 128
    decreases |b|
  {
    if |b| == 0 then ""
    else if |b| == 1 then
      [Char(b[0] / 4), Char(b[0] % 4 * 16), PAD, PAD]
    else if |b| == 2 then
      [Char(b[0] / 4), Char(b[0] % 4 * 16 + b[1] / 16), Char(b[1] % 16 * 4), PAD]
    else EncodeGroup(b[0], b[1], b[2]) + Encode(b[3..])
  }

  /** Three bytes, 24 bits, as four characters of six bits each. */
  function EncodeGroup(x: byte, y: byte, z: byte): (s: string)
    ensures |s| == 4 && forall k | 0 <= k < 4 :: Index(s[k]).Some? && s[k] as int < 128
  {
    [Char(x / 4), Char(x % 4 * 16 + y / 16), Char(y % 16 * 4 + z / 64), Char(z % 64)]
  }

  /**
   * Decodes one group of four characters. Padding is accepted only in the final group
   * (`last`): `xx==` gives one byte, `xxx=` two. Bits left over by padding are ignored.
   */
  function DecodeGroup(c0: char, c1: char, c2: char, c3: char, last: bool): (r: Option<seq<byte>>)
    ensures r.Some? ==> 1 <= |r.value| <= 3
    ensures !last && r.Some? ==> |r.value| == 3
  {
    var i0, i1, i2, i3 := Index(c0), Index(c1), Index(c2), Index(c3);
    if i0.None? || i1.None? then None
    else
      var b0 := i0.value * 4 + i1.value / 16;
      if last && c2 == PAD && c3 == PAD then Some([b0])
      else if i2.None? then None
      else
        var b1 := i1.value % 16 * 16 + i2.value / 4;
        if last && c3 == PAD then Some([b0, b1])
        else if i3.None? then None
        else Some([b0, b1, i2.value % 4 * 64 + i3.value])
  }

  /** Decodes padded base64 text; None for text of a length that is not a multiple of four or with a character out of place. */
  function Decode(s: string): (r: Option<seq<byte>>)
    ensures r.Some? ==> |s| % 4 == 0
    decreases |s|
  {
    if |s| == 0 then Some([])
    else if |s| < 4 then None
    else
      var g := DecodeGroup(s[0], s[1], s[2], s[3], |s| == 4);
      if g.None? then None
      else if |s| == 4 then g
      else
        var rest := Decode(s[4..]);
        if rest.None? then None else Some(g.value + rest.value)
  }

  /** Decoding what was encoded gives back exactly the original bytes. */
  lemma {:induction false} DecodeEncode(b: seq<byte>)
    ensures Decode(Encode(b)) == Some(b)
    decreases |b|, 1
  {
    if |b| == 1 {
      GroupOfOne(b[0]);
      assert b == [b[0]];
    } else if |b| == 2 {
      GroupOfTwo(b[0], b[1]);
      assert b == [b[0], b[1]];
    } else if |b| >= 3 {
      DecodeEncodeGroups(b);
    }
  }

  lemma {:induction false} DecodeEncodeGroups(b: seq<byte>)
    requires |b| >= 3
    ensures Decode(Encode(b)) == Some(b)
    decreases |b|, 0
  {
    var x, y, z := b[0], b[1], b[2];
    var g := EncodeGroup(x, y, z);
    var rest := Encode(b[3..]);
    assert Encode(b) == g + rest;
    GroupOfThree(x, y, z, |b| == 3);
    if |b| == 3 {
      assert rest == [];
      assert b == [x, y, z];
      assert g + rest == g;
    } else {
      DecodeEncode(b[3..]);
      DecodeFirstGroup(g, rest);
      assert b == [x, y, z] + b[3..];
    }
  }

  /** Decoding text of more than one group decodes the first group and then the rest. */
  lemma DecodeFirstGroup(g: string, rest: string)
    requires |g| == 4 && |rest| > 0
    ensures Decode(g + rest) ==
      var h := DecodeGroup(g[0], g[1], g[2], g[3], false);
      if h.None? || Decode(rest).None? then None else Some(h.value + Decode(rest).value)
  {
    var s := g + rest;
    assert s[0] == g[0] && s[1] == g[1] && s[2] == g[2] && s[3] == g[3];
    assert s[4..] == rest;
  }

  lemma GroupOfOne(x: byte)
    ensures DecodeGroup(Char(x / 4), Char(x % 4 * 16), PAD, PAD, true) == Some([x])
  {
    assert x / 4 * 4 + (x % 4 * 16) / 16 == x;
  }

  lemma GroupOfTwo(x: byte, y: byte)
    ensures DecodeGroup(Char(x / 4), Char(x % 4 * 16 + y / 16), Char(y % 16 * 4), PAD, true) == Some([x, y])
  {
    assert x / 4 * 4 + (x % 4 * 16 + y / 16) / 16 == x;
    assert (x % 4 * 16 + y / 16) % 16 * 16 + (y % 16 * 4) / 4 == y;
  }

  lemma GroupOfThree(x: byte, y: byte, z: byte, last: bool)
    ensures var g := EncodeGroup(x, y, z); DecodeGroup(g[0], g[1], g[2], g[3], last) == Some([x, y, z])
  {
    assert x / 4 * 4 + (x % 4 * 16 + y / 16) / 16 == x;
    assert (x % 4 * 16 + y / 16) % 16 * 16 + (y % 16 * 4 + z / 64) / 4 == y;
    assert (y % 16 * 4 + z / 64) % 4 * 64 + z % 64 == z;
  }
}
