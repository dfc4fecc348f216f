/**
 * Standard base64 with padding (section 4 of RFC 4648), as Go's
 * `base64.StdEncoding` encodes and decodes it: the alphabet `A-Z a-z 0-9 + /`,
 * `=` padding to a multiple of four characters, carriage returns and line
 * feeds ignored on decode, and the unused low bits of a padded final group
 * not checked (the encoding is not in strict mode).
 */
module Base64 {
  import opened Wrappers
  import opened Bytes

  const Pad: char := '='

  predicate IsAlphabet(c: char)
  {
    'A' <= c <= 'Z' || 'a' <= c <= 'z' || '0' <= c <= '9' || c == '+' || c == '/'
  }

  predicate IsLineBreak(c: char)
  {
    c == '\r' || c == '\n'
  }

  /** The 6-bit value of an alphabet character. */
  function Sextet(c: char): (v: nat)
    requires IsAlphabet(c)
    ensures v < 64
  {
    if 'A' <= c <= 'Z' then c as int - 'A' as int
    else if 'a' <= c <= 'z' then c as int - 'a' as int + 26
    else if '0' <= c <= '9' then c as int - '0' as int + 52
    else if c == '+' then 62
    else 63
  }

  /** The alphabet character of a 6-bit value; the inverse of Sextet. */
  function Char(v: nat): (c: char)
    requires v < 64
    ensures IsAlphabet(c) && Sextet(c) == v
  {
    if v < 26 then ('A' as int + v) as char
    else if v < 52 then ('a' as int + (v - 26)) as char
    else if v < 62 then ('0' as int + (v - 52)) as char
    else if v == 62 then '+'
    else '/'
  }

  // The three bytes of a group, rebuilt from its four sextets.
  function Byte0(s0: nat, s1: nat): byte
    requires s0 < 64 && s1 < 64
  {
    (s0 * 4 + s1 / 16) as byte
  }

  function Byte1(s1: nat, s2: nat): byte
    requires s1 < 64 && s2 < 64
  {
    ((s1 % 16) * 16 + s2 / 4) as byte
  }

  function Byte2(s2: nat, s3: nat): byte
    requires s2 < 64 && s3 < 64
  {
    ((s2 % 4) * 64 + s3) as byte
  }

  // The four sextets of a group of three bytes (a missing byte counts as zero).
  function Sextet0(b0: byte): (v: nat) ensures v < 64 { b0 as int / 4 }
  function Sextet1(b0: byte, b1: byte): (v: nat) ensures v < 64 { (b0 as int % 4) * 16 + b1 as int / 16 }
  function Sextet2(b1: byte, b2: byte): (v: nat) ensures v < 64 { (b1 as int % 16) * 4 + b2 as int / 64 }
  function Sextet3(b2: byte): (v: nat) ensures v < 64 { b2 as int % 64 }

  /** Splitting bytes into sextets and joining them back gives the bytes again. */
  lemma GroupRoundTrip(b0: byte, b1: byte, b2: byte)
    ensures Byte0(Sextet0(b0), Sextet1(b0, b1)) == b0
    ensures Byte1(Sextet1(b0, b1), Sextet2(b1, b2)) == b1
    ensures Byte2(Sextet2(b1, b2), Sextet3(b2)) == b2
  {
  }

  lemma OneByteRoundTrip(b0: byte)
    ensures Byte0(Sextet0(b0), Sextet1(b0, 0)) == b0
  {
  }

  function EncodeGroup(b0: byte, b1: byte, b2: byte): (s: string)
    ensures |s| == 4 && forall i :: 0 <= i < 4 ==> IsAlphabet(s[i])
  {
    [Char(Sextet0(b0)), Char(Sextet1(b0, b1)), Char(Sextet2(b1, b2)), Char(Sextet3(b2))]
  }

  /** The final one or two bytes, padded to four characters; nothing for no bytes. */
  function EncodeTail(data: seq<byte>): (s: string)
    requires |data| < 3
    ensures |s| == if |data| == 0 then 0 else 4
  {
    if |data| == 0 then []
    else if |data| == 1 then
      [Char(Sextet0(data[0])), Char(Sextet1(data[0], 0)), Pad, Pad]
    else
      [Char(Sextet0(data[0])), Char(Sextet1(data[0], data[1])), Char(Sextet2(data[1], 0)), Pad]
  }

  /** `EncodeToString`: four characters per started group of three bytes. */
  function Encode(data: seq<byte>): (s: string)
    ensures |s| == 4 * ((|data| + 2) / 3)
    decreases |data|
  {
    if |data| < 3 then EncodeTail(data)
    else EncodeGroup(data[0], data[1], data[2]) + Encode(data[3..])
  }

  /** The input with every carriage return and line feed removed. */
  function StripLineBreaks(s: string): (t: string)
    ensures |t| <= |s|
    ensures forall i :: 0 <= i < |t| ==> !IsLineBreak(t[i])
    ensures (forall i :: 0 <= i < |s| ==> !IsLineBreak(s[i])) ==> t == s
  {
    if |s| == 0 then []
    else if IsLineBreak(s[0]) then StripLineBreaks(s[1..])
    else [s[0]] + StripLineBreaks(s[1..])
  }

  /** Decoding of a string free of line breaks, one group of four at a time. */
  function DecodeGroups(t: string): Option<seq<byte>>
    decreases |t|
  {
    if |t| == 0 then Some([])
    else if |t| < 4 || !IsAlphabet(t[0]) || !IsAlphabet(t[1]) then None
    else
      var s0, s1 := Sextet(t[0]), Sextet(t[1]);
      if t[2] == Pad then
        if t[3] == Pad && |t| == 4 then Some([Byte0(s0, s1)]) else None
      else if !IsAlphabet(t[2]) then None
      else
        var s2 := Sextet(t[2]);
        if t[3] == Pad then
          if |t| == 4 then Some([Byte0(s0, s1), Byte1(s1, s2)]) else None
        else if !IsAlphabet(t[3]) then None
        else
          var s3 := Sextet(t[3]);
          match DecodeGroups(t[4..])
          case None => None
          case Some(rest) => Some([Byte0(s0, s1), Byte1(s1, s2), Byte2(s2, s3)] + rest)
  }

  /** `DecodeString`: None where Go reports a `CorruptInputError`. */
  function Decode(s: string): (r: Option<seq<byte>>)
    ensures r.Some? <==> IsValid(s)
  {
    DecodeGroupsSucceeds(StripLineBreaks(s));
    DecodeGroups(StripLineBreaks(s))
  }

  /** The last two characters of a padded encoding: `xx`, `x=` or `==`. */
  predicate IsPaddedTail(x: char, y: char)
  {
    (IsAlphabet(x) || x == Pad) && (IsAlphabet(y) || y == Pad) && (x == Pad ==> y == Pad)
  }

  /**
   * Well-formed padded base64 without line breaks: a multiple of four
   * characters, all from the alphabet except that the last two may be padding.
   */
  predicate IsWellPadded(t: string)
  {
    |t| % 4 == 0 &&
    (forall i :: 0 <= i < |t| - 2 ==> IsAlphabet(t[i])) &&
    (|t| >= 4 ==> IsPaddedTail(t[|t| - 2], t[|t| - 1]))
  }

  /** What the decoder accepts, stated on its own. */
  predicate IsValid(s: string)
  {
    IsWellPadded(StripLineBreaks(s))
  }

  /** The decoder accepts exactly the well-padded strings. */
  lemma {:induction false} DecodeGroupsSucceeds(t: string)
    ensures DecodeGroups(t).Some? <==> IsWellPadded(t)
    decreases |t|
  {
    if |t| >= 8 {
      var u := t[4..];
      assert |u| >= 4 && |u| % 4 == |t| % 4;
      assert u[|u| - 2] == t[|t| - 2] && u[|u| - 1] == t[|t| - 1];
      DecodeGroupsSucceeds(u);
      if IsWellPadded(t) {
        assert IsAlphabet(t[0]) && IsAlphabet(t[1]) && IsAlphabet(t[2]) && IsAlphabet(t[3]);
        forall i | 0 <= i < |u| - 2 ensures IsAlphabet(u[i]) {
          assert u[i] == t[i + 4];
        }
        assert IsWellPadded(u);
      } else if DecodeGroups(t).Some? {
        assert IsAlphabet(t[0]) && IsAlphabet(t[1]) && IsAlphabet(t[2]) && IsAlphabet(t[3]);
        assert IsWellPadded(u);
        forall i | 0 <= i < |t| - 2 ensures IsAlphabet(t[i]) {
          if i >= 4 { assert t[i] == u[i - 4]; }
        }
        assert false;
      }
    }
  }

  /** Removing line breaks from a concatenation removes them from each part. */
  lemma {:induction false} StripConcat(a: string, b: string)
    ensures StripLineBreaks(a + b) == StripLineBreaks(a) + StripLineBreaks(b)
    decreases |a|
  {
    if |a| == 0 {
      assert a + b == b;
    } else {
      assert (a + b)[0] == a[0] && (a + b)[1..] == a[1..] + b;
      StripConcat(a[1..], b);
    }
  }

  /** The characters other than line breaks are kept, in order. */
  lemma {:induction false} StripKeeps(c: char, s: string)
    ensures StripLineBreaks([c] + s) == if IsLineBreak(c) then StripLineBreaks(s) else [c] + StripLineBreaks(s)
  {
    assert ([c] + s)[1..] == s;
  }

  /** A carriage return or line feed anywhere in the input does not change what it decodes to. */
  lemma DecodeIgnoresLineBreak(a: string, c: char, b: string)
    requires IsLineBreak(c)
    ensures Decode(a + [c] + b) == Decode(a + b)
  {
    StripConcat(a, [c] + b);
    StripKeeps(c, b);
    StripConcat(a, b);
    assert a + [c] + b == a + ([c] + b);
  }

  /** Decoding what was encoded gives the bytes back. */
  lemma {:induction false} DecodeEncode(data: seq<byte>)
    ensures Decode(Encode(data)) == Some(data)
  {
    EncodeHasNoLineBreaks(data);
    DecodeGroupsEncode(data);
  }

  lemma {:induction false} EncodeHasNoLineBreaks(data: seq<byte>)
    ensures forall i :: 0 <= i < |Encode(data)| ==> !IsLineBreak(Encode(data)[i])
    decreases |data|
  {
    if |data| >= 3 {
      EncodeHasNoLineBreaks(data[3..]);
      var g, rest := EncodeGroup(data[0], data[1], data[2]), Encode(data[3..]);
      assert Encode(data) == g + rest;
      forall i | 0 <= i < |g + rest| ensures !IsLineBreak((g + rest)[i]) {
        if i >= 4 { assert (g + rest)[i] == rest[i - 4]; }
      }
    }
  }

  lemma {:induction false} DecodeGroupsEncode(data: seq<byte>)
    ensures DecodeGroups(Encode(data)) == Some(data)
    decreases |data|
  {
    if |data| < 3 {
      DecodeGroupsEncodeShort(data);
    } else {
      var rest := data[3..];
      DecodeGroupsEncode(rest);
      DecodeGroupsEncodeStep(data[0], data[1], data[2], rest);
      assert data == [data[0], data[1], data[2]] + rest;
    }
  }

  lemma DecodeGroupsEncodeShort(data: seq<byte>)
    requires |data| < 3
    ensures DecodeGroups(Encode(data)) == Some(data)
  {
    if |data| == 1 {
      assert data == [data[0]];
      DecodeOne(data[0]);
    } else if |data| == 2 {
      assert data == [data[0], data[1]];
      DecodeTwo(data[0], data[1]);
    }
  }

  lemma DecodeGroupsEncodeStep(b0: byte, b1: byte, b2: byte, rest: seq<byte>)
    requires DecodeGroups(Encode(rest)) == Some(rest)
    ensures DecodeGroups(Encode([b0, b1, b2] + rest)) == Some([b0, b1, b2] + rest)
  {
    var data := [b0, b1, b2] + rest;
    assert data[0] == b0 && data[1] == b1 && data[2] == b2 && data[3..] == rest;
    EncodeSplits(data);
    DecodeGroupThen(b0, b1, b2, Encode(rest));
  }

  /** Encoding at least three bytes: the first group, then the rest. */
  lemma EncodeSplits(data: seq<byte>)
    requires |data| >= 3
    ensures Encode(data) == EncodeGroup(data[0], data[1], data[2]) + Encode(data[3..])
  {
  }

  lemma DecodeOne(b0: byte)
    ensures DecodeGroups(Encode([b0])) == Some([b0])
  {
    OneByteRoundTrip(b0);
    assert Encode([b0]) == EncodeTail([b0]) == [Char(Sextet0(b0)), Char(Sextet1(b0, 0)), Pad, Pad];
    DecodePaddedTwo(Char(Sextet0(b0)), Char(Sextet1(b0, 0)));
  }

  lemma DecodeTwo(b0: byte, b1: byte)
    ensures DecodeGroups(Encode([b0, b1])) == Some([b0, b1])
  {
    GroupRoundTrip(b0, b1, 0);
    assert Encode([b0, b1]) == EncodeTail([b0, b1]) == [Char(Sextet0(b0)), Char(Sextet1(b0, b1)), Char(Sextet2(b1, 0)), Pad];
    DecodePaddedOne(Char(Sextet0(b0)), Char(Sextet1(b0, b1)), Char(Sextet2(b1, 0)));
  }

  lemma DecodePaddedTwo(c0: char, c1: char)
    requires IsAlphabet(c0) && IsAlphabet(c1)
    ensures DecodeGroups([c0, c1, Pad, Pad]) == Some([Byte0(Sextet(c0), Sextet(c1))])
  {
  }

  lemma DecodePaddedOne(c0: char, c1: char, c2: char)
    requires IsAlphabet(c0) && IsAlphabet(c1) && IsAlphabet(c2)
    ensures DecodeGroups([c0, c1, c2, Pad]) ==
      Some([Byte0(Sextet(c0), Sextet(c1)), Byte1(Sextet(c1), Sextet(c2))])
  {
  }

  lemma DecodeGroupThen(b0: byte, b1: byte, b2: byte, rest: string)
    ensures DecodeGroups(EncodeGroup(b0, b1, b2) + rest) ==
      match DecodeGroups(rest)
      case None => None
      case Some(tail) => Some([b0, b1, b2] + tail)
  {
    GroupRoundTrip(b0, b1, b2);
    var t := EncodeGroup(b0, b1, b2) + rest;
    assert t[4..] == rest;
    assert t[0] == Char(Sextet0(b0)) && t[1] == Char(Sextet1(b0, b1));
    assert t[2] == Char(Sextet2(b1, b2)) && t[3] == Char(Sextet3(b2));
  }
}
