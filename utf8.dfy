/** UTF-8 as defined in section 3 of RFC 3629, as used by `Encoding.UTF8.GetBytes`
    on a string of Unicode scalar values. */
module Utf8 {
  import opened Wrappers

  /** A continuation byte, 10xxxxxx. */
  predicate IsContinuation(b: byte)
  {
    0x80 <= b < 0xC0
  }

  /** The one to four bytes that encode one scalar value (the table in section 3
      of RFC 3629): the value's bits are spread over a lead byte and 10xxxxxx
      continuation bytes, six bits in each. */
  function EncodeScalar(c: char): (bs: seq<byte>)
    ensures 1 <= |bs| <= 4
    ensures (|bs| == 1) == (c as int < 0x80)
    ensures forall k | 1 <= k < |bs| :: IsContinuation(bs[k])
  {
    var v := c as int;
    if v < 0x80 then [v]
    else if v < 0x800 then [0xC0 + v / 64, 0x80 + v % 64]
    else if v < 0x10000 then [0xE0 + v / 64 / 64, 0x80 + v / 64 % 64, 0x80 + v % 64]
    else [0xF0 + v / 64 / 64 / 64, 0x80 + v / 64 / 64 % 64, 0x80 + v / 64 % 64, 0x80 + v % 64]
  }

  /** The encoding of a string: the encodings of its characters, in order. */
  function Encode(s: string): (bs: seq<byte>)
    ensures |bs| >= |s|
  {
    if |s| == 0 then [] else EncodeScalar(s[0]) + Encode(s[1..])
  }

  /** A decoded value, accepted only when it is a scalar value (not a surrogate,
      at most U+10FFFF) written in the shortest form, i.e. at least `min`. */
  function Scalar(v: int, min: int, n: nat): (r: Option<(char, nat)>)
    ensures r.Some? ==> r.value.1 == n && r.value.0 as int == v
  {
    if 0 <= min <= v < 0x11_0000 && !(0xD800 <= v < 0xE000) then Some((v as char, n)) else None
  }

  /** The payload bits of a byte whose marker bits are `marker`. */
  function Bits(b: byte, marker: int): int
  {
    b as int - marker
  }

  /** Decodes the first character of a non-empty byte sequence, giving the
      character and the number of bytes it took; None for an ill-formed sequence. */
  function DecodeScalar(bs: seq<byte>): (r: Option<(char, nat)>)
    requires |bs| > 0
    ensures r.Some? ==> 1 <= r.value.1 <= |bs| && r.value.1 <= 4
  {
    var b0 := bs[0];
    if b0 < 0x80 then Some((b0 as char, 1))
    else if 0xC0 <= b0 < 0xE0 then
      if |bs| < 2 || !IsContinuation(bs[1]) then None
      else Scalar(Bits(b0, 0xC0) * 64 + Bits(bs[1], 0x80), 0x80, 2)
    else if 0xE0 <= b0 < 0xF0 then
      if |bs| < 3 || !IsContinuation(bs[1]) || !IsContinuation(bs[2]) then None
      else Scalar((Bits(b0, 0xE0) * 64 + Bits(bs[1], 0x80)) * 64 + Bits(bs[2], 0x80), 0x800, 3)
    else if 0xF0 <= b0 < 0xF8 then
      if |bs| < 4 || !IsContinuation(bs[1]) || !IsContinuation(bs[2]) || !IsContinuation(bs[3]) then None
      else Scalar(((Bits(b0, 0xF0) * 64 + Bits(bs[1], 0x80)) * 64 + Bits(bs[2], 0x80)) * 64 + Bits(bs[3], 0x80), 0x1_0000, 4)
    else None
  }

  /** Strict decoding: None when the bytes are not well-formed UTF-8. */
  function Decode(bs: seq<byte>): (r: Option<string>)
    ensures r.Some? ==> |r.value| <= |bs|
    decreases |bs|
  {
    if |bs| == 0 then Some("")
    else
      match DecodeScalar(bs)
      case None => None
      case Some((c, n)) =>
        match Decode(bs[n..])
        case None => None
        case Some(rest) => Some([c] + rest)
  }

  /** Decoding a string's encoding gives the string back; in particular, two
      strings with equal encodings are equal. */
  lemma {:induction false} DecodeEncode(s: string)
    ensures Decode(Encode(s)) == Some(s)
  {
    if |s| > 0 {
      var head := EncodeScalar(s[0]);
      var bs := Encode(s);
      assert bs == head + Encode(s[1..]);
      DecodeEncodeScalar(s[0], Encode(s[1..]));
      assert bs[|head|..] == Encode(s[1..]);
      DecodeEncode(s[1..]);
      assert [s[0]] + s[1..] == s;
    }
  }

  /** The first character of an encoding is decoded from exactly its own bytes. */
  lemma DecodeEncodeScalar(c: char, rest: seq<byte>)
    ensures DecodeScalar(EncodeScalar(c) + rest) == Some((c, |EncodeScalar(c)|))
  {
    var v := c as int;
    var bs := EncodeScalar(c) + rest;
    if v < 0x80 {
    } else if v < 0x800 {
      Digits64(v);
      assert Bits(bs[0], 0xC0) == v / 64 && Bits(bs[1], 0x80) == v % 64;
    } else if v < 0x1_0000 {
      Digits64(v);
      Digits64(v / 64);
      assert Bits(bs[0], 0xE0) == v / 64 / 64;
      assert Bits(bs[0], 0xE0) * 64 + Bits(bs[1], 0x80) == v / 64;
    } else {
      Digits64(v);
      Digits64(v / 64);
      Digits64(v / 64 / 64);
      assert Bits(bs[0], 0xF0) == v / 64 / 64 / 64;
      assert Bits(bs[0], 0xF0) * 64 + Bits(bs[1], 0x80) == v / 64 / 64;
      assert (Bits(bs[0], 0xF0) * 64 + Bits(bs[1], 0x80)) * 64 + Bits(bs[2], 0x80) == v / 64;
    }
  }

  lemma Digits64(v: nat)
    ensures v / 64 * 64 + v % 64 == v
  {
  }

  /** An empty string encodes to no bytes, and ASCII characters to one byte each. */
  lemma EncodeAscii(s: string)
    requires forall k | 0 <= k < |s| :: s[k] as int < 0x80
    ensures |Encode(s)| == |s|
    ensures forall k | 0 <= k < |s| :: Encode(s)[k] == s[k] as int
  {
    if |s| > 0 {
      EncodeAscii(s[1..]);
    }
  }
}
