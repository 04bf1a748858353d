/** Base 64 encoding as defined in section 4 of RFC 4648, as used by
    `Convert.ToBase64String` and `Convert.FromBase64String`. */
module Base64 {
  import opened Wrappers

  /** The value of one base 64 digit. */
  type Sextet = x: int | 0 <= x < 64

  /** The base 64 alphabet (Table 1 of RFC 4648): A-Z, a-z, 0-9, '+', '/'. */
  function Digit(d: Sextet): (c: char)
  {
    if d < 26 then ('A' as int + d) as char
    else if d < 52 then ('a' as int + (d - 26)) as char
    else if d < 62 then ('0' as int + (d - 52)) as char
    else if d == 62 then '+'
    else '/'
  }

  /** Each digit of the alphabet has its own value, and none is the pad character. */
  lemma ValueOfDigit(d: Sextet)
    ensures ValueOf(Digit(d)) == Some(d) && Digit(d) != '='
  {
  }

  /** The value of a character of the alphabet, or None for any other character
      (including the pad character '='). */
  function ValueOf(c: char): (r: Option<Sextet>)
    ensures c == '=' ==> r.None?
  {
    if 'A' <= c <= 'Z' then Some(c as int - 'A' as int)
    else if 'a' <= c <= 'z' then Some(c as int - 'a' as int + 26)
    else if '0' <= c <= '9' then Some(c as int - '0' as int + 52)
    else if c == '+' then Some(62)
    else if c == '/' then Some(63)
    else None
  }

  /** The four digits of a full 24-bit input group. */
  function EncodeQuantum(b0: byte, b1: byte, b2: byte): (s: string)
    ensures |s| == 4
  {
    [Digit(b0 / 4), Digit(b0 % 4 * 16 + b1 / 16), Digit(b1 % 16 * 4 + b2 / 64), Digit(b2 % 64)]
  }

  /** Encodes bytes three at a time; a final group of one or two bytes is padded
      with '=' (section 4 of RFC 4648, cases (2) and (3)). */
  function Encode(bytes: seq<byte>): (s: string)
    ensures |s| % 4 == 0
    ensures |s| == 0 <==> |bytes| == 0
    decreases |bytes|
  {
    if |bytes| == 0 then ""
    else if |bytes| == 1 then
      [Digit(bytes[0] / 4), Digit(bytes[0] % 4 * 16), '=', '=']
    else if |bytes| == 2 then
      [Digit(bytes[0] / 4), Digit(bytes[0] % 4 * 16 + bytes[1] / 16), Digit(bytes[1] % 16 * 4), '=']
    else
      EncodeQuantum(bytes[0], bytes[1], bytes[2]) + Encode(bytes[3..])
  }

  /** The first byte of a group: all six bits of the first digit and the top two of the second. */
  function High(x0: Sextet, x1: Sextet): byte { x0 * 4 + x1 / 16 }

  /** The second byte of a group: the low four bits of the second digit and the top four of the third. */
  function Middle(x1: Sextet, x2: Sextet): byte { x1 % 16 * 16 + x2 / 4 }

  /** The third byte of a group: the low two bits of the third digit and all six of the fourth. */
  function Low(x2: Sextet, x3: Sextet): byte { x2 % 4 * 64 + x3 }

  /** Decodes four alphabet characters into three bytes. */
  function DecodeQuantum(c0: char, c1: char, c2: char, c3: char): (r: Option<seq<byte>>)
    ensures r.Some? ==> |r.value| == 3
  {
    match (ValueOf(c0), ValueOf(c1), ValueOf(c2), ValueOf(c3))
    case (Some(x0), Some(x1), Some(x2), Some(x3)) =>
      Some([High(x0, x1), Middle(x1, x2), Low(x2, x3)])
    case _ => None
  }

  /** Decodes the last four characters, where "xx==" gives one byte and "xxx=" two.
      The unused low bits of the last digit are ignored. */
  function DecodeFinalQuantum(c0: char, c1: char, c2: char, c3: char): (r: Option<seq<byte>>)
    ensures r.Some? ==> 1 <= |r.value| <= 3
  {
    if c2 == '=' && c3 == '=' then
      match (ValueOf(c0), ValueOf(c1))
      case (Some(x0), Some(x1)) => Some([High(x0, x1)])
      case _ => None
    else if c3 == '=' then
      match (ValueOf(c0), ValueOf(c1), ValueOf(c2))
      case (Some(x0), Some(x1), Some(x2)) => Some([High(x0, x1), Middle(x1, x2)])
      case _ => None
    else
      DecodeQuantum(c0, c1, c2, c3)
  }

  function DecodeQuanta(s: string): (r: Option<seq<byte>>)
    requires |s| % 4 == 0
    decreases |s|
  {
    if |s| == 0 then Some([])
    else if |s| == 4 then DecodeFinalQuantum(s[0], s[1], s[2], s[3])
    else
      match DecodeQuantum(s[0], s[1], s[2], s[3])
      case None => None
      case Some(head) =>
        match DecodeQuanta(s[4..])
        case None => None
        case Some(tail) => Some(head + tail)
  }

  /** `Convert.FromBase64String` on input without white space: None stands for the
      `FormatException` thrown on a length that is not a multiple of four, on a
      character outside the alphabet, or on padding anywhere but at the end. */
  function Decode(s: string): (r: Option<seq<byte>>)
    ensures r.Some? ==> |s| % 4 == 0
    ensures s == "" ==> r == Some([])
  {
    if |s| % 4 != 0 then None else DecodeQuanta(s)
  }

  /** Decoding an encoding gives back the bytes. */
  lemma {:induction false} DecodeEncode(bytes: seq<byte>)
    ensures Decode(Encode(bytes)) == Some(bytes)
    decreases |bytes|
  {
    if |bytes| == 0 {
    } else if |bytes| < 3 {
      DecodeEncodeShort(bytes);
    } else {
      var b0, b1, b2 := bytes[0], bytes[1], bytes[2];
      var q := EncodeQuantum(b0, b1, b2);
      DecodeEncodeQuantum(b0, b1, b2);
      DecodeEncode(bytes[3..]);
      DecodeQuantaConcat(q, Encode(bytes[3..]));
      assert bytes == [b0, b1, b2] + bytes[3..];
    }
  }

  lemma DecodeEncodeShort(bytes: seq<byte>)
    requires 1 <= |bytes| < 3
    ensures Decode(Encode(bytes)) == Some(bytes)
  {
    if |bytes| == 1 {
      DecodeEncodeOne(bytes[0]);
      assert bytes == [bytes[0]];
    } else {
      DecodeEncodeTwo(bytes[0], bytes[1]);
      assert bytes == [bytes[0], bytes[1]];
    }
  }

  lemma DecodeEncodeOne(b0: byte)
    ensures Decode(Encode([b0])) == Some([b0])
  {
    var x0: Sextet, x1: Sextet := b0 / 4, b0 % 4 * 16;
    var s := Encode([b0]);
    assert s == [Digit(x0), Digit(x1), '=', '='];
    ValueOfDigit(x0);
    ValueOfDigit(x1);
    assert High(x0, x1) == b0;
    assert DecodeFinalQuantum(s[0], s[1], s[2], s[3]) == Some([b0]);
  }

  lemma DecodeEncodeTwo(b0: byte, b1: byte)
    ensures Decode(Encode([b0, b1])) == Some([b0, b1])
  {
    var x0: Sextet, x1: Sextet, x2: Sextet := b0 / 4, b0 % 4 * 16 + b1 / 16, b1 % 16 * 4;
    var s := Encode([b0, b1]);
    assert s == [Digit(x0), Digit(x1), Digit(x2), '='];
    ValueOfDigit(x0);
    ValueOfDigit(x1);
    ValueOfDigit(x2);
    DivModSplit(b0 % 4, b1 / 16, 16);
    assert High(x0, x1) == b0;
    assert Middle(x1, x2) == b1;
    assert DecodeFinalQuantum(s[0], s[1], s[2], s[3]) == Some([b0, b1]);
  }

  lemma DecodeEncodeQuantum(b0: byte, b1: byte, b2: byte)
    ensures var q := EncodeQuantum(b0, b1, b2);
      && DecodeQuantum(q[0], q[1], q[2], q[3]) == Some([b0, b1, b2])
      && DecodeFinalQuantum(q[0], q[1], q[2], q[3]) == Some([b0, b1, b2])
  {
    DigitsRecoverBytes(b0, b1, b2);
  }

  /** A leading group that decodes on its own is decoded in front of the rest. */
  lemma DecodeQuantaConcat(q: string, rest: string)
    requires |q| == 4 && |rest| % 4 == 0
    requires DecodeQuantum(q[0], q[1], q[2], q[3]).Some?
    requires DecodeFinalQuantum(q[0], q[1], q[2], q[3]) == DecodeQuantum(q[0], q[1], q[2], q[3])
    requires DecodeQuanta(rest).Some?
    ensures DecodeQuanta(q + rest)
         == Some(DecodeQuantum(q[0], q[1], q[2], q[3]).value + DecodeQuanta(rest).value)
  {
    var s := q + rest;
    assert s[0] == q[0] && s[1] == q[1] && s[2] == q[2] && s[3] == q[3];
    var head := DecodeQuantum(q[0], q[1], q[2], q[3]).value;
    if |rest| == 0 {
      assert s == q;
      assert head + DecodeQuanta(rest).value == head;
    } else {
      assert s[4..] == rest;
    }
  }

  /** The digits of a group give back the bytes they were made from. */
  lemma DigitsRecoverBytes(b0: byte, b1: byte, b2: byte)
    ensures ValueOf(Digit(b0 / 4)) == Some(b0 / 4)
    ensures ValueOf(Digit(b0 % 4 * 16 + b1 / 16)) == Some(b0 % 4 * 16 + b1 / 16)
    ensures ValueOf(Digit(b1 % 16 * 4 + b2 / 64)) == Some(b1 % 16 * 4 + b2 / 64)
    ensures ValueOf(Digit(b2 % 64)) == Some(b2 % 64)
    ensures High(b0 / 4, b0 % 4 * 16 + b1 / 16) == b0
    ensures Middle(b0 % 4 * 16 + b1 / 16, b1 % 16 * 4 + b2 / 64) == b1
    ensures Low(b1 % 16 * 4 + b2 / 64, b2 % 64) == b2
  {
    ValueOfDigit(b0 / 4);
    ValueOfDigit(b0 % 4 * 16 + b1 / 16);
    ValueOfDigit(b1 % 16 * 4 + b2 / 64);
    ValueOfDigit(b2 % 64);
    DivModSplit(b0 % 4, b1 / 16, 16);
    DivModSplit(b1 % 16, b2 / 64, 4);
  }

  lemma DivModSplit(a: int, r: int, n: int)
    requires 0 <= r < n && (n == 4 || n == 16)
    ensures (a * n + r) / n == a && (a * n + r) % n == r
  {
  }
}
