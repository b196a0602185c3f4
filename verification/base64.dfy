/**
 Base64 with the standard alphabet and `=` padding (section 4 of RFC 4648),
 the encoding `base64.b64encode` applies to downloaded images. `Decode` is
 the inverse used to state that encoding loses nothing.
 */
module Base64 {

  import opened Wrappers

  type Byte = x: int | 0 <= x < 256

  /** A six-bit group, the unit one output character carries. */
  type Sextet = x: int | 0 <= x < 64

  /** The Base64 alphabet (Table 1 of RFC 4648). */
  function SextetChar(s: Sextet): char {
    if s < 26 then ('A' as int + s) as char
    else if s < 52 then ('a' as int + (s - 26)) as char
    else if s < 62 then ('0' as int + (s - 52)) as char
    else if s == 62 then '+'
    else '/'
  }

  function CharSextet(c: char): Option<Sextet> {
    if 'A' <= c <= 'Z' then Some(c as int - 'A' as int)
    else if 'a' <= c <= 'z' then Some(c as int - 'a' as int + 26)
    else if '0' <= c <= '9' then Some(c as int - '0' as int + 52)
    else if c == '+' then Some(62)
    else if c == '/' then Some(63)
    else None
  }

  /** Reading an alphabet character back gives its value; the pad is not in the alphabet. */
  lemma SextetCharInverse(s: Sextet)
    ensures CharSextet(SextetChar(s)) == Some(s)
    ensures SextetChar(s) != '='
  {
  }

  /** Three bytes become four characters, high bits first. */
  function EncodeTriple(a: Byte, b: Byte, c: Byte): string {
    [SextetChar(a / 4), SextetChar((a % 4) * 16 + b / 16), SextetChar((b % 16) * 4 + c / 64), SextetChar(c % 64)]
  }

  /** A final pair of bytes: three characters and one pad. */
  function EncodePair(a: Byte, b: Byte): string {
    [SextetChar(a / 4), SextetChar((a % 4) * 16 + b / 16), SextetChar((b % 16) * 4), '=']
  }

  /** A final single byte: two characters and two pads. */
  function EncodeSingle(a: Byte): string {
    [SextetChar(a / 4), SextetChar((a % 4) * 16), '=', '=']
  }

  /** `base64.b64encode(data).decode("utf-8")`. */
  function Encode(data: seq<Byte>): (r: string)
    ensures |r| == 4 * ((|data| + 2) / 3)
    decreases |data|
  {
    if |data| == 0 then ""
    else if |data| == 1 then EncodeSingle(data[0])
    else if |data| == 2 then EncodePair(data[0], data[1])
    else EncodeTriple(data[0], data[1], data[2]) + Encode(data[3..])
  }

  /** The three bytes carried by four sextets (the last one or two may be padding, and unused). */
  function FirstByte(s0: Sextet, s1: Sextet): Byte {
    (s0 as int) * 4 + (s1 as int) / 16
  }

  function SecondByte(s1: Sextet, s2: Sextet): Byte {
    ((s1 as int) % 16) * 16 + (s2 as int) / 4
  }

  function ThirdByte(s2: Sextet, s3: Sextet): Byte {
    ((s2 as int) % 4) * 64 + s3 as int
  }

  /** One group of four characters; `last` says whether padding may end it. */
  function DecodeQuad(q: string, last: bool): Option<seq<Byte>>
    requires |q| == 4
  {
    match (CharSextet(q[0]), CharSextet(q[1]), CharSextet(q[2]), CharSextet(q[3]))
    case (Some(s0), Some(s1), Some(s2), Some(s3)) =>
      Some([FirstByte(s0, s1), SecondByte(s1, s2), ThirdByte(s2, s3)])
    case (Some(s0), Some(s1), Some(s2), None) =>
      if last && q[3] == '=' then Some([FirstByte(s0, s1), SecondByte(s1, s2)]) else None
    case (Some(s0), Some(s1), None, None) =>
      if last && q[2] == '=' && q[3] == '=' then Some([FirstByte(s0, s1)]) else None
    case _ => None
  }

  function Decode(text: string): Option<seq<Byte>>
    decreases |text|
  {
    if |text| == 0 then Some([])
    else if |text| < 4 then None
    else
      match DecodeQuad(text[..4], |text| == 4)
      case None => None
      case Some(head) =>
        match Decode(text[4..])
        case None => None
        case Some(tail) => Some(head + tail)
  }

  /** The first byte comes back from its high six bits and, in the next sextet, its low two. */
  lemma FirstByteOf(a: Byte, lo: int)
    requires 0 <= lo < 16
    ensures (a % 4) * 16 + lo < 64
    ensures FirstByte(a / 4, (a % 4) * 16 + lo) == a
  {
    assert ((a % 4) * 16 + lo) / 16 == a % 4;
  }

  /** The second byte is split four bits and four bits across two sextets. */
  lemma SecondByteOf(hi: int, b: Byte, lo: int)
    requires 0 <= hi < 4 && 0 <= lo < 4
    ensures hi * 16 + b / 16 < 64 && (b % 16) * 4 + lo < 64
    ensures SecondByte(hi * 16 + b / 16, (b % 16) * 4 + lo) == b
  {
    assert (hi * 16 + b / 16) % 16 == b / 16;
    assert ((b % 16) * 4 + lo) / 4 == b % 16;
  }

  /** The third byte is its two high bits and its low six bits. */
  lemma ThirdByteOf(hi: int, c: Byte)
    requires 0 <= hi < 16
    ensures hi * 4 + c / 64 < 64
    ensures ThirdByte(hi * 4 + c / 64, c % 64) == c
  {
    assert (hi * 4 + c / 64) % 4 == c / 64;
  }

  lemma TripleRoundTrip(a: Byte, b: Byte, c: Byte, last: bool)
    ensures DecodeQuad(EncodeTriple(a, b, c), last) == Some([a, b, c])
  {
    FirstByteOf(a, b / 16);
    SecondByteOf(a % 4, b, c / 64);
    ThirdByteOf(b % 16, c);
    SextetCharInverse(a / 4);
    SextetCharInverse((a % 4) * 16 + b / 16);
    SextetCharInverse((b % 16) * 4 + c / 64);
    SextetCharInverse(c % 64);
  }

  lemma PairRoundTrip(a: Byte, b: Byte)
    ensures DecodeQuad(EncodePair(a, b), true) == Some([a, b])
  {
    FirstByteOf(a, b / 16);
    SecondByteOf(a % 4, b, 0);
    SextetCharInverse(a / 4);
    SextetCharInverse((a % 4) * 16 + b / 16);
    SextetCharInverse((b % 16) * 4);
  }

  lemma SingleRoundTrip(a: Byte)
    ensures DecodeQuad(EncodeSingle(a), true) == Some([a])
  {
    FirstByteOf(a, 0);
    SextetCharInverse(a / 4);
    SextetCharInverse((a % 4) * 16);
  }

  /** `Decode` reads the first quad and then the rest independently. */
  lemma DecodeStep(q: string, rest: string, head: seq<Byte>, tail: seq<Byte>)
    requires |q| == 4
    requires DecodeQuad(q, |rest| == 0) == Some(head)
    requires Decode(rest) == Some(tail)
    ensures Decode(q + rest) == Some(head + tail)
  {
    var text := q + rest;
    assert text[..4] == q;
    assert text[4..] == rest;
  }

  lemma EncodeOneByte(data: seq<Byte>)
    requires |data| == 1
    ensures Decode(Encode(data)) == Some(data)
  {
    SingleRoundTrip(data[0]);
    DecodeStep(EncodeSingle(data[0]), "", [data[0]], []);
    assert EncodeSingle(data[0]) + "" == Encode(data);
    assert [data[0]] + [] == data;
  }

  lemma EncodeTwoBytes(data: seq<Byte>)
    requires |data| == 2
    ensures Decode(Encode(data)) == Some(data)
  {
    PairRoundTrip(data[0], data[1]);
    DecodeStep(EncodePair(data[0], data[1]), "", [data[0], data[1]], []);
    assert EncodePair(data[0], data[1]) + "" == Encode(data);
    assert [data[0], data[1]] + [] == data;
  }

  /** Decoding the encoding gives back exactly the bytes that were encoded. */
  lemma {:induction false} RoundTrip(data: seq<Byte>)
    ensures Decode(Encode(data)) == Some(data)
    decreases |data|
  {
    if |data| == 1 {
      EncodeOneByte(data);
    } else if |data| == 2 {
      EncodeTwoBytes(data);
    } else if |data| >= 3 {
      var rest := data[3..];
      var tail := Encode(rest);
      TripleRoundTrip(data[0], data[1], data[2], |tail| == 0);
      RoundTrip(rest);
      DecodeStep(EncodeTriple(data[0], data[1], data[2]), tail, [data[0], data[1], data[2]], rest);
      assert [data[0], data[1], data[2]] + rest == data;
    }
  }
}
