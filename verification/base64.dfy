/** Section 4 of RFC 4648: base64 with the standard alphabet and padding (base64.StdEncoding). */
module Base64 {
  import opened Common

  /** The alphabet of Table 1. */
  function Letter(v: int): (c: char)
    requires 0 <= v < 64
    ensures Value(c) == Some(v)
  {
    if v < 26 then 'A' + v as char
    else if v < 52 then 'a' + (v - 26) as char
    else if v < 62 then '0' + (v - 52) as char
    else if v == 62 then '+'
    else '/'
  }

  function Value(c: char): (v: Option<int>)
    ensures v.Some? ==> 0 <= v.value < 64
  {
    if 'A' <= c <= 'Z' then Some(c as int - 'A' as int)
    else if 'a' <= c <= 'z' then Some(c as int - 'a' as int + 26)
    else if '0' <= c <= '9' then Some(c as int - '0' as int + 52)
    else if c == '+' then Some(62)
    else if c == '/' then Some(63)
    else None
  }

  /** Three octets become four letters; a last group of one or two octets is padded. */
  function Encode(b: bytes): string {
    if b == [] then ""
    else if |b| == 1 then [Letter(b[0] / 4), Letter(b[0] % 4 * 16), '=', '=']
    else if |b| == 2 then [Letter(b[0] / 4), Letter(b[0] % 4 * 16 + b[1] / 16), Letter(b[1] % 16 * 4), '=']
    else
      [Letter(b[0] / 4), Letter(b[0] % 4 * 16 + b[1] / 16), Letter(b[1] % 16 * 4 + b[2] / 64), Letter(b[2] % 64)]
      + Encode(b[3..])
  }

  /** Four letters as three octets; None when one of them is not a letter of the alphabet. */
  function ThreeOctets(a: char, b: char, c: char, d: char): (r: Option<bytes>)
    ensures r.Some? ==> |r.value| == 3
  {
    if Value(a).None? || Value(b).None? || Value(c).None? || Value(d).None? then None
    else
      var (p, q, r, t) := (Value(a).value, Value(b).value, Value(c).value, Value(d).value);
      Some([p * 4 + q / 16, q % 16 * 16 + r / 4, r % 4 * 64 + t])
  }

  /** A last group with padding, whose unused bits are zero. */
  function PaddedOctets(a: char, b: char, c: char, d: char): (r: Option<bytes>)
    ensures r.Some? ==> d == '='
  {
    if d != '=' || Value(a).None? || Value(b).None? then None
    else if c == '=' then
      if Value(b).value % 16 == 0 then Some([Value(a).value * 4 + Value(b).value / 16]) else None
    else if Value(c).None? || Value(c).value % 4 != 0 then None
    else Some([Value(a).value * 4 + Value(b).value / 16, Value(b).value % 16 * 16 + Value(c).value / 4])
  }

  /** Decoding; None for text that is not base64 in canonical form. */
  function Decode(s: string): Option<bytes> {
    if s == "" then Some([])
    else if |s| < 4 then None
    else
      match ThreeOctets(s[0], s[1], s[2], s[3])
      case None => if |s| == 4 then PaddedOctets(s[0], s[1], s[2], s[3]) else None
      case Some(octets) =>
        match Decode(s[4..])
        case None => None
        case Some(rest) => Some(octets + rest)
  }

  /** Six bits of one octet and two of the next are told apart again. */
  lemma Regroup(x: byte, y: byte, z: byte)
    ensures var q := x % 4 * 16 + y / 16; var r := y % 16 * 4 + z / 64;
            && x / 4 * 4 + q / 16 == x
            && q % 16 * 16 + r / 4 == y
            && r % 4 * 64 + z % 64 == z
  {
    var q := x % 4 * 16 + y / 16;
    var r := y % 16 * 4 + z / 64;
    assert q / 16 == x % 4 && q % 16 == y / 16;
    assert r / 4 == y % 16 && r % 4 == z / 64;
  }

  lemma DecodeGroup(a: char, b: char, c: char, d: char, rest: string)
    requires ThreeOctets(a, b, c, d).Some? && Decode(rest).Some?
    ensures Decode([a, b, c, d] + rest) == Some(ThreeOctets(a, b, c, d).value + Decode(rest).value)
  {
    assert ([a, b, c, d] + rest)[4..] == rest;
  }

  lemma LettersAreOctets(x: byte, y: byte, z: byte)
    ensures ThreeOctets(Letter(x / 4), Letter(x % 4 * 16 + y / 16), Letter(y % 16 * 4 + z / 64), Letter(z % 64))
            == Some([x, y, z])
  {
    Regroup(x, y, z);
  }

  lemma EncodeGroup(x: byte, y: byte, z: byte, b: bytes)
    ensures Encode([x, y, z] + b)
            == [Letter(x / 4), Letter(x % 4 * 16 + y / 16), Letter(y % 16 * 4 + z / 64), Letter(z % 64)] + Encode(b)
  {
    assert ([x, y, z] + b)[3..] == b;
  }

  lemma RoundTripFull(x: byte, y: byte, z: byte, b: bytes)
    requires Decode(Encode(b)) == Some(b)
    ensures Decode(Encode([x, y, z] + b)) == Some([x, y, z] + b)
  {
    EncodeGroup(x, y, z, b);
    LettersAreOctets(x, y, z);
    DecodeGroup(Letter(x / 4), Letter(x % 4 * 16 + y / 16), Letter(y % 16 * 4 + z / 64), Letter(z % 64), Encode(b));
  }

  lemma RoundTripOne(x: byte)
    ensures Decode(Encode([x])) == Some([x])
  {
    Regroup(x, 0, 0);
    assert Encode([x]) == [Letter(x / 4), Letter(x % 4 * 16), '=', '='];
  }

  lemma PaddedTwo(x: byte, y: byte)
    ensures PaddedOctets(Letter(x / 4), Letter(x % 4 * 16 + y / 16), Letter(y % 16 * 4), '=') == Some([x, y])
  {
    Regroup(x, y, 0);
  }

  lemma RoundTripTwo(x: byte, y: byte)
    ensures Decode(Encode([x, y])) == Some([x, y])
  {
    PaddedTwo(x, y);
    assert Encode([x, y]) == [Letter(x / 4), Letter(x % 4 * 16 + y / 16), Letter(y % 16 * 4), '='];
  }

  lemma ThreeAndRest(b: bytes)
    requires |b| > 2
    ensures b == [b[0], b[1], b[2]] + b[3..]
  {
  }

  lemma OneOrTwo(b: bytes)
    ensures |b| == 1 ==> b == [b[0]]
    ensures |b| == 2 ==> b == [b[0], b[1]]
  {
  }

  lemma {:induction false} RoundTrip(b: bytes)
    ensures Decode(Encode(b)) == Some(b)
  {
    if b == [] {
    } else if |b| == 1 {
      RoundTripOne(b[0]);
      OneOrTwo(b);
    } else if |b| == 2 {
      RoundTripTwo(b[0], b[1]);
      OneOrTwo(b);
    } else {
      RoundTrip(b[3..]);
      RoundTripFull(b[0], b[1], b[2], b[3..]);
      ThreeAndRest(b);
    }
  }

  lemma GroupOfThree(x: byte, y: byte, z: byte, p: int, q: int, r: int, t: int)
    requires 0 <= p < 64 && 0 <= q < 64 && 0 <= r < 64 && 0 <= t < 64
    requires x * 65536 + y * 256 + z == p * 262144 + q * 4096 + r * 64 + t
    ensures Encode([x, y, z]) == [Letter(p), Letter(q), Letter(r), Letter(t)]
  {
    assert [x, y, z][3..] == [] && Encode([]) == "";
    assert x / 4 == p && x % 4 * 16 + y / 16 == q && y % 16 * 4 + z / 64 == r && z % 64 == t;
  }

  lemma GroupOfTwo(x: byte, y: byte, p: int, q: int, r: int)
    requires 0 <= p < 64 && 0 <= q < 64 && 0 <= r < 64 && x * 1024 + y * 4 == p * 4096 + q * 64 + r
    ensures Encode([x, y]) == [Letter(p), Letter(q), Letter(r), '=']
  {
    assert x / 4 == p && x % 4 * 16 + y / 16 == q && y % 16 * 4 == r;
  }

  lemma GroupOfOne(x: byte, p: int, q: int)
    requires 0 <= p < 64 && 0 <= q < 64 && x * 16 == p * 64 + q
    ensures Encode([x]) == [Letter(p), Letter(q), '=', '=']
  {
    assert x / 4 == p && x % 4 * 16 == q;
  }

  /** The test vectors of section 10 of RFC 4648, and the last two letters of the alphabet. */
  lemma StandardExamples()
    ensures Encode([0x66]) == ['Z', 'g', '=', '='] && Encode([0x66, 0x6F]) == ['Z', 'm', '8', '=']
    ensures Encode([0x66, 0x6F, 0x6F]) == ['Z', 'm', '9', 'v'] && Encode([0x62, 0x61, 0x72]) == ['Y', 'm', 'F', 'y']
    ensures Encode([0xFB, 0xFF]) == ['+', '/', '8', '=']
  {
    GroupOfOne(0x66, 25, 32);
    GroupOfTwo(0x66, 0x6F, 25, 38, 60);
    GroupOfThree(0x66, 0x6F, 0x6F, 25, 38, 61, 47);
    GroupOfThree(0x62, 0x61, 0x72, 24, 38, 5, 50);
    GroupOfTwo(0xFB, 0xFF, 62, 63, 60);
  }

  /** Groups of three follow each other. */
  lemma GroupsFollow(b: bytes)
    requires |b| >= 3
    ensures Encode(b) == Encode(b[..3]) + Encode(b[3..])
  {
    ThreeAndRest(b);
    EncodeGroup(b[0], b[1], b[2], b[3..]);
    EncodeGroup(b[0], b[1], b[2], []);
    assert b[..3] == [b[0], b[1], b[2]] + [];
  }
}
