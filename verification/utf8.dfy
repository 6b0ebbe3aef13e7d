/** UTF-8 (RFC 3629): the text form of a byte sequence, as utf8.Valid and json.Marshal see it. */
module Utf8 {
  import opened Common

  /** Section 3 of RFC 3629: one character as one to four octets. */
  function EncodeChar(c: char): (b: bytes)
    ensures 1 <= |b| <= 4
  {
    var n := c as int;
    if n < 0x80 then [n]
    else if n < 0x800 then [0xC0 + n / 64, 0x80 + n % 64]
    else if n < 0x1_0000 then [0xE0 + n / 4096, 0x80 + n / 64 % 64, 0x80 + n % 64]
    else [0xF0 + n / 262144, 0x80 + n / 4096 % 64, 0x80 + n / 64 % 64, 0x80 + n % 64]
  }

  function Encode(s: string): bytes {
    if s == [] then [] else EncodeChar(s[0]) + Encode(s[1..])
  }

  predicate Tail(x: byte) {
    0x80 <= x <= 0xBF
  }

  datatype First = Bad | Got(c: char, width: nat)

  function Code2(x: int, y: int): int {
    (x - 0xC0) * 64 + (y - 0x80)
  }

  function Code3(x: int, y: int, z: int): int {
    (x - 0xE0) * 4096 + (y - 0x80) * 64 + (z - 0x80)
  }

  function Code4(x: int, y: int, z: int, w: int): int {
    (x - 0xF0) * 262144 + (y - 0x80) * 4096 + (z - 0x80) * 64 + (w - 0x80)
  }

  /** Section 4 of RFC 3629: the character that a byte sequence begins with, if any. */
  function DecodeFirst(b: bytes): (f: First)
    ensures f.Got? ==> 1 <= f.width <= |b|
  {
    if |b| >= 1 && b[0] < 0x80 then
      Got(b[0] as char, 1)
    else if |b| >= 2 && 0xC2 <= b[0] <= 0xDF && Tail(b[1]) then
      Got(Code2(b[0], b[1]) as char, 2)
    else if |b| >= 3 && 0xE0 <= b[0] <= 0xEF && Tail(b[1]) && Tail(b[2])
            && (b[0] == 0xE0 ==> 0xA0 <= b[1]) && (b[0] == 0xED ==> b[1] <= 0x9F) then
      Got(Code3(b[0], b[1], b[2]) as char, 3)
    else if |b| >= 4 && 0xF0 <= b[0] <= 0xF4 && Tail(b[1]) && Tail(b[2]) && Tail(b[3])
            && (b[0] == 0xF0 ==> 0x90 <= b[1]) && (b[0] == 0xF4 ==> b[1] <= 0x8F) then
      Got(Code4(b[0], b[1], b[2], b[3]) as char, 4)
    else
      Bad
  }

  /** The text that bytes stand for, or None when they are not UTF-8. */
  function Decode(b: bytes): Option<string> {
    if b == [] then Some("")
    else
      match DecodeFirst(b)
      case Bad => None
      case Got(c, width) =>
        match Decode(b[width..])
        case None => None
        case Some(rest) => Some([c] + rest)
  }

  /** utf8.Valid */
  predicate Valid(b: bytes) {
    Decode(b).Some?
  }

  lemma DecodeFirstOfEncoded(c: char, rest: bytes)
    ensures DecodeFirst(EncodeChar(c) + rest) == Got(c, |EncodeChar(c)|)
  {
    var n := c as int;
    var b := EncodeChar(c) + rest;
    assert forall i | 0 <= i < |EncodeChar(c)| :: b[i] == EncodeChar(c)[i];
    if n < 0x80 {
    } else if n < 0x800 {
      assert Code2(b[0], b[1]) == n;
    } else if n < 0x1_0000 {
      Split3(n);
      assert Code3(b[0], b[1], b[2]) == n;
    } else {
      Split4(n);
      assert Code4(b[0], b[1], b[2], b[3]) == n;
    }
  }

  lemma Split3(n: nat)
    ensures n == n / 4096 * 4096 + n / 64 % 64 * 64 + n % 64
  {
    assert n / 4096 == n / 64 / 64;
  }

  lemma Split4(n: nat)
    ensures n == n / 262144 * 262144 + n / 4096 % 64 * 4096 + n / 64 % 64 * 64 + n % 64
  {
    Split3(n);
    assert n / 262144 == n / 4096 / 64;
  }

  /** The six low bits of each part of a code survive putting the parts together. */
  lemma Join3(x: nat, y: nat, z: nat)
    requires y < 64 && z < 64
    ensures var n := x * 4096 + y * 64 + z; n / 4096 == x && n / 64 % 64 == y && n % 64 == z
  {
    var n := x * 4096 + y * 64 + z;
    assert n / 64 == x * 64 + y;
  }

  lemma Join4(x: nat, y: nat, z: nat, w: nat)
    requires y < 64 && z < 64 && w < 64
    ensures var n := x * 262144 + y * 4096 + z * 64 + w;
            n / 262144 == x && n / 4096 % 64 == y && n / 64 % 64 == z && n % 64 == w
  {
    var n := x * 262144 + y * 4096 + z * 64 + w;
    Join3(x * 64 + y, z, w);
    assert n / 262144 == n / 4096 / 64;
  }

  lemma EncodeOfTwo(x: byte, y: byte)
    requires 0xC2 <= x <= 0xDF && Tail(y)
    ensures EncodeChar(Code2(x, y) as char) == [x, y]
  {
  }

  lemma EncodeOfThree(x: byte, y: byte, z: byte)
    requires 0xE0 <= x <= 0xEF && Tail(y) && Tail(z) && (x == 0xE0 ==> 0xA0 <= y) && (x == 0xED ==> y <= 0x9F)
    ensures EncodeChar(Code3(x, y, z) as char) == [x, y, z]
  {
    Join3(x - 0xE0, y - 0x80, z - 0x80);
  }

  lemma EncodeOfFour(x: byte, y: byte, z: byte, w: byte)
    requires 0xF0 <= x <= 0xF4 && Tail(y) && Tail(z) && Tail(w)
    requires (x == 0xF0 ==> 0x90 <= y) && (x == 0xF4 ==> y <= 0x8F)
    ensures EncodeChar(Code4(x, y, z, w) as char) == [x, y, z, w]
  {
    Join4(x - 0xF0, y - 0x80, z - 0x80, w - 0x80);
  }

  lemma EncodeOfDecodedFirst(b: bytes)
    requires DecodeFirst(b).Got?
    ensures EncodeChar(DecodeFirst(b).c) == b[..DecodeFirst(b).width]
  {
    var f := DecodeFirst(b);
    if f.width == 2 {
      EncodeOfTwo(b[0], b[1]);
    } else if f.width == 3 {
      EncodeOfThree(b[0], b[1], b[2]);
    } else if f.width == 4 {
      EncodeOfFour(b[0], b[1], b[2], b[3]);
    }
  }

  /** Decoding undoes encoding. */
  lemma {:induction false} RoundTrip(s: string)
    ensures Decode(Encode(s)) == Some(s)
  {
    if s != [] {
      DecodeFirstOfEncoded(s[0], Encode(s[1..]));
      RoundTrip(s[1..]);
      assert Encode(s)[|EncodeChar(s[0])|..] == Encode(s[1..]);
      assert [s[0]] + s[1..] == s;
    }
  }

  lemma DecodeStep(b: bytes) returns (c: char, width: nat)
    requires Valid(b) && b != []
    ensures 1 <= width <= |b| && EncodeChar(c) == b[..width]
    ensures Valid(b[width..]) && Decode(b).value == [c] + Decode(b[width..]).value
  {
    c, width := DecodeFirst(b).c, DecodeFirst(b).width;
    EncodeOfDecodedFirst(b);
  }

  lemma EncodeStep(c: char, s: string, b: bytes, width: nat)
    requires width <= |b| && EncodeChar(c) == b[..width] && Encode(s) == b[width..]
    ensures Encode([c] + s) == b
  {
    assert ([c] + s)[1..] == s;
    assert b[..width] + b[width..] == b;
  }

  /** Encoding undoes decoding, so each valid byte sequence is the encoding of one text. */
  lemma {:induction false} DecodeThenEncode(b: bytes)
    requires Valid(b)
    ensures Encode(Decode(b).value) == b
  {
    if b != [] {
      var c, width := DecodeStep(b);
      DecodeThenEncode(b[width..]);
      EncodeStep(c, Decode(b[width..]).value, b, width);
    }
  }

  lemma {:induction false} EncodeConcat(s: string, t: string)
    ensures Encode(s + t) == Encode(s) + Encode(t)
  {
    if s == [] {
      assert s + t == t;
    } else {
      EncodeConcat(s[1..], t);
      assert (s + t)[0] == s[0] && (s + t)[1..] == s[1..] + t;
    }
  }

  lemma EncodePrefix(s: string, t: string)
    requires s <= t
    ensures Encode(s) <= Encode(t)
  {
    EncodeConcat(s, t[|s|..]);
    assert t == s + t[|s|..];
  }

  /** UTF-8 is a prefix code: bytes begin with the encoding of s only if their text begins with s. */
  lemma {:induction false} PrefixOfText(s: string, t: string)
    requires Encode(s) <= Encode(t)
    ensures s <= t
  {
    if s != "" {
      var rest := Encode(t)[|Encode(s)|..];
      assert Encode(t) == EncodeChar(s[0]) + (Encode(s[1..]) + rest);
      DecodeFirstOfEncoded(s[0], Encode(s[1..]) + rest);
      assert t != "";
      DecodeFirstOfEncoded(t[0], Encode(t[1..]));
      assert Encode(t)[|EncodeChar(s[0])|..] == Encode(t[1..]);
      PrefixOfText(s[1..], t[1..]);
    }
  }

  /** The examples of section 7 of RFC 3629: characters of each of the four lengths. */
  lemma StandardExamples()
    ensures EncodeChar('A') == [0x41] && EncodeChar('.') == [0x2E]
    ensures EncodeChar('\U{391}') == [0xCE, 0x91]
    ensures EncodeChar('\U{2262}') == [0xE2, 0x89, 0xA2]
    ensures EncodeChar('\U{D55C}') == [0xED, 0x95, 0x9C] && EncodeChar('\U{65E5}') == [0xE6, 0x97, 0xA5]
    ensures EncodeChar('\U{FEFF}') == [0xEF, 0xBB, 0xBF]
    ensures EncodeChar('\U{233B4}') == [0xF0, 0xA3, 0x8E, 0xB4]
  {
  }

  /** The length of a character's encoding (the table of section 3), its first octet, and the octets after that. */
  lemma OctetsOfChar(c: char)
    ensures var b := EncodeChar(c);
            && (|b| == 1 <==> c as int < 0x80) && (|b| <= 2 <==> c as int < 0x800)
                && (|b| <= 3 <==> c as int < 0x1_0000)
            && (|b| == 1 ==> b[0] < 0x80) && (|b| == 2 ==> 0xC2 <= b[0] < 0xE0)
            && (|b| == 3 ==> 0xE0 <= b[0] < 0xF0) && (|b| == 4 ==> 0xF0 <= b[0] < 0xF5)
            && forall i | 1 <= i < |b| :: Tail(b[i])
  {
  }

  /** Sections 1 and 4: overlong forms, surrogates and values beyond U+10FFFF are not UTF-8. */
  lemma InvalidExamples()
    ensures !Valid([0xC0, 0x80]) && !Valid([0xED, 0xA0, 0x8C]) && !Valid([0xF4, 0x90, 0x80, 0x80]) && !Valid([0xFF])
  {
  }
}
