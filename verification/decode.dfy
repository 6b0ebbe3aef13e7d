/** DecodeBody: undoing a list of content codings, each of them an abstract pair of encoder and decoder. */
module Decode {
  import opened Common

  // ----- Readers -----

  /** How a reader ends: with EOF, with an error after its last byte, or with an error along with its last bytes. */
  datatype End = CleanEnd | ErrAfter | ErrWith

  /** What reading an io.Reader to its end gives. */
  datatype Stream = Stream(data: bytes, end: End)

  /** io.LimitReader */
  function LimitTo(r: Stream, n: int): Stream {
    if n <= 0 then Stream([], CleanEnd)
    else if |r.data| > n then Stream(r.data[..n], CleanEnd)
    else if |r.data| == n && r.end != ErrWith then Stream(r.data, CleanEnd)
    else r
  }

  /** limitReader; maxSize + 1 is an int64 addition. */
  function LimitReader(r: Stream, maxSize: int64): Stream {
    if maxSize <= 0 then r else LimitTo(r, WrapI64(maxSize + 1))
  }

  // ----- Codings -----

  /**
   * The readers of the three packages. gunzip and unzlib give None when NewReader reports an error; flate.NewReader
   * reports none.
   */
  datatype Decoders = Decoders(gunzip: Stream -> Option<Stream>, unzlib: Stream -> Option<Stream>,
                               inflate: Stream -> Stream)

  datatype Coding = Identity | Gzip | Deflate | Unknown

  /** strings.ToLower as far as it can produce letters of ASCII; two letters outside ASCII have such a lower case. */
  function Lower(c: char): char {
    if 'A' <= c <= 'Z' then (c as int + 32) as char
    else if c == '\U{130}' then 'i'
    else if c == '\U{212A}' then 'k'
    else c
  }

  function ToLower(s: string): (r: string)
    ensures |r| == |s|
  {
    if s == "" then "" else [Lower(s[0])] + ToLower(s[1..])
  }

  /** unicode.IsSpace */
  predicate Space(c: char) {
    || '\t' <= c <= '\r' || c == ' ' || c == '\U{85}' || c == '\U{A0}' || c == '\U{1680}'
    || '\U{2000}' <= c <= '\U{200A}' || c == '\U{2028}' || c == '\U{2029}' || c == '\U{202F}'
    || c == '\U{205F}' || c == '\U{3000}'
  }

  /** strings.TrimSpace */
  function Trim(s: string): string
    decreases |s|
  {
    if s == "" then ""
    else if Space(s[0]) then Trim(s[1..])
    else if Space(s[|s| - 1]) then Trim(s[..|s| - 1])
    else s
  }

  function CodingOf(item: string): Coding {
    var name := Trim(ToLower(item));
    if name == "identity" || name == "" then Identity
    else if name == "gzip" then Gzip
    else if name == "deflate" then Deflate
    else Unknown
  }

  /** strings.SplitSeq(s, ",") */
  function SplitCommas(s: string): (items: seq<string>)
    ensures items != []
  {
    if s == "" then [""]
    else
      var items := SplitCommas(s[1..]);
      if s[0] == ',' then [""] + items else [[s[0]] + items[0]] + items[1..]
  }

  function Codings(items: seq<string>): (cs: seq<Coding>)
    ensures |cs| == |items|
  {
    seq(|items|, i requires 0 <= i < |items| => CodingOf(items[i]))
  }

  /** A zlib stream begins with two bytes that are a multiple of 31 when read as one number. */
  predicate ZlibHeader(b: bytes) {
    |b| >= 2 && (b[0] as int * 256 + b[1] as int) % 31 == 0
  }

  /** Undoing one coding; None is an error from NewReader. */
  function Undo(ds: Decoders, c: Coding, r: Stream): Option<Stream> {
    match c
    case Identity => Some(r)
    case Gzip => ds.gunzip(r)
    case Deflate => if ZlibHeader(r.data) then ds.unzlib(r) else Some(ds.inflate(r))
    case Unknown => Some(r)
  }

  /** The readers put on top of each other, in the order of the list, up to the first unknown coding. */
  function Layers(ds: Decoders, cs: seq<Coding>, r: Stream): Option<Stream> {
    if cs == [] || cs[0] == Unknown then Some(r)
    else
      match Undo(ds, cs[0], r)
      case None => None
      case Some(r') => Layers(ds, cs[1..], r')
  }

  /** What DecodeBody writes to dst, and whether it returns nil. */
  function Decoded(ds: Decoders, cs: seq<Coding>, src: bytes, maxSize: int64): (r: (bytes, bool)) {
    match Layers(ds, cs, Stream(src, CleanEnd))
    case None => ([], false)
    case Some(top) => var r := LimitReader(top, maxSize); (r.data, r.end == CleanEnd)
  }

  method DecodeBody(ds: Decoders, contentEncoding: string, src: bytes, maxSize: int64) returns (dst: bytes, ok: bool)
    ensures (dst, ok) == Decoded(ds, Codings(SplitCommas(contentEncoding)), src, maxSize)
  {
    var r := Stream(src, CleanEnd);
    var items := SplitCommas(contentEncoding);
    ghost var cs := Codings(items);
    var i := 0;
    while i < |items|
      invariant 0 <= i <= |items|
      invariant Layers(ds, cs, Stream(src, CleanEnd)) == Layers(ds, cs[i..], r)
      decreases |items| - i
    {
      var enc := CodingOf(items[i]);
      assert cs[i..][0] == enc && cs[i..][1..] == cs[i + 1..];
      match enc {
        case Identity =>
        case Gzip =>
          var gr := ds.gunzip(r);
          if gr.None? {
            return [], false;
          }
          r := gr.value;
        case Deflate =>
          if ZlibHeader(r.data) {
            var zr := ds.unzlib(r);
            if zr.None? {
              return [], false;
            }
            r := zr.value;
          } else {
            r := ds.inflate(r);
          }
        case Unknown => break;
      }
      i := i + 1;
    }
    var limited := LimitReader(r, maxSize);
    return limited.data, limited.end == CleanEnd;
  }

  // ----- Encoding -----

  /**
   * What servers do. A deflate encoder makes a zlib stream, as section 8.4.1.2 of RFC 9110 says, or raw DEFLATE, as
   * some do, from body to body.
   */
  datatype Encoders = Encoders(gzip: bytes -> bytes, deflate: bytes -> bytes)

  /** The package for the format undoes it, and the format can be told from the header (section 2.2 of RFC 1950). */
  predicate DeflateUndone(ds: Decoders, coded: bytes, b: bytes) {
    || (ZlibHeader(coded) && ds.unzlib(Stream(coded, CleanEnd)) == Some(Stream(b, CleanEnd)))
    || (!ZlibHeader(coded) && ds.inflate(Stream(coded, CleanEnd)) == Stream(b, CleanEnd))
  }

  /** Each decoder undoes its encoder. */
  ghost predicate Lawful(ds: Decoders, es: Encoders) {
    && (forall b: bytes :: ds.gunzip(Stream(es.gzip(b), CleanEnd)) == Some(Stream(b, CleanEnd)))
    && (forall b: bytes :: DeflateUndone(ds, es.deflate(b), b))
  }

  function Do(es: Encoders, c: Coding, b: bytes): bytes {
    match c
    case Gzip => es.gzip(b)
    case Deflate => es.deflate(b)
    case _ => b
  }

  /** A list of codings applied from its last to its first. */
  function AppliedBackwards(es: Encoders, cs: seq<Coding>, b: bytes): bytes {
    if cs == [] then b else Do(es, cs[0], AppliedBackwards(es, cs[1..], b))
  }

  /** Section 8.4 of RFC 9110: Content-Encoding lists the codings in the order in which they were applied. */
  function Applied(es: Encoders, cs: seq<Coding>, b: bytes): bytes {
    if cs == [] then b else Do(es, cs[|cs| - 1], Applied(es, cs[..|cs| - 1], b))
  }

  predicate AllKnown(cs: seq<Coding>) {
    Unknown !in cs
  }

  /** The loop undoes what was applied from last to first; it stops at a coding it does not know. */
  lemma {:induction false} UndoesBackwards(ds: Decoders, es: Encoders, cs: seq<Coding>, b: bytes, more: seq<Coding>)
    requires Lawful(ds, es) && AllKnown(cs)
    ensures Layers(ds, cs + more, Stream(AppliedBackwards(es, cs, b), CleanEnd))
            == Layers(ds, more, Stream(b, CleanEnd))
  {
    if cs == [] {
      assert cs + more == more;
    } else {
      UndoesBackwards(ds, es, cs[1..], b, more);
      if cs[0] == Deflate {
        assert DeflateUndone(ds, es.deflate(AppliedBackwards(es, cs[1..], b)), AppliedBackwards(es, cs[1..], b));
      }
      assert (cs + more)[0] == cs[0] && (cs + more)[1..] == cs[1..] + more;
    }
  }

  /** The codings that do something. */
  function Effective(cs: seq<Coding>): seq<Coding> {
    if cs == [] then []
    else if cs[0] == Identity then Effective(cs[1..])
    else [cs[0]] + Effective(cs[1..])
  }

  function Reversed<T>(s: seq<T>): (r: seq<T>)
    ensures |r| == |s|
  {
    if s == [] then [] else Reversed(s[1..]) + [s[0]]
  }

  lemma {:induction false} AppliedIsReversed(es: Encoders, cs: seq<Coding>, b: bytes)
    ensures Applied(es, cs, b) == AppliedBackwards(es, Reversed(cs), b)
  {
    if cs != [] {
      var n := |cs| - 1;
      AppliedIsReversed(es, cs[..n], b);
      ReversedLast(cs);
    }
  }

  lemma {:induction false} ReversedLast<T>(s: seq<T>)
    requires s != []
    ensures Reversed(s) == [s[|s| - 1]] + Reversed(s[..|s| - 1])
  {
    if |s| > 1 {
      ReversedLast(s[1..]);
      assert s[1..][..|s| - 2] == s[..|s| - 1][1..];
    } else {
      assert s[1..] == [] && s[..0] == [];
    }
  }

  lemma {:induction false} EffectiveSuffices(es: Encoders, cs: seq<Coding>, b: bytes)
    ensures AppliedBackwards(es, Effective(cs), b) == AppliedBackwards(es, cs, b)
  {
    if cs != [] {
      EffectiveSuffices(es, cs[1..], b);
      if cs[0] != Identity {
        assert Effective(cs)[1..] == Effective(cs[1..]);
      }
    }
  }

  lemma {:induction false} EffectiveAppend(cs: seq<Coding>, c: Coding)
    ensures Effective(cs + [c]) == Effective(cs) + if c == Identity then [] else [c]
  {
    if cs == [] {
      assert cs + [c] == [c] && [c][1..] == [];
    } else {
      EffectiveAppend(cs[1..], c);
      assert (cs + [c])[0] == cs[0] && (cs + [c])[1..] == cs[1..] + [c];
    }
  }

  lemma {:induction false} EffectiveReversed(cs: seq<Coding>)
    ensures Effective(Reversed(cs)) == Reversed(Effective(cs))
  {
    if cs != [] {
      EffectiveReversed(cs[1..]);
      EffectiveAppend(Reversed(cs[1..]), cs[0]);
      if cs[0] != Identity {
        assert Effective(cs)[1..] == Effective(cs[1..]);
      }
    }
  }

  // ----- When the loop agrees with the RFC -----

  /** Undoing the list gives back the body, whatever the packages do, as long as decoders undo encoders. */
  ghost predicate UndoesApplied(cs: seq<Coding>) {
    forall ds: Decoders, es: Encoders, b: bytes | Lawful(ds, es) ::
      Decoded(ds, cs, Applied(es, cs, b), 0) == (b, true)
  }

  /** Encoders that put a mark in front, and decoders that insist on it. */
  function MarkEncoders(): Encoders {
    Encoders(b => [1] + b, b => [0x78, 0x9C] + b)
  }

  function MarkDecoders(): Decoders {
    Decoders(
      (r: Stream) => if [1] <= r.data then Some(Stream(r.data[1..], r.end)) else None,
      (r: Stream) => if [0x78, 0x9C] <= r.data then Some(Stream(r.data[2..], r.end)) else None,
      (r: Stream) => Stream([], ErrAfter))
  }

  lemma MarksAreLawful()
    ensures Lawful(MarkDecoders(), MarkEncoders())
  {
    var ds, es := MarkDecoders(), MarkEncoders();
    forall b: bytes
      ensures ds.gunzip(Stream(es.gzip(b), CleanEnd)) == Some(Stream(b, CleanEnd))
      ensures DeflateUndone(ds, es.deflate(b), b)
    {
      assert ([1] + b)[1..] == b;
      assert ([0x78, 0x9C] + b)[2..] == b;
    }
  }

  /** With marks the loop ends well only on what was encoded from last to first. */
  lemma {:induction false} MarksTell(cs: seq<Coding>, r: Stream, b: bytes)
    requires AllKnown(cs)
    requires Layers(MarkDecoders(), cs, r) == Some(Stream(b, CleanEnd))
    ensures r == Stream(AppliedBackwards(MarkEncoders(), cs, b), CleanEnd)
  {
    if cs != [] {
      var next := Undo(MarkDecoders(), cs[0], r).value;
      MarksTell(cs[1..], next, b);
      match cs[0] {
        case Gzip => assert r.data == [1] + r.data[1..];
        case Deflate =>
          if ZlibHeader(r.data) {
            assert r.data == [0x78, 0x9C] + r.data[2..];
          }
        case _ =>
      }
    }
  }

  /** Marks can be read off one by one, so different lists leave different marks. */
  lemma {:induction false} MarksDiffer(cs: seq<Coding>, ds: seq<Coding>)
    requires AllKnown(cs) && AllKnown(ds) && Identity !in cs && Identity !in ds
    requires AppliedBackwards(MarkEncoders(), cs, []) == AppliedBackwards(MarkEncoders(), ds, [])
    ensures cs == ds
  {
    var x := AppliedBackwards(MarkEncoders(), cs, []);
    if cs != [] && ds != [] {
      var y, z := AppliedBackwards(MarkEncoders(), cs[1..], []), AppliedBackwards(MarkEncoders(), ds[1..], []);
      assert x[0] == (if cs[0] == Gzip then 1 else 0x78);
      assert cs[0] == ds[0];
      assert y == x[if cs[0] == Gzip then 1 else 2..] == z;
      MarksDiffer(cs[1..], ds[1..]);
    }
  }

  lemma {:induction false} EffectiveKnown(cs: seq<Coding>)
    requires AllKnown(cs)
    ensures AllKnown(Effective(cs)) && Identity !in Effective(cs)
  {
    if cs != [] {
      EffectiveKnown(cs[1..]);
    }
  }

  lemma ReversedKnown<T>(s: seq<T>, x: T)
    ensures x in Reversed(s) <==> x in s
  {
    if s != [] {
      ReversedKnown(s[1..], x);
      assert s == [s[0]] + s[1..];
    }
  }

  /** A list that reads the same in both directions is undone. */
  lemma PalindromeUndone(ds: Decoders, es: Encoders, cs: seq<Coding>, b: bytes)
    requires Lawful(ds, es) && AllKnown(cs) && Effective(cs) == Reversed(Effective(cs))
    ensures Layers(ds, cs, Stream(Applied(es, cs, b), CleanEnd)) == Some(Stream(b, CleanEnd))
  {
    EffectiveReversed(cs);
    AppliedIsReversed(es, cs, b);
    EffectiveSuffices(es, cs, b);
    EffectiveSuffices(es, Reversed(cs), b);
    UndoesBackwards(ds, es, cs, b, []);
    assert cs + [] == cs;
  }

  /**
   * The list is undone from first to last although it was applied from first to last. That gives back the body
   * exactly for the lists that read the same in both directions, identity not counted.
   */
  lemma UndoesAppliedIff(cs: seq<Coding>)
    requires AllKnown(cs)
    ensures UndoesApplied(cs) <==> Effective(cs) == Reversed(Effective(cs))
  {
    EffectiveReversed(cs);
    if Effective(cs) == Reversed(Effective(cs)) {
      forall ds: Decoders, es: Encoders, b: bytes | Lawful(ds, es)
        ensures Decoded(ds, cs, Applied(es, cs, b), 0) == (b, true)
      {
        PalindromeUndone(ds, es, cs, b);
      }
    }
    if UndoesApplied(cs) {
      var es := MarkEncoders();
      MarksAreLawful();
      var x := Applied(es, cs, []);
      assert Decoded(MarkDecoders(), cs, x, 0) == ([], true);
      MarksTell(cs, Stream(x, CleanEnd), []);
      AppliedIsReversed(es, cs, []);
      EffectiveSuffices(es, cs, []);
      EffectiveSuffices(es, Reversed(cs), []);
      EffectiveKnown(cs);
      ReversedKnown(Effective(cs), Unknown);
      ReversedKnown(Effective(cs), Identity);
      MarksDiffer(Effective(cs), Reversed(Effective(cs)));
    }
  }

  lemma {:induction false} CommaSplits(a: string, b: string)
    requires ',' !in a
    ensures SplitCommas(a + "," + b) == [a] + SplitCommas(b)
  {
    var s := a + "," + b;
    if a == "" {
      assert s[1..] == b;
    } else {
      CommaSplits(a[1..], b);
      assert s[0] == a[0] && s[1..] == a[1..] + "," + b;
      assert [a[0]] + a[1..] == a;
    }
  }

  lemma {:induction false} NoCommaNoSplit(a: string)
    requires ',' !in a
    ensures SplitCommas(a) == [a]
  {
    if a != "" {
      NoCommaNoSplit(a[1..]);
      assert [a[0]] + a[1..] == a;
    }
  }

  lemma {:induction false} LowerStays(s: string)
    requires forall i | 0 <= i < |s| :: Lower(s[i]) == s[i]
    ensures ToLower(s) == s
  {
    if s != "" {
      LowerStays(s[1..]);
    }
  }

  lemma TrimDeflate()
    ensures Trim(" deflate") == "deflate"
  {
    var s := " deflate";
    assert s[1..] == "deflate" && Space(s[0]);
    assert Trim(s) == Trim(s[1..]);
  }

  lemma CodingOfGzip()
    ensures CodingOf("gzip") == Gzip
  {
    LowerStays("gzip");
    assert Trim("gzip") == "gzip";
  }

  lemma CodingOfDeflate()
    ensures CodingOf(" deflate") == Deflate
  {
    LowerStays(" deflate");
    TrimDeflate();
  }

  lemma SplitOfTwo(header: string, first: string, second: string)
    requires header == first + "," + second && ',' !in first && ',' !in second
    ensures SplitCommas(header) == [first, second]
  {
    CommaSplits(first, second);
    NoCommaNoSplit(second);
  }

  lemma HeaderOfTwo() returns (header: string, first: string, second: string)
    ensures first == "gzip" && second == " deflate" && header == "gzip, deflate"
    ensures header == first + "," + second && ',' !in first && ',' !in second
  {
    header, first, second := "gzip, deflate", "gzip", " deflate";
  }

  lemma TwoDiffer()
    ensures Effective([Gzip, Deflate]) != Reversed(Effective([Gzip, Deflate]))
  {
    var cs := [Gzip, Deflate];
    assert cs[1..] == [Deflate] && [Deflate][1..] == [];
    assert Effective([Deflate]) == [Deflate] && Effective(cs) == cs;
    assert Reversed([Deflate]) == [Deflate] && Reversed(cs)[0] == Deflate;
  }

  lemma NotUndone()
    ensures !UndoesApplied([Gzip, Deflate])
  {
    TwoDiffer();
    UndoesAppliedIff([Gzip, Deflate]);
  }

  lemma CodingsOfTwo(items: seq<string>)
    requires items == ["gzip", " deflate"]
    ensures Codings(items) == [Gzip, Deflate]
  {
    CodingOfGzip();
    CodingOfDeflate();
  }

  /** An instance: a header as in the RFC, with two codings, is not undone. */
  lemma MixedListIsNotUndone(header: string)
    requires header == "gzip, deflate"
    ensures Codings(SplitCommas(header)) == [Gzip, Deflate] && !UndoesApplied([Gzip, Deflate])
  {
    var text, first, second := HeaderOfTwo();
    SplitOfTwo(header, first, second);
    CodingsOfTwo([first, second]);
    NotUndone();
  }

  // ----- Single codings -----

  /** A raw DEFLATE body without what looks like a zlib header is undone, too. */
  lemma RawDeflateIsUndone(ds: Decoders, raw: bytes, b: bytes)
    requires !ZlibHeader(raw) && ds.inflate(Stream(raw, CleanEnd)) == Stream(b, CleanEnd)
    ensures Layers(ds, [Deflate], Stream(raw, CleanEnd)) == Some(Stream(b, CleanEnd))
    ensures Decoded(ds, [Deflate], raw, 0) == (b, true)
  {
    assert [Deflate][1..] == [];
  }

  /** The headers that zlib writes for its usual window at its four levels, and the beginning of a raw stream. */
  lemma HeaderExamples(rest: bytes)
    ensures ZlibHeader([0x78, 0x01] + rest) && ZlibHeader([0x78, 0x5E] + rest)
    ensures ZlibHeader([0x78, 0x9C] + rest) && ZlibHeader([0x78, 0xDA] + rest)
    ensures !ZlibHeader([0xCA, 0x48] + rest) && !ZlibHeader([0x78, 0x9D] + rest) && !ZlibHeader([0x78])
        && !ZlibHeader([])
  {
  }

  /** An unknown coding ends the list: what was decoded so far is the result, whatever follows. */
  lemma StopsAtUnknown(ds: Decoders, es: Encoders, cs: seq<Coding>, b: bytes, rest: seq<Coding>)
    requires Lawful(ds, es) && AllKnown(cs)
    ensures Layers(ds, cs + ([Unknown] + rest),
                   Stream(AppliedBackwards(es, cs, b), CleanEnd)) == Some(Stream(b, CleanEnd))
  {
    UndoesBackwards(ds, es, cs, b, [Unknown] + rest);
  }

  /** The package for a coding reports an error at once. Raw DEFLATE has no header that could be wrong. */
  predicate Refused(ds: Decoders, c: Coding, b: bytes) {
    || (c == Gzip && ds.gunzip(Stream(b, CleanEnd)).None?)
    || (c == Deflate && ZlibHeader(b) && ds.unzlib(Stream(b, CleanEnd)).None?)
  }

  /** One coding that is refused spoils everything, whatever was undone before it and whatever follows. */
  lemma RefusedSpoilsAll(ds: Decoders, es: Encoders, cs: seq<Coding>, b: bytes, c: Coding, rest: seq<Coding>,
                         maxSize: int64)
    requires Lawful(ds, es) && AllKnown(cs) && Refused(ds, c, b)
    ensures Decoded(ds, cs + ([c] + rest), AppliedBackwards(es, cs, b), maxSize) == ([], false)
  {
    UndoesBackwards(ds, es, cs, b, [c] + rest);
  }

  // ----- The names of the codings -----

  /** A character that stands for a small letter: the letter itself, its capital, or one of two letters beyond ASCII. */
  predicate StandsFor(c: char, letter: char) {
    || c == letter
    || ('a' <= letter <= 'z' && c as int + 32 == letter as int)
    || (c == '\U{130}' && letter == 'i') || (c == '\U{212A}' && letter == 'k')
  }

  predicate SmallLetters(name: string) {
    forall i | 0 <= i < |name| :: 'a' <= name[i] <= 'z'
  }

  predicate Spells(word: string, name: string) {
    |word| == |name| && forall i | 0 <= i < |name| :: StandsFor(word[i], name[i])
  }

  lemma {:induction false} LowerSpells(word: string, name: string)
    requires SmallLetters(name)
    ensures ToLower(word) == name <==> Spells(word, name)
  {
    if word != "" && name != "" {
      LowerSpells(word[1..], name[1..]);
      var lower := ToLower(word);
      assert lower[1..] == ToLower(word[1..]) && lower == [lower[0]] + lower[1..] && name == [name[0]] + name[1..];
      assert Lower(word[0]) == name[0] <==> StandsFor(word[0], name[0]);
      assert Spells(word, name) <==> StandsFor(word[0], name[0]) && Spells(word[1..], name[1..]);
    }
  }

  /** The characters with the White_Space property of Unicode. */
  const WHITE_SPACE: set<char> := {
    '\t', '\n', '\U{B}', '\U{C}', '\r', ' ', '\U{85}', '\U{A0}', '\U{1680}', '\U{2000}', '\U{2001}', '\U{2002}',
    '\U{2003}', '\U{2004}', '\U{2005}', '\U{2006}', '\U{2007}', '\U{2008}', '\U{2009}', '\U{200A}', '\U{2028}',
    '\U{2029}', '\U{202F}', '\U{205F}', '\U{3000}'}

  lemma SpaceIff(c: char)
    ensures Space(c) <==> c in WHITE_SPACE
  {
  }

  predicate AllSpace(s: string) {
    forall i | 0 <= i < |s| :: Space(s[i])
  }

  lemma {:induction false} TrimFront(pre: string, s: string)
    requires AllSpace(pre)
    ensures Trim(pre + s) == Trim(s)
  {
    if pre == "" {
      assert pre + s == s;
    } else {
      TrimFront(pre[1..], s);
      assert (pre + s)[0] == pre[0] && (pre + s)[1..] == pre[1..] + s;
    }
  }

  lemma {:induction false} TrimBack(s: string, post: string)
    requires AllSpace(post) && s != "" && !Space(s[0])
    ensures Trim(s + post) == Trim(s)
  {
    if post == "" {
      assert s + post == s;
    } else {
      var k := |post| - 1;
      TrimBack(s, post[..k]);
      assert (s + post)[|s + post| - 1] == post[k] && (s + post)[..|s + post| - 1] == s + post[..k];
    }
  }

  /** core with white space around it. */
  predicate Padded(item: string, pre: string, core: string, post: string) {
    item == pre + core + post && AllSpace(pre) && AllSpace(post)
  }

  lemma PadFront(c: char, item: string, pre: string, core: string, post: string)
    requires Space(c) && Padded(item, pre, core, post)
    ensures Padded([c] + item, [c] + pre, core, post)
  {
    assert [c] + (pre + core + post) == ([c] + pre) + core + post;
  }

  lemma PadBack(c: char, item: string, pre: string, core: string, post: string)
    requires Space(c) && Padded(item, pre, core, post)
    ensures Padded(item + [c], pre, core, post + [c])
  {
    assert (pre + core + post) + [c] == pre + core + (post + [c]);
  }

  /** What is trimmed off is white space. */
  lemma {:induction false} TrimPads(item: string) returns (pre: string, post: string)
    ensures Padded(item, pre, Trim(item), post)
    decreases |item|
  {
    pre, post := "", "";
    if item == "" {
    } else if Space(item[0]) {
      pre, post := TrimPads(item[1..]);
      PadFront(item[0], item[1..], pre, Trim(item), post);
      assert item == [item[0]] + item[1..];
      pre := [item[0]] + pre;
    } else if Space(item[|item| - 1]) {
      var k := |item| - 1;
      pre, post := TrimPads(item[..k]);
      PadBack(item[k], item[..k], pre, Trim(item), post);
      assert item == item[..k] + [item[k]];
      post := post + [item[k]];
    }
  }

  lemma {:induction false} LowerConcat(s: string, t: string)
    ensures ToLower(s + t) == ToLower(s) + ToLower(t)
  {
    if s == "" {
      assert s + t == t;
    } else {
      LowerConcat(s[1..], t);
      assert (s + t)[0] == s[0] && (s + t)[1..] == s[1..] + t;
    }
  }

  lemma {:induction false} LowerSpaces(s: string)
    ensures AllSpace(ToLower(s)) <==> AllSpace(s)
  {
    if s != "" {
      LowerSpaces(s[1..]);
      var low := ToLower(s);
      assert low[1..] == ToLower(s[1..]) && (Space(low[0]) <==> Space(s[0]));
      assert AllSpace(low) <==> Space(low[0]) && AllSpace(low[1..]);
      assert AllSpace(s) <==> Space(s[0]) && AllSpace(s[1..]);
    }
  }

  /** An item names a coding: white space, the letters in any case, white space. */
  ghost predicate Names(item: string, name: string) {
    exists pre, word, post ::
      item == pre + word + post && AllSpace(pre) && AllSpace(post) && Spells(word, name)
  }

  lemma TrimAround(pre: string, name: string, post: string)
    requires AllSpace(pre) && AllSpace(post) && SmallLetters(name) && name != ""
    ensures Trim(pre + name + post) == name
  {
    assert pre + name + post == pre + (name + post);
    TrimFront(pre, name + post);
    TrimBack(name, post);
    TrimName(name);
  }

  lemma LowerAround(pre: string, word: string, post: string, name: string)
    requires AllSpace(pre) && AllSpace(post) && Spells(word, name) && SmallLetters(name)
    ensures ToLower(pre + word + post) == ToLower(pre) + name + ToLower(post)
    ensures AllSpace(ToLower(pre)) && AllSpace(ToLower(post))
  {
    LowerConcat(pre + word, post);
    LowerConcat(pre, word);
    LowerSpells(word, name);
    LowerSpaces(pre);
    LowerSpaces(post);
  }

  lemma NamedIsTrimmed(item: string, name: string)
    requires Names(item, name) && SmallLetters(name) && name != ""
    ensures Trim(ToLower(item)) == name
  {
    var pre, word, post :| item == pre + word + post && AllSpace(pre) && AllSpace(post) && Spells(word, name);
    LowerAround(pre, word, post, name);
    TrimAround(ToLower(pre), name, ToLower(post));
  }

  lemma TrimName(name: string)
    requires SmallLetters(name)
    ensures Trim(name) == name
  {
  }

  lemma TrimmedIsNamed(item: string, name: string)
    requires Trim(ToLower(item)) == name && SmallLetters(name)
    ensures Names(item, name)
  {
    var front, back := TrimPads(ToLower(item));
    var i, j := |front|, |front| + |name|;
    var pre, word, post := item[..i], item[i..j], item[j..];
    assert item == pre + word + post;
    LowerConcat(pre + word, post);
    LowerConcat(pre, word);
    SameParts(ToLower(pre), ToLower(word), ToLower(post), front, name, back);
    LowerSpells(word, name);
    LowerSpaces(pre);
    LowerSpaces(post);
  }

  lemma SameParts(a: string, b: string, c: string, x: string, y: string, z: string)
    requires a + b + c == x + y + z && |a| == |x| && |b| == |y|
    ensures a == x && b == y && c == z
  {
    assert (a + b + c)[..|a|] == a && (x + y + z)[..|x|] == x;
    assert (a + b + c)[|a|..|a| + |b|] == b && (x + y + z)[|x|..|x| + |y|] == y;
    assert (a + b + c)[|a| + |b|..] == c && (x + y + z)[|x| + |y|..] == z;
  }

  lemma NamesIff(item: string, name: string)
    requires SmallLetters(name) && name != ""
    ensures Trim(ToLower(item)) == name <==> Names(item, name)
  {
    if Names(item, name) {
      NamedIsTrimmed(item, name);
    } else if Trim(ToLower(item)) == name {
      TrimmedIsNamed(item, name);
    }
  }

  lemma Letters()
    ensures SmallLetters("gzip") && SmallLetters("deflate") && SmallLetters("identity")
  {
  }

  /** Which items name which coding: case and white space around do not matter; nothing and identity mean none. */
  lemma CodingOfIff(item: string)
    ensures CodingOf(item) == Gzip <==> Names(item, "gzip")
    ensures CodingOf(item) == Deflate <==> Names(item, "deflate")
    ensures CodingOf(item) == Identity <==> Names(item, "identity") || AllSpace(item)
  {
    Letters();
    NamesIff(item, "gzip");
    NamesIff(item, "deflate");
    NamesIff(item, "identity");
    EmptyWhenSpace(item);
  }

  lemma EmptyWhenSpace(item: string)
    ensures Trim(ToLower(item)) == "" <==> AllSpace(item)
  {
    LowerSpaces(item);
    if AllSpace(item) {
      TrimFront(ToLower(item), "");
      assert ToLower(item) + "" == ToLower(item);
    }
    if Trim(ToLower(item)) == "" {
      AllTrimmed(ToLower(item));
    }
  }

  lemma AllTrimmed(s: string)
    requires Trim(s) == ""
    ensures AllSpace(s)
  {
    var pre, post := TrimPads(s);
    assert s == pre + post;
    SpaceConcat(pre, post);
  }

  lemma SpaceConcat(s: string, t: string)
    requires AllSpace(s) && AllSpace(t)
    ensures AllSpace(s + t)
  {
  }

  // ----- The items of a list -----

  function Joined(items: seq<string>): string {
    if items == [] then ""
    else if |items| == 1 then items[0]
    else items[0] + "," + Joined(items[1..])
  }

  /** The items are what is between the commas. */
  lemma {:induction false} SplitJoined(s: string)
    ensures Joined(SplitCommas(s)) == s
    ensures forall i | 0 <= i < |SplitCommas(s)| :: ',' !in SplitCommas(s)[i]
  {
    if s != "" {
      SplitJoined(s[1..]);
      var items, rest := SplitCommas(s), SplitCommas(s[1..]);
      if s[0] == ',' {
        assert items[1..] == rest && items[0] == "";
        assert "" + "," + s[1..] == s;
      } else {
        assert items[0] == [s[0]] + rest[0] && items[1..] == rest[1..];
        if |rest| > 1 {
          assert [s[0]] + rest[0] + "," + Joined(rest[1..]) == [s[0]] + (rest[0] + "," + Joined(rest[1..]));
        }
      }
    }
  }
}
