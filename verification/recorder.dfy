/** What is recorded of a response body: decoded, cut to the limit, and turned into text. */
module Recorder {
  import opened Common
  import opened Copier
  import opened Decode
  import Base64
  import Decimals
  import Middleware
  import Utf8

  // ----- Text -----

  /** Content.Text and Content.Encoding */
  datatype Text = Text(text: string, encoding: string)

  const BASE64 := "base64"

  function TextOf(b: bytes): Text {
    match Utf8.Decode(b)
    case Some(s) => Text(s, "")
    case None => Text(Base64.Encode(b), BASE64)
  }

  /** How a reader gets the bytes back. */
  function BytesOf(t: Text): Option<bytes> {
    if t.encoding == BASE64 then Base64.Decode(t.text) else Some(Utf8.Encode(t.text))
  }

  /**
   * Every body can be had back from its text and encoding, also one that was cut inside a character; and where it is
   * text it is recorded as that text.
   */
  lemma TextIsLossless(b: bytes)
    ensures BytesOf(TextOf(b)) == Some(b)
    ensures TextOf(b).encoding == (if Utf8.Valid(b) then "" else "base64")
    ensures Utf8.Valid(b) ==> Utf8.Encode(TextOf(b).text) == b
  {
    if Utf8.Valid(b) {
      Utf8.DecodeThenEncode(b);
    } else {
      Base64.RoundTrip(b);
    }
  }

  /** PostData.Text of a request, which has no field to say that it is base64. */
  function PostText(b: bytes): string {
    match Utf8.Decode(b)
    case Some(s) => s
    case None => Base64.Encode(b)
  }

  /** b is not text, and b' is the base64 of b as a body of its own. */
  predicate LooksLike(b: bytes, b': bytes) {
    !Utf8.Valid(b) && b' == Utf8.Encode(Base64.Encode(b))
  }

  /**
   * Two request bodies are recorded alike exactly when they are equal or one is the base64 of the other, which is not
   * text.
   */
  lemma PostTextCollides(b: bytes, b': bytes)
    ensures PostText(b) == PostText(b') <==> b == b' || LooksLike(b, b') || LooksLike(b', b)
  {
    PostTextParts(b);
    PostTextParts(b');
  }

  lemma PostTextParts(b: bytes)
    ensures Utf8.Valid(b) ==> Utf8.Encode(PostText(b)) == b
    ensures !Utf8.Valid(b) ==> Base64.Decode(PostText(b)) == Some(b)
    ensures !Utf8.Valid(b) ==> Utf8.Decode(Utf8.Encode(PostText(b))) == Some(PostText(b))
  {
    if Utf8.Valid(b) {
      Utf8.DecodeThenEncode(b);
    } else {
      Base64.RoundTrip(b);
      Utf8.RoundTrip(PostText(b));
    }
  }

  /** So a request body can be had back from its text as it stands exactly when it is text. */
  lemma PostTextFaithful(b: bytes)
    ensures Utf8.Encode(PostText(b)) == b <==> Utf8.Valid(b)
  {
    PostTextParts(b);
  }

  lemma PostTextNotInjective()
    ensures PostText([0xFF]) == PostText(Utf8.Encode("/w=="))
    ensures [0xFF] != Utf8.Encode("/w==")
  {
    assert Base64.Encode([0xFF]) == "/w==";
    Utf8.RoundTrip("/w==");
    PostTextParts([0xFF]);
    assert !Utf8.Valid([0xFF]);
    assert Utf8.Valid(Utf8.Encode("/w=="));
  }

  // ----- recordResponse -----

  /** BodyDecoder: what it writes to dst, and whether it returns nil. */
  type BodyDecoder = (string, bytes, int64) -> (bytes, bool)

  /** The decoder New installs. */
  function DefaultDecoder(ds: Decoders): BodyDecoder {
    (enc, src, maxSize) => Decoded(ds, Codings(SplitCommas(enc)), src, maxSize)
  }

  /** The recorded body and whether it is marked as truncated. */
  function RecordedBody(decoder: BodyDecoder, enc: string, captured: bytes, flagged: bool,
                        maxSize: int64): (r: (bytes, bool)) {
    if enc == "" then (captured, flagged)
    else
      var (decoded, ok) := decoder(enc, captured, maxSize);
      if !ok then (captured, flagged)
      else if maxSize > 0 && |decoded| > maxSize then (decoded[..maxSize], true)
      else (decoded, flagged)
  }

  /** One name of an http.Header with its values; the names come in the order in which the map yields them. */
  datatype Line = Line(name: string, values: seq<string>)

  /** Header.Get: the first value under a name. */
  function Get(headers: seq<Line>, name: string): string {
    if headers == [] then ""
    else if headers[0].name == name then if headers[0].values == [] then "" else headers[0].values[0]
    else Get(headers[1..], name)
  }

  /** The bytes of some header lines: a name, a colon and a blank, a value and a line end. */
  function LineBytes(name: string, values: seq<string>): nat {
    if values == [] then 0
    else LineBytes(name, values[..|values| - 1]) + |Utf8.Encode(name)| + |Utf8.Encode(values[|values| - 1])| + 4
  }

  function HeaderBytes(headers: seq<Line>): nat {
    if headers == [] then 0
    else
      var last := headers[|headers| - 1];
      HeaderBytes(headers[..|headers| - 1]) + LineBytes(last.name, last.values)
  }

  /** convertHeaders as a value: the name-value pairs in order. Middleware.ConvertHeaders makes the objects. */
  function Converted(headers: seq<Line>): seq<Middleware.Field> {
    if headers == [] then []
    else
      var last := headers[|headers| - 1];
      Converted(headers[..|headers| - 1]) + Middleware.NewFields(last.name, last.values)
  }

  /** The inner loop of headerSize: the lines of one name. */
  method LineSize(headerSize: uint64, name: string, values: seq<string>) returns (sum: uint64)
    ensures sum == AddU64(headerSize, LineBytes(name, values))
  {
    sum := headerSize;
    for j := 0 to |values|
      invariant sum == AddU64(headerSize, LineBytes(name, values[..j]))
    {
      var line := |Utf8.Encode(name)| + |Utf8.Encode(values[j])| + 4;
      ModAdd(headerSize + LineBytes(name, values[..j]), line);
      assert values[..j + 1][..j] == values[..j];
      sum := AddU64(sum, line);
    }
    assert values[..|values|] == values;
  }

  /** headerSize, with its uint64 additions. */
  method HeaderSize(headers: seq<Line>) returns (headerSize: uint64)
    ensures headerSize == (HeaderBytes(headers) + 2) % TWO_64
  {
    headerSize := 0;
    for i := 0 to |headers|
      invariant headerSize == HeaderBytes(headers[..i]) % TWO_64
    {
      headerSize := LineSize(headerSize, headers[i].name, headers[i].values);
      ModAdd(HeaderBytes(headers[..i]), LineBytes(headers[i].name, headers[i].values));
      assert headers[..i + 1][..i] == headers[..i];
    }
    assert headers[..|headers|] == headers;
    ModAdd(HeaderBytes(headers), 2);
    headerSize := AddU64(headerSize, 2);
  }

  /** The lines of an http.Header as the map it is. */
  function MapOf(headers: seq<Line>): map<string, seq<string>> {
    if headers == [] then map[]
    else
      var last := headers[|headers| - 1];
      MapOf(headers[..|headers| - 1])[last.name := last.values]
  }

  predicate DistinctNames(headers: seq<Line>) {
    forall i, j | 0 <= i < j < |headers| :: headers[i].name != headers[j].name
  }

  lemma {:induction false} ConvertedBefore(headers: seq<Line>, name: string)
    requires forall i | 0 <= i < |headers| :: headers[i].name != name
    ensures Middleware.ValuesOf(Converted(headers), name) == [] && name !in MapOf(headers)
  {
    if headers != [] {
      var before, last := headers[..|headers| - 1], headers[|headers| - 1];
      ConvertedBefore(before, name);
      Middleware.ValuesOfNew(Converted(before), last.name, last.values, name);
    }
  }

  lemma {:induction false} ConvertedAt(headers: seq<Line>, name: string)
    requires DistinctNames(headers)
    ensures Middleware.ValuesOf(Converted(headers), name)
            == if name in MapOf(headers) then MapOf(headers)[name] else []
  {
    if headers != [] {
      var before, last := headers[..|headers| - 1], headers[|headers| - 1];
      ConvertedAt(before, name);
      Middleware.ValuesOfNew(Converted(before), last.name, last.values, name);
      if name == last.name {
        ConvertedBefore(before, name);
      }
    }
  }

  /** Those pairs are what convertHeaders promises of the objects: each name with exactly its values, in order. */
  lemma ConvertedHolds(headers: seq<Line>)
    requires DistinctNames(headers)
    ensures Middleware.Holds(Converted(headers), MapOf(headers))
  {
    forall name
      ensures Middleware.ValuesOf(Converted(headers), name)
              == if name in MapOf(headers) then MapOf(headers)[name] else []
    {
      ConvertedAt(headers, name);
    }
  }

  lemma {:induction false} GetFromFront(before: seq<Line>, last: Line, name: string)
    ensures Get(before + [last], name)
            == if exists i | 0 <= i < |before| :: before[i].name == name then Get(before, name) else Get([last], name)
  {
    if before == [] {
      assert before + [last] == [last];
    } else {
      assert (before + [last])[0] == before[0] && (before + [last])[1..] == before[1..] + [last];
      GetFromFront(before[1..], last, name);
      if before[0].name != name {
        assert (exists i | 0 <= i < |before| :: before[i].name == name)
               <==> (exists i | 0 <= i < |before[1..]| :: before[1..][i].name == name) by {
          if i :| 0 <= i < |before| && before[i].name == name {
            assert before[1..][i - 1].name == name;
          }
        }
      }
    }
  }

  lemma {:induction false} GetOfMap(headers: seq<Line>, name: string)
    requires DistinctNames(headers)
    ensures Get(headers, name) == if name in MapOf(headers) && MapOf(headers)[name] != []
        then MapOf(headers)[name][0] else ""
  {
    if headers != [] {
      var before, last := headers[..|headers| - 1], headers[|headers| - 1];
      assert headers == before + [last];
      GetOfMap(before, name);
      GetFromFront(before, last, name);
      assert [last][1..] == [];
      if i :| 0 <= i < |before| && before[i].name == name {
        assert headers[i].name == name;
        NameInMap(before, i);
      } else {
        ConvertedBefore(before, name);
      }
    }
  }

  lemma {:induction false} NameInMap(headers: seq<Line>, i: nat)
    requires i < |headers|
    ensures headers[i].name in MapOf(headers)
  {
    if i < |headers| - 1 {
      NameInMap(headers[..|headers| - 1], i);
    }
  }

  /** The first value under a name among recorded headers. */
  function FirstValue(fs: seq<Middleware.Field>, name: string): string {
    var values := Middleware.ValuesOf(fs, name);
    if values == [] then "" else values[0]
  }

  lemma GetIsFirst(headers: seq<Line>, name: string)
    requires DistinctNames(headers)
    ensures Get(headers, name) == FirstValue(Converted(headers), name)
  {
    GetOfMap(headers, name);
    ConvertedAt(headers, name);
  }

  /** An http.Header as it is sent: a line for each value and an empty line. */
  function LinesText(name: string, values: seq<string>): string {
    if values == [] then ""
    else LinesText(name, values[..|values| - 1]) + (name + ": " + values[|values| - 1] + "\r\n")
  }

  function HeaderLines(headers: seq<Line>): string {
    if headers == [] then ""
    else
      var last := headers[|headers| - 1];
      HeaderLines(headers[..|headers| - 1]) + LinesText(last.name, last.values)
  }

  lemma LineLength(name: string, value: string)
    ensures |Utf8.Encode(name + ": " + value + "\r\n")| == |Utf8.Encode(name)| + |Utf8.Encode(value)| + 4
  {
    Utf8.EncodeConcat(name + ": " + value, "\r\n");
    Utf8.EncodeConcat(name + ": ", value);
    Utf8.EncodeConcat(name, ": ");
    TwoOctets(':', ' ');
    TwoOctets('\r', '\n');
  }

  lemma TwoOctets(c: char, d: char)
    requires c as int < 0x80 && d as int < 0x80
    ensures |Utf8.Encode([c, d])| == 2
  {
    assert [c, d][1..] == [d] && [d][1..] == [];
    assert Utf8.Encode([d]) == Utf8.EncodeChar(d) + Utf8.Encode([]);
  }

  lemma {:induction false} LinesLength(name: string, values: seq<string>)
    ensures |Utf8.Encode(LinesText(name, values))| == LineBytes(name, values)
  {
    if values != [] {
      var k := |values| - 1;
      LinesLength(name, values[..k]);
      LineLength(name, values[k]);
      Utf8.EncodeConcat(LinesText(name, values[..k]), name + ": " + values[k] + "\r\n");
    }
  }

  lemma {:induction false} LinesOfHeaders(headers: seq<Line>)
    ensures |Utf8.Encode(HeaderLines(headers))| == HeaderBytes(headers)
  {
    if headers != [] {
      var before, last := headers[..|headers| - 1], headers[|headers| - 1];
      LinesOfHeaders(before);
      LinesLength(last.name, last.values);
      Utf8.EncodeConcat(HeaderLines(before), LinesText(last.name, last.values));
    }
  }

  /** What headerSize counts is the headers as they are sent. */
  lemma HeaderSizeIsLength(headers: seq<Line>)
    ensures |Utf8.Encode(HeaderLines(headers) + "\r\n")| == HeaderBytes(headers) + 2
  {
    LinesOfHeaders(headers);
    Utf8.EncodeConcat(HeaderLines(headers), "\r\n");
    TwoOctets('\r', '\n');
  }

  /** har.Cookie, and the parts of an http.Cookie that go into it; expires is None for the zero time. */
  datatype Cookie = Cookie(name: string, value: string, path: string, domain: string, secure: bool, httpOnly: bool,
                           expires: Option<int>)

  /** The http.Response as far as recordResponse looks at it; cookies are what Response.Cookies finds. */
  datatype Rsp = Rsp(status: int, statusText: string, proto: string, headers: seq<Line>, cookies: seq<Cookie>) {
    function contentEncoding(): string {
      Get(headers, "Content-Encoding")
    }

    function headersSize(): uint64 {
      (HeaderBytes(headers) + 2) % TWO_64
    }
  }

  /** har.Response with its Content. */
  datatype Recorded = Recorded(status: int, statusText: string, proto: string, cookies: seq<Cookie>,
                               headers: seq<Middleware.Field>, mimeType: string, redirectURL: string,
                                   headersSize: uint64,
                               bodySize: uint64, transferSize: uint64, size: nat, compression: nat,
                               content: Text, comment: string, error: Option<string>)

  /** What is recorded before the body: without a response something minimal. */
  function Head(rsp: Option<Rsp>): Recorded {
    match rsp
    case None => Recorded(0, "", "HTTP/1.1", [], [], "", "", 0, 0, 0, 0, 0, Text("", ""), "", None)
    case Some(r) =>
      Recorded(r.status, r.statusText, r.proto, r.cookies, Converted(r.headers), Get(r.headers, "Content-Type"),
               Get(r.headers, "Location"), r.headersSize(), 0, 0, 0, 0, Text("", ""), "", None)
  }

  lemma {:induction false} NoFieldsNoBytes(headers: seq<Line>)
    ensures Converted(headers) == [] ==> HeaderBytes(headers) == 0
  {
    if headers != [] {
      NoFieldsNoBytes(headers[..|headers| - 1]);
      assert LineBytes(headers[|headers| - 1].name, []) == 0;
    }
  }

  /**
   * Whatever a response says, its record is not the one of a missing response: that has no headers and not even their
   * end.
   */
  lemma HeadTells(rsp: Rsp)
    ensures Head(Some(rsp)).headers != Head(None).headers || Head(Some(rsp)).headersSize != Head(None).headersSize
  {
    NoFieldsNoBytes(rsp.headers);
  }

  function Comment(truncated: bool, maxSize: int64): string {
    if truncated then "body truncated at " + Decimals.Printed(maxSize) + " bytes" else ""
  }

  /** A comment names a limit: between its fixed words there are the digits of that number. */
  predicate TellsLimit(comment: string, maxSize: int64) {
    && |comment| > 24 && comment[..18] == "body truncated at " && comment[|comment| - 6..] == " bytes"
    && var digits := comment[18..|comment| - 6];
       && (forall i | 0 <= i < |digits| :: Decimals.Digit(digits[i]))
       && Decimals.DecimalValue(digits) == maxSize
  }

  /** There is a comment exactly if the body was truncated, and the limit can be read in it. */
  lemma CommentTells(truncated: bool, maxSize: int64)
    ensures Comment(truncated, maxSize) != "" <==> truncated
    ensures truncated && maxSize >= 0 ==> TellsLimit(Comment(truncated, maxSize), maxSize)
    ensures Comment(true, 10) == "body truncated at 10 bytes"
  {
    assert Decimals.Decimal(10) == "10";
    if truncated && maxSize >= 0 {
      var d := Decimals.Decimal(maxSize);
      var c := Comment(true, maxSize);
      Decimals.DecimalRoundTrip(maxSize);
      assert c == "body truncated at " + d + " bytes";
      assert c[18..|c| - 6] == d;
    }
  }

  /** The recorded response, given what the copier of its body has captured, if there is a body. */
  function Response(decoder: BodyDecoder, rsp: Option<Rsp>, body: Option<Capture>, rspErr: Option<string>,
                    maxSize: int64): Recorded {
    if rsp.None? || body.None? then Head(rsp).(error := rspErr)
    else
      var r, c := rsp.value, body.value;
      var (b, truncated) := RecordedBody(decoder, r.contentEncoding(), c.buffer, c.truncated, maxSize);
      Head(rsp).(bodySize := c.count, transferSize := AddU64(r.headersSize(), c.count), size := |b|,
                 compression := if |b| > c.count then |b| - c.count else 0,
                 content := TextOf(b), comment := Comment(truncated, maxSize), error := rspErr)
  }

  /** har.Response as it is filled in. */
  class HarResponse {
    const status: int
    const statusText: string
    const proto: string
    const cookies: seq<Cookie>
    const headers: seq<Middleware.Field>
    const mimeType: string
    const redirectURL: string
    const headersSize: uint64
    var bodySize: uint64
    var transferSize: uint64
    var size: nat
    var compression: nat
    var text: string
    var encoding: string
    var comment: string
    var error: Option<string>

    constructor (status: int, statusText: string, proto: string, cookies: seq<Cookie>, headers: seq<Middleware.Field>,
                 mimeType: string, redirectURL: string, headersSize: uint64)
      ensures View() == Recorded(status, statusText, proto, cookies, headers, mimeType, redirectURL, headersSize,
                                 0, 0, 0, 0, Text("", ""), "", None)
    {
      this.status, this.statusText, this.proto, this.cookies := status, statusText, proto, cookies;
      this.headers, this.mimeType, this.redirectURL, this.headersSize := headers, mimeType, redirectURL, headersSize;
      bodySize, transferSize, size, compression := 0, 0, 0, 0;
      text, encoding, comment, error := "", "", "", None;
    }

    /** The text is the body itself if that is UTF-8; otherwise it is base64, and encoding says so. */
    method SetText(bodyBytes: bytes)
      requires encoding == ""
      modifies this`text, this`encoding
      ensures Text(text, encoding) == TextOf(bodyBytes)
    {
      var s := Utf8.Decode(bodyBytes);
      if s.Some? {
        text := s.value;
      } else {
        text := Base64.Encode(bodyBytes);
        encoding := BASE64;
      }
    }

    function View(): Recorded
      reads this
    {
      Recorded(status, statusText, proto, cookies, headers, mimeType, redirectURL, headersSize,
               bodySize, transferSize, size, compression, Text(text, encoding), comment, error)
    }
  }

  /** The body decoded, if it says how and that succeeds, and cut to the limit. */
  method DecodeRecorded(decoder: BodyDecoder, enc: string, captured: bytes, flagged: bool, maxBodySize: int64)
    returns (bodyBytes: bytes, truncated: bool)
    ensures (bodyBytes, truncated) == RecordedBody(decoder, enc, captured, flagged, maxBodySize)
  {
    bodyBytes, truncated := captured, flagged;
    if enc != "" {
      var (decoded, ok) := decoder(enc, bodyBytes, maxBodySize);
      if ok {
        if maxBodySize > 0 && |decoded| > maxBodySize {
          truncated := true;
          decoded := decoded[..maxBodySize];
        }
        bodyBytes := decoded;
      }
    }
  }

  /** The part of recordResponse for a body. */
  method RecordBody(decoder: BodyDecoder, maxBodySize: int64, r: Rsp, rspBody: StreamCopier, out: HarResponse)
    requires out.View() == Head(Some(r))
    modifies out
    ensures out.View() == Response(decoder, Some(r), Some(rspBody.Captured()), None, maxBodySize)
  {
    var compressedSize, bodyBytes, truncated := rspBody.Snapshot();
    bodyBytes, truncated := DecodeRecorded(decoder, r.contentEncoding(), bodyBytes, truncated, maxBodySize);
    out.bodySize := compressedSize;
    out.transferSize := AddU64(out.headersSize, compressedSize);
    out.size := |bodyBytes|;
    if |bodyBytes| > compressedSize {
      out.compression := |bodyBytes| - compressedSize;
    }
    out.SetText(bodyBytes);
    if truncated {
      out.comment := Comment(true, maxBodySize);
    }
  }

  method RecordResponse(decoder: BodyDecoder, maxBodySize: int64, rsp: Option<Rsp>, rspBody: StreamCopier?,
                        rspErr: Option<string>)
    returns (out: HarResponse)
    ensures fresh(out)
    ensures out.View() == Response(decoder, rsp, if rspBody == null then None else Some(rspBody.Captured()), rspErr,
                                   maxBodySize)
  {
    if rsp.None? {
      out := new HarResponse(0, "", "HTTP/1.1", [], [], "", "", 0);
      out.error := rspErr;
      return;
    }
    var r := rsp.value;
    var headersSize := HeaderSize(r.headers);
    out := new HarResponse(r.status, r.statusText, r.proto, r.cookies, Converted(r.headers),
                           Get(r.headers, "Content-Type"), Get(r.headers, "Location"), headersSize);
    if rspBody != null {
      RecordBody(decoder, maxBodySize, r, rspBody, out);
    }
    out.error := rspErr;
  }

  // ----- Limits -----

  /** Reading r meets no error among its first n bytes, nor at its end if that comes earlier. */
  predicate CleanFor(r: Stream, n: nat) {
    |r.data| > n || (|r.data| == n && r.end != ErrWith) || r.end == CleanEnd
  }

  lemma LimitAndCut(top: Stream, maxSize: int64)
    requires 0 < maxSize < MAX_INT64
    ensures var r := LimitReader(top, maxSize);
            && (r.end == CleanEnd <==> CleanFor(top, maxSize + 1))
            && Take(r.data, maxSize) == Take(top.data, maxSize)
            && (r.end == CleanEnd ==> (|r.data| > maxSize <==> |top.data| > maxSize))
  {
    assert WrapI64(maxSize + 1) == maxSize + 1;
    if |top.data| > maxSize + 1 {
      assert top.data[..maxSize + 1][..maxSize] == top.data[..maxSize];
    }
  }

  /**
   * Decoding at most one byte more than the limit and cutting is the same as cutting the whole decoded body: the
   * body is its first maxSize bytes, and it is marked exactly when it is longer or the capture was. Where an error
   * shows up before that, the captured bytes stay as they are.
   */
  lemma LimitThenCut(ds: Decoders, enc: string, captured: bytes, flagged: bool, maxSize: int64)
    requires enc != "" && 0 < maxSize < MAX_INT64
    ensures var top := Layers(ds, Codings(SplitCommas(enc)), Stream(captured, CleanEnd));
            RecordedBody(DefaultDecoder(ds), enc, captured, flagged, maxSize)
            == if top.Some? && CleanFor(top.value, maxSize + 1) then
                 (Take(top.value.data, maxSize), flagged || |top.value.data| > maxSize)
               else (captured, flagged)
  {
    var top := Layers(ds, Codings(SplitCommas(enc)), Stream(captured, CleanEnd));
    if top.Some? {
      LimitAndCut(top.value, maxSize);
    }
  }

  /** Without a limit the decoded body is recorded whole, unless an error shows up anywhere. */
  lemma DecodedWhole(ds: Decoders, enc: string, captured: bytes, flagged: bool, maxSize: int64)
    requires enc != "" && maxSize <= 0
    ensures var top := Layers(ds, Codings(SplitCommas(enc)), Stream(captured, CleanEnd));
            RecordedBody(DefaultDecoder(ds), enc, captured, flagged, maxSize)
            == (if top.Some? && top.value.end == CleanEnd then top.value.data else captured, flagged)
  {
  }

  /** A body that was not encoded as its header says is recorded as it came. */
  lemma RefusedIsKept(ds: Decoders, es: Encoders, enc: string, cs: seq<Coding>, b: bytes, c: Coding, rest: seq<Coding>,
                      flagged: bool, maxSize: int64)
    requires enc != "" && Codings(SplitCommas(enc)) == cs + ([c] + rest)
    requires Lawful(ds, es) && AllKnown(cs) && Refused(ds, c, b)
    ensures var captured := AppliedBackwards(es, cs, b);
            RecordedBody(DefaultDecoder(ds), enc, captured, flagged, maxSize) == (captured, flagged)
  {
    RefusedSpoilsAll(ds, es, cs, b, c, rest, maxSize);
  }

  /** At the largest limit there is, maxSize + 1 wraps around and the decoded body is recorded as empty. */
  lemma LargestLimitLosesTheBody(ds: Decoders, enc: string, captured: bytes, flagged: bool)
    requires enc != "" && Layers(ds, Codings(SplitCommas(enc)), Stream(captured, CleanEnd)).Some?
    ensures RecordedBody(DefaultDecoder(ds), enc, captured, flagged, MAX_INT64) == ([], flagged)
  {
    assert WrapI64(MAX_INT64 + 1) == -TWO_63;
  }

  lemma HeadSize(rsp: Rsp)
    ensures Head(Some(rsp)).headersSize == |Utf8.Encode(HeaderLines(rsp.headers) + "\r\n")| % TWO_64
  {
    HeaderSizeIsLength(rsp.headers);
  }

  lemma HeadTexts(rsp: Rsp)
    requires DistinctNames(rsp.headers)
    ensures var r := Head(Some(rsp));
            && r.mimeType == FirstValue(r.headers, "Content-Type") && r.redirectURL == FirstValue(r.headers, "Location")
            && rsp.contentEncoding() == FirstValue(r.headers, "Content-Encoding")
  {
    GetIsFirst(rsp.headers, "Content-Encoding");
    GetIsFirst(rsp.headers, "Content-Type");
    GetIsFirst(rsp.headers, "Location");
  }

  /** What stands in a record before the body. */
  lemma HeadIsKept(rsp: Rsp)
    requires DistinctNames(rsp.headers)
    ensures var r := Head(Some(rsp));
            && r.status == rsp.status && r.statusText == rsp.statusText && r.proto == rsp.proto
                && r.cookies == rsp.cookies
            && Middleware.Holds(r.headers, MapOf(rsp.headers))
  {
    ConvertedHolds(rsp.headers);
  }

  /** The body changes none of that. */
  lemma BodyKeepsHead(decoder: BodyDecoder, rsp: Rsp, body: Option<Capture>, rspErr: Option<string>, maxSize: int64)
    ensures var r, h := Response(decoder, Some(rsp), body, rspErr, maxSize), Head(Some(rsp));
            && r.status == h.status && r.statusText == h.statusText && r.proto == h.proto && r.cookies == h.cookies
            && r.headers == h.headers && r.mimeType == h.mimeType && r.redirectURL == h.redirectURL
            && r.headersSize == h.headersSize
            && r.transferSize == (if body.None? then 0 else (r.headersSize + r.bodySize) % TWO_64)
            && (body.Some? ==> r.bodySize == body.value.count)
            && r.error == rspErr
  {
  }

  /**
   * What a record says of the response line and the headers, whatever the body: each name has exactly its values, the
   * two fields taken from headers agree with them, the sizes are those of what was sent, and an error is kept.
   */
  lemma ResponseIsKept(decoder: BodyDecoder, rsp: Rsp, body: Option<Capture>, rspErr: Option<string>, maxSize: int64)
    requires DistinctNames(rsp.headers)
    ensures var r := Response(decoder, Some(rsp), body, rspErr, maxSize);
            && r.status == rsp.status && r.statusText == rsp.statusText && r.proto == rsp.proto
                && r.cookies == rsp.cookies
            && Middleware.Holds(r.headers, MapOf(rsp.headers))
            && r.mimeType == FirstValue(r.headers, "Content-Type") && r.redirectURL == FirstValue(r.headers, "Location")
            && rsp.contentEncoding() == FirstValue(r.headers, "Content-Encoding")
            && r.headersSize == |Utf8.Encode(HeaderLines(rsp.headers) + "\r\n")| % TWO_64
            && r.transferSize == (if body.None? then 0 else (r.headersSize + r.bodySize) % TWO_64)
            && (body.Some? ==> r.bodySize == body.value.count)
            && r.error == rspErr
  {
    HeadIsKept(rsp);
    HeadTexts(rsp);
    HeadSize(rsp);
    BodyKeepsHead(decoder, rsp, body, rspErr, maxSize);
  }

  /** Without a response the record says nothing but the error. */
  lemma NothingIsKept(decoder: BodyDecoder, body: Option<Capture>, rspErr: Option<string>, maxSize: int64)
    ensures var r := Response(decoder, None, body, rspErr, maxSize);
            && r.status == 0 && r.statusText == "" && r.headers == [] && r.cookies == [] && r.mimeType == ""
            && r.redirectURL == "" && r.headersSize == r.bodySize == r.transferSize == r.size == r.compression == 0
            && r.content == Text("", "") && r.comment == "" && r.error == rspErr && r.proto == "HTTP/1.1"
  {
  }

  /** Whatever the decoder does, the limit holds and the sizes agree. */
  lemma SizesAgree(decoder: BodyDecoder, rsp: Rsp, chunks: seq<bytes>, rspErr: Option<string>, maxSize: int64)
    ensures var c := ObserveAll(chunks, maxSize);
            var r := Response(decoder, Some(rsp), Some(c), rspErr, maxSize);
            && (maxSize > 0 ==> r.size <= maxSize)
            && r.bodySize == |Concat(chunks)| % TWO_64
            && r.bodySize + r.compression == (if r.size > r.bodySize then r.size else r.bodySize)
            && BytesOf(r.content).Some? && |BytesOf(r.content).value| == r.size
  {
    var c := ObserveAll(chunks, maxSize);
    CaptureOfReads(chunks, maxSize);
    TextIsLossless(RecordedBody(decoder, rsp.contentEncoding(), c.buffer, c.truncated, maxSize).0);
  }

  /**
   * From the wire to the record, for a body without content coding: however it was read, the first maxSize bytes
   * can be had back from the record; the comment tells of a longer body unless some read ended right at the limit.
   */
  lemma PlainBodyIsRecorded(decoder: BodyDecoder, rsp: Rsp, chunks: seq<bytes>, rspErr: Option<string>, maxSize: int64)
    requires rsp.contentEncoding() == ""
    ensures var r := Response(decoder, Some(rsp), Some(ObserveAll(chunks, maxSize)), rspErr, maxSize);
            var body := Concat(chunks);
            && BytesOf(r.content) == Some(Kept(body, maxSize))
            && r.size == |Kept(body, maxSize)| && r.bodySize == |body| % TWO_64
            && (r.comment != "" <==> maxSize > 0 && |body| > maxSize && !Boundary(chunks, maxSize))
            && (r.comment != "" ==> TellsLimit(r.comment, maxSize))
            && (r.content.encoding == "" <==> Utf8.Valid(Kept(body, maxSize)))
  {
    CommentTells(ObserveAll(chunks, maxSize).truncated, maxSize);
    CaptureOfReads(chunks, maxSize);
    TextIsLossless(ObserveAll(chunks, maxSize).buffer);
    if maxSize > 0 {
      TruncatedExactly(chunks, maxSize);
    }
  }

  /**
   * The same for a body with content codings: if all of it was captured, each coding is known, the list reads the
   * same in both directions (one coding, say) and decoders undo their encoders, then what is recorded is the body
   * before it was encoded, up to the limit, and the comment says whether that is all.
   */
  lemma CodedBodyIsRecorded(ds: Decoders, es: Encoders, rsp: Rsp, chunks: seq<bytes>, body: bytes,
                            rspErr: Option<string>, maxSize: int64)
    requires Lawful(ds, es) && maxSize < MAX_INT64
    requires var cs := Codings(SplitCommas(rsp.contentEncoding()));
             && AllKnown(cs) && Effective(cs) == Reversed(Effective(cs))
             && Concat(chunks) == Applied(es, cs, body)
    requires maxSize > 0 ==> |Concat(chunks)| <= maxSize
    ensures var r := Response(DefaultDecoder(ds), Some(rsp), Some(ObserveAll(chunks, maxSize)), rspErr, maxSize);
            && BytesOf(r.content) == Some(Kept(body, maxSize))
            && r.size == |Kept(body, maxSize)| && r.bodySize == |Concat(chunks)| % TWO_64
            && (r.comment != "" <==> maxSize > 0 && |body| > maxSize)
            && (r.comment != "" ==> TellsLimit(r.comment, maxSize))
            && (r.content.encoding == "" <==> Utf8.Valid(Kept(body, maxSize)))
  {
    CommentTells(maxSize > 0 && |body| > maxSize, maxSize);
    var enc, wire := rsp.contentEncoding(), Concat(chunks);
    CaptureOfReads(chunks, maxSize);
    if maxSize > 0 {
      TruncatedExactly(chunks, maxSize);
    }
    assert ObserveAll(chunks, maxSize) == Capture(|wire| % TWO_64, wire, false);
    PalindromeUndone(ds, es, Codings(SplitCommas(enc)), body);
    CodedBody(ds, es, enc, wire, body, maxSize);
    TextIsLossless(Kept(body, maxSize));
  }

  lemma CodedBody(ds: Decoders, es: Encoders, enc: string, wire: bytes, body: bytes, maxSize: int64)
    requires maxSize < MAX_INT64 && (maxSize > 0 ==> |wire| <= maxSize)
    requires Layers(ds, Codings(SplitCommas(enc)), Stream(wire, CleanEnd)) == Some(Stream(body, CleanEnd))
    ensures RecordedBody(DefaultDecoder(ds), enc, wire, false, maxSize)
            == (Kept(body, maxSize), maxSize > 0 && |body| > maxSize)
  {
    if enc == "" {
      assert SplitCommas("") == [""] && CodingOf("") == Identity;
      assert Codings([""])[0] == Identity && Codings([""])[1..] == [];
    } else if maxSize > 0 {
      LimitThenCut(ds, enc, wire, false, maxSize);
    }
  }
}
