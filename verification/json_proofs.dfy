/** The parser inverts the printer, and reading more text does not change what was read. */
module JsonProofs {
  import opened Common
  import opened Decimals
  import opened Json

  // ----- White space -----

  lemma {:induction false} SkipGap(gap: string, t: string)
    requires AllBlank(gap)
    ensures SkipBlank(gap + t) == SkipBlank(t)
  {
    if gap == "" {
      assert gap + t == t;
    } else {
      SkipGap(gap[1..], t);
      assert (gap + t)[0] == gap[0] && (gap + t)[1..] == gap[1..] + t;
    }
  }

  lemma {:induction false} SkipMore(s: string, t: string)
    requires SkipBlank(s) != ""
    ensures SkipBlank(s + t) == SkipBlank(s) + t
  {
    assert (s + t)[0] == s[0] && (s + t)[1..] == s[1..] + t;
    if Blank(s[0]) {
      SkipMore(s[1..], t);
    }
  }

  // ----- Numbers -----

  predicate NumberText(s: string) {
    forall i | 0 <= i < |s| :: NumberChar(s[i])
  }

  lemma NumberTextJoin(s: string, k: nat)
    requires k <= |s| && NumberText(s[..k]) && NumberText(s[k..])
    ensures NumberText(s)
  {
    forall i | 0 <= i < |s| ensures NumberChar(s[i]) {
      assert s[i] == if i < k then s[..k][i] else s[k..][i - k];
    }
  }

  lemma DigitsAreNumberText(s: string)
    ensures NumberText(s[..DigitSpan(s)])
  {
  }

  lemma ExponentText(s: string)
    requires IsExponent(s)
    ensures NumberText(s)
  {
    if s != "" {
      var k := if |s| > 1 && (s[1] == '+' || s[1] == '-') then 2 else 1;
      DigitsAreNumberText(s[k..]);
      assert s[k..][..|s[k..]|] == s[k..];
      NumberTextJoin(s, k);
    }
  }

  lemma FractionText(s: string)
    requires IsFractionExponent(s)
    ensures NumberText(s)
  {
    if Begins(s, '.') {
      var t := s[1..];
      DigitsAreNumberText(t);
      ExponentText(t[DigitSpan(t)..]);
      NumberTextJoin(t, DigitSpan(t));
      NumberTextJoin(s, 1);
    } else {
      ExponentText(s);
    }
  }

  lemma NumberStart(s: string)
    requires IsNumber(s)
    ensures s != "" && (Digit(s[0]) || s[0] == '-')
  {
    if !Begins(s, '-') {
      assert DigitSpan(s) >= 1;
    }
  }

  lemma NumberChars(s: string)
    requires IsNumber(s)
    ensures s != "" && (Digit(s[0]) || s[0] == '-') && NumberText(s)
  {
    NumberStart(s);
    var k := if Begins(s, '-') then 1 else 0;
    var t := s[k..];
    DigitsAreNumberText(t);
    FractionText(t[DigitSpan(t)..]);
    NumberTextJoin(t, DigitSpan(t));
    NumberTextJoin(s, k);
  }

  lemma {:induction false} SpanOfNumber(s: string, rest: string)
    requires NumberText(s)
    requires rest == "" || !NumberChar(rest[0])
    ensures NumberSpan(s + rest) == |s|
  {
    if s == "" {
      assert s + rest == rest;
    } else {
      SpanOfNumber(s[1..], rest);
      assert (s + rest)[0] == s[0] && (s + rest)[1..] == s[1..] + rest;
    }
  }

  lemma {:induction false} SpanMore(s: string, t: string)
    requires NumberSpan(s) < |s|
    ensures NumberSpan(s + t) == NumberSpan(s)
  {
    assert (s + t)[0] == s[0] && (s + t)[1..] == s[1..] + t;
    if NumberChar(s[0]) {
      SpanMore(s[1..], t);
    }
  }

  // ----- Strings -----

  lemma HexOfDigit(v: int)
    requires 0 <= v < 16
    ensures HexValue(HexDigit(v)) == Some(v)
  {
  }

  lemma ReadEscaped(c: char, rest: string)
    ensures ReadChar(EscapeChar(c) + rest) == Character(c, rest)
  {
    var e := EscapeChar(c);
    var s := e + rest;
    assert forall i | 0 <= i < |e| :: s[i] == e[i];
    assert s[|e|..] == rest;
    if |e| == 6 {
      var u := s[2..];
      assert u[0] == e[2] && u[1] == e[3] && u[2] == e[4] && u[3] == e[5] && u[4..] == rest;
      if e[2] == '0' {
        HexOfDigit(c as int / 16);
        HexOfDigit(c as int % 16);
      }
    }
  }

  lemma {:induction false} ReadQuoted(t: string, rest: string)
    ensures ReadString(Escape(t) + "\"" + rest) == Done(t, rest)
  {
    var s := Escape(t) + "\"" + rest;
    if t == "" {
      assert s[0] == '"' && s[1..] == rest;
    } else {
      var tail := Escape(t[1..]) + "\"" + rest;
      assert s == EscapeChar(t[0]) + tail;
      ReadEscaped(t[0], tail);
      ReadQuoted(t[1..], rest);
      assert [t[0]] + t[1..] == t;
    }
  }

  lemma FourHexMore(s: string, t: string)
    requires FourHex(s).Some?
    ensures FourHex(s + t) == FourHex(s)
  {
  }

  lemma ReadUnicodeMore(s: string, t: string)
    requires !ReadUnicode(s).Malformed?
    ensures ReadUnicode(s + t) == ReadUnicode(s).(rest := ReadUnicode(s).rest + t)
  {
    FourHexMore(s, t);
    var v := FourHex(s).value;
    if v < 0xD800 || 0xE000 <= v {
      assert (s + t)[4..] == s[4..] + t;
    } else {
      FourHexMore(s[6..], t);
      assert (s + t)[6..] == s[6..] + t;
      assert (s + t)[10..] == s[10..] + t;
    }
  }

  lemma ReadCharMore(s: string, t: string)
    requires !ReadChar(s).Malformed?
    ensures ReadChar(s + t) == ReadChar(s).(rest := ReadChar(s).rest + t)
  {
    assert (s + t)[0] == s[0] && (s + t)[1..] == s[1..] + t;
    if s[0] == '\\' {
      assert |s| >= 2 && (s + t)[1] == s[1];
      assert (s + t)[2..] == s[2..] + t;
      if s[1] == 'u' {
        ReadUnicodeMore(s[2..], t);
      }
    }
  }

  lemma {:induction false} ReadStringMore(s: string, t: string)
    requires ReadString(s).Done?
    ensures ReadString(s + t) == Done(ReadString(s).value, ReadString(s).rest + t)
    decreases |s|
  {
    ReadCharMore(s, t);
    var n := ReadChar(s);
    if n.Character? {
      ReadStringMore(n.rest, t);
    }
  }

  // ----- The round trip -----

  /** What follows a printed value must not continue a number. */
  predicate Stops(rest: string) {
    rest == "" || !NumberChar(rest[0])
  }

  lemma PrintStart(v: Json, rest: string)
    requires WellFormed(v)
    ensures Print(v) != ""
    ensures !Blank(Print(v)[0]) && Print(v)[0] != ']' && Print(v)[0] != '}'
    ensures SkipBlank(Print(v) + rest) == Print(v) + rest
  {
    if v.JNum? {
      NumberChars(v.literal);
    }
    assert (Print(v) + rest)[0] == Print(v)[0];
  }

  /** Text that the parser takes for v, whatever follows it. */
  ghost predicate Reads(text: string, v: Json) {
    forall rest | Stops(rest) ::
      ParseValue(text + rest) == Done(v, rest) && SkipBlank(text + rest) == text + rest
  }

  lemma AfterClose(close: char, rest: string)
    requires close == ']' || close == '}'
    ensures AfterItem([close] + rest, close) == Ended(rest)
  {
    assert ([close] + rest)[1..] == rest;
  }

  lemma AfterComma(close: char, gap: string, next: string)
    requires close == ']' || close == '}'
    requires AllBlank(gap) && SkipBlank(next) == next
    ensures AfterItem("," + (gap + next), close) == Another(next)
  {
    assert ("," + (gap + next))[1..] == gap + next;
    SkipGap(gap, next);
  }

  lemma AfterMore(s: string, close: char, t: string)
    ensures var f := AfterItem(s, close);
            && (f.Ended? ==> AfterItem(s + t, close) == Ended(f.rest + t))
            && (f.Another? && f.text != "" ==> AfterItem(s + t, close) == Another(f.text + t))
  {
    var r := SkipBlank(s);
    if r != "" {
      SkipMore(s, t);
      assert (r + t)[0] == r[0] && (r + t)[1..] == r[1..] + t;
      if SkipBlank(r[1..]) != "" {
        SkipMore(r[1..], t);
      }
    }
  }

  lemma Associate(a: string, c: string, gap: string, n: string, rest: string)
    ensures (a + c + gap + n) + rest == a + (c + (gap + (n + rest)))
    ensures (a + c + n) + rest == a + (c + (n + rest))
  {
  }

  /** A list of values closed by a bracket; the blanks after each comma do not matter. */
  lemma {:induction false} ItemsRead(items: seq<Json>, gap: string, rest: string)
    requires items != [] && AllBlank(gap)
    requires forall i | 0 <= i < |items| :: Reads(Print(items[i]), items[i])
    ensures ParseItems(PrintItems(items, gap) + ("]" + rest)) == Done(items, rest)
    ensures SkipBlank(PrintItems(items, gap) + ("]" + rest)) == PrintItems(items, gap) + ("]" + rest)
  {
    if |items| == 1 {
      assert items == [items[0]];
      AfterClose(']', rest);
    } else {
      var next := PrintItems(items[1..], gap) + ("]" + rest);
      Associate(Print(items[0]), ",", gap, PrintItems(items[1..], gap), "]" + rest);
      ItemsRead(items[1..], gap, rest);
      ItemsStep(items[0], gap, next);
      assert [items[0]] + items[1..] == items;
    }
  }

  lemma ItemsStep(v: Json, gap: string, next: string)
    requires Reads(Print(v), v) && AllBlank(gap) && SkipBlank(next) == next && ParseItems(next).Done?
    ensures var s := Print(v) + ("," + (gap + next));
            ParseItems(s) == Done([v] + ParseItems(next).value, ParseItems(next).rest) && SkipBlank(s) == s
  {
    var tail := "," + (gap + next);
    assert Stops(tail);
    AfterComma(']', gap, next);
  }

  lemma ItemsStart(items: seq<Json>, gap: string, rest: string)
    requires items != [] && WellFormed(items[0])
    ensures !Begins(PrintItems(items, gap) + rest, ']')
  {
    PrintStart(items[0], "");
    assert (PrintItems(items, gap) + rest)[0] == PrintItems(items, gap)[0] == Print(items[0])[0];
  }

  lemma ArrayStep(inner: string, items: seq<Json>, rest: string)
    requires ParseItems(inner) == Done(items, rest) && SkipBlank(inner) == inner && !Begins(inner, ']')
    ensures ParseValue("[" + inner) == Done(JArr(items), rest) && SkipBlank("[" + inner) == "[" + inner
  {
    assert ("[" + inner)[1..] == inner;
  }

  lemma EmptyArray(rest: string)
    ensures ParseValue("[]" + rest) == Done(JArr([]), rest) && SkipBlank("[]" + rest) == "[]" + rest
  {
    assert ("[]" + rest)[1..] == "]" + rest;
    assert ("]" + rest)[1..] == rest;
  }

  lemma BracketsAround(text: string, rest: string)
    ensures "[" + text + "]" + rest == "[" + (text + ("]" + rest))
    ensures "[" + "" + "]" == "[]"
  {
  }

  lemma ArrayRead(items: seq<Json>, gap: string, rest: string)
    requires AllBlank(gap)
    requires forall i | 0 <= i < |items| :: WellFormed(items[i]) && Reads(Print(items[i]), items[i])
    ensures var s := "[" + PrintItems(items, gap) + "]" + rest;
            ParseValue(s) == Done(JArr(items), rest) && SkipBlank(s) == s
  {
    BracketsAround(PrintItems(items, gap), rest);
    if items == [] {
      EmptyArray(rest);
    } else {
      ItemsRead(items, gap, rest);
      ItemsStart(items, gap, "]" + rest);
      ArrayStep(PrintItems(items, gap) + ("]" + rest), items, rest);
    }
  }

  lemma ArrayReads(items: seq<Json>, gap: string)
    requires AllBlank(gap)
    requires forall i | 0 <= i < |items| :: WellFormed(items[i]) && Reads(Print(items[i]), items[i])
    ensures Reads("[" + PrintItems(items, gap) + "]", JArr(items))
  {
    forall rest | Stops(rest)
      ensures var s := "[" + PrintItems(items, gap) + "]" + rest;
              ParseValue(s) == Done(JArr(items), rest) && SkipBlank(s) == s
    {
      ArrayRead(items, gap, rest);
    }
  }

  /** A member of an object together with the text that stands for its value. */
  datatype Piece = Piece(key: string, text: string, value: Json)

  function PieceText(p: Piece): string {
    Quote(p.key) + ":" + p.text
  }

  function PiecesText(ps: seq<Piece>): string {
    if ps == [] then ""
    else if |ps| == 1 then PieceText(ps[0])
    else PieceText(ps[0]) + "," + PiecesText(ps[1..])
  }

  function Members(ps: seq<Piece>): (ms: seq<Member>)
    ensures |ms| == |ps|
  {
    seq(|ps|, i requires 0 <= i < |ps| => Member(ps[i].key, ps[i].value))
  }

  lemma MemberStep(s: string, key: string, text: string)
    requires SkipBlank(text) == text && ParseValue(text).Done?
    requires Begins(s, '"') && ReadString(s[1..]) == Done(key, ":" + text)
    ensures ParseMember(s) == Done(Member(key, ParseValue(text).value), ParseValue(text).rest)
  {
    assert (":" + text)[1..] == text;
  }

  lemma PieceTextSplit(p: Piece, rest: string)
    ensures var s := PieceText(p) + rest;
            s[0] == '"' && s[1..] == Escape(p.key) + "\"" + (":" + (p.text + rest))
  {
  }

  lemma MembersSplit(ps: seq<Piece>)
    requires ps != []
    ensures Members(ps) == [Member(ps[0].key, ps[0].value)] + Members(ps[1..])
  {
  }

  lemma PieceReads(p: Piece, rest: string)
    requires Reads(p.text, p.value) && Stops(rest)
    ensures var s := PieceText(p) + rest;
            ParseMember(s) == Done(Member(p.key, p.value), rest) && Begins(s, '"')
  {
    PieceTextSplit(p, rest);
    ReadQuoted(p.key, ":" + (p.text + rest));
    MemberStep(PieceText(p) + rest, p.key, p.text + rest);
  }

  lemma PiecesStep(p: Piece, next: string)
    requires Reads(p.text, p.value)
    requires ParseMembers(next).Done? && SkipBlank(next) == next
    ensures var s := PieceText(p) + ("," + next);
            && ParseMembers(s) == Done([Member(p.key, p.value)] + ParseMembers(next).value, ParseMembers(next).rest)
            && Begins(s, '"')
  {
    assert Stops("," + next);
    PieceReads(p, "," + next);
    AfterComma('}', "", next);
    assert "" + next == next;
  }

  lemma {:induction false} PiecesRead(ps: seq<Piece>, rest: string)
    requires ps != [] && forall i | 0 <= i < |ps| :: Reads(ps[i].text, ps[i].value)
    ensures var s := PiecesText(ps) + ("}" + rest);
            ParseMembers(s) == Done(Members(ps), rest) && Begins(s, '"')
  {
    MembersSplit(ps);
    if |ps| == 1 {
      PieceReads(ps[0], "}" + rest);
      AfterClose('}', rest);
      assert Members(ps) == [Member(ps[0].key, ps[0].value)];
    } else {
      Associate(PieceText(ps[0]), ",", "", PiecesText(ps[1..]), "}" + rest);
      PiecesRead(ps[1..], rest);
      PiecesStep(ps[0], PiecesText(ps[1..]) + ("}" + rest));
    }
  }

  lemma ObjectStep(inner: string, ms: seq<Member>, rest: string)
    requires ParseMembers(inner) == Done(ms, rest) && Begins(inner, '"')
    ensures ParseValue("{" + inner) == Done(JObj(ms), rest) && SkipBlank("{" + inner) == "{" + inner
  {
    assert ("{" + inner)[1..] == inner;
  }

  lemma EmptyObject(rest: string)
    ensures ParseValue("{}" + rest) == Done(JObj([]), rest) && SkipBlank("{}" + rest) == "{}" + rest
  {
    assert ("{}" + rest)[1..] == "}" + rest;
    assert ("}" + rest)[1..] == rest;
  }

  lemma BracesAround(text: string, rest: string)
    ensures "{" + text + "}" + rest == "{" + (text + ("}" + rest))
    ensures "{" + "" + "}" == "{}"
  {
  }

  lemma ObjectRead(ps: seq<Piece>, rest: string)
    requires forall i | 0 <= i < |ps| :: Reads(ps[i].text, ps[i].value)
    ensures var s := "{" + PiecesText(ps) + "}" + rest;
            ParseValue(s) == Done(JObj(Members(ps)), rest) && SkipBlank(s) == s
  {
    BracesAround(PiecesText(ps), rest);
    if ps == [] {
      EmptyObject(rest);
    } else {
      PiecesRead(ps, rest);
      ObjectStep(PiecesText(ps) + ("}" + rest), Members(ps), rest);
    }
  }

  lemma ObjectReads(ps: seq<Piece>)
    requires forall i | 0 <= i < |ps| :: Reads(ps[i].text, ps[i].value)
    ensures Reads("{" + PiecesText(ps) + "}", JObj(Members(ps)))
  {
    forall rest | Stops(rest)
      ensures var s := "{" + PiecesText(ps) + "}" + rest;
              ParseValue(s) == Done(JObj(Members(ps)), rest) && SkipBlank(s) == s
    {
      ObjectRead(ps, rest);
    }
  }

  function Pieces(ms: seq<Member>): seq<Piece> {
    seq(|ms|, i requires 0 <= i < |ms| => Piece(ms[i].key, Print(ms[i].value), ms[i].value))
  }

  lemma {:induction false} PiecesOfMembers(ms: seq<Member>)
    ensures PiecesText(Pieces(ms)) == PrintMembers(ms)
    ensures Members(Pieces(ms)) == ms
  {
    if |ms| > 1 {
      PiecesOfMembers(ms[1..]);
      assert Pieces(ms)[1..] == Pieces(ms[1..]);
    }
  }

  lemma NoKeyword(s: string)
    requires s != "" && (Digit(s[0]) || s[0] == '-')
    ensures Keyword(s) == Fail
  {
    assert "null"[0] == 'n' && "true"[0] == 't' && "false"[0] == 'f';
  }

  lemma ParseNumber(s: string, literal: string, rest: string)
    requires s != "" && (Digit(s[0]) || s[0] == '-')
    requires literal != "" && NumberSpan(s) == |literal| && s[..|literal|] == literal && s[|literal|..] == rest
    ensures ParseValue(s) == if IsNumber(literal) then Done(JNum(literal), rest) else Fail
  {
    NoKeyword(s);
  }

  lemma PrefixAndRest(a: string, b: string)
    ensures (a + b)[..|a|] == a && (a + b)[|a|..] == b
    ensures a != "" ==> (a + b)[0] == a[0]
  {
  }

  lemma RoundTripNumber(literal: string, rest: string)
    requires IsNumber(literal) && Stops(rest)
    ensures ParseValue(literal + rest) == Done(JNum(literal), rest)
  {
    NumberChars(literal);
    SpanOfNumber(literal, rest);
    PrefixAndRest(literal, rest);
    ParseNumber(literal + rest, literal, rest);
  }

  lemma StringStep(t: string, text: string, rest: string)
    requires ReadString(text) == Done(t, rest)
    ensures ParseValue("\"" + text) == Done(JStr(t), rest)
  {
    assert ("\"" + text)[1..] == text;
  }

  lemma RoundTripString(t: string, rest: string)
    ensures ParseValue(Quote(t) + rest) == Done(JStr(t), rest)
  {
    ReadQuoted(t, rest);
    StringStep(t, Escape(t) + "\"" + rest, rest);
    QuotesAround(Escape(t), rest);
  }

  lemma QuotesAround(text: string, rest: string)
    ensures "\"" + text + "\"" + rest == "\"" + (text + "\"" + rest)
  {
  }

  lemma RoundTripKeyword(v: Json, rest: string)
    requires v.JNull? || v.JBool?
    ensures ParseValue(Print(v) + rest) == Done(v, rest)
  {
    var s := Print(v) + rest;
    PrefixAndRest(Print(v), rest);
    assert s[..4] == Print(v)[..4];
  }

  /** What json.Marshal prints is read back as the value it was given. */
  lemma {:induction false} RoundTrip(v: Json)
    requires WellFormed(v)
    ensures Reads(Print(v), v)
  {
    match v {
      case JArr(items) =>
        forall i | 0 <= i < |items| ensures Reads(Print(items[i]), items[i]) {
          RoundTrip(items[i]);
        }
        ArrayReads(items, "");
      case JObj(ms) =>
        forall i | 0 <= i < |ms| ensures Reads(Print(ms[i].value), ms[i].value) {
          RoundTrip(ms[i].value);
        }
        ObjectReads(Pieces(ms));
        PiecesOfMembers(ms);
      case _ => ScalarReads(v);
    }
  }

  lemma ScalarReads(v: Json)
    requires WellFormed(v) && !v.JArr? && !v.JObj?
    ensures Reads(Print(v), v)
  {
    forall rest | Stops(rest)
      ensures ParseValue(Print(v) + rest) == Done(v, rest)
      ensures SkipBlank(Print(v) + rest) == Print(v) + rest
    {
      PrintStart(v, rest);
      match v {
        case JNum(literal) => RoundTripNumber(literal, rest);
        case JStr(t) => RoundTripString(t, rest);
        case _ => RoundTripKeyword(v, rest);
      }
    }
  }

  /** One value with white space after it is a JSON text. */
  lemma ReadsDocument(text: string, v: Json, after: string)
    requires Reads(text, v) && AllBlank(after)
    ensures ParseDocument(text + after) == Some(v)
  {
    SkipGap(after, "");
    assert after + "" == after;
    assert Stops(after) by {
      if after != "" {
        assert Blank(after[0]);
      }
    }
  }

  // ----- Reading more text -----

  /** A value that was read completely is read the same when more text follows. */
  lemma {:induction false} ParseMore(s: string, t: string)
    requires var p := ParseValue(s); p.Done? && (p.value.JNum? ==> p.rest != "")
    ensures ParseValue(s + t) == Done(ParseValue(s).value, ParseValue(s).rest + t)
    decreases |s|, 0
  {
    var p := ParseValue(s);
    assert (s + t)[0] == s[0] && (s + t)[1..] == s[1..] + t;
    if s[0] == '{' || s[0] == '[' {
      var r := SkipBlank(s[1..]);
      assert r != "";
      SkipMore(s[1..], t);
      assert (r + t)[1..] == r[1..] + t;
      if s[0] == '{' && !Begins(r, '}') {
        ParseMembersMore(r, t);
      } else if s[0] == '[' && !Begins(r, ']') {
        ParseItemsMore(r, t);
      }
    } else if s[0] == '"' {
      ReadStringMore(s[1..], t);
    } else {
      LiteralMore(s, t);
    }
  }

  lemma KeywordMore(s: string, t: string)
    ensures Keyword(s).Done? ==> Keyword(s + t) == Done(Keyword(s).value, Keyword(s).rest + t)
  {
    if Keyword(s).Done? {
      var k := |s| - |Keyword(s).rest|;
      assert (s + t)[..k] == s[..k] && (s + t)[k..] == s[k..] + t;
    }
  }

  lemma LiteralMore(s: string, t: string)
    requires s != "" && s[0] != '{' && s[0] != '[' && s[0] != '"'
    requires var p := ParseValue(s); p.Done? && (p.value.JNum? ==> p.rest != "")
    ensures ParseValue(s + t) == Done(ParseValue(s).value, ParseValue(s).rest + t)
  {
    assert (s + t)[0] == s[0];
    if Keyword(s).Done? {
      KeywordMore(s, t);
    } else {
      NumberMore(s, t);
    }
  }

  lemma NumberParsed(s: string)
    requires s != "" && s[0] != '{' && s[0] != '[' && s[0] != '"' && Keyword(s).Fail?
    requires ParseValue(s).Done?
    ensures var n := NumberSpan(s);
            n > 0 && IsNumber(s[..n]) && ParseValue(s) == Done(JNum(s[..n]), s[n..])
  {
  }

  lemma NumberMore(s: string, t: string)
    requires s != "" && s[0] != '{' && s[0] != '[' && s[0] != '"' && Keyword(s).Fail?
    requires ParseValue(s).Done? && ParseValue(s).rest != ""
    ensures ParseValue(s + t) == Done(ParseValue(s).value, ParseValue(s).rest + t)
  {
    NumberParsed(s);
    var n := NumberSpan(s);
    NumberChars(s[..n]);
    SpanMore(s, t);
    Regroup(s, n, t);
    ParseNumber(s + t, s[..n], s[n..] + t);
  }

  lemma Regroup(s: string, n: nat, t: string)
    requires 0 < n <= |s|
    ensures (s + t)[..n] == s[..n] && (s + t)[n..] == s[n..] + t && (s + t)[0] == s[0] == s[..n][0]
  {
  }

  lemma {:induction false} ParseItemsMore(s: string, t: string)
    requires ParseItems(s).Done?
    ensures ParseItems(s + t) == Done(ParseItems(s).value, ParseItems(s).rest + t)
    decreases |s|, 1
  {
    var p := ParseValue(s);
    ParseMore(s, t);
    AfterMore(p.rest, ']', t);
    var f := AfterItem(p.rest, ']');
    if f.Another? {
      ParseItemsMore(f.text, t);
    }
  }

  lemma {:induction false} ParseMemberMore(s: string, t: string)
    requires var p := ParseMember(s); p.Done? && p.rest != ""
    ensures ParseMember(s + t) == Done(ParseMember(s).value, ParseMember(s).rest + t)
    decreases |s|, 0
  {
    assert (s + t)[1..] == s[1..] + t;
    ReadStringMore(s[1..], t);
    var rest := ReadString(s[1..]).rest;
    var r := SkipBlank(rest);
    SkipMore(rest, t);
    assert (r + t)[1..] == r[1..] + t;
    SkipMore(r[1..], t);
    ParseMore(SkipBlank(r[1..]), t);
  }

  lemma {:induction false} ParseMembersMore(s: string, t: string)
    requires ParseMembers(s).Done?
    ensures ParseMembers(s + t) == Done(ParseMembers(s).value, ParseMembers(s).rest + t)
    decreases |s|, 1
  {
    var p := ParseMember(s);
    ParseMemberMore(s, t);
    AfterMore(p.rest, '}', t);
    var f := AfterItem(p.rest, '}');
    if f.Another? {
      ParseMembersMore(f.text, t);
    }
  }

  // ----- Lists from their end -----

  lemma RegroupItems(a: string, c: string, gap: string, x: string, y: string)
    ensures a + c + gap + (x + y) == a + c + gap + x + y
    ensures a + (c + gap + y) == a + c + gap + y
  {
  }

  lemma HeadAndTail(items: seq<Json>, j: Json)
    requires items != []
    ensures (items + [j])[0] == items[0] && (items + [j])[1..] == items[1..] + [j]
    ensures |items| == 1 ==> items[1..] == []
  {
  }

  lemma {:induction false} PrintItemsAppend(items: seq<Json>, j: Json, gap: string)
    ensures PrintItems(items + [j], gap)
            == if items == [] then Print(j) else PrintItems(items, gap) + ("," + gap + Print(j))
  {
    if items == [] {
      assert items + [j] == [j];
    } else {
      PrintItemsAppend(items[1..], j, gap);
      HeadAndTail(items, j);
      RegroupItems(Print(items[0]), ",", gap, PrintItems(items[1..], gap), "," + gap + Print(j));
      RegroupItems(Print(items[0]), ",", gap, "", Print(j));
    }
  }

  // ----- What the printer never writes -----

  /** No control character, and none that json.Marshal escapes because HTML or JavaScript would read it otherwise. */
  predicate Safe(s: string) {
    forall i | 0 <= i < |s| ::
      s[i] as int >= 0x20 && s[i] !in {'<', '>', '&', '\U{2028}', '\U{2029}'}
  }

  lemma SafeConcat(s: string, t: string)
    requires Safe(s) && Safe(t)
    ensures Safe(s + t)
  {
  }

  lemma EscapedCharIsSafe(c: char)
    ensures Safe(EscapeChar(c))
  {
  }

  lemma {:induction false} EscapeIsSafe(s: string)
    ensures Safe(Escape(s))
  {
    if s != "" {
      EscapedCharIsSafe(s[0]);
      EscapeIsSafe(s[1..]);
      SafeConcat(EscapeChar(s[0]), Escape(s[1..]));
    }
  }

  lemma QuoteIsSafe(s: string)
    ensures Safe(Quote(s))
  {
    EscapeIsSafe(s);
  }

  lemma NumberIsSafe(literal: string)
    requires IsNumber(literal)
    ensures Safe(literal)
  {
    NumberChars(literal);
  }

  lemma KeywordIsSafe(v: Json)
    requires v.JNull? || v.JBool?
    ensures Safe(Print(v))
  {
  }

  lemma EnclosedIsSafe(open: string, s: string, close: string)
    requires Safe(s) && (open == "[" || open == "{") && (close == "]" || close == "}")
    ensures Safe(open + s + close)
  {
  }

  /** Whatever strings a value has, its text can be put into HTML and is one line. */
  lemma {:induction false} PrintIsSafe(v: Json)
    requires WellFormed(v)
    ensures Safe(Print(v))
    decreases v, 0
  {
    match v
    case JNum(literal) => NumberIsSafe(literal);
    case JStr(s) => QuoteIsSafe(s);
    case JArr(items) =>
      ItemsAreSafe(items);
      EnclosedIsSafe("[", PrintItems(items, ""), "]");
    case JObj(members) =>
      MembersAreSafe(members);
      EnclosedIsSafe("{", PrintMembers(members), "}");
    case _ => KeywordIsSafe(v);
  }

  lemma {:induction false} ItemsAreSafe(items: seq<Json>)
    requires AllWellFormed(items)
    ensures Safe(PrintItems(items, ""))
    decreases items, 1
  {
    if items != [] {
      PrintIsSafe(items[0]);
      if |items| > 1 {
        ItemsAreSafe(items[1..]);
        SafeConcat(Print(items[0]) + "," + "", PrintItems(items[1..], ""));
      }
    }
  }

  lemma {:induction false} MembersAreSafe(members: seq<Member>)
    requires forall i | 0 <= i < |members| :: WellFormed(members[i].value)
    ensures Safe(PrintMembers(members))
    decreases members, 1
  {
    if members != [] {
      QuoteIsSafe(members[0].key);
      PrintIsSafe(members[0].value);
      if |members| > 1 {
        MembersAreSafe(members[1..]);
        SafeConcat(PrintMember(members[0]) + ",", PrintMembers(members[1..]));
      }
    }
  }

  /** The escapes of section 7 of RFC 8259. */
  lemma EscapesRead(rest: string)
    ensures ReadChar("\\\"" + rest) == Character('"', rest) && ReadChar("\\\\" + rest) == Character('\\', rest)
    ensures ReadChar("\\/" + rest) == Character('/', rest) && ReadChar("\\b" + rest) == Character('\U{8}', rest)
    ensures ReadChar("\\f" + rest) == Character('\U{C}', rest) && ReadChar("\\n" + rest) == Character('\n', rest)
    ensures ReadChar("\\r" + rest) == Character('\r', rest) && ReadChar("\\t" + rest) == Character('\t', rest)
  {
    assert forall c: char :: ("\\" + [c] + rest)[2..] == rest;
    assert forall c: char :: ("\\" + [c] + rest)[0] == '\\' && ("\\" + [c] + rest)[1] == c;
  }

  /** Hexadecimal digits in both cases. */
  lemma HexDigits(v: int)
    requires 0 <= v < 16
    ensures HexDigit(v) == "0123456789abcdef"[v]
    ensures HexValue("0123456789abcdef"[v]) == HexValue("0123456789ABCDEF"[v]) == Some(v)
  {
  }

  /** The example of section 7 for a character beyond the basic plane; half a pair is not a character. */
  lemma SurrogatePairs(rest: string)
    ensures ReadUnicode("D834" + ("\\uDD1E" + rest)) == Character('\U{1D11E}', rest)
    ensures ReadUnicode("DD1E" + rest).Malformed?
  {
    var pair, half := "D834" + ("\\uDD1E" + rest), "DD1E" + rest;
    assert pair[6..] == "DD1E" + rest && pair[10..] == rest;
    assert FourHex("D834" + ("\\uDD1E" + rest)) == Some(0xD834);
    assert FourHex(half) == Some(0xDD1E);
  }

  /** What section 6 of RFC 8259 takes for a number and what not. */
  lemma NumberExamples()
    ensures IsNumber("0") && IsNumber("-1") && !IsNumber("") && !IsNumber("-") && !IsNumber("01") && !IsNumber("+1")
  {
  }

  /** A fraction and an exponent need digits. */
  lemma FractionNeedsDigits(digits: string)
    requires digits == "" || DigitSpan(digits) == |digits|
    ensures IsFractionExponent("." + digits) <==> digits != ""
    ensures IsExponent("e" + digits) <==> digits != ""
  {
    var fraction, exponent := "." + digits, "e" + digits;
    assert fraction[1..] == digits && exponent[1..] == digits && digits[|digits|..] == "";
    if digits != "" {
      assert Digit(digits[0]) && IsExponent("");
      assert |exponent| > 1 && exponent[1] == digits[0];
    }
  }
}
