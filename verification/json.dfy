/** JSON texts: values, the printer that json.Marshal is, and a parser for RFC 8259. */
module Json {
  import opened Common
  import opened Decimals

  /** A number is kept as its literal, in the grammar of section 6 of RFC 8259. */
  datatype Json =
    | JNull
    | JBool(b: bool)
    | JNum(literal: string)
    | JStr(s: string)
    | JArr(items: seq<Json>)
    | JObj(members: seq<Member>)

  datatype Member = Member(key: string, value: Json)

  datatype Parsed<+T> = Fail | Done(value: T, rest: string)

  /** Begins: s is not empty and its first character is c. */
  predicate Begins(s: string, c: char) {
    s != "" && s[0] == c
  }

  // ----- White space (section 2) -----

  predicate Blank(c: char) {
    c == ' ' || c == '\t' || c == '\n' || c == '\r'
  }

  predicate AllBlank(s: string) {
    forall i | 0 <= i < |s| :: Blank(s[i])
  }

  function SkipBlank(s: string): (r: string)
    ensures |r| <= |s|
    ensures r != "" ==> !Blank(r[0])
  {
    if s != "" && Blank(s[0]) then SkipBlank(s[1..]) else s
  }

  // ----- Numbers (section 6) -----

  predicate NumberChar(c: char) {
    Digit(c) || c in "+-.eE"
  }

  function DigitSpan(s: string): (n: nat)
    ensures n <= |s|
    ensures forall i | 0 <= i < n :: Digit(s[i])
  {
    if s != "" && Digit(s[0]) then 1 + DigitSpan(s[1..]) else 0
  }

  function NumberSpan(s: string): (n: nat)
    ensures n <= |s|
  {
    if s != "" && NumberChar(s[0]) then 1 + NumberSpan(s[1..]) else 0
  }

  /** number = [ minus ] int [ frac ] [ exp ] */
  predicate IsNumber(s: string) {
    var t := if Begins(s, '-') then s[1..] else s;
    var n := DigitSpan(t);
    n >= 1 && (t[0] == '0' ==> n == 1) && IsFractionExponent(t[n..])
  }

  predicate IsFractionExponent(s: string) {
    if Begins(s, '.') then
      var n := DigitSpan(s[1..]);
      n >= 1 && IsExponent(s[1..][n..])
    else
      IsExponent(s)
  }

  predicate IsExponent(s: string) {
    s != "" ==>
      && (s[0] == 'e' || s[0] == 'E')
      && var t := if |s| > 1 && (s[1] == '+' || s[1] == '-') then s[2..] else s[1..];
         t != "" && DigitSpan(t) == |t|
  }

  // ----- Strings (section 7) -----

  function HexDigit(v: int): char
    requires 0 <= v < 16
  {
    if v < 10 then '0' + v as char else 'a' + (v - 10) as char
  }

  function HexValue(c: char): (v: Option<int>)
    ensures v.Some? ==> 0 <= v.value < 16
  {
    if Digit(c) then Some(c as int - '0' as int)
    else if 'a' <= c <= 'f' then Some(c as int - 'a' as int + 10)
    else if 'A' <= c <= 'F' then Some(c as int - 'A' as int + 10)
    else None
  }

  /** A character inside a JSON string, with the escapes json.Marshal uses (HTML escaping is on). */
  function EscapeChar(c: char): string {
    if c == '"' then "\\\""
    else if c == '\\' then "\\\\"
    else if c == '\U{8}' then "\\b"
    else if c == '\U{C}' then "\\f"
    else if c == '\n' then "\\n"
    else if c == '\r' then "\\r"
    else if c == '\t' then "\\t"
    else if c as int < 0x20 || c == '<' || c == '>' || c == '&' then
      ['\\', 'u', '0', '0', HexDigit(c as int / 16), HexDigit(c as int % 16)]
    else if c == '\U{2028}' then "\\u2028"
    else if c == '\U{2029}' then "\\u2029"
    else [c]
  }

  function Escape(s: string): string {
    if s == "" then "" else EscapeChar(s[0]) + Escape(s[1..])
  }

  /** What the next character of a string being read is. */
  datatype Next = Malformed | Closing(rest: string) | Character(c: char, rest: string)

  function FourHex(s: string): (v: Option<int>)
    ensures v.Some? ==> |s| >= 4 && 0 <= v.value < 0x1_0000
  {
    if |s| < 4 then None
    else
      match (HexValue(s[0]), HexValue(s[1]), HexValue(s[2]), HexValue(s[3]))
      case (Some(p), Some(q), Some(r), Some(t)) => Some(((p * 16 + q) * 16 + r) * 16 + t)
      case _ => None
  }

  /** After \u: one code unit, or two that form a surrogate pair. */
  function ReadUnicode(s: string): Next {
    match FourHex(s)
    case None => Malformed
    case Some(v) =>
      if v < 0xD800 || 0xE000 <= v then Character(v as char, s[4..])
      else if v < 0xDC00 && |s| >= 6 && s[4] == '\\' && s[5] == 'u' then
        match FourHex(s[6..])
        case Some(w) =>
          if 0xDC00 <= w < 0xE000 then
            Character((0x1_0000 + (v - 0xD800) * 0x400 + (w - 0xDC00)) as char, s[10..])
          else Malformed
        case None => Malformed
      else Malformed
  }

  function ReadChar(s: string): (n: Next)
    ensures !n.Malformed? ==> |n.rest| < |s|
  {
    if s == "" then Malformed
    else if s[0] == '"' then Closing(s[1..])
    else if s[0] == '\\' then
      if |s| < 2 then Malformed
      else if s[1] == '"' || s[1] == '\\' || s[1] == '/' then Character(s[1], s[2..])
      else if s[1] == 'b' then Character('\U{8}', s[2..])
      else if s[1] == 'f' then Character('\U{C}', s[2..])
      else if s[1] == 'n' then Character('\n', s[2..])
      else if s[1] == 'r' then Character('\r', s[2..])
      else if s[1] == 't' then Character('\t', s[2..])
      else if s[1] == 'u' then ReadUnicode(s[2..])
      else Malformed
    else if s[0] as int < 0x20 then Malformed
    else Character(s[0], s[1..])
  }

  /** The characters up to the closing quotation mark. */
  function ReadString(s: string): (p: Parsed<string>)
    ensures p.Done? ==> |p.rest| < |s|
    decreases |s|
  {
    match ReadChar(s)
    case Malformed => Fail
    case Closing(rest) => Done("", rest)
    case Character(c, rest) =>
      match ReadString(rest)
      case Fail => Fail
      case Done(t, rest') => Done([c] + t, rest')
  }

  // ----- The printer: json.Marshal -----

  function Print(v: Json): string
    decreases v, 0
  {
    match v
    case JNull => "null"
    case JBool(b) => if b then "true" else "false"
    case JNum(literal) => literal
    case JStr(s) => Quote(s)
    case JArr(items) => "[" + PrintItems(items, "") + "]"
    case JObj(members) => "{" + PrintMembers(members) + "}"
  }

  function Quote(s: string): string {
    "\"" + Escape(s) + "\""
  }

  /** Items separated by commas; each comma is followed by gap. */
  function PrintItems(items: seq<Json>, gap: string): string
    decreases items, 1
  {
    if items == [] then ""
    else if |items| == 1 then Print(items[0])
    else Print(items[0]) + "," + gap + PrintItems(items[1..], gap)
  }

  function PrintMembers(members: seq<Member>): string
    decreases members, 1
  {
    if members == [] then ""
    else if |members| == 1 then PrintMember(members[0])
    else PrintMember(members[0]) + "," + PrintMembers(members[1..])
  }

  function PrintMember(m: Member): string
    decreases m, 1
  {
    Quote(m.key) + ":" + Print(m.value)
  }

  /** The values json.Marshal can produce: every number literal is a JSON number. */
  predicate WellFormed(v: Json) {
    match v
    case JNum(literal) => IsNumber(literal)
    case JArr(items) => forall i | 0 <= i < |items| :: WellFormed(items[i])
    case JObj(members) => forall i | 0 <= i < |members| :: WellFormed(members[i].value)
    case _ => true
  }

  predicate AllWellFormed(items: seq<Json>) {
    forall i | 0 <= i < |items| :: WellFormed(items[i])
  }

  // ----- The parser (sections 2 to 7) -----

  /** The three literal names (section 3). */
  function Keyword(s: string): (p: Parsed<Json>)
    ensures p.Done? ==> |p.rest| < |s| && !p.value.JNum?
  {
    if "null" <= s then Done(JNull, s[4..])
    else if "true" <= s then Done(JBool(true), s[4..])
    else if "false" <= s then Done(JBool(false), s[5..])
    else Fail
  }

  function ParseValue(s: string): (p: Parsed<Json>)
    ensures p.Done? ==> |p.rest| < |s|
    decreases |s|, 0
  {
    if s == "" then Fail
    else if s[0] == '{' then
      var r := SkipBlank(s[1..]);
      if Begins(r, '}') then Done(JObj([]), r[1..])
      else
        match ParseMembers(r)
        case Fail => Fail
        case Done(ms, rest) => Done(JObj(ms), rest)
    else if s[0] == '[' then
      var r := SkipBlank(s[1..]);
      if Begins(r, ']') then Done(JArr([]), r[1..])
      else
        match ParseItems(r)
        case Fail => Fail
        case Done(vs, rest) => Done(JArr(vs), rest)
    else if s[0] == '"' then
      match ReadString(s[1..])
      case Fail => Fail
      case Done(t, rest) => Done(JStr(t), rest)
    else if Keyword(s).Done? then Keyword(s)
    else
      var n := NumberSpan(s);
      if n > 0 && IsNumber(s[..n]) then Done(JNum(s[..n]), s[n..]) else Fail
  }

  /** What follows an item of a list: its end, another item, or neither. */
  datatype Follow = Ended(rest: string) | Another(text: string) | Broken

  function AfterItem(s: string, close: char): (f: Follow)
    ensures f.Ended? ==> |f.rest| < |s|
    ensures f.Another? ==> |f.text| < |s|
  {
    var r := SkipBlank(s);
    if Begins(r, close) then Ended(r[1..])
    else if Begins(r, ',') then Another(SkipBlank(r[1..]))
    else Broken
  }

  /** One or more values up to the closing bracket. */
  function ParseItems(s: string): (p: Parsed<seq<Json>>)
    ensures p.Done? ==> |p.rest| < |s|
    decreases |s|, 1
  {
    match ParseValue(s)
    case Fail => Fail
    case Done(v, rest) =>
      match AfterItem(rest, ']')
      case Ended(after) => Done([v], after)
      case Broken => Fail
      case Another(text) =>
        match ParseItems(text)
        case Fail => Fail
        case Done(vs, after) => Done([v] + vs, after)
  }

  function ParseMember(s: string): (p: Parsed<Member>)
    ensures p.Done? ==> |p.rest| < |s|
    decreases |s|, 0
  {
    if !Begins(s, '"') then Fail
    else
      match ReadString(s[1..])
      case Fail => Fail
      case Done(key, rest) =>
        var r := SkipBlank(rest);
        if !Begins(r, ':') then Fail
        else
          match ParseValue(SkipBlank(r[1..]))
          case Fail => Fail
          case Done(v, rest') => Done(Member(key, v), rest')
  }

  /** One or more members up to the closing brace. */
  function ParseMembers(s: string): (p: Parsed<seq<Member>>)
    ensures p.Done? ==> |p.rest| < |s|
    decreases |s|, 1
  {
    match ParseMember(s)
    case Fail => Fail
    case Done(m, rest) =>
      match AfterItem(rest, '}')
      case Ended(after) => Done([m], after)
      case Broken => Fail
      case Another(text) =>
        match ParseMembers(text)
        case Fail => Fail
        case Done(ms, after) => Done([m] + ms, after)
  }

  /** A JSON text is one value with white space around it. */
  function ParseDocument(s: string): Option<Json> {
    match ParseValue(SkipBlank(s))
    case Fail => None
    case Done(v, rest) => if SkipBlank(rest) == "" then Some(v) else None
  }
}
