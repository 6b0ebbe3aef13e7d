/** Header redaction: middlewares composed by New, rewriting an entry's own copies of the headers in place. */
module Middleware {
  import opened Common

  // ----- http.CanonicalHeaderKey -----

  /** The characters of a token (section 5.6.2 of RFC 9110). */
  predicate TokenChar(c: char) {
    'a' <= c <= 'z' || 'A' <= c <= 'Z' || '0' <= c <= '9' || c in "!#$%&'*+-.^_`|~"
  }

  predicate Token(s: string) {
    forall i | 0 <= i < |s| :: TokenChar(s[i])
  }

  function Upper(c: char): char {
    if 'a' <= c <= 'z' then (c as int - 32) as char else c
  }

  function Lower(c: char): char {
    if 'A' <= c <= 'Z' then (c as int + 32) as char else c
  }

  /** A capital at the beginning and after each dash. */
  function Capitalized(s: string, capital: bool): (r: string)
    ensures |r| == |s|
  {
    if s == "" then ""
    else [if capital then Upper(s[0]) else Lower(s[0])] + Capitalized(s[1..], s[0] == '-')
  }

  /** A name with a character that no header name has stays as it is. */
  function CanonicalHeaderKey(s: string): string {
    if Token(s) then Capitalized(s, true) else s
  }

  /** Names that differ only in the case of letters are the same header. */
  predicate SameHeader(a: string, b: string) {
    CanonicalHeaderKey(a) == CanonicalHeaderKey(b)
  }

  /** Two characters that are one letter in different cases, or the same. */
  predicate SameLetter(c: char, d: char) {
    || c == d
    || ('A' <= c <= 'Z' && d as int == c as int + 32)
    || ('A' <= d <= 'Z' && c as int == d as int + 32)
  }

  predicate SameLetters(a: string, b: string) {
    |a| == |b| && forall i | 0 <= i < |a| :: SameLetter(a[i], b[i])
  }

  lemma CaseIsFolded(c: char, d: char)
    ensures Upper(c) == Upper(d) <==> SameLetter(c, d)
    ensures Lower(c) == Lower(d) <==> SameLetter(c, d)
    ensures SameLetter(c, d) ==> (TokenChar(c) <==> TokenChar(d)) && (c == '-' <==> d == '-')
  {
  }

  lemma {:induction false} CapitalizedFolds(a: string, b: string, capital: bool)
    ensures Capitalized(a, capital) == Capitalized(b, capital) <==> SameLetters(a, b)
  {
    if a != "" && b != "" {
      CaseIsFolded(a[0], b[0]);
      var x, y := Capitalized(a, capital), Capitalized(b, capital);
      assert x[1..] == Capitalized(a[1..], a[0] == '-') && y[1..] == Capitalized(b[1..], b[0] == '-');
      assert SameLetters(a, b) <==> SameLetter(a[0], b[0]) && SameLetters(a[1..], b[1..]);
      if SameLetter(a[0], b[0]) {
        CapitalizedFolds(a[1..], b[1..], a[0] == '-');
        assert x == [x[0]] + x[1..] && y == [y[0]] + y[1..];
      }
    }
  }

  lemma {:induction false} CapitalizedTokens(s: string, capital: bool)
    ensures Token(Capitalized(s, capital)) <==> Token(s)
  {
    if s != "" {
      CapitalizedTokens(s[1..], s[0] == '-');
      var x := Capitalized(s, capital);
      assert x[1..] == Capitalized(s[1..], s[0] == '-');
      assert Token(x) <==> TokenChar(x[0]) && Token(x[1..]);
      assert Token(s) <==> TokenChar(s[0]) && Token(s[1..]);
    }
  }

  /**
   * Names are the same header exactly when they are equal letter by letter up to the case of ASCII letters; a name
   * with a character that no token has is the same as itself only.
   */
  lemma SameHeaderIff(a: string, b: string)
    ensures SameHeader(a, b) <==> a == b || (Token(a) && SameLetters(a, b))
  {
    CapitalizedFolds(a, b, true);
    CapitalizedTokens(a, true);
    CapitalizedTokens(b, true);
    if SameLetters(a, b) {
      forall i | 0 <= i < |a| ensures TokenChar(a[i]) <==> TokenChar(b[i]) {
        CaseIsFolded(a[i], b[i]);
      }
    }
  }

  /** So for the names there are in practice only case does not matter. */
  lemma LettersDigitsDashes(a: string, b: string)
    requires forall i | 0 <= i < |a| ::
               'a' <= a[i] <= 'z' || 'A' <= a[i] <= 'Z' || '0' <= a[i] <= '9' || a[i] == '-' || a[i] == '_'
    ensures SameHeader(a, b) <==> SameLetters(a, b)
  {
    SameHeaderIff(a, b);
  }

  // ----- Headers -----

  class Header {
    var name: string
    var value: string

    constructor (name: string, value: string)
      ensures this.name == name && this.value == value
    {
      this.name, this.value := name, value;
    }
  }

  /** har.Entry as far as its headers go; a request or a response may be missing. */
  class Entry {
    var request: Option<seq<Header>>
    var response: Option<seq<Header>>

    constructor (request: Option<seq<Header>>, response: Option<seq<Header>>)
      ensures this.request == request && this.response == response
    {
      this.request, this.response := request, response;
    }
  }

  function Listed(hs: Option<seq<Header>>): seq<Header> {
    if hs.None? then [] else hs.value
  }

  /** The header objects of an entry. */
  ghost function Headers(e: Entry): set<Header>
    reads e
  {
    set h | h in Listed(e.request) + Listed(e.response)
  }

  datatype Field = Field(name: string, value: string)

  function Fields(hs: seq<Header>): (fs: seq<Field>)
    reads hs
    ensures |fs| == |hs|
  {
    seq(|hs|, i requires 0 <= i < |hs| reads hs => Field(hs[i].name, hs[i].value))
  }

  function OptFields(hs: Option<seq<Header>>): Option<seq<Field>>
    reads Listed(hs)
  {
    if hs.None? then None else Some(Fields(hs.value))
  }

  // ----- Middlewares -----

  /** The header and the value given to RedactHeader. */
  datatype Redaction = Redaction(header: string, value: string)

  /** An EntryReceiver: the receiver's Entry, or a middleware around another one. */
  datatype EntryReceiver = Final | Redacting(r: Redaction, recv: EntryReceiver)

  /** The fold of New: each middleware is put around what the ones before it have made. */
  function Composed(mws: seq<Redaction>): EntryReceiver {
    if mws == [] then Final else Redacting(mws[|mws| - 1], Composed(mws[..|mws| - 1]))
  }

  method Compose(mws: seq<Redaction>) returns (sendEntry: EntryReceiver)
    ensures sendEntry == Composed(mws)
  {
    sendEntry := Final;
    for i := 0 to |mws|
      invariant sendEntry == Composed(mws[..i])
    {
      sendEntry := Redacting(mws[i], sendEntry);
      assert mws[..i + 1][..i] == mws[..i];
    }
    assert mws[..|mws|] == mws;
  }

  /** What a chain makes of a header's value. */
  function Outcome(recv: EntryReceiver, name: string, value: string): string {
    match recv
    case Final => value
    case Redacting(r, next) => Outcome(next, name, if SameHeader(r.header, name) then r.value else value)
  }

  /** The value of the first middleware in the list that is for a header, or the original value. */
  function FirstListed(mws: seq<Redaction>, name: string, value: string): string {
    if mws == [] then value
    else if SameHeader(mws[0].header, name) then mws[0].value
    else FirstListed(mws[1..], name, value)
  }

  /** The middleware listed last runs first, so the one listed first has the last word. */
  lemma {:induction false} FirstListedWins(mws: seq<Redaction>, name: string, value: string)
    ensures Outcome(Composed(mws), name, value) == FirstListed(mws, name, value)
  {
    if mws != [] {
      var n := |mws| - 1;
      var value' := if SameHeader(mws[n].header, name) then mws[n].value else value;
      FirstListedWins(mws[..n], name, value');
      FirstListedLast(mws, name, value);
    }
  }

  lemma {:induction false} FirstListedLast(mws: seq<Redaction>, name: string, value: string)
    requires mws != []
    ensures var n := |mws| - 1;
            FirstListed(mws, name, value)
            == FirstListed(mws[..n], name, if SameHeader(mws[n].header, name) then mws[n].value else value)
  {
    if |mws| > 1 {
      FirstListedLast(mws[1..], name, value);
      assert mws[1..][..|mws| - 2] == mws[..|mws| - 1][1..];
    } else {
      assert mws[1..] == [] && mws[..0] == [];
    }
  }

  /** The loop over the headers of a request or a response. A header object may be listed more than once. */
  method RedactAll(hs: seq<Header>, key: string, value: string)
    modifies hs
    ensures forall h | h in hs :: h.name == old(h.name)
    ensures forall h | h in hs :: h.value == if key == CanonicalHeaderKey(h.name) then value else old(h.value)
  {
    for i := 0 to |hs|
      invariant forall h | h in hs :: h.name == old(h.name)
      invariant forall h | h in hs ::
                  h.value == if h in hs[..i] && key == CanonicalHeaderKey(h.name) then value else old(h.value)
    {
      if key == CanonicalHeaderKey(hs[i].name) {
        hs[i].value := value;
      }
      assert hs[..i + 1] == hs[..i] + [hs[i]];
    }
    assert hs[..|hs|] == hs;
  }

  /** What the receiver at the end has been given, as it was at the time. */
  datatype Delivered = Delivered(request: Option<seq<Field>>, response: Option<seq<Field>>)

  class Receiver {
    var entries: seq<Delivered>
    // What Entry returns.
    const err: bool

    constructor (err: bool)
      ensures entries == [] && this.err == err
    {
      entries, this.err := [], err;
    }

    method Entry(entry: Entry) returns (ok: bool)
      modifies this
      ensures ok == !err
      ensures entries == old(entries) + [Delivered(OptFields(entry.request), OptFields(entry.response))]
    {
      entries := entries + [Delivered(OptFields(entry.request), OptFields(entry.response))];
      ok := !err;
    }
  }

  function Redacted(recv: EntryReceiver, fs: seq<Field>): (r: seq<Field>)
    ensures |r| == |fs|
  {
    seq(|fs|, i requires 0 <= i < |fs| => Field(fs[i].name, Outcome(recv, fs[i].name, fs[i].value)))
  }

  function OptRedacted(recv: EntryReceiver, fs: Option<seq<Field>>): Option<seq<Field>> {
    if fs.None? then None else Some(Redacted(recv, fs.value))
  }

  lemma RedactedFinal(fs: Option<seq<Field>>)
    ensures OptRedacted(Final, fs) == fs
  {
    if fs.Some? {
      assert Redacted(Final, fs.value) == fs.value;
    }
  }

  /** What one middleware has done to the fields of a list. */
  predicate Rewritten(r: Redaction, before: Option<seq<Field>>, after: Option<seq<Field>>) {
    && before.Some? == after.Some?
    && (before.Some? ==>
          && |before.value| == |after.value|
          && forall i | 0 <= i < |before.value| ::
               var f := before.value[i];
               after.value[i] == Field(f.name, if SameHeader(r.header, f.name) then r.value else f.value))
  }

  lemma RedactedOnce(r: Redaction, next: EntryReceiver, before: Option<seq<Field>>, after: Option<seq<Field>>)
    requires Rewritten(r, before, after)
    ensures OptRedacted(next, after) == OptRedacted(Redacting(r, next), before)
  {
    if before.Some? {
      assert Redacted(next, after.value) == Redacted(Redacting(r, next), before.value);
    }
  }

  /** What RedactHeader does to an entry before passing it on. */
  method RedactEntry(r: Redaction, entry: Entry)
    modifies Headers(entry)
    ensures Rewritten(r, old(OptFields(entry.request)), OptFields(entry.request))
    ensures Rewritten(r, old(OptFields(entry.response)), OptFields(entry.response))
  {
    var key := CanonicalHeaderKey(r.header);
    if entry.request.Some? {
      RedactAll(entry.request.value, key, r.value);
    }
    if entry.response.Some? {
      RedactAll(entry.response.value, key, r.value);
    }
  }

  /** An entry goes through a chain: names, number and order of its headers stay, each value becomes its outcome. */
  method Send(recv: EntryReceiver, entry: Entry, receiver: Receiver) returns (ok: bool)
    modifies Headers(entry), receiver
    ensures ok == !receiver.err
    ensures receiver.entries == old(receiver.entries)
                                + [Delivered(OptRedacted(recv, old(OptFields(entry.request))),
                                             OptRedacted(recv, old(OptFields(entry.response))))]
    decreases recv
  {
    match recv {
      case Final =>
        ok := receiver.Entry(entry);
        RedactedFinal(old(OptFields(entry.request)));
        RedactedFinal(old(OptFields(entry.response)));
      case Redacting(r, next) =>
        ghost var req, rsp := OptFields(entry.request), OptFields(entry.response);
        RedactEntry(r, entry);
        RedactedOnce(r, next, req, OptFields(entry.request));
        RedactedOnce(r, next, rsp, OptFields(entry.response));
        ok := Send(next, entry, receiver);
    }
  }

  // ----- The live headers -----

  /** An http.Header, which belongs to the request or response in flight. */
  class LiveHeaders {
    var fields: map<string, seq<string>>

    constructor (fields: map<string, seq<string>>)
      ensures this.fields == fields
    {
      this.fields := fields;
    }
  }

  /** The values that a list of fields has for a name, in order. */
  function ValuesOf(fs: seq<Field>, name: string): seq<string> {
    if fs == [] then []
    else
      var last := fs[|fs| - 1];
      ValuesOf(fs[..|fs| - 1], name) + if last.name == name then [last.value] else []
  }

  /** A list holds exactly the values of some headers, each header's in order. */
  ghost predicate Holds(fs: seq<Field>, fields: map<string, seq<string>>) {
    forall name :: ValuesOf(fs, name) == if name in fields then fields[name] else []
  }

  lemma ValuesOfAppend(fs: seq<Field>, f: Field, name: string)
    ensures ValuesOf(fs + [f], name) == ValuesOf(fs, name) + if f.name == name then [f.value] else []
  {
    assert (fs + [f])[..|fs|] == fs;
  }

  function NewFields(header: string, values: seq<string>): (fs: seq<Field>)
    ensures |fs| == |values|
  {
    seq(|values|, i requires 0 <= i < |values| => Field(header, values[i]))
  }

  lemma {:induction false} ValuesOfNew(fs: seq<Field>, header: string, values: seq<string>, name: string)
    ensures ValuesOf(fs + NewFields(header, values), name)
            == if name == header then ValuesOf(fs, name) + values else ValuesOf(fs, name)
  {
    if values == [] {
      assert fs + NewFields(header, values) == fs;
    } else {
      var n := |values| - 1;
      ValuesOfNew(fs, header, values[..n], name);
      assert values == values[..n] + [values[n]];
      assert fs + NewFields(header, values) == fs + NewFields(header, values[..n]) + [Field(header, values[n])];
      ValuesOfAppend(fs + NewFields(header, values[..n]), Field(header, values[n]), name);
    }
  }

  /** The inner loop of convertHeaders: one new object for each value of a header. */
  method AppendValues(hs: seq<Header>, header: string, values: seq<string>) returns (retr: seq<Header>)
    ensures forall h | h in retr :: h in hs || fresh(h)
    ensures Fields(retr) == Fields(hs) + NewFields(header, values)
  {
    retr := hs;
    assert Fields(hs) + NewFields(header, values[..0]) == Fields(hs);
    for i := 0 to |values|
      invariant forall h | h in retr :: h in hs || fresh(h)
      invariant Fields(retr) == Fields(hs) + NewFields(header, values[..i])
    {
      ghost var before := Fields(retr);
      var h := new Header(header, values[i]);
      retr := retr + [h];
      assert Fields(retr) == before + [Field(header, values[i])];
      assert NewFields(header, values[..i + 1]) == NewFields(header, values[..i]) + [Field(header, values[i])];
    }
    TakeAll(values);
  }

  /** A list holds exactly the values of some headers, except of those that are left. */
  ghost predicate HoldsBut(fs: seq<Field>, fields: map<string, seq<string>>, left: set<string>) {
    forall name :: ValuesOf(fs, name) == if name in fields && name !in left then fields[name] else []
  }

  lemma OneHeaderMore(fs: seq<Field>, fields: map<string, seq<string>>, left: set<string>, header: string)
    requires HoldsBut(fs, fields, left) && header in left && header in fields
    ensures HoldsBut(fs + NewFields(header, fields[header]), fields, left - {header})
  {
    forall name
      ensures ValuesOf(fs + NewFields(header, fields[header]), name)
              == if name in fields && name !in left - {header} then fields[name] else []
    {
      ValuesOfNew(fs, header, fields[header], name);
      assert ValuesOf(fs, name) == if name in fields && name !in left then fields[name] else [];
    }
  }

  /** convertHeaders: new objects for all values; the order of the names is whatever the map yields. */
  method ConvertHeaders(live: LiveHeaders) returns (retr: seq<Header>)
    ensures forall h | h in retr :: fresh(h)
    ensures Holds(Fields(retr), live.fields)
  {
    retr := [];
    var left := live.fields.Keys;
    while left != {}
      invariant left <= live.fields.Keys
      invariant forall h | h in retr :: fresh(h)
      invariant HoldsBut(Fields(retr), live.fields, left)
    {
      var header :| header in left;
      OneHeaderMore(Fields(retr), live.fields, left, header);
      retr := AppendValues(retr, header, live.fields[header]);
      left := left - {header};
    }
  }

  /**
   * Recording an exchange: the headers are copied, the copies go through the middlewares, and the receiver is given
   * for each header what the first listed middleware for it says. The headers in flight are not touched.
   */
  method RecordHeaders(request: LiveHeaders, response: LiveHeaders, mws: seq<Redaction>,
                       receiver: Receiver) returns (ok: bool)
    modifies receiver
    ensures ok == !receiver.err
    ensures exists req, rsp ::
              && Holds(req, request.fields) && Holds(rsp, response.fields)
              && receiver.entries == old(receiver.entries)
                                     + [Delivered(Some(Redacted(Composed(mws), req)),
                                                  Some(Redacted(Composed(mws), rsp)))]
  {
    var sendEntry := Compose(mws);
    var reqHeaders := ConvertHeaders(request);
    var rspHeaders := ConvertHeaders(response);
    var entry := new Entry(Some(reqHeaders), Some(rspHeaders));
    ghost var req, rsp := Fields(reqHeaders), Fields(rspHeaders);
    assert forall h | h in Headers(entry) :: fresh(h);
    ok := Send(sendEntry, entry, receiver);
    assert Holds(req, request.fields) && Holds(rsp, response.fields);
  }

  /** What the receiver finds under a name: as many values as were live, each redacted or as it was. */
  lemma {:induction false} RedactedValues(mws: seq<Redaction>, fs: seq<Field>, name: string)
    ensures var live, seen := ValuesOf(fs, name), ValuesOf(Redacted(Composed(mws), fs), name);
            && |seen| == |live|
            && forall i | 0 <= i < |live| :: seen[i] == FirstListed(mws, name, live[i])
  {
    if fs != [] {
      var n := |fs| - 1;
      RedactedValues(mws, fs[..n], name);
      FirstListedWins(mws, fs[n].name, fs[n].value);
      assert Redacted(Composed(mws), fs)[..n] == Redacted(Composed(mws), fs[..n]);
    }
  }
}
