/** HTTP archives: the document each receiver writes, and the archive a reader finds in it. */
module Archives {
  import opened Common
  import opened Json
  import JsonProofs
  import Utf8

  /** receiver.Version */
  datatype Version = Version(harVersion: string, version: string, creator: string)

  /** What an archive says. Entries and pages are the values json.Marshal makes of them. */
  datatype Archive = Archive(version: Version, pages: seq<Json>, entries: seq<Json>)

  /** An item handed to a receiver: json.Marshal succeeds on some values and fails on others. */
  datatype Item = Good(json: Json) | Unmarshalable

  predicate AllGood(items: seq<Item>) {
    forall i | 0 <= i < |items| :: items[i].Good?
  }

  function Jsons(items: seq<Item>): (r: seq<Json>)
    requires AllGood(items)
  {
    seq(|items|, i requires 0 <= i < |items| => items[i].json)
  }

  /** json.Marshal gives valid JSON: the number literals of an item are JSON numbers. */
  predicate Proper(item: Item) {
    item.Good? ==> WellFormed(item.json)
  }

  predicate AllProper(items: seq<Item>) {
    forall i | 0 <= i < |items| :: Proper(items[i])
  }

  predicate WellFormedArchive(a: Archive) {
    AllWellFormed(a.pages) && AllWellFormed(a.entries)
  }

  // ----- Calls to a receiver -----

  /** A call made between Start and Close, with what it returned. */
  datatype Call =
    | Entry(item: Item, ok: bool)
    | Page(item: Item)
    | Flush(ok: bool)

  /** The entries whose Entry call returned nil, in order. */
  function AcceptedEntries(calls: seq<Call>): seq<Item> {
    if calls == [] then []
    else
      var last := calls[|calls| - 1];
      AcceptedEntries(calls[..|calls| - 1]) + if last.Entry? && last.ok then [last.item] else []
  }

  /** The pages handed over, in order. */
  function DeliveredPages(calls: seq<Call>): seq<Item> {
    if calls == [] then []
    else
      var last := calls[|calls| - 1];
      DeliveredPages(calls[..|calls| - 1]) + if last.Page? then [last.item] else []
  }

  // ----- The document of HARFileReceiver: the whole structure through json.Encoder -----

  function CreatorMembers(v: Version): seq<Member> {
    [Member("name", JStr(v.creator)), Member("version", JStr(v.version))]
  }

  function Creator(v: Version): Json {
    JObj(CreatorMembers(v))
  }

  /** har.Log has pages before entries; the streaming receiver writes them the other way round. */
  function LogMembers(a: Archive, entriesFirst: bool): seq<Member> {
    var pages, entries := Member("pages", JArr(a.pages)), Member("entries", JArr(a.entries));
    [Member("version", JStr(a.version.harVersion)), Member("creator", Creator(a.version))]
    + if entriesFirst then [entries, pages] else [pages, entries]
  }

  function HarFileJson(a: Archive): Json {
    JObj([Member("log", JObj(LogMembers(a, false)))])
  }

  function HarFileText(a: Archive): string {
    Print(HarFileJson(a)) + "\n"
  }

  // ----- The document of the streaming receiver, put together from pieces -----

  function Prologue(v: Version): string {
    "{\"log\":{\"version\":" + Quote(v.harVersion) + ",\"creator\":" + Print(Creator(v)) + ",\"entries\":["
  }

  const BETWEEN := "],\"pages\":["

  const EPILOGUE := "]}}\n"

  function StreamText(a: Archive): string {
    Prologue(a.version) + PrintItems(a.entries, "\n") + BETWEEN + PrintItems(a.pages, "\n") + EPILOGUE
  }

  function StreamJson(a: Archive): Json {
    JObj([Member("log", JObj(LogMembers(a, true)))])
  }

  // ----- Reading an archive back -----

  /** The value of a member. Of several members with one name the last counts, as in encoding/json. */
  function Lookup(members: seq<Member>, key: string): Option<Json> {
    if members == [] then None
    else
      var last := members[|members| - 1];
      if last.key == key then Some(last.value) else Lookup(members[..|members| - 1], key)
  }

  function Field(v: Json, key: string): Option<Json> {
    if v.JObj? then Lookup(v.members, key) else None
  }

  function ArchiveOf(doc: Json): Option<Archive> {
    match Field(doc, "log")
    case None => None
    case Some(log) =>
      match (Field(log, "version"), Field(log, "creator"), Field(log, "pages"), Field(log, "entries"))
      case (Some(JStr(harVersion)), Some(creator), Some(JArr(pages)), Some(JArr(entries))) =>
        (match (Field(creator, "name"), Field(creator, "version"))
         case (Some(JStr(name)), Some(JStr(version))) =>
           Some(Archive(Version(harVersion, version, name), pages, entries))
         case _ => None)
      case _ => None
  }

  /** The JSON value that the bytes of a file stand for. */
  function ReadJson(b: bytes): Option<Json> {
    match Utf8.Decode(b)
    case None => None
    case Some(text) => ParseDocument(text)
  }

  function ReadArchive(b: bytes): Option<Archive> {
    match ReadJson(b)
    case None => None
    case Some(doc) => ArchiveOf(doc)
  }

  // ----- Both documents say the same -----

  lemma LookupFound(ms: seq<Member>, k: nat)
    requires k < |ms| && forall j | k < j < |ms| :: ms[j].key != ms[k].key
    ensures Lookup(ms, ms[k].key) == Some(ms[k].value)
  {
    if k < |ms| - 1 {
      LookupFound(ms[..|ms| - 1], k);
    }
  }

  lemma DistinctKeys(ms: seq<Member>)
    requires forall i, j | 0 <= i < j < |ms| :: ms[i].key != ms[j].key
    ensures forall k | 0 <= k < |ms| :: Lookup(ms, ms[k].key) == Some(ms[k].value)
  {
    forall k | 0 <= k < |ms| ensures Lookup(ms, ms[k].key) == Some(ms[k].value) {
      LookupFound(ms, k);
    }
  }

  lemma TwoMembers(m: Member, k: Member)
    ensures Print(JObj([m, k])) == "{" + (PrintMember(m) + "," + PrintMember(k)) + "}"
  {
    assert [m, k][1..] == [k] && PrintMembers([k]) == PrintMember(k);
  }

  /** The creator is printed with the program's name as its name, and the program's version, not that of the format. */
  lemma CreatorText(v: Version)
    ensures Print(Creator(v))
            == "{" + (PrintMember(Member("name", JStr(v.creator))) + ","
                      + PrintMember(Member("version", JStr(v.version)))) + "}"
  {
    TwoMembers(Member("name", JStr(v.creator)), Member("version", JStr(v.version)));
  }

  /** The order of the members of a log does not matter to a reader. */
  lemma ArchiveOfLog(a: Archive, entriesFirst: bool)
    ensures ArchiveOf(JObj([Member("log", JObj(LogMembers(a, entriesFirst)))])) == Some(a)
  {
    var creator := CreatorMembers(a.version);
    DistinctKeys(creator);
    assert creator[0].key == "name" && creator[1].key == "version";
    var log := LogMembers(a, entriesFirst);
    DistinctKeys(log);
    assert log[0].key == "version" && log[1].key == "creator";
    assert log[if entriesFirst then 3 else 2].key == "pages" && log[if entriesFirst then 2 else 3].key == "entries";
    DistinctKeys([Member("log", JObj(log))]);
    assert [Member("log", JObj(log))][0].key == "log";
  }

  lemma PrintedItemsRead(items: seq<Json>)
    requires AllWellFormed(items)
    ensures forall i | 0 <= i < |items| :: JsonProofs.Reads(Print(items[i]), items[i])
  {
    forall i | 0 <= i < |items| ensures JsonProofs.Reads(Print(items[i]), items[i]) {
      JsonProofs.RoundTrip(items[i]);
    }
  }

  lemma HarFileParses(a: Archive)
    requires WellFormedArchive(a)
    ensures ParseDocument(HarFileText(a)) == Some(HarFileJson(a))
  {
    var log := LogMembers(a, false);
    assert forall i | 0 <= i < |log| :: WellFormed(log[i].value);
    JsonProofs.RoundTrip(HarFileJson(a));
    JsonProofs.ReadsDocument(Print(HarFileJson(a)), HarFileJson(a), "\n");
  }

  function StreamPieces(a: Archive): seq<JsonProofs.Piece> {
    [JsonProofs.Piece("version", Quote(a.version.harVersion), JStr(a.version.harVersion)),
     JsonProofs.Piece("creator", Print(Creator(a.version)), Creator(a.version)),
     JsonProofs.Piece("entries", "[" + PrintItems(a.entries, "\n") + "]", JArr(a.entries)),
     JsonProofs.Piece("pages", "[" + PrintItems(a.pages, "\n") + "]", JArr(a.pages))]
  }

  lemma {:induction false} EscapeLetters(s: string)
    requires forall i | 0 <= i < |s| :: 'a' <= s[i] <= 'z'
    ensures Escape(s) == s
  {
    if s != "" {
      EscapeLetters(s[1..]);
    }
  }

  lemma QuoteLetters(s: string)
    requires forall i | 0 <= i < |s| :: 'a' <= s[i] <= 'z'
    ensures Quote(s) == "\"" + s + "\""
  {
    EscapeLetters(s);
  }

  lemma HeadKeys()
    ensures Quote("version") == "\"" + "version" + "\"" && Quote("creator") == "\"" + "creator" + "\""
  {
    QuoteLetters("version");
    QuoteLetters("creator");
  }

  lemma ListKeys()
    ensures Quote("entries") == "\"" + "entries" + "\"" && Quote("pages") == "\"" + "pages" + "\""
  {
    QuoteLetters("entries");
    QuoteLetters("pages");
  }

  lemma CommasAssociate(a: string, b: string, c: string, d: string)
    ensures a + "," + (b + "," + (c + "," + d)) == a + ("," + (b + ("," + (c + ("," + d)))))
  {
  }

  lemma FourPieces(ps: seq<JsonProofs.Piece>)
    requires |ps| == 4
    ensures JsonProofs.PiecesText(ps)
            == JsonProofs.PieceText(ps[0]) + ("," + (JsonProofs.PieceText(ps[1]) + ("," +
               (JsonProofs.PieceText(ps[2]) + ("," + JsonProofs.PieceText(ps[3]))))))
  {
    var r := ps[1..];
    var t := r[1..];
    CommasAssociate(JsonProofs.PieceText(ps[0]), JsonProofs.PieceText(ps[1]), JsonProofs.PieceText(ps[2]),
                    JsonProofs.PieceText(ps[3]));
    assert JsonProofs.PiecesText(t[1..]) == JsonProofs.PieceText(ps[3]);
    assert JsonProofs.PiecesText(t) == JsonProofs.PieceText(ps[2]) + "," + JsonProofs.PiecesText(t[1..]);
    assert JsonProofs.PiecesText(r) == JsonProofs.PieceText(ps[1]) + "," + JsonProofs.PiecesText(t);
  }

  lemma Regroup(o: string, v: string, c: string, k: string, e: string, y: string, p: string, z: string)
    ensures (o + v + "," + c + "," + k) + e + ("]" + "," + y) + p + ("]" + z)
            == o + (v + ("," + (c + ("," + ((k + e + "]") + ("," + (y + p + "]"))))))) + z
  {
  }

  lemma LiteralParts(q: string, c: string)
    ensures "{\"log\":{\"version\":" + q + ",\"creator\":" + c + ",\"entries\":["
            == "{\"log\":{" + ("\"" + "version" + "\"" + ":" + q) + ","
               + ("\"" + "creator" + "\"" + ":" + c) + "," + "\"entries\":["
    ensures BETWEEN == "]" + "," + "\"pages\":[" && EPILOGUE == "]" + "}}\n"
  {
  }

  lemma ArrayPieces(e: string, p: string)
    ensures "\"entries\":[" + e + "]" == "\"" + "entries" + "\"" + ":" + ("[" + e + "]")
    ensures "\"pages\":[" + p + "]" == "\"" + "pages" + "\"" + ":" + ("[" + p + "]")
  {
  }

  /** The pieces the streaming receiver writes make up an object inside an object. */
  lemma StreamTextIsBody(a: Archive)
    ensures StreamText(a) == "{\"log\":{" + JsonProofs.PiecesText(StreamPieces(a)) + "}}\n"
  {
    var ps := StreamPieces(a);
    var e, p := PrintItems(a.entries, "\n"), PrintItems(a.pages, "\n");
    HeadKeys();
    ListKeys();
    LiteralParts(ps[0].text, ps[1].text);
    Regroup("{\"log\":{", JsonProofs.PieceText(ps[0]), JsonProofs.PieceText(ps[1]), "\"entries\":[", e, "\"pages\":[",
            p, "}}\n");
    ArrayPieces(e, p);
    FourPieces(ps);
  }

  lemma HeadPiecesRead(a: Archive)
    ensures JsonProofs.Reads(Quote(a.version.harVersion), JStr(a.version.harVersion))
    ensures JsonProofs.Reads(Print(Creator(a.version)), Creator(a.version))
  {
    JsonProofs.RoundTrip(JStr(a.version.harVersion));
    CreatorWellFormed(a.version);
    JsonProofs.RoundTrip(Creator(a.version));
  }

  lemma ListPieceReads(items: seq<Json>)
    requires AllWellFormed(items)
    ensures JsonProofs.Reads("[" + PrintItems(items, "\n") + "]", JArr(items))
  {
    PrintedItemsRead(items);
    JsonProofs.ArrayReads(items, "\n");
  }

  lemma AllPiecesRead(a: Archive)
    requires WellFormedArchive(a)
    ensures forall i | 0 <= i < |StreamPieces(a)| ::
              JsonProofs.Reads(StreamPieces(a)[i].text, StreamPieces(a)[i].value)
  {
    HeadPiecesRead(a);
    ListPieceReads(a.entries);
    ListPieceReads(a.pages);
  }

  lemma LogReads(a: Archive)
    requires WellFormedArchive(a)
    ensures JsonProofs.Reads("{" + JsonProofs.PiecesText(StreamPieces(a)) + "}", JObj(LogMembers(a, true)))
  {
    AllPiecesRead(a);
    JsonProofs.ObjectReads(StreamPieces(a));
    assert JsonProofs.Members(StreamPieces(a)) == LogMembers(a, true);
  }

  function Top(a: Archive): JsonProofs.Piece {
    JsonProofs.Piece("log", "{" + JsonProofs.PiecesText(StreamPieces(a)) + "}", JObj(LogMembers(a, true)))
  }

  lemma TopReads(a: Archive)
    requires WellFormedArchive(a)
    ensures JsonProofs.Reads("{" + JsonProofs.PiecesText([Top(a)]) + "}", StreamJson(a))
  {
    LogReads(a);
    JsonProofs.ObjectReads([Top(a)]);
    assert JsonProofs.Members([Top(a)]) == [Member("log", Top(a).value)];
  }

  lemma StreamTextIsTop(a: Archive)
    ensures StreamText(a) == "{" + JsonProofs.PiecesText([Top(a)]) + "}" + "\n"
  {
    TopText(JsonProofs.PiecesText(StreamPieces(a)), Top(a));
    StreamTextIsBody(a);
  }

  lemma StreamParses(a: Archive)
    requires WellFormedArchive(a)
    ensures ParseDocument(StreamText(a)) == Some(StreamJson(a))
  {
    TopReads(a);
    JsonProofs.ReadsDocument("{" + JsonProofs.PiecesText([Top(a)]) + "}", StreamJson(a), "\n");
    StreamTextIsTop(a);
  }

  lemma CreatorWellFormed(v: Version)
    ensures WellFormed(Creator(v))
  {
    var ms := CreatorMembers(v);
    assert forall i | 0 <= i < |ms| :: WellFormed(ms[i].value);
  }

  lemma TopText(inner: string, log: JsonProofs.Piece)
    requires log.key == "log" && log.text == "{" + inner + "}"
    ensures "{" + JsonProofs.PiecesText([log]) + "}" + "\n" == "{\"log\":{" + inner + "}}\n"
  {
    QuoteLetters("log");
    Braces(inner);
  }

  lemma Braces(inner: string)
    ensures "{" + ("\"" + "log" + "\"" + ":" + ("{" + inner + "}")) + "}" + "\n" == "{\"log\":{" + inner + "}}\n"
  {
  }

  /**
   * The streaming receiver and HARFileReceiver write different documents with the same meaning: for every archive
   * both are UTF-8, both are JSON, and a reader finds that same archive in both.
   */
  lemma SameMeaning(a: Archive)
    requires WellFormedArchive(a)
    ensures ReadArchive(Utf8.Encode(StreamText(a))) == Some(a)
    ensures ReadArchive(Utf8.Encode(HarFileText(a))) == Some(a)
  {
    Utf8.RoundTrip(StreamText(a));
    Utf8.RoundTrip(HarFileText(a));
    StreamParses(a);
    HarFileParses(a);
    ArchiveOfLog(a, true);
    ArchiveOfLog(a, false);
  }

  // ----- A document that is not finished -----

  lemma StreamTextStart(a: Archive)
    ensures StreamText(a) != "" && StreamText(a)[0] == '{'
  {
  }

  /** Short of its last two characters, the document of the streaming receiver is not JSON. */
  lemma UnfinishedText(a: Archive, text: string, missing: string)
    requires WellFormedArchive(a)
    requires StreamText(a) == text + missing && |missing| >= 2
    ensures ParseDocument(text) == None
  {
    if text != "" {
      StreamTextStart(a);
      assert text[0] == '{';
      if ParseDocument(text).Some? {
        var p := ParseValue(text);
        assert p.value.JObj?;
        JsonProofs.ParseMore(text, missing);
        StreamRest(a);
      }
    }
  }

  lemma StreamRest(a: Archive)
    requires WellFormedArchive(a)
    ensures ParseValue(StreamText(a)) == Done(StreamJson(a), "\n")
  {
    TopReads(a);
    assert JsonProofs.Stops("\n");
    StreamTextIsTop(a);
  }

  lemma SplitAgain(shorter: string, text: string, missing: string)
    requires shorter <= text
    ensures shorter + (text[|shorter|..] + missing) == text + missing
  {
  }

  /** The same for the bytes of a file, which may also end inside a character. */
  lemma UnfinishedBytes(a: Archive, text: string, missing: string, b: bytes)
    requires WellFormedArchive(a)
    requires StreamText(a) == text + missing && |missing| >= 2
    requires b <= Utf8.Encode(text)
    ensures ReadJson(b) == None
  {
    if Utf8.Valid(b) {
      var shorter := Utf8.Decode(b).value;
      Utf8.DecodeThenEncode(b);
      Utf8.PrefixOfText(shorter, text);
      SplitAgain(shorter, text, missing);
      UnfinishedText(a, shorter, text[|shorter|..] + missing);
    }
  }

  // ----- The items in a file -----

  /** The document of a file. */
  function Document(version: Version, entries: seq<Item>, pages: seq<Item>): bytes
    requires AllGood(entries) && AllGood(pages)
  {
    Utf8.Encode(HarFileText(Archive(version, Jsons(pages), Jsons(entries))))
  }

  predicate GoodItems(items: seq<Item>) {
    AllGood(items) && AllProper(items)
  }

  function Items(js: seq<Json>): seq<Item> {
    seq(|js|, i requires 0 <= i < |js| => Good(js[i]))
  }

  /** The entries and pages a reader finds in a file. */
  function FileEntries(b: bytes): seq<Item> {
    match ReadArchive(b)
    case None => []
    case Some(a) => Items(a.entries)
  }

  function FilePages(b: bytes): seq<Item> {
    match ReadArchive(b)
    case None => []
    case Some(a) => Items(a.pages)
  }

  lemma ReadDocument(version: Version, entries: seq<Item>, pages: seq<Item>)
    requires GoodItems(entries) && GoodItems(pages)
    ensures ReadArchive(Document(version, entries, pages)).Some?
    ensures FileEntries(Document(version, entries, pages)) == entries
    ensures FilePages(Document(version, entries, pages)) == pages
  {
    SameMeaning(Archive(version, Jsons(pages), Jsons(entries)));
  }

  lemma ReadNothing()
    ensures FileEntries([]) == [] && FilePages([]) == []
  {
    assert ReadArchive([]) == None;
  }

  // ----- How long a file is -----

  /** What is in front of the pages, between pages and entries, and behind the entries. */
  function HarHead(v: Version): string {
    "{" + Quote("log") + ":" + "{" + Quote("version") + ":" + Quote(v.harVersion) + "," + Quote("creator") + ":"
    + Print(Creator(v)) + "," + Quote("pages") + ":" + "["
  }

  function HarMiddle(): string {
    "]" + "," + Quote("entries") + ":" + "["
  }

  const HAR_TAIL := "]" + "}" + "}" + "\n"

  lemma FourMembers(ms: seq<Member>)
    requires |ms| == 4
    ensures PrintMembers(ms)
            == PrintMember(ms[0]) + "," + (PrintMember(ms[1]) + "," + (PrintMember(ms[2]) + "," + PrintMember(ms[3])))
  {
    var r := ms[1..];
    var t := r[1..];
    assert |t[1..]| == 1 && t[1..][0] == ms[3] && PrintMembers(t[1..]) == PrintMember(ms[3]);
    assert t[0] == ms[2] && PrintMembers(t) == PrintMember(ms[2]) + "," + PrintMembers(t[1..]);
    assert r[0] == ms[1] && PrintMembers(r) == PrintMember(ms[1]) + "," + PrintMembers(t);
  }

  lemma RegroupHar(l: string, v: string, hv: string, c: string, cv: string, p: string, ps: string, e: string,
                   es: string)
    ensures "{" + (l + ":" + ("{" + (v + ":" + hv + "," + (c + ":" + cv + "," + (p + ":" + ("[" + ps + "]") + ","
            + (e + ":" + ("[" + es + "]"))))) + "}")) + "}" + "\n"
            == ("{" + l + ":" + "{" + v + ":" + hv + "," + c + ":" + cv + "," + p + ":" + "[") + ps
               + ("]" + "," + e + ":" + "[") + es + ("]" + "}" + "}" + "\n")
  {
  }

  lemma LogText(a: Archive, v: string, hv: string, c: string, cv: string, p: string, ps: string, e: string, es: string)
    requires v == Quote("version") && hv == Quote(a.version.harVersion) && c == Quote("creator")
    requires cv == Print(Creator(a.version)) && p == Quote("pages") && e == Quote("entries")
    requires ps == PrintItems(a.pages, "") && es == PrintItems(a.entries, "")
    ensures PrintMembers(LogMembers(a, false))
            == v + ":" + hv + ","
               + (c + ":" + cv + "," + (p + ":" + ("[" + ps + "]") + "," + (e + ":" + ("[" + es + "]"))))
  {
    var log := LogMembers(a, false);
    FourMembers(log);
    assert PrintMember(log[0]) == v + ":" + hv && PrintMember(log[1]) == c + ":" + cv;
    assert PrintMember(log[2]) == p + ":" + ("[" + ps + "]") && PrintMember(log[3]) == e + ":" + ("[" + es + "]");
  }

  lemma TopMemberText(a: Archive, l: string, log: string)
    requires l == Quote("log") && log == PrintMembers(LogMembers(a, false))
    ensures HarFileText(a) == "{" + (l + ":" + ("{" + log + "}")) + "}" + "\n"
  {
    var m := Member("log", JObj(LogMembers(a, false)));
    assert PrintMembers([m]) == PrintMember(m) == l + ":" + ("{" + log + "}");
  }

  lemma HarFileParts(a: Archive)
    ensures HarFileText(a)
            == HarHead(a.version) + PrintItems(a.pages, "") + HarMiddle() + PrintItems(a.entries, "") + HAR_TAIL
  {
    var l, v, hv, c := Quote("log"), Quote("version"), Quote(a.version.harVersion), Quote("creator");
    var cv, p, ps := Print(Creator(a.version)), Quote("pages"), PrintItems(a.pages, "");
    var e, es := Quote("entries"), PrintItems(a.entries, "");
    LogText(a, v, hv, c, cv, p, ps, e, es);
    TopMemberText(a, l, PrintMembers(LogMembers(a, false)));
    RegroupHar(l, v, hv, c, cv, p, ps, e, es);
  }

  function TextLengths(js: seq<Json>): nat {
    if js == [] then 0 else TextLengths(js[..|js| - 1]) + |Utf8.Encode(Print(js[|js| - 1]))|
  }

  /** The commas between so many items. */
  function Commas(n: nat): nat {
    if n == 0 then 0 else n - 1
  }

  lemma {:induction false} ItemsLength(js: seq<Json>)
    ensures |Utf8.Encode(PrintItems(js, ""))| == TextLengths(js) + Commas(|js|)
  {
    if js != [] {
      var before, j := js[..|js| - 1], js[|js| - 1];
      assert js == before + [j];
      ItemsLength(before);
      JsonProofs.PrintItemsAppend(before, j, "");
      Utf8.EncodeConcat(PrintItems(before, ""), "," + "" + Print(j));
      assert "," + "" + Print(j) == [','] + Print(j);
      Utf8.EncodeConcat([','], Print(j));
      assert [','][1..] == [] && Utf8.Encode([',']) == Utf8.EncodeChar(',') + Utf8.Encode([]);
    }
  }

  lemma FiveLengths(a: string, b: string, c: string, d: string, e: string)
    ensures |Utf8.Encode(a + b + c + d + e)|
            == |Utf8.Encode(a)| + |Utf8.Encode(b)| + |Utf8.Encode(c)| + |Utf8.Encode(d)| + |Utf8.Encode(e)|
  {
    Utf8.EncodeConcat(a + b + c + d, e);
    Utf8.EncodeConcat(a + b + c, d);
    Utf8.EncodeConcat(a + b, c);
    Utf8.EncodeConcat(a, b);
  }

  /** A file is as long as an empty archive of its version, the texts of its items and the commas between them. */
  lemma HarFileLength(a: Archive)
    ensures |Utf8.Encode(HarFileText(a))|
            == |Utf8.Encode(HarFileText(Archive(a.version, [], [])))|
               + TextLengths(a.pages) + Commas(|a.pages|) + TextLengths(a.entries) + Commas(|a.entries|)
  {
    HarFileParts(a);
    HarFileParts(Archive(a.version, [], []));
    var h, m, t := HarHead(a.version), HarMiddle(), HAR_TAIL;
    FiveLengths(h, PrintItems(a.pages, ""), m, PrintItems(a.entries, ""), t);
    FiveLengths(h, PrintItems([], ""), m, PrintItems([], ""), t);
    ItemsLength(a.pages);
    ItemsLength(a.entries);
  }
}
