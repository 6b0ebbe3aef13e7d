/** What Close leaves behind when a page cannot be marshalled: its place in the list of pages stays empty. */
module Holes {
  import opened Common
  import opened Json
  import opened Archives
  import JsonProofs
  import Sessions
  import Streaming
  import Utf8

  // ----- Texts that no value can be read from -----

  /** Some values, each followed by a comma, and then a text that is not a list of values. */
  function Before(items: seq<Json>, bad: string): string {
    if items == [] then bad else PrintItems(items, "\n") + "," + "\n" + bad
  }

  predicate Gap(bad: string) {
    Begins(bad, ',') || Begins(bad, ']')
  }

  lemma NoValue(bad: string)
    requires Gap(bad)
    ensures ParseItems(bad).Fail? && SkipBlank(bad) == bad
  {
    assert !NumberChar(bad[0]);
    assert ParseValue(bad).Fail?;
  }

  lemma BeforeStep(items: seq<Json>, bad: string)
    requires items != []
    ensures Before(items, bad) == Print(items[0]) + ("," + ("\n" + Before(items[1..], bad)))
  {
    var v, r := Print(items[0]), PrintItems(items[1..], "\n");
    if |items| > 1 {
      assert v + "," + "\n" + r + "," + "\n" + bad == v + ("," + ("\n" + (r + "," + "\n" + bad)));
    } else {
      assert v + "," + "\n" + bad == v + ("," + ("\n" + bad));
    }
  }

  /** A gap where an item should be is not read, however many items come first. */
  lemma {:induction false} ItemsThenGap(items: seq<Json>, bad: string)
    requires AllWellFormed(items) && Gap(bad)
    ensures ParseItems(Before(items, bad)).Fail? && SkipBlank(Before(items, bad)) == Before(items, bad)
    ensures Begins(Before(items, bad), ']') ==> items == [] && Begins(bad, ']')
  {
    if items == [] {
      NoValue(bad);
    } else {
      var next := Before(items[1..], bad);
      ItemsThenGap(items[1..], bad);
      BeforeStep(items, bad);
      JsonProofs.RoundTrip(items[0]);
      JsonProofs.PrintStart(items[0], "," + ("\n" + next));
      JsonProofs.AfterComma(']', "\n", next);
      assert JsonProofs.Stops("," + ("\n" + next));
    }
  }

  /** A member whose value cannot be read. */
  lemma NoMember(key: string, text: string)
    requires ParseValue(text).Fail? && SkipBlank(text) == text
    ensures var s := Quote(key) + ":" + text; ParseMembers(s).Fail? && SkipBlank(s) == s && Begins(s, '"')
  {
    var s := Quote(key) + ":" + text;
    assert s[1..] == Escape(key) + "\"" + (":" + text);
    JsonProofs.ReadQuoted(key, ":" + text);
    assert (":" + text)[1..] == text;
    assert ParseMember(s).Fail?;
  }

  /** Members that can be read do not help. */
  lemma MemberThenGap(p: JsonProofs.Piece, next: string)
    requires JsonProofs.Reads(p.text, p.value) && ParseMembers(next).Fail? && SkipBlank(next) == next
    ensures var s := JsonProofs.PieceText(p) + ("," + next);
            ParseMembers(s).Fail? && SkipBlank(s) == s && Begins(s, '"')
  {
    assert JsonProofs.Stops("," + next);
    JsonProofs.PieceReads(p, "," + next);
    JsonProofs.AfterComma('}', "", next);
    assert "" + next == next;
  }

  lemma NoObject(inner: string)
    requires ParseMembers(inner).Fail? && SkipBlank(inner) == inner && Begins(inner, '"')
    ensures ParseValue("{" + inner).Fail? && SkipBlank("{" + inner) == "{" + inner
  {
    assert ("{" + inner)[1..] == inner;
  }

  lemma NoArray(inner: string)
    requires ParseItems(inner).Fail? && SkipBlank(inner) == inner && !Begins(inner, ']')
    ensures ParseValue("[" + inner).Fail? && SkipBlank("[" + inner) == "[" + inner
  {
    assert ("[" + inner)[1..] == inner;
  }

  // ----- The document with such a list -----

  /** The members before the pages. */
  function Front(v: Version, entries: seq<Json>): (ps: seq<JsonProofs.Piece>)
    ensures |ps| == 3
  {
    [JsonProofs.Piece("version", Quote(v.harVersion), JStr(v.harVersion)),
     JsonProofs.Piece("creator", Print(Creator(v)), Creator(v)),
     JsonProofs.Piece("entries", "[" + PrintItems(entries, "\n") + "]", JArr(entries))]
  }

  /** The members up to the pages and the beginning of a list. */
  function LogWith(ps: seq<JsonProofs.Piece>, inner: string): string
    requires |ps| == 3
  {
    JsonProofs.PieceText(ps[0]) + ("," + (JsonProofs.PieceText(ps[1]) + ("," +
    (JsonProofs.PieceText(ps[2]) + ("," + (Quote("pages") + ":" + ("[" + inner)))))))
  }

  lemma Regroup(o: string, v: string, c: string, k: string, e: string, y: string, inner: string)
    ensures (o + v + "," + c + "," + k) + e + ("]" + "," + y + inner)
            == o + (v + ("," + (c + ("," + ((k + e + "]") + ("," + (y + inner)))))))
  {
  }

  lemma LastParts(e: string, inner: string)
    ensures "\"entries\":[" + e + "]" == "\"" + "entries" + "\"" + ":" + ("[" + e + "]")
    ensures "\"pages\":[" + inner == "\"" + "pages" + "\"" + ":" + ("[" + inner)
  {
  }

  lemma Opening(log: string)
    ensures "{\"log\":{" + log == "{" + (Quote("log") + ":" + ("{" + log))
  {
    QuoteLetters("log");
    assert "{\"log\":{" + log == "{" + ("\"" + "log" + "\"" + ":" + ("{" + log));
  }

  lemma OpenParts(v: Version, entries: seq<Json>, inner: string)
    ensures Sessions.OpenText(v, entries) + (BETWEEN + inner)
            == ("{\"log\":{" + ("\"" + "version" + "\"" + ":" + Quote(v.harVersion)) + ","
                + ("\"" + "creator" + "\"" + ":" + Print(Creator(v))) + "," + "\"entries\":[")
               + PrintItems(entries, "\n") + ("]" + "," + "\"pages\":[" + inner)
  {
    Sessions.OpenTextPrints(v, entries);
    LiteralParts(Quote(v.harVersion), Print(Creator(v)));
  }

  lemma LogParts(ps: seq<JsonProofs.Piece>, e: string, inner: string)
    requires |ps| == 3 && JsonProofs.PieceText(ps[2]) == "\"" + "entries" + "\"" + ":" + ("[" + e + "]")
    ensures ("{\"log\":{" + JsonProofs.PieceText(ps[0]) + "," + JsonProofs.PieceText(ps[1]) + "," + "\"entries\":[")
            + e + ("]" + "," + "\"pages\":[" + inner)
            == "{\"log\":{" + LogWith(ps, inner)
  {
    Regroup("{\"log\":{", JsonProofs.PieceText(ps[0]), JsonProofs.PieceText(ps[1]), "\"entries\":[", e,
            "\"pages\":[", inner);
    LastParts(e, inner);
    ListKeys();
  }

  lemma FrontTexts(v: Version, entries: seq<Json>)
    ensures var ps := Front(v, entries);
            && JsonProofs.PieceText(ps[0]) == Quote("version") + ":" + Quote(v.harVersion)
            && JsonProofs.PieceText(ps[1]) == Quote("creator") + ":" + Print(Creator(v))
            && JsonProofs.PieceText(ps[2]) == Quote("entries") + ":" + ("[" + PrintItems(entries, "\n") + "]")
  {
  }

  lemma TextWith(v: Version, entries: seq<Json>, inner: string)
    ensures Sessions.OpenText(v, entries) + (BETWEEN + inner)
            == "{\"log\":{" + LogWith(Front(v, entries), inner)
  {
    FrontTexts(v, entries);
    HeadKeys();
    ListKeys();
    OpenParts(v, entries, inner);
    LogParts(Front(v, entries), PrintItems(entries, "\n"), inner);
  }

  lemma FrontReads(v: Version, entries: seq<Json>)
    requires AllWellFormed(entries)
    ensures forall i | 0 <= i < 3 :: JsonProofs.Reads(Front(v, entries)[i].text, Front(v, entries)[i].value)
  {
    HeadPiecesRead(Archive(v, [], entries));
    ListPieceReads(entries);
  }

  /** A document whose list of pages cannot be read is not JSON. */
  lemma NoDocument(v: Version, entries: seq<Json>, inner: string)
    requires AllWellFormed(entries)
    requires ParseItems(inner).Fail? && SkipBlank(inner) == inner && !Begins(inner, ']')
    ensures ParseDocument(Sessions.OpenText(v, entries) + (BETWEEN + inner)) == None
  {
    var ps := Front(v, entries);
    FrontReads(v, entries);
    NoArray(inner);
    NoMember("pages", "[" + inner);
    var third := Quote("pages") + ":" + ("[" + inner);
    MemberThenGap(ps[2], third);
    var second := JsonProofs.PieceText(ps[2]) + ("," + third);
    MemberThenGap(ps[1], second);
    MemberThenGap(ps[0], JsonProofs.PieceText(ps[1]) + ("," + second));
    NoObject(LogWith(ps, inner));
    NoMember("log", "{" + LogWith(ps, inner));
    NoObject(Quote("log") + ":" + ("{" + LogWith(ps, inner)));
    TextWith(v, entries, inner);
    Opening(LogWith(ps, inner));
  }

  // ----- The pages as Close writes them -----

  /** The first page that cannot be marshalled. */
  function FirstHole(pages: seq<Item>): (h: nat)
    requires !AllGood(pages)
    ensures h < |pages| && AllGood(pages[..h]) && pages[h].Unmarshalable?
  {
    var n := |pages| - 1;
    if AllGood(pages[..n]) then
      assert forall i | 0 <= i < n :: pages[i] == pages[..n][i];
      n
    else
      var h := FirstHole(pages[..n]);
      assert pages[..n][..h] == pages[..h];
      h
  }

  /** What is written from the hole on; nothing, or a comma at once. */
  lemma {:induction false} FromHole(pages: seq<Item>, h: nat) returns (tail: string)
    requires h < |pages| && AllGood(pages[..h]) && pages[h].Unmarshalable?
    ensures Streaming.PageTexts(pages) == Before(Jsons(pages[..h]), tail)
    ensures if |pages| == h + 1 then tail == "" else Begins(tail, ',')
  {
    var n := |pages| - 1;
    var good := pages[..h];
    if n == h {
      tail := "";
      if h > 0 {
        Sessions.PageTextsPrint(good);
        var p := PrintItems(Jsons(good), "\n");
        assert p + (Streaming.SEPARATOR + "") == p + "," + "\n" + "";
      }
    } else {
      assert pages[..n][..h] == good;
      var before := FromHole(pages[..n], h);
      var more := Streaming.SEPARATOR + Streaming.PageText(pages[n]);
      tail := before + more;
      BeforeMore(Jsons(good), before, more);
    }
  }

  lemma BeforeMore(items: seq<Json>, bad: string, more: string)
    ensures Before(items, bad) + more == Before(items, bad + more)
  {
    var p := PrintItems(items, "\n");
    assert p + "," + "\n" + bad + more == p + "," + "\n" + (bad + more);
  }

  /** One page alone leaves an empty list behind; with others there are commas with nothing between them. */
  lemma ClosingWithHole(v: Version, entries: seq<Json>, pages: seq<Item>)
    requires AllWellFormed(entries) && AllProper(pages) && !AllGood(pages)
    ensures var text := Sessions.OpenText(v, entries) + Streaming.ClosingText(pages);
            if |pages| == 1 then text == StreamText(Archive(v, [], entries)) else ParseDocument(text) == None
  {
    var open := Sessions.OpenText(v, entries);
    if |pages| == 1 {
      Sessions.OpenTextUnfinished(v, entries);
    } else {
      var h := FirstHole(pages);
      var tail := FromHole(pages, h);
      var items := Jsons(pages[..h]);
      assert Gap(tail + EPILOGUE) && (Begins(tail + EPILOGUE, ']') ==> h > 0);
      ItemsThenGap(items, tail + EPILOGUE);
      BeforeMore(items, tail, EPILOGUE);
      var p := Streaming.PageTexts(pages);
      assert BETWEEN + p + EPILOGUE == BETWEEN + (p + EPILOGUE);
      NoDocument(v, entries, p + EPILOGUE);
    }
  }

  /**
   * A first Close on a writer that has not failed returns nil exactly when every page can be marshalled. Otherwise it
   * returns an error and what it leaves is not JSON, unless the page was the only one: then the document is that of
   * the same entries without a page.
   */
  lemma ClosedWithHoles(v: Version, states: seq<Streaming.Session>, calls: seq<Call>, ok: bool, t: Streaming.Session)
    requires Sessions.StreamRun(states, calls) && Sessions.StreamStart(v, states[0]) && Sessions.ProperCalls(calls)
    requires Streaming.Closed(states[|calls|], ok, t) && !t.out.failed
    ensures AllGood(AcceptedEntries(calls))
    ensures var pages, entries := DeliveredPages(calls), Jsons(AcceptedEntries(calls));
            && (ok <==> AllGood(pages))
            && (!ok && |pages| == 1 ==> ReadArchive(t.out.content) == Some(Archive(v, [], entries)))
            && (!ok && |pages| > 1 ==> ReadJson(t.out.content) == None)
  {
    var s := states[|calls|];
    Sessions.RunInv(v, states, calls);
    var pages, entries := DeliveredPages(calls), Jsons(AcceptedEntries(calls));
    var open, closing := Sessions.OpenText(v, entries), Streaming.ClosingText(pages);
    Utf8.EncodeConcat(open, closing);
    assert t.out.content == Utf8.Encode(open + closing);
    Utf8.RoundTrip(open + closing);
    if !ok {
      ClosingWithHole(v, entries, pages);
      if |pages| == 1 {
        SameMeaning(Archive(v, [], entries));
      }
    }
  }
}
