/** Whole sessions of the streaming receiver and of HARFileReceiver: what the documents say in the end. */
module Sessions {
  import opened Common
  import opened Json
  import opened Archives
  import JsonProofs
  import Bufio
  import Utf8
  import Streaming
  import HarFile

  // ----- Runs -----

  ghost predicate StreamRun(states: seq<Streaming.Session>, calls: seq<Call>) {
    && |states| == |calls| + 1
    && forall i | 0 <= i < |calls| :: Streaming.Step(states[i], calls[i], states[i + 1])
  }

  ghost predicate HarRun(states: seq<HarFile.Session>, calls: seq<Call>) {
    && |states| == |calls| + 1
    && forall i | 0 <= i < |calls| :: HarFile.Step(states[i], calls[i], states[i + 1])
  }

  /** A streaming receiver over an empty writer, just started. */
  ghost predicate StreamStart(v: Version, s: Streaming.Session) {
    exists reliable, ok ::
      Streaming.Started(Streaming.Session(Bufio.Stream([], [], false, reliable), [], 0, false), v, ok, s)
  }

  /** The first entry that could be marshalled and was turned down, if there is one. */
  function FirstRefused(calls: seq<Call>): seq<Json> {
    if calls == [] then []
    else
      var before := FirstRefused(calls[..|calls| - 1]);
      var last := calls[|calls| - 1];
      if before == [] && last.Entry? && last.item.Good? && !last.ok then [last.item.json] else before
  }

  predicate ProperCalls(calls: seq<Call>) {
    AllProper(AcceptedEntries(calls)) && AllProper(DeliveredPages(calls)) && AllWellFormed(FirstRefused(calls))
  }

  /** A text to which entries are added, the first of them when there have been n already. */
  function Grown(base: string, n: nat, entries: seq<Json>): string {
    if entries == [] then base
    else Grown(base, n, entries[..|entries| - 1]) + Streaming.EntryText(n + |entries| - 1, entries[|entries| - 1])
  }

  lemma GrownAppend(base: string, n: nat, entries: seq<Json>, j: Json)
    ensures Grown(base, n, entries + [j]) == Grown(base, n, entries) + Streaming.EntryText(n + |entries|, j)
  {
    assert (entries + [j])[..|entries|] == entries;
  }

  /** The document as far as the entries. */
  function OpenText(v: Version, entries: seq<Json>): string {
    Grown(Prologue(v), 0, entries)
  }

  /** What an entry adds is what its place in the list asks for. */
  lemma {:induction false} OpenTextPrints(v: Version, entries: seq<Json>)
    ensures OpenText(v, entries) == Prologue(v) + PrintItems(entries, "\n")
  {
    if entries == [] {
      assert PrintItems(entries, "\n") == "" && Prologue(v) + "" == Prologue(v);
    } else {
      var before, j := entries[..|entries| - 1], entries[|entries| - 1];
      assert entries == before + [j];
      OpenTextPrints(v, before);
      JsonProofs.PrintItemsAppend(before, j, "\n");
      Joined(Prologue(v), PrintItems(before, "\n"), Print(j));
      if before == [] {
        assert PrintItems(before, "\n") == "";
      }
    }
  }

  lemma Joined(p: string, e: string, text: string)
    ensures p + (e + ("," + "\n" + text)) == p + e + (Streaming.SEPARATOR + text)
    ensures p + text == p + "" + ("" + text)
  {
  }

  // ----- What every step of a streaming session keeps -----

  /**
   * The stream holds some text and the entries accepted after that, or, once failed, no more than that and one entry.
   */
  ghost predicate Held(base: string, n: nat, s: Streaming.Session, calls: seq<Call>) {
    && AllGood(AcceptedEntries(calls))
    && s.entryCount == n + |AcceptedEntries(calls)|
    && s.out.content <= s.out.log
    && var entries := Jsons(AcceptedEntries(calls));
       if s.out.failed then
         s.out.log <= Utf8.Encode(Grown(base, n, entries + FirstRefused(calls)))
       else
         FirstRefused(calls) == [] && s.out.log == Utf8.Encode(Grown(base, n, entries))
  }

  /** Until Close: the text is the prologue, and the pages are kept. */
  ghost predicate Inv(v: Version, s: Streaming.Session, calls: seq<Call>) {
    !s.closed && s.pages == DeliveredPages(calls) && Held(Prologue(v), 0, s, calls)
  }

  lemma StartInv(v: Version, s: Streaming.Session)
    requires StreamStart(v, s)
    ensures Inv(v, s, [])
  {
    assert OpenText(v, []) == Prologue(v);
    assert [] + Utf8.Encode(Prologue(v)) == Utf8.Encode(Prologue(v));
    assert Jsons([]) + FirstRefused([]) == [];
  }

  lemma CallsSplit(calls: seq<Call>, c: Call)
    ensures (calls + [c])[..|calls + [c]| - 1] == calls && (calls + [c])[|calls + [c]| - 1] == c
  {
  }

  lemma JsonsAppend(items: seq<Item>, item: Item)
    requires AllGood(items + [item])
    ensures AllGood(items) && item.Good? && Jsons(items + [item]) == Jsons(items) + [item.json]
  {
    assert forall i | 0 <= i < |items| :: (items + [item])[i] == items[i];
    assert (items + [item])[|items|] == item;
  }

  /** One entry, accepted or not. */
  lemma HeldEntry(base: string, n: nat, s: Streaming.Session, j: Json, ok: bool, t: Streaming.Session, calls: seq<Call>)
    requires Held(base, n, s, calls) && Streaming.Step(s, Entry(Good(j), ok), t)
    ensures Held(base, n, t, calls + [Entry(Good(j), ok)])
  {
    if ok {
      HeldAccepted(base, n, s, j, t, calls);
    } else {
      HeldRefused(base, n, s, j, t, calls);
    }
  }

  lemma HeldAccepted(base: string, n: nat, s: Streaming.Session, j: Json, t: Streaming.Session, calls: seq<Call>)
    requires Held(base, n, s, calls) && Streaming.Step(s, Entry(Good(j), true), t)
    ensures Held(base, n, t, calls + [Entry(Good(j), true)])
  {
    CallsSplit(calls, Entry(Good(j), true));
    var before, entries := AcceptedEntries(calls), Jsons(AcceptedEntries(calls));
    assert AllGood(before + [Good(j)]);
    JsonsAppend(before, Good(j));
    GrownAppend(base, n, entries, j);
    Utf8.EncodeConcat(Grown(base, n, entries), Streaming.EntryText(n + |entries|, j));
  }

  lemma HeldRefused(base: string, n: nat, s: Streaming.Session, j: Json, t: Streaming.Session, calls: seq<Call>)
    requires Held(base, n, s, calls) && Streaming.Step(s, Entry(Good(j), false), t)
    ensures Held(base, n, t, calls + [Entry(Good(j), false)])
  {
    CallsSplit(calls, Entry(Good(j), false));
    var before, entries := AcceptedEntries(calls), Jsons(AcceptedEntries(calls));
    assert before + [] == before;
    if !s.out.failed {
      GrownAppend(base, n, entries, j);
      Utf8.EncodeConcat(Grown(base, n, entries), Streaming.EntryText(n + |entries|, j));
    } else if FirstRefused(calls) == [] {
      assert entries + [] == entries;
      GrownAppend(base, n, entries, j);
      Utf8.EncodePrefix(Grown(base, n, entries), Grown(base, n, entries + [j]));
      PrefixTransitive(s.out.log, Utf8.Encode(Grown(base, n, entries)), Utf8.Encode(Grown(base, n, entries + [j])));
    }
  }

  /** Any call; Close and what comes after it are no different in this. */
  lemma HeldStep(base: string, n: nat, s: Streaming.Session, c: Call, t: Streaming.Session, calls: seq<Call>)
    requires Held(base, n, s, calls) && Streaming.Step(s, c, t)
    ensures Held(base, n, t, calls + [c])
  {
    if c.Entry? && c.item.Good? {
      HeldEntry(base, n, s, c.item.json, c.ok, t, calls);
    } else {
      CallsSplit(calls, c);
      assert AcceptedEntries(calls) + [] == AcceptedEntries(calls);
      assert FirstRefused(calls + [c]) == FirstRefused(calls);
      if c.Flush? && !s.out.failed {
        assert Jsons(AcceptedEntries(calls)) + FirstRefused(calls) == Jsons(AcceptedEntries(calls));
      }
    }
  }

  lemma StepInv(v: Version, s: Streaming.Session, c: Call, t: Streaming.Session, calls: seq<Call>)
    requires Inv(v, s, calls) && Streaming.Step(s, c, t)
    ensures Inv(v, t, calls + [c])
  {
    HeldStep(Prologue(v), 0, s, c, t, calls);
    CallsSplit(calls, c);
    assert DeliveredPages(calls) + [] == DeliveredPages(calls);
  }

  lemma {:induction false} RunInv(v: Version, states: seq<Streaming.Session>, calls: seq<Call>)
    requires StreamRun(states, calls) && StreamStart(v, states[0])
    ensures Inv(v, states[|calls|], calls)
  {
    if calls == [] {
      StartInv(v, states[0]);
    } else {
      var n := |calls| - 1;
      var before, c, s, t := calls[..n], calls[n], states[n], states[n + 1];
      RunInv(v, states[..|calls|], before);
      assert calls == before + [c] && Inv(v, s, before) && Streaming.Step(s, c, t);
      StepInv(v, s, c, t, before);
    }
  }

  // ----- Close -----

  lemma {:induction false} PageTextsPrint(pages: seq<Item>)
    requires AllGood(pages)
    ensures Streaming.PageTexts(pages) == PrintItems(Jsons(pages), "\n")
  {
    if |pages| <= 1 {
      assert |pages| == 1 ==> Jsons(pages) == [pages[0].json];
    } else {
      var n := |pages| - 1;
      assert pages == pages[..n] + [pages[n]];
      PageTextsPrint(pages[..n]);
      JsonsAppend(pages[..n], pages[n]);
      JsonProofs.PrintItemsAppend(Jsons(pages[..n]), pages[n].json, "\n");
      assert Streaming.SEPARATOR == "," + "\n";
    }
  }

  /** The archive a session has delivered. */
  function Delivered(v: Version, calls: seq<Call>): Archive
    requires AllGood(DeliveredPages(calls)) && AllGood(AcceptedEntries(calls))
  {
    Archive(v, Jsons(DeliveredPages(calls)), Jsons(AcceptedEntries(calls)))
  }

  lemma WholeText(v: Version, calls: seq<Call>)
    requires AllGood(DeliveredPages(calls)) && AllGood(AcceptedEntries(calls))
    ensures StreamText(Delivered(v, calls))
            == OpenText(v, Jsons(AcceptedEntries(calls))) + Streaming.ClosingText(DeliveredPages(calls))
  {
    PageTextsPrint(DeliveredPages(calls));
    OpenTextPrints(v, Jsons(AcceptedEntries(calls)));
    var o, p := OpenText(v, Jsons(AcceptedEntries(calls))), Streaming.PageTexts(DeliveredPages(calls));
    assert o + BETWEEN + p + EPILOGUE == o + (BETWEEN + p + EPILOGUE);
  }

  /** A successful Close, given what the session has kept. */
  lemma ClosedInFull(v: Version, s: Streaming.Session, calls: seq<Call>, t: Streaming.Session)
    requires Inv(v, s, calls) && Streaming.Closed(s, true, t)
    ensures FirstRefused(calls) == []
    ensures AllGood(DeliveredPages(calls)) && AllGood(AcceptedEntries(calls))
    ensures t.out.content == Utf8.Encode(StreamText(Delivered(v, calls)))
  {
    var entries, pages := Jsons(AcceptedEntries(calls)), DeliveredPages(calls);
    WholeText(v, calls);
    Utf8.EncodeConcat(OpenText(v, entries), Streaming.ClosingText(pages));
  }

  lemma DeliveredWellFormed(v: Version, calls: seq<Call>)
    requires AllGood(DeliveredPages(calls)) && AllGood(AcceptedEntries(calls)) && ProperCalls(calls)
    ensures WellFormedArchive(Delivered(v, calls))
  {
  }

  /**
   * A Close that returns nil tells the truth, whatever the writer did: no entry that could be marshalled was turned
   * down, and the writer holds the whole document of exactly the accepted entries and the delivered pages.
   */
  lemma CloseTellsTheTruth(v: Version, states: seq<Streaming.Session>, calls: seq<Call>, t: Streaming.Session)
    requires StreamRun(states, calls) && StreamStart(v, states[0])
    requires Streaming.Closed(states[|calls|], true, t)
    ensures FirstRefused(calls) == []
    ensures AllGood(DeliveredPages(calls)) && AllGood(AcceptedEntries(calls))
    ensures t.out.content == Utf8.Encode(StreamText(Delivered(v, calls)))
    ensures ProperCalls(calls) ==> ReadArchive(t.out.content) == Some(Delivered(v, calls))
  {
    RunInv(v, states, calls);
    ClosedInFull(v, states[|calls|], calls, t);
    if ProperCalls(calls) {
      DeliveredWellFormed(v, calls);
      SameMeaning(Delivered(v, calls));
    }
  }

  /** The part of the document that Close adds for a session without pages. */
  lemma OpenTextUnfinished(v: Version, entries: seq<Json>)
    ensures StreamText(Archive(v, [], entries)) == OpenText(v, entries) + Streaming.ClosingText([])
    ensures |Streaming.ClosingText([])| >= 2
  {
    OpenTextPrints(v, entries);
    var o := OpenText(v, entries);
    assert o + BETWEEN + "" + EPILOGUE == o + (BETWEEN + "" + EPILOGUE);
  }

  /**
   * Until Close the writer holds a prefix of the prologue and the comma-joined entries, at most one of which was
   * turned down; while nothing has failed the prefix and the buffer together are all of it. It is never JSON.
   */
  lemma NotJsonBeforeClose(v: Version, states: seq<Streaming.Session>, calls: seq<Call>)
    requires StreamRun(states, calls) && StreamStart(v, states[0])
    ensures AllGood(AcceptedEntries(calls)) && |FirstRefused(calls)| <= 1
    ensures var s := states[|calls|];
            var entries := Jsons(AcceptedEntries(calls));
            && s.out.content <= Utf8.Encode(OpenText(v, entries + FirstRefused(calls)))
            && (!s.out.failed ==> s.out.content <= s.out.log == Utf8.Encode(OpenText(v, entries)))
            && (ProperCalls(calls) ==> ReadJson(s.out.content) == None)
  {
    RunInv(v, states, calls);
    AtMostOneRefused(calls);
    var s := states[|calls|];
    var entries := Jsons(AcceptedEntries(calls));
    assert FirstRefused(calls) == [] ==> entries + FirstRefused(calls) == entries;
    var all := entries + FirstRefused(calls);
    PrefixTransitive(s.out.content, s.out.log, Utf8.Encode(OpenText(v, all)));
    if ProperCalls(calls) {
      OpenTextUnfinished(v, all);
      UnfinishedBytes(Archive(v, [], all), OpenText(v, all), Streaming.ClosingText([]), s.out.content);
    }
  }

  lemma {:induction false} AtMostOneRefused(calls: seq<Call>)
    ensures |FirstRefused(calls)| <= 1
  {
    if calls != [] {
      AtMostOneRefused(calls[..|calls| - 1]);
    }
  }

  /** With a writer that does not fail, every call on an item that can be marshalled succeeds, and so does Close. */
  lemma {:induction false} ReliableSession(states: seq<Streaming.Session>, calls: seq<Call>)
    requires StreamRun(states, calls)
    requires states[0].out.reliable && !states[0].out.failed && !states[0].closed
    requires forall i | 0 <= i < |calls| && calls[i].Entry? :: calls[i].item.Good?
    ensures var s := states[|calls|]; s.out.reliable && !s.out.failed && !s.closed
    ensures forall i | 0 <= i < |calls| && !calls[i].Page? :: calls[i].ok
    ensures forall ok, t :: Streaming.Closed(states[|calls|], ok, t) ==> ok == AllGood(states[|calls|].pages)
  {
    if calls != [] {
      var n := |calls| - 1;
      ReliableSession(states[..|calls|], calls[..n]);
      assert Streaming.Step(states[n], calls[n], states[n + 1]);
      forall i | 0 <= i < |calls| && !calls[i].Page? ensures calls[i].ok {
        if i < n {
          assert calls[..n][i] == calls[i];
        }
      }
    }
  }

  // ----- HARFileReceiver, and both -----

  lemma {:induction false} HarRunInv(states: seq<HarFile.Session>, calls: seq<Call>)
    requires HarRun(states, calls) && states[0].entries == [] && states[0].pages == []
    ensures var s := states[|calls|];
            && s.entries == AcceptedEntries(calls) && s.pages == DeliveredPages(calls)
            && s.version == states[0].version && s.open == states[0].open
  {
    if calls != [] {
      var n := |calls| - 1;
      HarRunInv(states[..|calls|], calls[..n]);
      assert HarFile.Step(states[n], calls[n], states[n + 1]);
    }
  }

  lemma HarCloseTellsTheTruth(states: seq<HarFile.Session>, calls: seq<Call>, t: HarFile.Session)
    requires HarRun(states, calls) && states[0].entries == [] && states[0].pages == []
    requires HarFile.Closed(states[|calls|], true, t)
    ensures AllGood(DeliveredPages(calls)) && AllGood(AcceptedEntries(calls))
    ensures t.content == Utf8.Encode(HarFileText(Delivered(states[0].version, calls)))
    ensures ProperCalls(calls) ==> ReadArchive(t.content) == Some(Delivered(states[0].version, calls))
  {
    HarRunInv(states, calls);
    if ProperCalls(calls) {
      SameMeaning(Delivered(states[0].version, calls));
    }
  }

  /** Without I/O failures every Flush and the Close of HARFileReceiver succeed, if the items can be marshalled. */
  lemma {:induction false} ReliableHarRun(states: seq<HarFile.Session>, calls: seq<Call>)
    requires HarRun(states, calls) && states[0].reliable && states[0].open
    requires AllGood(states[0].entries) && AllGood(states[0].pages)
    requires forall i | 0 <= i < |calls| && !calls[i].Flush? :: calls[i].item.Good?
    ensures var s := states[|calls|]; s.reliable && s.open && s.Marshals()
    ensures forall i | 0 <= i < |calls| && !calls[i].Page? :: calls[i].ok
    ensures forall ok, t :: HarFile.Closed(states[|calls|], ok, t) ==> ok
  {
    if calls != [] {
      var n := |calls| - 1;
      ReliableHarRun(states[..|calls|], calls[..n]);
      assert HarFile.Step(states[n], calls[n], states[n + 1]);
      forall i | 0 <= i < |calls| && !calls[i].Page? ensures calls[i].ok {
        if i < n {
          assert calls[..n][i] == calls[i];
        }
      }
    }
  }

  /**
   * For the same calls with the same results, the file of HARFileReceiver and the document of the streaming receiver
   * give a reader the same archive: same version and creator, same entries and pages in the same orders.
   */
  lemma SameArchive(v: Version, calls: seq<Call>,
                    streamStates: seq<Streaming.Session>, streamEnd: Streaming.Session,
                    harStates: seq<HarFile.Session>, harEnd: HarFile.Session)
    requires ProperCalls(calls)
    requires StreamRun(streamStates, calls) && StreamStart(v, streamStates[0])
    requires Streaming.Closed(streamStates[|calls|], true, streamEnd)
    requires HarRun(harStates, calls)
    requires harStates[0].version == v && harStates[0].entries == [] && harStates[0].pages == []
    requires HarFile.Closed(harStates[|calls|], true, harEnd)
    ensures AllGood(DeliveredPages(calls)) && AllGood(AcceptedEntries(calls))
    ensures ReadArchive(streamEnd.out.content) == ReadArchive(harEnd.content) == Some(Delivered(v, calls))
  {
    CloseTellsTheTruth(v, streamStates, calls, streamEnd);
    HarCloseTellsTheTruth(harStates, calls, harEnd);
  }

  /** Every item can be marshalled. */
  predicate GoodCalls(calls: seq<Call>) {
    forall i | 0 <= i < |calls| && !calls[i].Flush? :: calls[i].item.Good? && Proper(calls[i].item)
  }

  lemma {:induction false} GoodCallsAreProper(calls: seq<Call>)
    requires GoodCalls(calls)
    ensures ProperCalls(calls) && AllGood(DeliveredPages(calls))
  {
    if calls != [] {
      GoodCallsAreProper(calls[..|calls| - 1]);
    }
  }

  /**
   * So without failures of the writer and of the file, and for items that can be marshalled, the two receivers can
   * be exchanged: every call and both Closes succeed, and the archives are the same.
   */
  lemma ReceiversAgree(v: Version, calls: seq<Call>,
                       streamStates: seq<Streaming.Session>, streamOk: bool, streamEnd: Streaming.Session,
                       harStates: seq<HarFile.Session>, harOk: bool, harEnd: HarFile.Session)
    requires GoodCalls(calls)
    requires StreamRun(streamStates, calls) && StreamStart(v, streamStates[0])
    requires streamStates[0].out.reliable && !streamStates[0].out.failed
    requires Streaming.Closed(streamStates[|calls|], streamOk, streamEnd)
    requires HarRun(harStates, calls) && harStates[0] == HarFile.Session([], true, true, v, [], [])
    requires HarFile.Closed(harStates[|calls|], harOk, harEnd)
    ensures streamOk && harOk && forall i | 0 <= i < |calls| && !calls[i].Page? :: calls[i].ok
    ensures AllGood(DeliveredPages(calls)) && AllGood(AcceptedEntries(calls))
    ensures ReadArchive(streamEnd.out.content) == ReadArchive(harEnd.content) == Some(Delivered(v, calls))
  {
    GoodCallsAreProper(calls);
    RunInv(v, streamStates, calls);
    StartInv(v, streamStates[0]);
    ReliableSession(streamStates, calls);
    ReliableHarRun(harStates, calls);
    assert streamOk && harOk;
    SameArchive(v, calls, streamStates, streamEnd, harStates, harEnd);
  }

  // ----- Calls after Close -----

  /** Whatever came of the first Close, every later one returns nil and leaves everything as it is. */
  lemma LaterCloses(s: Streaming.Session, ok: bool, t: Streaming.Session, later: bool, u: Streaming.Session)
    requires Streaming.Closed(s, ok, t) && Streaming.Closed(t, later, u)
    ensures later && u == t
  {
  }

  lemma {:induction false} GrownTail(base: string, n: nat, entries: seq<Json>)
    ensures Grown(base, n, entries) == base + Grown("", n, entries)
  {
    if entries == [] {
      assert base + "" == base;
    } else {
      var k := |entries| - 1;
      GrownTail(base, n, entries[..k]);
      Associative(base, Grown("", n, entries[..k]), Streaming.EntryText(n + k, entries[k]));
    }
  }

  lemma Associative(a: string, b: string, c: string)
    ensures a + b + c == a + (b + c)
  {
  }

  /** What is added to a text begins with something else than white space. */
  lemma {:induction false} TailStarts(n: nat, entries: seq<Json>)
    requires entries != [] && AllWellFormed(entries)
    ensures Grown("", n, entries) != "" && !Blank(Grown("", n, entries)[0])
  {
    var k := |entries| - 1;
    JsonProofs.PrintStart(entries[k], "");
    if k > 0 {
      TailStarts(n, entries[..k]);
    }
  }

  /** A finished document with something behind it is not JSON. */
  lemma NotJsonWithMore(a: Archive, more: string)
    requires WellFormedArchive(a) && more != "" && !Blank(more[0])
    ensures ParseDocument(StreamText(a) + more) == None
  {
    StreamRest(a);
    JsonProofs.ParseMore(StreamText(a), more);
    assert ("\n" + more)[1..] == more;
    assert SkipBlank("\n" + more) == SkipBlank(more) == more;
  }

  lemma BeyondTheDocument(a: Archive, n: nat, entries: seq<Json>, text: string)
    requires WellFormedArchive(a) && AllWellFormed(entries)
    requires StreamText(a) <= text <= Grown(StreamText(a), n, entries) && text != StreamText(a)
    ensures ParseDocument(text) == None
  {
    var doc, tail := StreamText(a), Grown("", n, entries);
    GrownTail(doc, n, entries);
    var more := text[|doc|..];
    assert text == doc + more && more != "";
    SamePrefix(doc, more, tail);
    TailStarts(n, entries);
    NotJsonWithMore(a, more);
  }

  lemma SamePrefix(doc: string, more: string, tail: string)
    requires doc + more <= doc + tail
    ensures more <= tail
  {
    assert forall i | 0 <= i < |more| :: more[i] == (doc + more)[|doc| + i] == (doc + tail)[|doc| + i] == tail[i];
  }

  /** Valid bytes between the encodings of two texts are the encoding of a text between them. */
  lemma TextBetween(doc: string, b: bytes, grown: string) returns (text: string)
    requires Utf8.Encode(doc) <= b <= Utf8.Encode(grown) && b != Utf8.Encode(doc) && Utf8.Valid(b)
    ensures Utf8.Decode(b) == Some(text) && doc <= text <= grown && doc != text
  {
    text := Utf8.Decode(b).value;
    Utf8.DecodeThenEncode(b);
    Utf8.PrefixOfText(doc, text);
    Utf8.PrefixOfText(text, grown);
  }

  /** The same for bytes, which may end inside a character: beyond the document there is nothing to read. */
  lemma ReadableOnlyAlone(a: Archive, n: nat, entries: seq<Json>, b: bytes)
    requires WellFormedArchive(a) && AllWellFormed(entries)
    requires Utf8.Encode(StreamText(a)) <= b <= Utf8.Encode(Grown(StreamText(a), n, entries))
    ensures ReadJson(b).Some? <==> b == Utf8.Encode(StreamText(a))
  {
    if b == Utf8.Encode(StreamText(a)) {
      Utf8.RoundTrip(StreamText(a));
      StreamParses(a);
    } else if Utf8.Valid(b) {
      var text := TextBetween(StreamText(a), b, Grown(StreamText(a), n, entries));
      BeyondTheDocument(a, n, entries, text);
    }
  }

  lemma {:induction false} LateRun(base: string, n: nat, states: seq<Streaming.Session>, calls: seq<Call>)
    requires StreamRun(states, calls) && Held(base, n, states[0], [])
    ensures Held(base, n, states[|calls|], calls) && states[0].out.content <= states[|calls|].out.content
  {
    if calls != [] {
      var k := |calls| - 1;
      LateRun(base, n, states[..|calls|], calls[..k]);
      HeldStep(base, n, states[k], calls[k], states[k + 1], calls[..k]);
      assert calls[..k] + [calls[k]] == calls;
      PrefixTransitive(states[0].out.content, states[k].out.content, states[k + 1].out.content);
    }
  }

  lemma ClosedHolds(v: Version, s: Streaming.Session, calls: seq<Call>, t: Streaming.Session)
    requires Inv(v, s, calls) && Streaming.Closed(s, true, t)
    ensures AllGood(DeliveredPages(calls)) && AllGood(AcceptedEntries(calls))
    ensures Held(StreamText(Delivered(v, calls)), t.entryCount, t, [])
    ensures t.out.content == t.out.log == Utf8.Encode(StreamText(Delivered(v, calls)))
  {
    ClosedInFull(v, s, calls, t);
    assert Jsons([]) == [];
  }

  /**
   * Entry and Flush do not ask whether the receiver has been closed. After a Close that returned nil the document stays
   * where it is, and what entries add comes behind it: from the first byte of one on, the whole is not JSON any more.
   * If a Flush has returned nil last, it is still the document if and only if no entry has been accepted since; and it
   * is, in any case, if no entry that can be marshalled has come.
   */
  lemma AfterClose(v: Version, states: seq<Streaming.Session>, calls: seq<Call>,
                   late: seq<Streaming.Session>, lateCalls: seq<Call>)
    requires StreamRun(states, calls) && StreamStart(v, states[0])
    requires StreamRun(late, lateCalls) && Streaming.Closed(states[|calls|], true, late[0])
    ensures AllGood(DeliveredPages(calls)) && AllGood(AcceptedEntries(calls))
    ensures var doc, b := Utf8.Encode(StreamText(Delivered(v, calls))), late[|lateCalls|].out.content;
            && doc <= b
            && (ProperCalls(calls) && ProperCalls(lateCalls) ==> (ReadJson(b).Some? <==> b == doc))
            && (ProperCalls(lateCalls) && lateCalls != [] && lateCalls[|lateCalls| - 1] == Flush(true)
                ==> (b == doc <==> AcceptedEntries(lateCalls) == []))
            && (AcceptedEntries(lateCalls) == [] && FirstRefused(lateCalls) == [] ==> b == doc)
  {
    RunInv(v, states, calls);
    ClosedHolds(v, states[|calls|], calls, late[0]);
    var base, n := StreamText(Delivered(v, calls)), late[0].entryCount;
    LateRun(base, n, late, lateCalls);
    LateText(v, calls, n, late[|lateCalls|], lateCalls);
    if ProperCalls(lateCalls) && lateCalls != [] && lateCalls[|lateCalls| - 1] == Flush(true) {
      var k := |lateCalls| - 1;
      assert Streaming.Step(late[k], lateCalls[k], late[k + 1]);
      var s := late[|lateCalls|];
      assert !s.out.failed && s.out.content == s.out.log;
      OnlyWithoutEntries(base, n, Jsons(AcceptedEntries(lateCalls)));
    }
  }

  lemma OnlyWithoutEntries(base: string, n: nat, entries: seq<Json>)
    requires AllWellFormed(entries)
    ensures Utf8.Encode(Grown(base, n, entries)) == Utf8.Encode(base) <==> entries == []
  {
    if entries != [] {
      GrownTail(base, n, entries);
      TailStarts(n, entries);
      Utf8.RoundTrip(Grown(base, n, entries));
      Utf8.RoundTrip(base);
    }
  }

  lemma LateText(v: Version, calls: seq<Call>, n: nat, s: Streaming.Session, late: seq<Call>)
    requires AllGood(DeliveredPages(calls)) && AllGood(AcceptedEntries(calls))
    requires Held(StreamText(Delivered(v, calls)), n, s, late)
    requires Utf8.Encode(StreamText(Delivered(v, calls))) <= s.out.content
    ensures var doc, b := Utf8.Encode(StreamText(Delivered(v, calls))), s.out.content;
            && (ProperCalls(calls) && ProperCalls(late) ==> (ReadJson(b).Some? <==> b == doc))
            && (AcceptedEntries(late) == [] && FirstRefused(late) == [] ==> b == doc)
  {
    var base := StreamText(Delivered(v, calls));
    var entries := Jsons(AcceptedEntries(late)) + FirstRefused(late);
    assert FirstRefused(late) == [] ==> entries == Jsons(AcceptedEntries(late));
    PrefixTransitive(s.out.content, s.out.log, Utf8.Encode(Grown(base, n, entries)));
    if ProperCalls(calls) && ProperCalls(late) {
      DeliveredWellFormed(v, calls);
      ReadableOnlyAlone(Delivered(v, calls), n, entries, s.out.content);
    }
  }
}
