/** The streaming receiver: a document printed piece by piece, as entries arrive. */
module Streaming {
  import opened Common
  import opened Json
  import opened Archives
  import opened Bufio
  import Utf8

  const SEPARATOR := ",\n"

  /** What a receiver's user can tell about it. */
  datatype Session = Session(out: Stream, pages: seq<Item>, entryCount: nat, closed: bool)

  /** What one entry adds to the document. */
  function EntryText(entryCount: nat, j: Json): string {
    (if entryCount > 0 then SEPARATOR else "") + Print(j)
  }

  function PageText(item: Item): string {
    match item
    case Good(j) => Print(j)
    case Unmarshalable => ""
  }

  /** The pages as Close writes them; a page that cannot be marshalled leaves its place empty. */
  function PageTexts(pages: seq<Item>): string {
    if pages == [] then ""
    else if |pages| == 1 then PageText(pages[0])
    else PageTexts(pages[..|pages| - 1]) + (SEPARATOR + PageText(pages[|pages| - 1]))
  }

  function ClosingText(pages: seq<Item>): string {
    BETWEEN + PageTexts(pages) + EPILOGUE
  }

  /** Bytes handed to the stream in one or more writes; if one of them failed, some prefix of them was. */
  ghost predicate EmittedBytes(s: Stream, b: bytes, t: Stream) {
    if s.failed then t == s
    else Grows(s, t) && t.log <= s.log + b && (!t.failed ==> t.log == s.log + b)
  }

  ghost predicate Emitted(s: Stream, text: string, t: Stream) {
    EmittedBytes(s, Utf8.Encode(text), t)
  }

  lemma GrowsTransitive(s: Stream, t: Stream, u: Stream)
    requires Grows(s, t) && Grows(t, u)
    ensures Grows(s, u)
  {
    PrefixTransitive(s.content, t.content, u.content);
    PrefixTransitive(s.log, t.log, u.log);
  }

  lemma Associate(a: bytes, b: bytes, c: bytes)
    ensures a + b + c == a + (b + c) && a + b <= a + (b + c)
  {
  }

  lemma EmitBytes(s: Stream, d: bytes, t: Stream, x: bytes, ok: bool, u: Stream)
    requires EmittedBytes(s, d, t) && Written(t, x, ok, u)
    ensures EmittedBytes(s, d + x, u) && ok == !u.failed
  {
    Associate(s.log, d, x);
    if !s.failed {
      if t.failed {
        PrefixTransitive(t.log, s.log + d, s.log + (d + x));
      } else {
        GrowsTransitive(s, t, u);
      }
    }
  }

  lemma EmitMore(s: Stream, done: string, t: Stream, text: string, ok: bool, u: Stream)
    requires Emitted(s, done, t) && Written(t, Utf8.Encode(text), ok, u)
    ensures Emitted(s, done + text, u) && ok == !u.failed
  {
    Utf8.EncodeConcat(done, text);
    EmitBytes(s, Utf8.Encode(done), t, Utf8.Encode(text), ok, u);
  }

  /** A stream that has failed may have been meant to carry more. */
  lemma EmitLess(s: Stream, done: string, t: Stream, text: string)
    requires Emitted(s, done, t) && t.failed
    ensures Emitted(s, done + text, t)
  {
    var d, x := Utf8.Encode(done), Utf8.Encode(text);
    Utf8.EncodeConcat(done, text);
    Associate(s.log, d, x);
    if !s.failed {
      PrefixTransitive(t.log, s.log + d, s.log + (d + x));
    }
  }

  lemma EmitThenFlush(s: Stream, text: string, t: Stream, ok: bool, u: Stream)
    requires Emitted(s, text, t) && Flushed(t, ok, u)
    ensures Emitted(s, text, u) && ok == !u.failed
    ensures !u.failed ==> !t.failed && u.content == u.log
  {
    if !t.failed {
      if !s.failed {
        GrowsTransitive(s, t, u);
      }
    }
  }

  lemma EmitNothing(s: Stream)
    requires s.content <= s.log
    ensures Emitted(s, "", s)
  {
    assert s.log + [] == s.log;
  }

  ghost predicate Started(s: Session, v: Version, ok: bool, t: Session) {
    && t == s.(out := t.out)
    && Emitted(s.out, Prologue(v), t.out)
    && ok == !t.out.failed && (ok ==> t.out.content == t.out.log)
  }

  ghost predicate Step(s: Session, e: Call, t: Session) {
    match e
    case Page(item) => t == s.(pages := s.pages + [item])
    case Flush(ok) => t == s.(out := t.out) && Flushed(s.out, ok, t.out)
    case Entry(Unmarshalable, ok) => !ok && t == s
    case Entry(Good(j), ok) =>
      && t == s.(out := t.out, entryCount := s.entryCount + if ok then 1 else 0)
      && Emitted(s.out, EntryText(s.entryCount, j), t.out)
      && ok == !t.out.failed
  }

  ghost predicate Closed(s: Session, ok: bool, t: Session) {
    if s.closed then ok && t == s
    else
      && t == s.(out := t.out, closed := true)
      && Emitted(s.out, ClosingText(s.pages), t.out)
      && ok == (!t.out.failed && AllGood(s.pages))
      && (!t.out.failed ==> t.out.content == t.out.log)
  }

  class Receiver {
    const bw: BufWriter
    var pages: seq<Item>
    var version: Option<Version>
    var entryCount: nat
    var closed: bool

    ghost predicate Valid()
      reads this, bw, bw.under
    {
      bw.Valid()
    }

    ghost function State(): Session
      reads this, bw, bw.under
    {
      Session(bw.State(), pages, entryCount, closed)
    }

    constructor (w: Writer)
      ensures Valid() && fresh(bw) && bw.under == w
      ensures State() == Session(Stream(w.content, w.content, false, w.plan == []), [], 0, false)
    {
      bw := new BufWriter(w);
      pages, version, entryCount, closed := [], None, 0, false;
    }

    method Start(version: Version) returns (ok: bool)
      requires Valid()
      modifies this, bw, bw.under
      ensures Valid() && Started(old(State()), version, ok, State())
    {
      this.version := Some(version);
      ok := bw.Write(Utf8.Encode(Prologue(version)));
      if !ok {
        return;
      }
      ok := bw.Flush();
    }

    method Entry(item: Item) returns (ok: bool)
      requires Valid()
      modifies this, bw, bw.under
      ensures Valid() && Step(old(State()), Call.Entry(item, ok), State())
    {
      if item.Unmarshalable? {
        return false;
      }
      ghost var before, separator := bw.State(), if entryCount > 0 then SEPARATOR else "";
      EmitNothing(before);
      if entryCount > 0 {
        ok := Emit(SEPARATOR, before, "");
        assert "" + SEPARATOR == SEPARATOR;
        if !ok {
          EmitLess(before, SEPARATOR, bw.State(), Print(item.json));
          return;
        }
      }
      ok := Emit(Print(item.json), before, separator);
      if !ok {
        return;
      }
      entryCount := entryCount + 1;
    }

    method Page(item: Item)
      requires Valid()
      modifies this
      ensures Valid() && Step(old(State()), Call.Page(item), State())
    {
      pages := pages + [item];
    }

    method Flush() returns (ok: bool)
      requires Valid()
      modifies bw, bw.under
      ensures Valid() && Step(old(State()), Call.Flush(ok), State())
    {
      ok := bw.Flush();
    }

    /** One WriteString or Write on the buffer, after the text that has been handed to it before. */
    method Emit(text: string, ghost before: Stream, ghost done: string) returns (ok: bool)
      requires Valid() && Emitted(before, done, bw.State())
      modifies bw, bw.under
      ensures Valid() && Emitted(before, done + text, bw.State())
      ensures ok == !bw.failed && (old(bw.failed) ==> bw.failed)
    {
      ghost var last := bw.State();
      ok := bw.Write(Utf8.Encode(text));
      EmitMore(before, done, last, text, ok, bw.State());
    }

    /** One turn of the loop in Close; false stands for an error that Close keeps. */
    method WritePage(i: nat, good: bool, ghost before: Stream, ghost done: string) returns (ok: bool)
      requires Valid() && i < |pages| && Emitted(before, done + PageTexts(pages[..i]), bw.State())
      requires good ==> !bw.failed
      modifies bw, bw.under
      ensures Valid() && Emitted(before, done + PageTexts(pages[..i + 1]), bw.State())
      ensures ok == (good && !bw.failed && pages[i].Good?)
      ensures old(bw.failed) ==> bw.failed
    {
      ok := good;
      ghost var written := done + PageTexts(pages[..i]);
      PageTextsAppend(done, pages, i);
      if i > 0 {
        var wrote := Emit(SEPARATOR, before, written);
        ok := ok && wrote;
        written := written + SEPARATOR;
      }
      // A page that json.Marshal refuses contributes no bytes, but its error is kept.
      ok := ok && pages[i].Good?;
      var wrote := Emit(PageText(pages[i]), before, written);
      ok := ok && wrote;
    }

    /** The loop of Close. The result says whether no error was kept; once the buffer fails, every write does. */
    method WritePages(good: bool, ghost before: Stream, ghost done: string) returns (ok: bool)
      requires Valid() && Emitted(before, done, bw.State())
      requires good == !bw.failed
      modifies bw, bw.under
      ensures Valid() && Emitted(before, done + PageTexts(pages), bw.State())
      ensures ok == (!bw.failed && AllGood(pages))
    {
      ok := good;
      NoPagesYet(done, pages);
      for i := 0 to |pages|
        invariant Valid() && Emitted(before, done + PageTexts(pages[..i]), bw.State())
        invariant ok == (!bw.failed && AllGood(pages[..i]))
      {
        AllGoodNext(pages, i);
        ok := WritePage(i, ok, before, done);
      }
      TakeAll(pages);
    }

    /** The writes of Close: the pages array, the end of the document and the flush. */
    method Finish() returns (ok: bool)
      requires Valid()
      modifies bw, bw.under
      ensures Valid() && Emitted(old(bw.State()), ClosingText(pages), bw.State())
      ensures ok == (!bw.failed && AllGood(pages))
      ensures !bw.failed ==> bw.under.content == bw.log
    {
      ghost var before := bw.State();
      EmitNothing(before);
      ok := Emit(BETWEEN, before, "");
      assert "" + BETWEEN == BETWEEN;
      ok := WritePages(ok, before, BETWEEN);
      var wrote := Emit(EPILOGUE, before, BETWEEN + PageTexts(pages));
      ok := ok && wrote;
      ghost var last := bw.State();
      wrote := bw.Flush();
      EmitThenFlush(before, ClosingText(pages), last, wrote, bw.State());
      ok := ok && wrote;
    }

    method Close() returns (ok: bool)
      requires Valid()
      modifies this, bw, bw.under
      ensures Valid() && Closed(old(State()), ok, State())
    {
      if closed {
        return true;
      }
      closed := true;
      ok := Finish();
    }
  }

  lemma NoPagesYet(done: string, pages: seq<Item>)
    ensures done + PageTexts(pages[..0]) == done && AllGood(pages[..0])
  {
  }

  lemma AllGoodNext(pages: seq<Item>, i: nat)
    requires i < |pages|
    ensures AllGood(pages[..i + 1]) <==> AllGood(pages[..i]) && pages[i].Good?
  {
    var more := pages[..i + 1];
    assert more[..i] == pages[..i] && more[i] == pages[i];
    assert forall k | 0 <= k < i :: more[k] == pages[..i][k];
  }

  lemma PageTextsAppend(done: string, pages: seq<Item>, i: nat)
    requires i < |pages|
    ensures done + PageTexts(pages[..i + 1])
            == (if i > 0 then done + PageTexts(pages[..i]) + SEPARATOR else done + PageTexts(pages[..i]))
               + PageText(pages[i])
  {
    assert pages[..i + 1][..i] == pages[..i];
  }
}
