/** Round trips and pages: what is recorded when, and which pages are sent. */
module DayTrips {
  import opened Common
  import Copier
  import Decode
  import Recorder
  import Timer

  /** har.Page as far as the recorder looks at it; onLoad is a duration. */
  datatype Page = Page(id: string, title: string, started: int, onLoad: int)

  /** The context values of a request. */
  datatype Ctx = Ctx(included: bool, startPage: Option<Page>, endPage: Option<string>)

  // ----- Pages -----

  /** The parts of a trip that concern pages: its beginning, and its end, which a recording error skips. */
  datatype PageEvent = Begin(ctx: Ctx) | Finish(ctx: Ctx, recordErr: bool, now: int)

  datatype PageState = PageState(pageMap: map<string, Page>, sent: seq<Page>)

  const NO_PAGES := PageState(map[], [])

  function Loaded(p: Page, now: int): Page {
    p.(onLoad := Timer.Since(Some(p.started), now))
  }

  function StartPage(s: PageState, ctx: Ctx): PageState {
    match ctx.startPage
    case None => s
    case Some(p) => s.(pageMap := s.pageMap[p.id := p])
  }

  function EndPage(s: PageState, ctx: Ctx, now: int): PageState {
    if ctx.endPage.None? || ctx.endPage.value !in s.pageMap then s
    else
      var id := ctx.endPage.value;
      PageState(s.pageMap - {id}, s.sent + [Loaded(s.pageMap[id], now)])
  }

  function PageStep(s: PageState, e: PageEvent): PageState {
    match e
    case Begin(ctx) => StartPage(s, ctx)
    case Finish(ctx, recordErr, now) => if recordErr then s else EndPage(s, ctx, now)
  }

  function PageRun(events: seq<PageEvent>): PageState {
    if events == [] then NO_PAGES else PageStep(PageRun(events[..|events| - 1]), events[|events| - 1])
  }

  // ----- Round trips -----

  /** What sendEntry returns. */
  function SendErr(sendOk: bool): Copier.Err {
    if sendOk then Copier.Nil else Copier.Other(0)
  }

  /** What the wrapped transport answers. A response has a body or none. */
  datatype Answer = NoResponse(err: Option<string>)
      | Responded(rsp: Recorder.Rsp, body: Option<Copier.Body>, err: Option<string>)

  datatype TripResult =
    | Forwarded
    | RecordingFailed
    | Answered(rsp: Option<Recorder.Rsp>, body: Option<Exchange>, err: Option<string>)

  class DayTripper {
    const includeAll: bool
    const maxBodySize: int64
    const decoder: Recorder.BodyDecoder
    var pageMap: map<string, Page>
    // What sendPage and sendEntry have been called with.
    var sentPages: seq<Page>
    var sentEntries: seq<Recorder.Recorded>

    constructor (includeAll: bool, maxBodySize: int64, decoder: Recorder.BodyDecoder)
      ensures Pages() == NO_PAGES && sentEntries == []
      ensures this.includeAll == includeAll && this.maxBodySize == maxBodySize && this.decoder == decoder
    {
      this.includeAll, this.maxBodySize, this.decoder := includeAll, maxBodySize, decoder;
      pageMap, sentPages, sentEntries := map[], [], [];
    }

    ghost function Pages(): PageState
      reads this
    {
      PageState(pageMap, sentPages)
    }

    predicate ShouldInclude(ctx: Ctx) {
      includeAll || ctx.included
    }

    method HandleStartPage(ctx: Ctx)
      modifies this`pageMap
      ensures Pages() == PageStep(old(Pages()), Begin(ctx))
    {
      if ctx.startPage.Some? {
        pageMap := pageMap[ctx.startPage.value.id := ctx.startPage.value];
      }
    }

    method HandleEndPage(ctx: Ctx, now: int)
      modifies this`pageMap, this`sentPages
      ensures Pages() == PageStep(old(Pages()), Finish(ctx, false, now))
    {
      if ctx.endPage.None? {
        return;
      }
      var id := ctx.endPage.value;
      if id !in pageMap {
        return;
      }
      var page := Loaded(pageMap[id], now);
      sentPages := sentPages + [page];
      pageMap := pageMap - {id};
    }

    /** recordTrip's response part, and sendEntry; the receiver's answer is given. */
    method RecordTrip(rsp: Option<Recorder.Rsp>, rspBody: Copier.StreamCopier?, rspErr: Option<string>, sendOk: bool)
      returns (ok: bool)
      modifies this`sentEntries
      ensures ok == sendOk
      ensures sentEntries
              == old(sentEntries)
                 + [Recorder.Response(decoder, rsp, if rspBody == null then None else Some(rspBody.Captured()), rspErr,
                                      maxBodySize)]
    {
      var response := Recorder.RecordResponse(decoder, maxBodySize, rsp, rspBody, rspErr);
      sentEntries := sentEntries + [response.View()];
      ok := sendOk;
    }

    /**
     * A trip with a body is not recorded here but when its body's copier first notices the end. A trip without one
     * is recorded at once, and then the report does not have the response yet: what is recorded has no status.
     */
    method RoundTrip(ctx: Ctx, answer: Answer, sendOk: bool, now: int) returns (r: TripResult)
      modifies this
      ensures r.Forwarded? <==> !includeAll && !ctx.included
      ensures r.Forwarded? ==> Pages() == old(Pages()) && sentEntries == old(sentEntries)
      ensures includeAll || ctx.included ==>
                var streamed := answer.Responded? && answer.body.Some?;
                var recordErr := !streamed && !sendOk;
                && Pages() == PageStep(PageStep(old(Pages()), Begin(ctx)), Finish(ctx, recordErr, now))
                && sentEntries == (if streamed then old(sentEntries)
                                   else old(sentEntries) + [RecordedAtOnce(decoder, answer, maxBodySize)])
                && r.RecordingFailed? == recordErr && !r.Forwarded?
                && (!recordErr ==>
                      && r.rsp == (if answer.Responded? then Some(answer.rsp) else None) && r.err == answer.err
                      && r.body.Some? == streamed
                      && (streamed ==>
                            && fresh(r.body.value) && r.body.value.Valid() && r.body.value.dt == this
                            && r.body.value.rsp == answer.rsp && r.body.value.rspErr == answer.err
                            && r.body.value.done.err == SendErr(sendOk)
                            && r.body.value.copier.wrapped == answer.body.value
                            && r.body.value.copier.maxSize == maxBodySize
                            && r.body.value.Live() == LiveState(Copier.OPEN, Copier.NOTHING, sentEntries)))
    {
      if !ShouldInclude(ctx) {
        return Forwarded;
      }
      HandleStartPage(ctx);
      // The report at the time of doneFunc.
      var reportRsp: Option<Recorder.Rsp> := None;
      var body: Option<Exchange> := None;
      if answer.Responded? {
        if answer.body.Some? {
          var exchange := new Exchange(this, answer.rsp, answer.body.value, answer.err, sendOk);
          body := Some(exchange);
        } else {
          var ok := RecordTrip(reportRsp, null, answer.err, sendOk);
          if !ok {
            return RecordingFailed;
          }
        }
        reportRsp := Some(answer.rsp);
      } else {
        var ok := RecordTrip(reportRsp, null, answer.err, sendOk);
        if !ok {
          return RecordingFailed;
        }
      }
      HandleEndPage(ctx, now);
      return Answered(reportRsp, body, answer.err);
    }
  }

  // ----- The body of a trip -----

  /** What changes while a body is read and closed: the gate, the capture, and the calls of sendEntry. */
  datatype LiveState = LiveState(gate: Copier.Gate, capture: Copier.Capture, sent: seq<Recorder.Recorded>)

  /** A read with what the wrapped body delivered, or a close. */
  datatype BodyEvent = Reads(d: Copier.Delivery) | Closes

  predicate Notifies(e: BodyEvent) {
    e.Closes? || e.d.err.Eof?
  }

  /** The parts of a trip's report that do not change. */
  datatype Report = Report(decoder: Recorder.BodyDecoder, rsp: Recorder.Rsp, rspErr: Option<string>, maxSize: int64)

  function RecordOf(report: Report, capture: Copier.Capture): Recorder.Recorded {
    Recorder.Response(report.decoder, Some(report.rsp), Some(capture), report.rspErr, report.maxSize)
  }

  function LiveStep(report: Report, s: LiveState, e: BodyEvent): LiveState {
    var capture := if e.Reads? then Copier.Observe(s.capture, e.d.data, report.maxSize) else s.capture;
    if !Notifies(e) then s.(capture := capture)
    else
      var (gate, notice) := Copier.Notify(s.gate);
      LiveState(gate, capture, s.sent + if notice.First? then [RecordOf(report, capture)] else [])
  }

  /** A response body in the hands of the caller, with the closure that records its trip. */
  class Exchange {
    const dt: DayTripper
    const rsp: Recorder.Rsp
    const rspErr: Option<string>
    const copier: Copier.StreamCopier
    const done: Copier.Callback

    ghost predicate Valid()
      reads copier
    {
      copier.Valid() && copier.cb == done && copier.maxSize == dt.maxBodySize
    }

    ghost function Live(): LiveState
      reads copier, dt
    {
      LiveState(copier.State(), copier.Captured(), dt.sentEntries)
    }

    function TheReport(): Report {
      Report(dt.decoder, rsp, rspErr, dt.maxBodySize)
    }

    /** The callback counts the calls of doneFunc and gives what sendEntry is going to answer. */
    constructor (dt: DayTripper, rsp: Recorder.Rsp, body: Copier.Body, rspErr: Option<string>, sendOk: bool)
      ensures Valid() && fresh(copier) && fresh(done) && this.dt == dt && this.rsp == rsp && this.rspErr == rspErr
      ensures done.err == SendErr(sendOk)
      ensures copier.wrapped == body && Live() == LiveState(Copier.OPEN, Copier.NOTHING, dt.sentEntries)
    {
      var cb := new Copier.Callback(SendErr(sendOk));
      this.dt, this.rsp, this.rspErr, done := dt, rsp, rspErr, cb;
      copier := new Copier.StreamCopier(body, cb, dt.maxBodySize);
    }

    /** doneFunc, if the copier has just called it. */
    method RecordIfDone(calls: nat)
      requires Valid() && calls <= done.calls <= calls + 1
      modifies dt`sentEntries
      ensures dt.sentEntries
              == old(dt.sentEntries) + if done.calls > calls then [RecordOf(TheReport(), copier.Captured())] else []
    {
      if done.calls > calls {
        var _ := dt.RecordTrip(Some(rsp), copier, rspErr, done.err.Nil?);
      }
    }

    method Read(p: array<byte>) returns (r: Copier.Result)
      requires Valid()
      modifies copier, copier.wrapped`script, p, done, dt`sentEntries
      ensures Valid()
      ensures var (d, script) := Copier.Deliver(old(copier.wrapped.script), p.Length);
              && copier.wrapped.script == script && p[..] == d.data + old(p[..])[|d.data|..]
              && Live() == LiveStep(TheReport(), old(Live()), Reads(d))
              && r == Copier.ReadResult(|d.data|, d.err, Copier.Notify(old(copier.State())).1, done.err)
    {
      var calls := done.calls;
      r := copier.Read(p);
      RecordIfDone(calls);
    }

    method Close() returns (r: Copier.Result)
      requires Valid()
      modifies copier, copier.wrapped`closes, done, dt`sentEntries
      ensures Valid() && Live() == LiveStep(TheReport(), old(Live()), Closes)
      ensures copier.wrapped.closes
              == old(copier.wrapped.closes) + match Copier.Notify(old(copier.State())).1
                                              case Stuck => 0
                                              case Repeated => 1
                                              case First => if done.err.Nil? then 1 else 0
      ensures r == match Copier.Notify(old(copier.State())).1
                   case Stuck => Copier.Hangs
                   case Repeated => Copier.Returns(0, copier.wrapped.closeErr)
                   case First => Copier.Returns(0, if done.err.Nil? then copier.wrapped.closeErr else done.err)
    {
      var calls := done.calls;
      r := copier.Close();
      RecordIfDone(calls);
    }
  }

  function LiveRun(report: Report, s: LiveState, events: seq<BodyEvent>): LiveState {
    if events == [] then s else LiveStep(report, LiveRun(report, s, events[..|events| - 1]), events[|events| - 1])
  }

  /** The bytes read by some events. */
  function Chunks(events: seq<BodyEvent>): seq<bytes> {
    if events == [] then []
    else
      var last := events[|events| - 1];
      Chunks(events[..|events| - 1]) + if last.Reads? then [last.d.data] else []
  }

  /** Up to and with the first event that notifies, if there is one. */
  function UntilNotice(events: seq<BodyEvent>): Option<seq<BodyEvent>> {
    if events == [] then None
    else
      var before := UntilNotice(events[..|events| - 1]);
      if before.Some? then before
      else if events[|events| - 1].Closes? || events[|events| - 1].d.err.Eof? then Some(events)
      else None
  }

  /** The record that some events ask for. */
  function Due(report: Report, events: seq<BodyEvent>): seq<Recorder.Recorded> {
    match UntilNotice(events)
    case None => []
    case Some(heard) => [RecordOf(report, Copier.ObserveAll(Chunks(heard), report.maxSize))]
  }

  ghost predicate LiveInv(report: Report, sent: seq<Recorder.Recorded>, events: seq<BodyEvent>, s: LiveState) {
    && s.capture == Copier.ObserveAll(Chunks(events), report.maxSize)
    && s.gate.closed == UntilNotice(events).Some? && (!s.gate.closed ==> !s.gate.locked)
    && s.sent == sent + Due(report, events)
  }

  lemma CaptureMore(events: seq<BodyEvent>, e: BodyEvent, maxSize: int64)
    ensures Copier.ObserveAll(Chunks(events + [e]), maxSize)
            == if e.Reads? then Copier.Observe(Copier.ObserveAll(Chunks(events), maxSize), e.d.data, maxSize)
               else Copier.ObserveAll(Chunks(events), maxSize)
  {
    assert (events + [e])[..|events|] == events;
    if e.Reads? {
      var chunks := Chunks(events) + [e.d.data];
      assert chunks[..|chunks| - 1] == Chunks(events);
    } else {
      assert Chunks(events) + [] == Chunks(events);
    }
  }

  lemma NoticeMore(events: seq<BodyEvent>, e: BodyEvent)
    ensures UntilNotice(events + [e])
            == if UntilNotice(events).Some? then UntilNotice(events)
               else if Notifies(e) then Some(events + [e]) else None
  {
    assert (events + [e])[..|events|] == events;
  }

  lemma LiveMore(report: Report, sent: seq<Recorder.Recorded>, events: seq<BodyEvent>, s: LiveState, e: BodyEvent)
    requires LiveInv(report, sent, events, s)
    ensures LiveInv(report, sent, events + [e], LiveStep(report, s, e))
  {
    CaptureMore(events, e, report.maxSize);
    NoticeMore(events, e);
    assert s.sent + [] == s.sent;
    if UntilNotice(events).None? {
      assert Due(report, events) == [] && sent + [] == sent;
    }
  }

  lemma {:induction false} LiveRunInv(report: Report, sent: seq<Recorder.Recorded>, events: seq<BodyEvent>)
    ensures LiveInv(report, sent, events, LiveRun(report, LiveState(Copier.OPEN, Copier.NOTHING, sent), events))
  {
    if events == [] {
      assert sent + [] == sent;
    } else {
      var n := |events| - 1;
      LiveRunInv(report, sent, events[..n]);
      LiveMore(report, sent, events[..n], LiveRun(report, LiveState(Copier.OPEN, Copier.NOTHING, sent), events[..n]),
               events[n]);
      assert events[..n] + [events[n]] == events;
    }
  }

  /**
   * However a body is read and closed, and however often, its trip is recorded once, at the first end of the body or
   * close, and the record is made of exactly the bytes read until then.
   */
  lemma RecordedAtFirstNotice(report: Report, sent: seq<Recorder.Recorded>, events: seq<BodyEvent>)
    ensures var s := LiveRun(report, LiveState(Copier.OPEN, Copier.NOTHING, sent), events);
            s.sent == match UntilNotice(events)
                      case None => sent
                      case Some(heard) => sent + [RecordOf(report, Copier.ObserveAll(Chunks(heard), report.maxSize))]
  {
    LiveRunInv(report, sent, events);
    assert sent + [] == sent;
  }

  /**
   * From the wire to the receiver: a body without content coding can be had back from its one record, up to the
   * limit.
   */
  lemma BodyReachesTheRecord(report: Report, events: seq<BodyEvent>)
    requires report.rsp.contentEncoding() == "" && UntilNotice(events).Some?
    ensures var sent := LiveRun(report, LiveState(Copier.OPEN, Copier.NOTHING, []), events).sent;
            var body := Concat(Chunks(UntilNotice(events).value));
            && |sent| == 1
            && Recorder.BytesOf(sent[0].content) == Some(Copier.Kept(body, report.maxSize))
            && sent[0].bodySize == |body| % TWO_64
            && (sent[0].comment != "" <==> report.maxSize > 0 && |body| > report.maxSize
                                           && !Copier.Boundary(Chunks(UntilNotice(events).value), report.maxSize))
  {
    RecordedAtFirstNotice(report, [], events);
    Recorder.PlainBodyIsRecorded(report.decoder, report.rsp, Chunks(UntilNotice(events).value), report.rspErr,
                                 report.maxSize);
  }

  /** The same for a body with content codings, if all of it was read and captured and the codings can be undone. */
  lemma CodedBodyReachesTheRecord(report: Report, events: seq<BodyEvent>, ds: Decode.Decoders, es: Decode.Encoders,
                                  body: bytes)
    requires Decode.Lawful(ds, es) && report.decoder == Recorder.DefaultDecoder(ds) && report.maxSize < MAX_INT64
    requires UntilNotice(events).Some?
    requires var cs := Decode.Codings(Decode.SplitCommas(report.rsp.contentEncoding()));
             && Decode.AllKnown(cs) && Decode.Effective(cs) == Decode.Reversed(Decode.Effective(cs))
             && Concat(Chunks(UntilNotice(events).value)) == Decode.Applied(es, cs, body)
    requires report.maxSize > 0 ==> |Concat(Chunks(UntilNotice(events).value))| <= report.maxSize
    ensures var sent := LiveRun(report, LiveState(Copier.OPEN, Copier.NOTHING, []), events).sent;
            && |sent| == 1
            && Recorder.BytesOf(sent[0].content) == Some(Copier.Kept(body, report.maxSize))
            && (sent[0].comment != "" <==> report.maxSize > 0 && |body| > report.maxSize)
  {
    RecordedAtFirstNotice(report, [], events);
    Recorder.CodedBodyIsRecorded(ds, es, report.rsp, Chunks(UntilNotice(events).value), body, report.rspErr,
                                 report.maxSize);
  }

  // ----- What is recorded of which answer -----

  /** What the record of a trip should be made of: the response if there is one, and what was captured of its body. */
  function Intended(decoder: Recorder.BodyDecoder, answer: Answer, captured: Copier.Capture,
                    maxSize: int64): Recorder.Recorded {
    match answer
    case NoResponse(err) => Recorder.Response(decoder, None, None, err, maxSize)
    case Responded(rsp, body, err) =>
      Recorder.Response(decoder, Some(rsp), if body.Some? then Some(captured) else None, err, maxSize)
  }

  /** What RoundTrip itself records when there is no body: the report has no response then. */
  function RecordedAtOnce(decoder: Recorder.BodyDecoder, answer: Answer, maxSize: int64): Recorder.Recorded {
    Recorder.Response(decoder, None, None, answer.err, maxSize)
  }

  /** What is recorded of an answer. */
  function RecordOfAnswer(decoder: Recorder.BodyDecoder, answer: Answer, captured: Copier.Capture,
                          maxSize: int64): Recorder.Recorded {
    if answer.Responded? && answer.body.Some? then RecordOf(Report(decoder, answer.rsp, answer.err, maxSize), captured)
    else RecordedAtOnce(decoder, answer, maxSize)
  }

  /**
   * The record of a trip is what it should be exactly when there was no response or one with a body. A response
   * without a body is never recorded as it was, whatever its status and headers.
   */
  lemma RecordIsRightIff(decoder: Recorder.BodyDecoder, answer: Answer, captured: Copier.Capture, maxSize: int64)
    ensures RecordOfAnswer(decoder, answer, captured, maxSize) == Intended(decoder, answer, captured, maxSize)
            <==> answer.NoResponse? || answer.body.Some?
    ensures answer.NoResponse? || answer.body.None? ==>
              RecordOfAnswer(decoder, answer, captured, maxSize)
              == Recorder.Response(decoder, None, None, answer.err, maxSize)
  {
    if answer.Responded? {
      Recorder.HeadTells(answer.rsp);
    }
  }

  // ----- Pages over whole runs -----

  /** What an event says about a page: that it is open (again), or that it is to be sent if it is open. */
  function Opens(e: PageEvent): Option<Page> {
    if e.Begin? then e.ctx.startPage else None
  }

  function Ends(e: PageEvent): Option<string> {
    if e.Finish? && !e.recordErr then e.ctx.endPage else None
  }

  /** The page open under an id, told from the history alone: the last event about the id decides. */
  function OpenPage(events: seq<PageEvent>, id: string): Option<Page> {
    if events == [] then None
    else
      var last := events[|events| - 1];
      if Opens(last).Some? && Opens(last).value.id == id then Opens(last)
      else if Ends(last) == Some(id) then None
      else OpenPage(events[..|events| - 1], id)
  }

  /**
   * The pages to be sent, told from the history: one for each end that finds its id open, with the time since it was
   * started as its load time.
   */
  function DuePages(events: seq<PageEvent>): seq<Page> {
    if events == [] then []
    else
      var before, last := events[..|events| - 1], events[|events| - 1];
      DuePages(before)
      + if Ends(last).Some? && OpenPage(before, Ends(last).value).Some?
        then
          var p := OpenPage(before, Ends(last).value).value;
          [Page(p.id, p.title, p.started, Elapsed(p.started, last.now))]
        else []
  }

  /** The starts, and those of them that found their id open and so replaced a page. */
  function Starts(events: seq<PageEvent>): nat {
    if events == [] then 0
    else Starts(events[..|events| - 1]) + if Opens(events[|events| - 1]).Some? then 1 else 0
  }

  function Replaced(events: seq<PageEvent>): nat {
    if events == [] then 0
    else
      var before, last := events[..|events| - 1], events[|events| - 1];
      Replaced(before) + if Opens(last).Some? && OpenPage(before, Opens(last).value.id).Some? then 1 else 0
  }

  /**
   * The page map is the history: it has exactly the pages started and not sent since, each as it was last started,
   * and the pages are sent in the order of the ends that found them.
   */
  lemma {:induction false} PagesAreHistory(events: seq<PageEvent>)
    ensures var s := PageRun(events);
            && s.sent == DuePages(events)
            && forall id :: OpenPage(events, id) == if id in s.pageMap then Some(s.pageMap[id]) else None
    ensures forall id | id in PageRun(events).pageMap :: PageRun(events).pageMap[id].id == id
  {
    if events != [] {
      PagesAreHistory(events[..|events| - 1]);
    }
  }

  /** No page is lost: each start is sent, still open, or was replaced by a later start of its id. */
  lemma {:induction false} PageConservation(events: seq<PageEvent>)
    ensures var s := PageRun(events);
            Starts(events) == |s.sent| + |s.pageMap| + Replaced(events)
  {
    if events != [] {
      var n := |events| - 1;
      var before, last := events[..n], events[n];
      PageConservation(before);
      PagesAreHistory(before);
      var s, t := PageRun(before), PageRun(events);
      if Opens(last).Some? {
        var id := Opens(last).value.id;
        assert t.pageMap.Keys == s.pageMap.Keys + {id};
        assert |t.pageMap| == |t.pageMap.Keys| && |s.pageMap| == |s.pageMap.Keys|;
        assert (id in s.pageMap) == OpenPage(before, id).Some?;
      } else if Ends(last).Some? && Ends(last).value in s.pageMap {
        assert t.pageMap.Keys == s.pageMap.Keys - {Ends(last).value};
        assert |t.pageMap| == |t.pageMap.Keys| && |s.pageMap| == |s.pageMap.Keys|;
      }
    }
  }
}
