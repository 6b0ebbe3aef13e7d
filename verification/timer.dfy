/** The timing tracker: hooks that fire in any order, repeat, or never fire, and the durations made of them. */
module Timer {
  import opened Common

  /** Nanoseconds; har.DurationMSNotApplicable is minus one millisecond. */
  const NOT_APPLICABLE: int := -1_000_000

  /** Start times; None is time.Time's zero. */
  datatype Starts = Starts(blocked: Option<int>, dns: Option<int>, connect: Option<int>, tls: Option<int>,
                           send: Option<int>, response: Option<int>, wait: Option<int>)

  datatype Timings = Timings(blocked: int, dns: int, connect: int, send: int, wait: int, receive: int, ssl: int)

  /** time.Since; the zero time is longer ago than a duration can tell. */
  function Since(start: Option<int>, now: int): (d: int)
    ensures start.Some? && -TWO_63 <= now - start.value <= MAX_INT64 ==> d == now - start.value
  {
    if start.None? then MAX_INT64 else Elapsed(start.value, now)
  }

  datatype Hook =
    | GetConn | GotConn | DNSStart | DNSDone | ConnectStart | ConnectDone
    | TLSStart | TLSDone | WroteRequest | GotFirstResponseByte | ResponseRead

  /** A hook and the time it fires. */
  datatype Event = Event(hook: Hook, now: int)

  datatype Tracked = Tracked(starts: Starts, timings: Timings)

  const NEW_TRACKER := Tracked(
    Starts(None, None, None, None, None, None, None),
    Timings(0, NOT_APPLICABLE, NOT_APPLICABLE, 0, 0, 0, NOT_APPLICABLE))

  function Fire(t: Tracked, e: Event): Tracked {
    var s, m := t.starts, t.timings;
    var now := Some(e.now);
    match e.hook
    case GetConn => Tracked(s.(blocked := now), m)
    case GotConn => Tracked(s.(send := now), m.(blocked := Since(s.blocked, e.now)))
    case DNSStart => Tracked(s.(dns := now), m)
    case DNSDone => Tracked(s, m.(dns := Since(s.dns, e.now)))
    case ConnectStart => Tracked(s.(connect := now), m)
    case ConnectDone => Tracked(s.(send := now), m.(connect := Since(s.connect, e.now)))
    case TLSStart => Tracked(s.(tls := now), m)
    case TLSDone => Tracked(s.(send := now), m.(ssl := Since(s.tls, e.now)))
    case WroteRequest => Tracked(s.(wait := now), m.(send := Since(s.send, e.now)))
    case GotFirstResponseByte =>
      Tracked(s.(response := now), m.(wait := Since(if s.wait.None? then s.send else s.wait, e.now)))
    case ResponseRead =>
      Tracked(s, m.(receive := if s.response.None? then NOT_APPLICABLE else Since(s.response, e.now)))
  }

  function FireAll(events: seq<Event>): Tracked {
    if events == [] then NEW_TRACKER
    else Fire(FireAll(events[..|events| - 1]), events[|events| - 1])
  }

  /** timingsTracker, with the entry fields it fills in. */
  class TimingsTracker {
    var startedDateTime: int
    var blocked: int
    var dns: int
    var connect: int
    var send: int
    var wait: int
    var receive: int
    var ssl: int
    var serverIPAddress: string
    var connection: string
    var starts: Starts

    ghost function State(): Tracked
      reads this
    {
      Tracked(starts, Timings(blocked, dns, connect, send, wait, receive, ssl))
    }

    constructor (now: int)
      ensures startedDateTime == now && State() == NEW_TRACKER
      ensures serverIPAddress == "" && connection == ""
    {
      startedDateTime := now;
      blocked, send, wait, receive := 0, 0, 0, 0;
      dns, connect, ssl := NOT_APPLICABLE, NOT_APPLICABLE, NOT_APPLICABLE;
      serverIPAddress, connection := "", "";
      starts := NEW_TRACKER.starts;
    }

    method GetConn(now: int)
      modifies this`starts
      ensures State() == Fire(old(State()), Event(Hook.GetConn, now))
    {
      starts := starts.(blocked := Some(now));
    }

    method GotConn(now: int)
      modifies this`starts, this`blocked
      ensures State() == Fire(old(State()), Event(Hook.GotConn, now))
    {
      blocked := Since(starts.blocked, now);
      starts := starts.(send := Some(now));
    }

    method GotFirstResponseByte(now: int)
      modifies this`starts, this`wait
      ensures State() == Fire(old(State()), Event(Hook.GotFirstResponseByte, now))
    {
      var waitStart := starts.wait;
      if waitStart.None? {
        waitStart := starts.send;
      }
      wait := Since(waitStart, now);
      starts := starts.(response := Some(now));
    }

    method DNSStart(now: int)
      modifies this`starts
      ensures State() == Fire(old(State()), Event(Hook.DNSStart, now))
    {
      starts := starts.(dns := Some(now));
    }

    method DNSDone(now: int)
      modifies this`dns
      ensures State() == Fire(old(State()), Event(Hook.DNSDone, now))
    {
      dns := Since(starts.dns, now);
    }

    method ConnectStart(addr: string, now: int)
      modifies this`starts, this`serverIPAddress, this`connection
      ensures State() == Fire(old(State()), Event(Hook.ConnectStart, now))
      ensures ':' !in addr ==> serverIPAddress == addr && connection == old(connection)
      ensures ':' in addr ==> addr == serverIPAddress + ":" + connection && ':' !in connection
    {
      var portIdx := |addr| - 1;
      while portIdx >= 0 && addr[portIdx] != ':'
        invariant -1 <= portIdx < |addr|
        invariant ':' !in addr[portIdx + 1..]
      {
        portIdx := portIdx - 1;
      }
      if portIdx < 0 {
        assert addr[0..] == addr;
        serverIPAddress := addr;
      } else {
        assert addr == addr[..portIdx] + [addr[portIdx]] + addr[portIdx + 1..];
        serverIPAddress := addr[..portIdx];
        connection := addr[portIdx + 1..];
      }
      starts := starts.(connect := Some(now));
    }

    method ConnectDone(now: int)
      modifies this`starts, this`connect
      ensures State() == Fire(old(State()), Event(Hook.ConnectDone, now))
    {
      connect := Since(starts.connect, now);
      starts := starts.(send := Some(now));
    }

    method TLSHandshakeStart(now: int)
      modifies this`starts
      ensures State() == Fire(old(State()), Event(TLSStart, now))
    {
      starts := starts.(tls := Some(now));
    }

    method TLSHandshakeDone(now: int)
      modifies this`starts, this`ssl
      ensures State() == Fire(old(State()), Event(TLSDone, now))
    {
      ssl := Since(starts.tls, now);
      starts := starts.(send := Some(now));
    }

    method WroteRequest(now: int)
      modifies this`starts, this`send
      ensures State() == Fire(old(State()), Event(Hook.WroteRequest, now))
    {
      send := Since(starts.send, now);
      starts := starts.(wait := Some(now));
    }

    method ResponseRead(now: int)
      modifies this`receive
      ensures State() == Fire(old(State()), Event(Hook.ResponseRead, now))
    {
      if starts.response.None? {
        receive := NOT_APPLICABLE;
      } else {
        receive := Since(starts.response, now);
      }
    }
  }

  // ----- Sensible values -----

  /** The clock does not go back, and does not run for longer than a duration can tell (292 years). */
  predicate Ticking(started: int, events: seq<Event>) {
    && (forall i, j | 0 <= i <= j < |events| :: events[i].now <= events[j].now)
    && (forall i | 0 <= i < |events| :: started <= events[i].now < started + MAX_INT64)
  }

  predicate Sensible(d: int, elapsed: int) {
    d == NOT_APPLICABLE || 0 <= d <= elapsed
  }

  predicate AllSensible(m: Timings, elapsed: int) {
    && Sensible(m.blocked, elapsed) && Sensible(m.dns, elapsed) && Sensible(m.connect, elapsed)
    && Sensible(m.send, elapsed) && Sensible(m.wait, elapsed) && Sensible(m.receive, elapsed)
    && Sensible(m.ssl, elapsed)
  }

  datatype Field = Blocked | DNS | Connect | TLS | Send | Response | Wait

  function StartOf(s: Starts, f: Field): Option<int> {
    match f
    case Blocked => s.blocked
    case DNS => s.dns
    case Connect => s.connect
    case TLS => s.tls
    case Send => s.send
    case Response => s.response
    case Wait => s.wait
  }

  /** The hooks that set a start time. */
  predicate Sets(h: Hook, f: Field) {
    match f
    case Blocked => h == GetConn
    case DNS => h == DNSStart
    case Connect => h == ConnectStart
    case TLS => h == TLSStart
    case Send => h == GotConn || h == ConnectDone || h == TLSDone
    case Response => h == GotFirstResponseByte
    case Wait => h == WroteRequest
  }

  predicate Fired(events: seq<Event>, f: Field) {
    exists i | 0 <= i < |events| :: Sets(events[i].hook, f)
  }

  /** What a hook needs to have seen before it: a start to count from. */
  predicate Prepared(before: seq<Event>, h: Hook) {
    match h
    case GotConn => Fired(before, Blocked)
    case DNSDone => Fired(before, DNS)
    case ConnectDone => Fired(before, Connect)
    case TLSDone => Fired(before, TLS)
    case WroteRequest => Fired(before, Send)
    case GotFirstResponseByte => Fired(before, Send) || Fired(before, Wait)
    case _ => true
  }

  /**
   * Each done hook follows a start hook; writing the request or seeing the first byte follows something to count
   * from.
   */
  predicate WellOrdered(events: seq<Event>) {
    forall i | 0 <= i < |events| :: Prepared(events[..i], events[i].hook)
  }

  /** Each of the seven start times is set exactly by its hooks, and lies between the beginning and now. */
  ghost predicate StartsInv(s: Starts, events: seq<Event>, started: int, now: int) {
    forall f: Field :: && (StartOf(s, f).Some? <==> Fired(events, f))
                       && (StartOf(s, f).Some? ==> started <= StartOf(s, f).value <= now)
  }

  lemma FiredLast(before: seq<Event>, e: Event, f: Field)
    ensures Fired(before + [e], f) <==> Fired(before, f) || Sets(e.hook, f)
  {
    var all := before + [e];
    assert all[|before|] == e;
    assert forall i | 0 <= i < |before| :: all[i] == before[i];
  }

  lemma StartsStep(t: Tracked, before: seq<Event>, e: Event, started: int, now: int)
    requires StartsInv(t.starts, before, started, now) && started <= now <= e.now
    ensures StartsInv(Fire(t, e).starts, before + [e], started, e.now)
  {
    forall f: Field
      ensures StartOf(Fire(t, e).starts, f).Some? <==> Fired(before + [e], f)
      ensures StartOf(Fire(t, e).starts, f).Some? ==> started <= StartOf(Fire(t, e).starts, f).value <= e.now
    {
      FiredLast(before, e, f);
      FieldStep(t, e, f);
      assert StartOf(t.starts, f).Some? <==> Fired(before, f);
    }
  }

  lemma FieldStep(t: Tracked, e: Event, f: Field)
    ensures StartOf(Fire(t, e).starts, f) == if Sets(e.hook, f) then Some(e.now) else StartOf(t.starts, f)
  {
  }

  /** The start that a hook counts from; None when it does not count. */
  function CountsFrom(s: Starts, h: Hook): Option<Option<int>> {
    match h
    case GotConn => Some(s.blocked)
    case DNSDone => Some(s.dns)
    case ConnectDone => Some(s.connect)
    case TLSDone => Some(s.tls)
    case WroteRequest => Some(s.send)
    case GotFirstResponseByte => Some(if s.wait.None? then s.send else s.wait)
    case _ => None
  }

  lemma PreparedStart(s: Starts, before: seq<Event>, h: Hook, started: int, now: int)
    requires StartsInv(s, before, started, now)
    ensures CountsFrom(s, h).Some? ==> (CountsFrom(s, h).value.Some? <==> Prepared(before, h))
    ensures CountsFrom(s, h).None? ==> Prepared(before, h)
    ensures CountsFrom(s, h).Some? && CountsFrom(s, h).value.Some? ==> started <= CountsFrom(s, h).value.value <= now
  {
    assert forall f: Field :: StartOf(s, f).Some? <==> Fired(before, f);
    assert s.blocked == StartOf(s, Blocked) && s.dns == StartOf(s, DNS) && s.connect == StartOf(s, Connect);
    assert s.tls == StartOf(s, TLS) && s.send == StartOf(s, Send) && s.wait == StartOf(s, Wait);
  }

  /** A hook that counts puts the time since its start in place of one of the timings. */
  lemma CountedValue(t: Tracked, e: Event, elapsed: nat)
    requires CountsFrom(t.starts, e.hook).Some? && AllSensible(t.timings, elapsed)
    requires Sensible(Since(CountsFrom(t.starts, e.hook).value, e.now), elapsed)
    ensures AllSensible(Fire(t, e).timings, elapsed)
  {
    var d := Since(CountsFrom(t.starts, e.hook).value, e.now);
    match e.hook
    case GotConn => assert Fire(t, e).timings == t.timings.(blocked := d);
    case DNSDone => assert Fire(t, e).timings == t.timings.(dns := d);
    case ConnectDone => assert Fire(t, e).timings == t.timings.(connect := d);
    case TLSDone => assert Fire(t, e).timings == t.timings.(ssl := d);
    case WroteRequest => assert Fire(t, e).timings == t.timings.(send := d);
    case GotFirstResponseByte => assert Fire(t, e).timings == t.timings.(wait := d);
    case _ =>
  }

  lemma CountedBogus(t: Tracked, e: Event, elapsed: nat)
    requires CountsFrom(t.starts, e.hook).Some?
    requires !Sensible(Since(CountsFrom(t.starts, e.hook).value, e.now), elapsed)
    ensures !AllSensible(Fire(t, e).timings, elapsed)
  {
  }

  lemma SensibleLater(m: Timings, elapsed: int, later: int)
    requires AllSensible(m, elapsed) && elapsed <= later
    ensures AllSensible(m, later)
  {
  }

  /** A prepared hook keeps all values sensible. */
  lemma PreparedStep(t: Tracked, before: seq<Event>, e: Event, started: int, now: int)
    requires StartsInv(t.starts, before, started, now)
    requires started <= now <= e.now < started + MAX_INT64
    requires Prepared(before, e.hook) && AllSensible(t.timings, e.now - started)
    ensures AllSensible(Fire(t, e).timings, e.now - started)
  {
    PreparedStart(t.starts, before, e.hook, started, now);
    if CountsFrom(t.starts, e.hook).Some? {
      assert Sensible(Since(CountsFrom(t.starts, e.hook).value, e.now), e.now - started);
      CountedValue(t, e, e.now - started);
    } else {
      ReceiveStep(t, before, e, started, now);
    }
  }

  /** An unprepared hook makes one that is not sensible. */
  lemma UnpreparedStep(t: Tracked, before: seq<Event>, e: Event, started: int, now: int)
    requires StartsInv(t.starts, before, started, now)
    requires started <= now <= e.now < started + MAX_INT64
    requires !Prepared(before, e.hook)
    ensures !AllSensible(Fire(t, e).timings, e.now - started)
  {
    PreparedStart(t.starts, before, e.hook, started, now);
    assert !Sensible(Since(CountsFrom(t.starts, e.hook).value, e.now), e.now - started);
    CountedBogus(t, e, e.now - started);
  }

  /** The hooks that count from nothing, and the end of the response, which never needs a start. */
  lemma ReceiveStep(t: Tracked, before: seq<Event>, e: Event, started: int, now: int)
    requires StartsInv(t.starts, before, started, now) && CountsFrom(t.starts, e.hook).None?
    requires started <= now <= e.now < started + MAX_INT64
    ensures AllSensible(t.timings, e.now - started) ==> AllSensible(Fire(t, e).timings, e.now - started)
  {
    assert t.starts.response == StartOf(t.starts, Response);
  }

  function LastTime(started: int, events: seq<Event>): int {
    if events == [] then started else events[|events| - 1].now
  }

  lemma {:induction false} StartsAlways(started: int, events: seq<Event>)
    requires Ticking(started, events)
    ensures StartsInv(FireAll(events).starts, events, started, LastTime(started, events))
  {
    if events != [] {
      var n := |events| - 1;
      StartsAlways(started, events[..n]);
      StartsStep(FireAll(events[..n]), events[..n], events[n], started, LastTime(started, events[..n]));
      assert events[..n] + [events[n]] == events;
    }
  }

  lemma {:induction false} SensibleRun(started: int, events: seq<Event>)
    requires Ticking(started, events) && WellOrdered(events)
    ensures AllSensible(FireAll(events).timings, LastTime(started, events) - started)
  {
    if events != [] {
      var n := |events| - 1;
      var before := events[..n];
      assert forall i | 0 <= i < n :: before[..i] == events[..i];
      SensibleRun(started, before);
      StartsAlways(started, before);
      SensibleLater(FireAll(before).timings, LastTime(started, before) - started, events[n].now - started);
      PreparedStep(FireAll(before), before, events[n], started, LastTime(started, before));
    }
  }

  lemma BogusTiming(started: int, events: seq<Event>, i: nat)
    requires Ticking(started, events) && i < |events| && !Prepared(events[..i], events[i].hook)
    ensures !AllSensible(FireAll(events[..i + 1]).timings, LastTime(started, events[..i + 1]) - started)
  {
    StartsAlways(started, events[..i]);
    UnpreparedStep(FireAll(events[..i]), events[..i], events[i], started, LastTime(started, events[..i]));
    assert events[..i + 1][..i] == events[..i];
  }

  /**
   * No bogus timing: over any finite sequence of hooks, every timing is at every moment either not applicable or
   * between zero and the time since the trip started, if and only if no hook fires unprepared.
   */
  lemma NoBogusTiming(started: int, events: seq<Event>)
    requires Ticking(started, events)
    ensures WellOrdered(events)
            <==> forall k | 0 <= k <= |events| ::
                   AllSensible(FireAll(events[..k]).timings, LastTime(started, events[..k]) - started)
  {
    if WellOrdered(events) {
      forall k | 0 <= k <= |events|
        ensures AllSensible(FireAll(events[..k]).timings, LastTime(started, events[..k]) - started)
      {
        assert forall i | 0 <= i < k :: events[..k][..i] == events[..i];
        SensibleRun(started, events[..k]);
      }
    } else {
      var i :| 0 <= i < |events| && !Prepared(events[..i], events[i].hook);
      BogusTiming(started, events, i);
    }
  }

  // ----- An ordinary trip -----

  predicate Dialing(h: Hook) {
    h in {DNSStart, DNSDone, ConnectStart, ConnectDone, TLSStart, TLSDone}
  }

  /** Getting a connection: the dialing hooks in between may repeat, but each done hook follows its start hook. */
  predicate Dial(first: int, middle: seq<Event>) {
    && (forall i | 0 <= i < |middle| :: Dialing(middle[i].hook) && Prepared(middle[..i], middle[i].hook))
    && (forall i, j | 0 <= i <= j < |middle| :: first <= middle[i].now <= middle[j].now)
    && (forall i | 0 <= i < |middle| :: middle[i].now - first < MAX_INT64)
  }

  /** The last time at which a start time was set. */
  function LastStart(events: seq<Event>, f: Field): Option<int> {
    if events == [] then None
    else
      var last := events[|events| - 1];
      if Sets(last.hook, f) then Some(last.now) else LastStart(events[..|events| - 1], f)
  }

  /** How long a dialing phase took when it was last done: from its last start before that. */
  function Span(events: seq<Event>, f: Field, done: Hook): Option<int> {
    if events == [] then None
    else
      var before, last := events[..|events| - 1], events[|events| - 1];
      if last.hook != done then Span(before, f, done)
      else if LastStart(before, f).None? then None
      else Some(last.now - LastStart(before, f).value)
  }

  /** The three dialing phases together, as far as they took place. */
  function DialTime(middle: seq<Event>): int {
    Length(Span(middle, DNS, DNSDone)) + Length(Span(middle, Connect, ConnectDone)) + Length(Span(middle, TLS, TLSDone))
  }

  function Length(span: Option<int>): int {
    if span.None? then 0 else span.value
  }

  function Shown(span: Option<int>): int {
    if span.None? then NOT_APPLICABLE else span.value
  }

  /** While dialing: only the three dialing timings change, and they count from after the connection was asked for. */
  ghost predicate DialInv(t: Tracked, first: int, middle: seq<Event>) {
    var s, m := t.starts, t.timings;
    var now := LastTime(first, middle);
    && s.blocked == Some(first) && s.wait.None? && s.response.None?
    && m.blocked == m.send == m.wait == m.receive == 0
    && (forall f | f in {DNS, Connect, TLS} ::
          && StartOf(s, f) == LastStart(middle, f)
          && (StartOf(s, f).Some? <==> Fired(middle, f))
          && (StartOf(s, f).Some? ==> first <= StartOf(s, f).value <= now))
    && Dialed(m.dns, Span(middle, DNS, DNSDone), now - first)
    && Dialed(m.connect, Span(middle, Connect, ConnectDone), now - first)
    && Dialed(m.ssl, Span(middle, TLS, TLSDone), now - first)
  }

  predicate Dialed(d: int, span: Option<int>, elapsed: int) {
    d == Shown(span) && (span.Some? ==> 0 <= span.value <= elapsed)
  }

  lemma SpanMore(middle: seq<Event>, e: Event, f: Field, done: Hook)
    ensures LastStart(middle + [e], f) == if Sets(e.hook, f) then Some(e.now) else LastStart(middle, f)
    ensures Span(middle + [e], f, done)
            == if e.hook != done then Span(middle, f, done)
               else if LastStart(middle, f).None? then None
               else Some(e.now - LastStart(middle, f).value)
  {
    assert (middle + [e])[..|middle|] == middle;
  }

  lemma DialStep(t: Tracked, first: int, middle: seq<Event>, e: Event)
    requires DialInv(t, first, middle) && Dialing(e.hook) && Prepared(middle, e.hook)
    requires first <= LastTime(first, middle) <= e.now && e.now - first < MAX_INT64
    ensures DialInv(Fire(t, e), first, middle + [e])
  {
    assert StartOf(t.starts, DNS) == t.starts.dns && StartOf(t.starts, Connect) == t.starts.connect;
    assert StartOf(t.starts, TLS) == t.starts.tls;
    SpanMore(middle, e, DNS, DNSDone);
    SpanMore(middle, e, Connect, ConnectDone);
    SpanMore(middle, e, TLS, TLSDone);
    forall f | f in {DNS, Connect, TLS}
      ensures StartOf(Fire(t, e).starts, f) == LastStart(middle + [e], f)
      ensures StartOf(Fire(t, e).starts, f).Some? <==> Fired(middle + [e], f)
      ensures StartOf(Fire(t, e).starts, f).Some? ==> first <= StartOf(Fire(t, e).starts, f).value <= e.now
    {
      FiredLast(middle, e, f);
      FieldStep(t, e, f);
      assert StartOf(t.starts, f).Some? <==> Fired(middle, f);
    }
  }

  lemma DialBefore(first: int, middle: seq<Event>)
    requires Dial(first, middle) && middle != []
    ensures Dial(first, middle[..|middle| - 1])
  {
    var before := middle[..|middle| - 1];
    assert forall i | 0 <= i < |before| :: before[..i] == middle[..i] && before[i] == middle[i];
  }

  lemma FireLast(events: seq<Event>, e: Event)
    ensures FireAll(events + [e]) == Fire(FireAll(events), e)
  {
    assert (events + [e])[..|events|] == events;
  }

  lemma ConsTake(e: Event, middle: seq<Event>)
    requires middle != []
    ensures var events, n := [e] + middle, |middle| - 1;
            events[..|events| - 1] == [e] + middle[..n] && events[|events| - 1] == middle[n]
  {
  }

  lemma DialFirst(first: int)
    ensures DialInv(FireAll([Event(GetConn, first)]), first, [])
  {
    var e := Event(GetConn, first);
    assert [e][..|[e]| - 1] == [];
    assert FireAll([e]) == Fire(NEW_TRACKER, e);
  }

  lemma {:induction false} DialRun(first: int, middle: seq<Event>)
    requires Dial(first, middle)
    ensures DialInv(FireAll([Event(GetConn, first)] + middle), first, middle)
    ensures first <= LastTime(first, middle)
  {
    var e := Event(GetConn, first);
    if middle == [] {
      DialFirst(first);
      assert [e] + middle == [e];
    } else {
      var n := |middle| - 1;
      DialBefore(first, middle);
      DialRun(first, middle[..n]);
      DialNext(first, middle);
      DialStep(FireAll([e] + middle[..n]), first, middle[..n], middle[n]);
      ConsTake(e, middle);
      LastSplit(middle);
    }
  }

  lemma LastSplit(events: seq<Event>)
    requires events != []
    ensures events[..|events| - 1] + [events[|events| - 1]] == events
  {
  }

  lemma DialNext(first: int, middle: seq<Event>)
    requires Dial(first, middle) && middle != []
    ensures var n := |middle| - 1;
            && Dialing(middle[n].hook) && Prepared(middle[..n], middle[n].hook)
            && LastTime(first, middle[..n]) <= middle[n].now && middle[n].now - first < MAX_INT64
  {
  }

  /** An ordinary trip; wroteRequest is not fired for a reused HTTP/2 connection. */
  function TripEvents(first: int, middle: seq<Event>, got: int, wrote: Option<int>, byte: int, read: int): seq<Event> {
    [Event(GetConn, first)] + middle + [Event(GotConn, got)]
    + (if wrote.Some? then [Event(WroteRequest, wrote.value)] else [])
    + [Event(GotFirstResponseByte, byte)] + [Event(ResponseRead, read)]
  }

  /** A timing as far as it is available. */
  function Available(d: int): int {
    if d == NOT_APPLICABLE then 0 else d
  }

  /** What the entry's time is said to be. */
  function SumAvailable(m: Timings): int {
    Available(m.blocked) + Available(m.dns) + Available(m.connect) + Available(m.send) + Available(m.wait)
    + Available(m.receive) + Available(m.ssl)
  }

  lemma TripTimings(first: int, middle: seq<Event>, got: int, wrote: Option<int>, byte: int, read: int)
    requires Dial(first, middle) && LastTime(first, middle) <= got <= byte <= read && read - first < MAX_INT64
    requires wrote.Some? ==> got <= wrote.value <= byte
    ensures var m := FireAll(TripEvents(first, middle, got, wrote, byte, read)).timings;
            && m.blocked == got - first && m.receive == read - byte
            && m.send == (if wrote.Some? then wrote.value - got else 0)
            && m.wait == byte - (if wrote.Some? then wrote.value else got)
            && Dialed(m.dns, Span(middle, DNS, DNSDone), m.blocked)
            && Dialed(m.connect, Span(middle, Connect, ConnectDone), m.blocked)
            && Dialed(m.ssl, Span(middle, TLS, TLSDone), m.blocked)
  {
    var e0 := [Event(GetConn, first)] + middle;
    DialRun(first, middle);
    FireLast(e0, Event(GotConn, got));
    var e1 := e0 + [Event(GotConn, got)];
    var e2 := e1 + if wrote.Some? then [Event(WroteRequest, wrote.value)] else [];
    if wrote.Some? {
      FireLast(e1, Event(WroteRequest, wrote.value));
    } else {
      assert e2 == e1;
    }
    FireLast(e2, Event(GotFirstResponseByte, byte));
    FireLast(e2 + [Event(GotFirstResponseByte, byte)], Event(ResponseRead, read));
  }

  /**
   * The four phases of a trip telescope: together they are the time from asking for a connection to the end of the
   * response. So they never exceed the recorded time, which also has what happens before and after, and the three
   * dialing phases are parts of the first one. The time is the sum of all available timings, as its description
   * says, if and only if what is counted twice (the time spent dialing) is exactly what is not counted at all (the
   * time before the connection was asked for and after the response was read).
   */
  lemma Telescoping(started: int, first: int, middle: seq<Event>, got: int, wrote: Option<int>, byte: int, read: int,
                    recorded: int)
    requires Dial(first, middle)
    requires started <= first && LastTime(first, middle) <= got <= byte <= read <= recorded
    requires wrote.Some? ==> got <= wrote.value <= byte
    requires recorded - started < MAX_INT64
    ensures var m := FireAll(TripEvents(first, middle, got, wrote, byte, read)).timings;
            var time := Since(Some(started), recorded);
            var phases := m.blocked + m.send + m.wait + m.receive;
            && phases == read - first <= time
            && m.blocked >= 0 && m.send >= 0 && m.wait >= 0 && m.receive >= 0
            && Sensible(m.dns, m.blocked) && Sensible(m.connect, m.blocked) && Sensible(m.ssl, m.blocked)
            && (time == SumAvailable(m) <==> DialTime(middle) == (first - started) + (recorded - read))
  {
    TripTimings(first, middle, got, wrote, byte, read);
  }

  lemma {:induction false} NoSpan(middle: seq<Event>, f: Field, done: Hook)
    requires forall i | 0 <= i < |middle| :: middle[i].hook != done
    ensures Span(middle, f, done).None?
  {
    if middle != [] {
      NoSpan(middle[..|middle| - 1], f, done);
    }
  }

  /**
   * On a connection that is used again nothing is dialed, and then the description is right exactly when no time
   * passes outside the four phases.
   */
  lemma ReusedConnection(started: int, first: int, middle: seq<Event>, got: int, wrote: Option<int>, byte: int,
                         read: int,
                         recorded: int)
    requires Dial(first, middle) && forall i | 0 <= i < |middle| :: middle[i].hook !in {DNSDone, ConnectDone, TLSDone}
    requires started <= first && LastTime(first, middle) <= got <= byte <= read <= recorded
    requires wrote.Some? ==> got <= wrote.value <= byte
    requires recorded - started < MAX_INT64
    ensures var m := FireAll(TripEvents(first, middle, got, wrote, byte, read)).timings;
            && m.dns == m.connect == m.ssl == NOT_APPLICABLE
            && (Since(Some(started), recorded) == SumAvailable(m) <==> started == first && read == recorded)
  {
    Telescoping(started, first, middle, got, wrote, byte, read, recorded);
    TripTimings(first, middle, got, wrote, byte, read);
    NoSpan(middle, DNS, DNSDone);
    NoSpan(middle, Connect, ConnectDone);
    NoSpan(middle, TLS, TLSDone);
  }

  // ----- Every timing, told from the history -----

  /** When one of some hooks fired last. */
  function LastOf(events: seq<Event>, hooks: set<Hook>): Option<int> {
    if events == [] then None
    else if events[|events| - 1].hook in hooks then Some(events[|events| - 1].now)
    else LastOf(events[..|events| - 1], hooks)
  }

  /** The time from the last of some hooks to a later one, when that fired last; or what it is until then. */
  function Measured(events: seq<Event>, done: Hook, from: set<Hook>, before: int): int {
    if events == [] then before
    else
      var rest, last := events[..|events| - 1], events[|events| - 1];
      if last.hook == done then Since(LastOf(rest, from), last.now) else Measured(rest, done, from, before)
  }

  const SENDING: set<Hook> := {GotConn, ConnectDone, TLSDone}

  /** The wait counts from the end of the request, or, if that was not seen, from when sending could begin. */
  function Waited(events: seq<Event>): int {
    if events == [] then 0
    else
      var rest, last := events[..|events| - 1], events[|events| - 1];
      if last.hook != GotFirstResponseByte then Waited(rest)
      else Since(if LastOf(rest, {WroteRequest}).Some? then LastOf(rest, {WroteRequest}) else LastOf(rest, SENDING),
                 last.now)
  }

  /** The response is received from its first byte on, if there was one; otherwise it is minus one millisecond. */
  function Received(events: seq<Event>): int {
    if events == [] then 0
    else
      var rest, last := events[..|events| - 1], events[|events| - 1];
      if last.hook != ResponseRead then Received(rest)
      else if LastOf(rest, {GotFirstResponseByte}).None? then -1_000_000
      else Since(LastOf(rest, {GotFirstResponseByte}), last.now)
  }

  lemma {:induction false} PhasesAreHistory(events: seq<Event>)
    ensures var s := FireAll(events).starts;
            && s.blocked == LastOf(events, {GetConn}) && s.dns == LastOf(events, {DNSStart})
            && s.connect == LastOf(events, {ConnectStart}) && s.tls == LastOf(events, {TLSStart})
  {
    if events != [] {
      PhasesAreHistory(events[..|events| - 1]);
    }
  }

  lemma {:induction false} SendingIsHistory(events: seq<Event>)
    ensures var s := FireAll(events).starts;
            && s.send == LastOf(events, SENDING) && s.wait == LastOf(events, {WroteRequest})
            && s.response == LastOf(events, {GotFirstResponseByte})
  {
    if events != [] {
      SendingIsHistory(events[..|events| - 1]);
    }
  }

  /** Over any hook sequence each timing is what its hooks say: which one ends it, and which ones it counts from. */
  lemma {:induction false} TimingsAreHistory(events: seq<Event>)
    ensures var m := FireAll(events).timings;
            && m.blocked == Measured(events, GotConn, {GetConn}, 0)
            && m.dns == Measured(events, DNSDone, {DNSStart}, -1_000_000)
            && m.connect == Measured(events, ConnectDone, {ConnectStart}, -1_000_000)
            && m.ssl == Measured(events, TLSDone, {TLSStart}, -1_000_000)
            && m.send == Measured(events, WroteRequest, SENDING, 0)
            && m.wait == Waited(events) && m.receive == Received(events)
  {
    if events != [] {
      PhasesAreHistory(events[..|events| - 1]);
      SendingIsHistory(events[..|events| - 1]);
      TimingsAreHistory(events[..|events| - 1]);
    }
  }
}
