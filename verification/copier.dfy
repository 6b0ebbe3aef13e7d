/** The stream copier: what a bounded tee keeps of a body, and what its reader sees. */
module Copier {
  import opened Common

  // ----- What is kept -----

  /** count, buffer and truncated: the fields that Read updates under bufMutex. */
  datatype Capture = Capture(count: uint64, buffer: bytes, truncated: bool)

  const NOTHING := Capture(0, [], false)

  /** What one read of some bytes does to them. A limit of 0 or less means no limit. */
  function Observe(c: Capture, chunk: bytes, maxSize: int64): (r: Capture) {
    var count := AddU64(c.count, |chunk|);
    if maxSize <= 0 then Capture(count, c.buffer + chunk, c.truncated)
    else if |c.buffer| < maxSize then
      var remaining := maxSize - |c.buffer|;
      Capture(count, c.buffer + Take(chunk, remaining), c.truncated || |chunk| > remaining)
    else Capture(count, c.buffer, c.truncated)
  }

  function ObserveAll(chunks: seq<bytes>, maxSize: int64): Capture {
    if chunks == [] then NOTHING
    else Observe(ObserveAll(chunks[..|chunks| - 1], maxSize), chunks[|chunks| - 1], maxSize)
  }

  /** The first bytes of a body, up to the limit. */
  function Kept(body: bytes, maxSize: int64): (r: bytes)
    ensures r <= body
    ensures |r| == if maxSize <= 0 || |body| <= maxSize then |body| else maxSize
  {
    if maxSize <= 0 then body else Take(body, maxSize)
  }

  lemma KeptAppend(body: bytes, chunk: bytes, maxSize: int64)
    ensures Kept(body + chunk, maxSize)
            == if maxSize <= 0 then Kept(body, maxSize) + chunk
               else if |Kept(body, maxSize)| < maxSize
                   then Kept(body, maxSize) + Take(chunk, maxSize - |Kept(body, maxSize)|)
               else Kept(body, maxSize)
  {
  }

  /** Some read ended with exactly n bytes delivered in all. */
  ghost predicate Boundary(chunks: seq<bytes>, n: int) {
    exists k :: 0 <= k <= |chunks| && |Concat(chunks[..k])| == n
  }

  /** In one run: some read went past the limit after starting below it. */
  ghost predicate Crossed(chunks: seq<bytes>, maxSize: int64) {
    exists k :: 0 <= k < |chunks| && |Concat(chunks[..k])| < maxSize < |Concat(chunks[..k])| + |chunks[k]|
  }

  lemma ConcatLast(chunks: seq<bytes>)
    requires chunks != []
    ensures Concat(chunks) == Concat(chunks[..|chunks| - 1]) + chunks[|chunks| - 1]
  {
    var n := |chunks| - 1;
    assert chunks == chunks[..n] + [chunks[n]];
    ConcatAppend(chunks[..n], chunks[n]);
  }

  /**
   * However a body is cut into reads, the count is its length (as a uint64) and the buffer its first maxSize bytes.
   * The flag does depend on the cuts: it says that one single read crossed the limit.
   */
  lemma {:induction false} CaptureOfReads(chunks: seq<bytes>, maxSize: int64)
    ensures var c := ObserveAll(chunks, maxSize);
            && c.count == |Concat(chunks)| % TWO_64
            && c.buffer == Kept(Concat(chunks), maxSize)
            && (c.truncated <==> maxSize > 0 && Crossed(chunks, maxSize))
  {
    if chunks != [] {
      var n := |chunks| - 1;
      var before, chunk := chunks[..n], chunks[n];
      CaptureOfReads(before, maxSize);
      ConcatLast(chunks);
      ObserveNext(ObserveAll(before, maxSize), Concat(before), chunk, maxSize);
      CrossedLast(chunks, maxSize);
    }
  }

  lemma ObserveNext(c: Capture, body: bytes, chunk: bytes, maxSize: int64)
    requires c.count == |body| % TWO_64 && c.buffer == Kept(body, maxSize)
    ensures var r := Observe(c, chunk, maxSize);
            && r.count == |body + chunk| % TWO_64
            && r.buffer == Kept(body + chunk, maxSize)
            && (r.truncated <==> c.truncated || (maxSize > 0 && |body| < maxSize < |body| + |chunk|))
  {
    ModAdd(|body|, |chunk|);
    KeptAppend(body, chunk, maxSize);
  }

  lemma ModAdd(x: nat, y: nat)
    ensures AddU64(x % TWO_64, y) == (x + y) % TWO_64
  {
    var q := x / TWO_64;
    assert x == q * TWO_64 + x % TWO_64;
    ModShift(x % TWO_64 + y, q);
  }

  lemma {:induction false} ModShift(z: nat, q: nat)
    ensures (z + q * TWO_64) % TWO_64 == z % TWO_64
  {
    if q > 0 {
      ModShift(z, q - 1);
      assert (z + q * TWO_64) == (z + (q - 1) * TWO_64) + TWO_64;
    }
  }

  lemma CrossedLast(chunks: seq<bytes>, maxSize: int64)
    requires chunks != []
    ensures var n := |chunks| - 1;
            Crossed(chunks, maxSize) <==>
              || Crossed(chunks[..n], maxSize)
              || |Concat(chunks[..n])| < maxSize < |Concat(chunks[..n])| + |chunks[n]|
  {
    var n := |chunks| - 1;
    assert forall k | 0 <= k < n :: chunks[..n][..k] == chunks[..k];
    if Crossed(chunks[..n], maxSize) {
      var k :| 0 <= k < n && |Concat(chunks[..n][..k])| < maxSize < |Concat(chunks[..n][..k])| + |chunks[..n][k]|;
      assert chunks[..n][k] == chunks[k];
    }
    if Crossed(chunks, maxSize) {
      var k :| 0 <= k < |chunks| && |Concat(chunks[..k])| < maxSize < |Concat(chunks[..k])| + |chunks[k]|;
      if k < n {
        assert chunks[..n][k] == chunks[k];
      }
    }
  }

  lemma {:induction false} ShorterBefore(chunks: seq<bytes>, k: nat)
    requires k <= |chunks|
    ensures |Concat(chunks[..k])| <= |Concat(chunks)|
  {
    if k < |chunks| {
      ConcatLast(chunks);
      ShorterBefore(chunks[..|chunks| - 1], k);
      assert chunks[..|chunks| - 1][..k] == chunks[..k];
    } else {
      assert chunks[..k] == chunks;
    }
  }

  lemma BoundaryAt(chunks: seq<bytes>, k: nat)
    requires k <= |chunks|
    ensures Boundary(chunks, |Concat(chunks[..k])|)
  {
  }

  lemma BoundaryStays(chunks: seq<bytes>, n: int)
    requires chunks != [] && Boundary(chunks[..|chunks| - 1], n)
    ensures Boundary(chunks, n)
  {
    var before := chunks[..|chunks| - 1];
    var k :| 0 <= k <= |before| && |Concat(before[..k])| == n;
    assert before[..k] == chunks[..k];
    BoundaryAt(chunks, k);
  }

  lemma BoundarySplits(chunks: seq<bytes>, n: int)
    requires chunks != [] && Boundary(chunks, n)
    ensures Boundary(chunks[..|chunks| - 1], n) || |Concat(chunks)| == n
  {
    var before := chunks[..|chunks| - 1];
    var k :| 0 <= k <= |chunks| && |Concat(chunks[..k])| == n;
    if k < |chunks| {
      assert before[..k] == chunks[..k];
      BoundaryAt(before, k);
    } else {
      TakeAll(chunks);
    }
  }

  lemma BoundaryLast(chunks: seq<bytes>, n: int)
    requires chunks != []
    ensures Boundary(chunks, n) <==> Boundary(chunks[..|chunks| - 1], n) || |Concat(chunks)| == n
  {
    if Boundary(chunks, n) {
      BoundarySplits(chunks, n);
    }
    if Boundary(chunks[..|chunks| - 1], n) {
      BoundaryStays(chunks, n);
    }
    TakeAll(chunks);
    BoundaryAt(chunks, |chunks|);
  }

  lemma {:induction false} CrossedUnlessBoundary(chunks: seq<bytes>, maxSize: int64)
    requires maxSize > 0
    ensures Crossed(chunks, maxSize) <==> |Concat(chunks)| > maxSize && !Boundary(chunks, maxSize)
  {
    if chunks != [] {
      var before := chunks[..|chunks| - 1];
      CrossedUnlessBoundary(before, maxSize);
      CrossedLast(chunks, maxSize);
      BoundaryLast(chunks, maxSize);
      ConcatLast(chunks);
      assert before[..|before|] == before;
      if |Concat(before)| < maxSize && Boundary(before, maxSize) {
        var k :| 0 <= k <= |before| && |Concat(before[..k])| == maxSize;
        ShorterBefore(before, k);
        assert false;
      }
    }
  }

  /**
   * The truncation flag is meant to say that the body is longer than the limit. It says so exactly when no read
   * happened to end at the limit.
   */
  lemma TruncatedExactly(chunks: seq<bytes>, maxSize: int64)
    requires maxSize > 0
    ensures ObserveAll(chunks, maxSize).truncated
            <==> |Concat(chunks)| > maxSize && !Boundary(chunks, maxSize)
  {
    CaptureOfReads(chunks, maxSize);
    CrossedUnlessBoundary(chunks, maxSize);
  }

  /** So the same body read in two ways gives the same buffer and different flags. */
  lemma FlagDependsOnTheCuts(head: bytes, more: bytes)
    requires 0 < |head| < TWO_63 && more != []
    ensures Concat([head + more]) == Concat([head, more])
    ensures ObserveAll([head + more], |head|) == Capture(|head + more| % TWO_64, head, true)
    ensures ObserveAll([head, more], |head|) == Capture(|head + more| % TWO_64, head, false)
  {
    assert Concat([head + more]) == head + more by {
      assert [head + more][1..] == [];
    }
    assert Concat([head, more]) == head + more by {
      assert [head, more][1..] == [more] && [more][1..] == [];
      assert Concat([more]) == more + Concat([more][1..]) == more;
    }
    CaptureOfReads([head + more], |head|);
    CaptureOfReads([head, more], |head|);
    assert [head + more][..0] == [];
    assert Crossed([head + more], |head|) by {
      assert |Concat([head + more][..0])| == 0;
    }
    assert [head, more][..1] == [head];
    assert Concat([head]) == head by {
      assert [head][1..] == [];
    }
    TruncatedExactly([head, more], |head|);
    assert Boundary([head, more], |head|) by {
      assert |Concat([head, more][..1])| == |head|;
    }
  }

  // ----- The close protocol of one body, one call at a time -----

  /** A Go error. */
  datatype Err = Nil | Eof | Other(code: int)

  /** closeMutex and closed. */
  datatype Gate = Gate(locked: bool, closed: bool)

  const OPEN := Gate(false, false)

  datatype Notice = Stuck | First | Repeated

  /** closeNotify: the first call runs the callback, the second one leaves the mutex locked, later ones wait for it. */
  function Notify(g: Gate): (r: (Gate, Notice)) {
    if g.locked then (g, Stuck)
    else if g.closed then (Gate(true, true), Repeated)
    else (Gate(false, true), First)
  }

  /** What a call gives its caller; a stuck call gives nothing. */
  datatype Result = Hangs | Returns(n: nat, err: Err)

  /** What Read returns for what the wrapped reader delivered. */
  function ReadResult(n: nat, err: Err, notice: Notice, cbErr: Err): Result {
    if !err.Eof? then Returns(n, err)
    else
      match notice
      case Stuck => Hangs
      case Repeated => Returns(n, Eof)
      case First => if cbErr.Nil? then Returns(n, Eof) else Returns(0, cbErr)
  }

  datatype Delivery = Delivery(data: bytes, err: Err)

  /** An io.Reader: a script of deliveries, cut to the room the caller has; after the script there is only EOF. */
  class Body {
    var script: seq<Delivery>
    // How often it has been closed.
    var closes: nat
    const closeErr: Err

    constructor (script: seq<Delivery>, closeErr: Err)
      ensures this.script == script && this.closeErr == closeErr && closes == 0
    {
      this.script, this.closeErr, closes := script, closeErr, 0;
    }

    method Close() returns (err: Err)
      modifies this`closes
      ensures closes == old(closes) + 1 && err == closeErr
    {
      closes := closes + 1;
      err := closeErr;
    }

    method Read(p: array<byte>) returns (n: nat, err: Err)
      modifies this`script, p
      ensures n <= p.Length && p[n..] == old(p[n..])
      ensures var (d, script') := Deliver(old(script), p.Length);
              p[..n] == d.data && err == d.err && script == script'
    {
      var d, script' := Deliver(script, p.Length).0, Deliver(script, p.Length).1;
      n, err := |d.data|, d.err;
      for i := 0 to n
        invariant p[..i] == d.data[..i] && p[n..] == old(p[n..])
      {
        p[i] := d.data[i];
      }
      script := script';
    }
  }

  function Deliver(script: seq<Delivery>, room: nat): (r: (Delivery, seq<Delivery>))
    ensures |r.0.data| <= room
  {
    if script == [] then (Delivery([], Eof), [])
    else if |script[0].data| <= room then (script[0], script[1..])
    else (Delivery(script[0].data[..room], Nil), [Delivery(script[0].data[room..], script[0].err)] + script[1..])
  }

  /** The callback of a stream, which counts its calls. */
  class Callback {
    var calls: nat
    const err: Err

    constructor (err: Err)
      ensures calls == 0 && this.err == err
    {
      calls, this.err := 0, err;
    }

    method Run() returns (err: Err)
      modifies this
      ensures calls == old(calls) + 1 && err == this.err
    {
      calls := calls + 1;
      err := this.err;
    }
  }

  class StreamCopier {
    const wrapped: Body
    const maxSize: int64
    const cb: Callback?
    var count: uint64
    var buffer: bytes
    var truncated: bool
    var closed: bool
    var done: bool
    var locked: bool

    /** The channel is closed once, together with the flag, so closing it never panics. */
    ghost predicate Valid()
      reads this
    {
      done == closed
    }

    ghost function Captured(): Capture
      reads this
    {
      Capture(count, buffer, truncated)
    }

    ghost function State(): Gate
      reads this
    {
      Gate(locked, closed)
    }

    function CallbackErr(): Err {
      if cb == null then Nil else cb.err
    }

    constructor (wrapped: Body, cb: Callback?, maxSize: int64)
      ensures Valid() && Captured() == NOTHING && State() == OPEN
      ensures this.wrapped == wrapped && this.cb == cb && this.maxSize == maxSize
    {
      this.wrapped, this.cb, this.maxSize := wrapped, cb, maxSize;
      count, buffer, truncated := 0, [], false;
      closed, done, locked := false, false, false;
    }

    method CloseNotify() returns (hangs: bool, err: Err)
      requires Valid()
      modifies this`closed, this`done, this`locked, cb
      ensures Valid()
      ensures var (g, notice) := Notify(old(State()));
              && State() == g && hangs == notice.Stuck?
              && err == (if notice.First? then CallbackErr() else Nil)
              && (cb != null ==> cb.calls == old(cb.calls) + if notice.First? then 1 else 0)
    {
      if locked {
        return true, Nil;
      }
      locked := true;
      if closed {
        return false, Nil;
      }
      done := true;
      closed := true;
      locked := false;
      hangs, err := false, Nil;
      if cb != null {
        err := cb.Run();
      }
    }

    method Read(p: array<byte>) returns (r: Result)
      requires Valid()
      modifies this, wrapped`script, p, cb
      ensures Valid()
      ensures var (d, script) := Deliver(old(wrapped.script), p.Length);
              var (g, notice) := Notify(old(State()));
              && wrapped.script == script
              && p[..] == d.data + old(p[..])[|d.data|..]
              && Captured() == Observe(old(Captured()), d.data, maxSize)
              && r == ReadResult(|d.data|, d.err, notice, CallbackErr())
              && State() == (if d.err.Eof? then g else old(State()))
              && (cb != null ==> cb.calls == old(cb.calls) + if d.err.Eof? && notice.First? then 1 else 0)
    {
      var cnt, err := wrapped.Read(p);
      assert p[..] == p[..cnt] + p[cnt..];
      assert old(p[..])[cnt..] == old(p[cnt..]);
      count := AddU64(count, cnt);
      if maxSize <= 0 || |buffer| < maxSize {
        var canBuffer := cnt;
        if maxSize > 0 {
          var remaining := maxSize - |buffer|;
          if canBuffer > remaining {
            canBuffer := remaining;
            truncated := true;
          }
        }
        assert p[..canBuffer] == p[..cnt][..canBuffer];
        buffer := buffer + p[..canBuffer];
      }
      if err == Eof {
        var hangs, cbErr := CloseNotify();
        if hangs {
          return Hangs;
        }
        if cbErr != Nil {
          return Returns(0, cbErr);
        }
      }
      return Returns(cnt, err);
    }

    method Snapshot() returns (count: uint64, buf: bytes, truncated: bool)
      ensures Capture(count, buf, truncated) == Captured()
    {
      count, buf, truncated := this.count, this.buffer, this.truncated;
    }

    /** When the callback fails, its error is returned and the wrapped body is not closed. */
    method Close() returns (r: Result)
      requires Valid()
      modifies this`closed, this`done, this`locked, cb, wrapped`closes
      ensures Valid()
      ensures var (g, notice) := Notify(old(State()));
              && State() == g
              && r == (if notice.Stuck? then Hangs
                       else if notice.First? && !CallbackErr().Nil? then Returns(0, CallbackErr())
                       else Returns(0, wrapped.closeErr))
              && wrapped.closes == old(wrapped.closes) + (if notice.Stuck? || (notice.First? && !CallbackErr().Nil?)
                                                          then 0 else 1)
              && (cb != null ==> cb.calls == old(cb.calls) + if notice.First? then 1 else 0)
    {
      var hangs, err := CloseNotify();
      if hangs {
        return Hangs;
      }
      if err != Nil {
        return Returns(0, err);
      }
      var closeErr := wrapped.Close();
      return Returns(0, closeErr);
    }
  }

  // ----- What a sequence of reads shows its caller -----

  /** What the wrapped reader delivers to calls with these rooms. */
  function Deliveries(script: seq<Delivery>, rooms: seq<nat>): seq<Delivery>
    decreases rooms
  {
    if rooms == [] then []
    else
      var (d, rest) := Deliver(script, rooms[0]);
      [d] + Deliveries(rest, rooms[1..])
  }

  function Data(ds: seq<Delivery>): seq<bytes> {
    seq(|ds|, i requires 0 <= i < |ds| => ds[i].data)
  }

  lemma DeliverSplits(script: seq<Delivery>, room: nat)
    ensures var (d, rest) := Deliver(script, room);
            Concat(Data(script)) == d.data + Concat(Data(rest))
  {
    if script != [] {
      var (d, rest) := Deliver(script, room);
      assert Data(script)[1..] == Data(script[1..]);
      if |script[0].data| > room {
        assert rest[1..] == script[1..] && Data(rest)[1..] == Data(script[1..]);
        assert script[0].data == d.data + rest[0].data;
      }
    }
  }

  /** Whatever rooms a caller offers, it is given the bytes of the body in order. */
  lemma {:induction false} DeliveredInOrder(script: seq<Delivery>, rooms: seq<nat>)
    ensures Concat(Data(Deliveries(script, rooms))) <= Concat(Data(script))
    decreases rooms
  {
    if rooms != [] {
      var (d, rest) := Deliver(script, rooms[0]);
      DeliverSplits(script, rooms[0]);
      DeliveredInOrder(rest, rooms[1..]);
      var ds := Deliveries(script, rooms);
      assert Data(ds)[1..] == Data(ds[1..]);
      assert Concat(Data(ds)) == d.data + Concat(Data(ds[1..]));
    }
  }

  /** What is kept does not depend on the rooms: it is the beginning of the body, as far as it was read and fits. */
  lemma BufferIsBeginning(script: seq<Delivery>, rooms: seq<nat>, maxSize: int64)
    ensures var ds := Deliveries(script, rooms);
            var c := ObserveAll(Data(ds), maxSize);
            var read := |Concat(Data(ds))|;
            && read <= |Concat(Data(script))|
            && c.count == read % TWO_64
            && c.buffer == Kept(Concat(Data(script))[..read], maxSize)
  {
    var ds := Deliveries(script, rooms);
    DeliveredInOrder(script, rooms);
    CaptureOfReads(Data(ds), maxSize);
    assert Concat(Data(ds)) == Concat(Data(script))[..|Concat(Data(ds))|];
  }

  /** What the copier returns for them, until a call hangs. */
  function Results(ds: seq<Delivery>, g: Gate, cbErr: Err): seq<Result> {
    if ds == [] then []
    else
      var (g', notice) := Notify(g);
      var r := ReadResult(|ds[0].data|, ds[0].err, notice, cbErr);
      [r] + if r.Hangs? then [] else Results(ds[1..], if ds[0].err.Eof? then g' else g, cbErr)
  }

  /** What the wrapped reader itself returns. */
  function Direct(ds: seq<Delivery>): seq<Result> {
    seq(|ds|, i requires 0 <= i < |ds| => Returns(|ds[i].data|, ds[i].err))
  }

  function EofCount(ds: seq<Delivery>): nat {
    if ds == [] then 0 else (if ds[0].err.Eof? then 1 else 0) + EofCount(ds[1..])
  }

  /** How many notifying calls a gate still lets return. */
  function Left(g: Gate): nat {
    if g.locked then 0 else if g.closed then 1 else 2
  }

  /** The data that comes along with the first EOF. */
  function FirstEofData(ds: seq<Delivery>): bytes {
    if ds == [] then [] else if ds[0].err.Eof? then ds[0].data else FirstEofData(ds[1..])
  }

  /**
   * The callback's answer does not show: it has run before, or it returns nil, or it is EOF itself and comes with no
   * data that would be lost.
   */
  predicate Unnoticed(ds: seq<Delivery>, g: Gate, cbErr: Err) {
    EofCount(ds) == 0 || g.closed || cbErr.Nil? || (cbErr.Eof? && FirstEofData(ds) == [])
  }

  lemma ResultsStep(ds: seq<Delivery>, g: Gate, cbErr: Err)
    requires ds != []
    ensures var (g', notice) := Notify(g);
            var r := ReadResult(|ds[0].data|, ds[0].err, notice, cbErr);
            Results(ds, g, cbErr) == Direct(ds)
            <==> r == Returns(|ds[0].data|, ds[0].err)
                 && Results(ds[1..], if ds[0].err.Eof? then g' else g, cbErr) == Direct(ds[1..])
  {
    var direct, results := Direct(ds), Results(ds, g, cbErr);
    assert direct[0] == Returns(|ds[0].data|, ds[0].err) && direct[1..] == Direct(ds[1..]);
    assert direct == [direct[0]] + direct[1..];
    if !results[0].Hangs? {
      assert results[1..] == Results(ds[1..], if ds[0].err.Eof? then Notify(g).0 else g, cbErr);
    }
  }

  /**
   * The caller sees what the wrapped reader gives if and only if it does not read the end of the body too often (a
   * third read of EOF never comes back) and the callback's answer does not show. Another error of the callback takes
   * the place of EOF and hides the bytes that came with it.
   */
  lemma {:induction false} TransparentUntilThirdEof(ds: seq<Delivery>, g: Gate, cbErr: Err)
    ensures Results(ds, g, cbErr) == Direct(ds) <==> EofCount(ds) <= Left(g) && Unnoticed(ds, g, cbErr)
  {
    if ds != [] {
      ResultsStep(ds, g, cbErr);
      TransparentUntilThirdEof(ds[1..], if ds[0].err.Eof? then Notify(g).0 else g, cbErr);
    }
  }

  /** The number of deliveries before the first EOF. */
  function BeforeEof(ds: seq<Delivery>): (k: nat)
    ensures k <= |ds|
  {
    if ds == [] || ds[0].err.Eof? then 0 else 1 + BeforeEof(ds[1..])
  }

  /**
   * What a failing callback does to its caller: all is as it was up to EOF, and in its place stands the error alone.
   */
  lemma {:induction false} CallbackErrorShows(ds: seq<Delivery>, cbErr: Err)
    requires !cbErr.Nil? && BeforeEof(ds) < |ds|
    ensures var k, results := BeforeEof(ds), Results(ds, OPEN, cbErr);
            |results| > k && results[..k] == Direct(ds)[..k] && results[k] == Returns(0, cbErr)
  {
    var results := Results(ds, OPEN, cbErr);
    if !ds[0].err.Eof? {
      CallbackErrorShows(ds[1..], cbErr);
      var k, rest := BeforeEof(ds[1..]), Results(ds[1..], OPEN, cbErr);
      assert results == [Returns(|ds[0].data|, ds[0].err)] + rest;
      assert Direct(ds)[..k + 1] == [Returns(|ds[0].data|, ds[0].err)] + Direct(ds[1..])[..k];
      assert results[..k + 1] == [Returns(|ds[0].data|, ds[0].err)] + rest[..k];
    }
  }
}
