/** A bounded write buffer with a sticky error over a writer that may fail at any point (bufio.Writer). */
module Bufio {
  import opened Common

  /** What the underlying writer does with one call: how many bytes it takes, and whether it reports an error. */
  datatype Outcome = Outcome(accept: nat, fail: bool)

  /** An io.Writer: it reports an error whenever it takes fewer bytes than it was given. */
  class Writer {
    var content: bytes
    // The outcomes of the calls to come; calls beyond the plan succeed.
    var plan: seq<Outcome>

    constructor (plan: seq<Outcome>)
      ensures content == [] && this.plan == plan
    {
      content := [];
      this.plan := plan;
    }

    method Write(p: bytes) returns (n: nat, ok: bool)
      modifies this
      ensures n <= |p| && (ok ==> n == |p|)
      ensures content == old(content) + p[..n]
      ensures old(plan) == [] ==> ok && plan == []
      ensures old(plan) != [] ==>
                var o := old(plan)[0];
                plan == old(plan)[1..] && n == |Take(p, o.accept)| && (ok <==> !o.fail && n == |p|)
    {
      if plan == [] {
        n, ok := |p|, true;
      } else {
        n := if plan[0].accept < |p| then plan[0].accept else |p|;
        ok := !plan[0].fail && n == |p|;
        plan := plan[1..];
      }
      content := content + p[..n];
    }
  }

  /**
   * A buffered stream as its user sees it: what has reached the writer, everything written so far (up to and with
   * the call that failed, if one did), and whether the error is set. A reliable stream has no failure to come.
   */
  datatype Stream = Stream(content: bytes, log: bytes, failed: bool, reliable: bool)

  ghost predicate Grows(s: Stream, t: Stream) {
    && s.content <= t.content <= t.log
    && s.log <= t.log
    && (s.reliable ==> t.reliable && !t.failed)
  }

  /** Write(p): everything is accepted, or the error is set and nothing past p has reached the writer. */
  ghost predicate Written(s: Stream, p: bytes, ok: bool, t: Stream) {
    if s.failed then !ok && t == s
    else ok == !t.failed && t.log == s.log + p && Grows(s, t)
  }

  /** Flush(): on success everything written has reached the writer. */
  ghost predicate Flushed(s: Stream, ok: bool, t: Stream) {
    if s.failed then !ok && t == s
    else ok == !t.failed && t.log == s.log && Grows(s, t) && (ok ==> t.content == t.log)
  }

  const SIZE: nat := 64 * 1024

  class BufWriter {
    const under: Writer
    var buf: bytes
    var failed: bool
    ghost var log: bytes

    ghost predicate Valid()
      reads this, under
    {
      && |buf| <= SIZE
      && under.content <= log
      && (!failed ==> log == under.content + buf)
    }

    ghost function State(): Stream
      reads this, under
    {
      Stream(under.content, log, failed, !failed && under.plan == [])
    }

    constructor (under: Writer)
      ensures Valid() && this.under == under
      ensures State() == Stream(under.content, under.content, false, under.plan == [])
    {
      this.under := under;
      buf, failed, log := [], false, under.content;
    }

    method Flush() returns (ok: bool)
      requires |buf| <= SIZE
      modifies this, under
      ensures ok == !failed && log == old(log)
      ensures old(failed) ==>
                && failed && buf == old(buf)
                && under.content == old(under.content) && under.plan == old(under.plan)
      ensures ok ==> buf == [] && under.content == old(under.content) + old(buf)
      ensures |buf| <= |old(buf)|
      ensures old(under.content) <= under.content <= old(under.content) + old(buf) || old(failed)
      ensures !old(failed) && old(under.plan) == [] ==> ok && under.plan == []
      ensures old(Valid()) ==> Valid() && Flushed(old(State()), ok, State())
    {
      if failed {
        return false;
      }
      if |buf| == 0 {
        return true;
      }
      var n, wrote := under.Write(buf);
      if !wrote {
        buf := buf[n..];
        failed := true;
        return false;
      }
      buf := [];
      return true;
    }

    /** The loop of Write: as long as there is more than there is room for, the buffer is filled and flushed. */
    method Fill(p: bytes) returns (rest: bytes)
      requires Valid()
      modifies this, under
      ensures |buf| <= SIZE && log == old(log) && (!failed ==> |rest| <= SIZE - |buf|)
      ensures old(under.content) <= under.content <= old(log) + p
      ensures !failed ==> under.content + buf + rest == old(log) + p
      ensures old(failed) ==>
                && failed && buf == old(buf)
                && under.content == old(under.content) && under.plan == old(under.plan)
      ensures !old(failed) && old(under.plan) == [] ==> !failed && under.plan == []
    {
      ghost var all := log + p;
      rest := p;
      while |rest| > SIZE - |buf| && !failed
        invariant |buf| <= SIZE && log == old(log)
        invariant old(under.content) <= under.content <= all
        invariant !failed ==> under.content + buf + rest == all
        invariant old(failed) ==> failed && buf == old(buf) && under.content == old(under.content)
        invariant old(failed) ==> under.plan == old(under.plan)
        invariant !old(failed) && old(under.plan) == [] ==> !failed && under.plan == []
        decreases if failed then 0 else 1, |rest|, |buf|
      {
        var n: nat;
        if |buf| == 0 {
          // A large write goes past the empty buffer.
          var wrote;
          n, wrote := under.Write(rest);
          failed := !wrote;
        } else {
          n := SIZE - |buf|;
          buf := buf + rest[..n];
          var _ := Flush();
        }
        rest := rest[n..];
      }
    }

    /** Up to 64 KiB are kept in the buffer; what fits in there reaches the writer later. */
    method Write(p: bytes) returns (ok: bool)
      requires Valid()
      modifies this, under
      ensures Valid() && Written(old(State()), p, ok, State())
      ensures |buf| <= 0x1_0000
      ensures !old(failed) && |old(buf)| + |p| <= 0x1_0000 ==>
                ok && buf == old(buf) + p && under.content == old(under.content) && under.plan == old(under.plan)
    {
      var rest := p;
      if |p| > SIZE - |buf| {
        rest := Fill(p);
      }
      if failed {
        log := if old(failed) then log else old(log) + p;
        return false;
      }
      buf := buf + rest;
      log := old(log) + p;
      return true;
    }
  }
}
