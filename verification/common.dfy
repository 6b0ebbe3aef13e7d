/** Vocabulary shared by the modules: bytes, options and Go's fixed-width integers. */
module Common {
  type byte = x: int | 0 <= x < 256

  type bytes = seq<byte>

  datatype Option<+T> = None | Some(value: T)

  const TWO_63: int := 0x8000_0000_0000_0000
  const TWO_64: int := 0x1_0000_0000_0000_0000

  /** The largest value of Go's int64, and of time.Duration. */
  const MAX_INT64: int := TWO_63 - 1

  type uint64 = x: int | 0 <= x < TWO_64

  type int64 = x: int | -TWO_63 <= x < TWO_63

  /** Go's uint64 addition, which wraps around. */
  function AddU64(x: uint64, y: nat): (r: uint64)
    ensures x + y < TWO_64 ==> r == x + y
  {
    (x + y) % TWO_64
  }

  /** An integer brought into int64 by wrapping around. */
  function WrapI64(x: int): (r: int64)
    ensures -TWO_63 <= x < TWO_63 ==> r == x
  {
    (x + TWO_63) % TWO_64 - TWO_63
  }

  /** The time between two moments as a time.Duration; when that cannot hold it, the nearest one that there is. */
  function Elapsed(start: int, now: int): (d: int64)
    ensures -TWO_63 <= now - start <= MAX_INT64 ==> d == now - start
  {
    if now - start > MAX_INT64 then MAX_INT64 else if now - start < -TWO_63 then -TWO_63 else now - start
  }

  /** No other duration is closer to the time that has passed. */
  lemma ElapsedIsNearest(start: int, now: int, d: int64)
    ensures var off := Elapsed(start, now) - (now - start);
            var other := d - (now - start);
            -(if other < 0 then -other else other) <= off <= if other < 0 then -other else other
  {
  }

  /** The first n elements of s, or all of s when it is shorter. */
  function Take<T>(s: seq<T>, n: nat): (r: seq<T>)
    ensures r <= s
    ensures |r| == if n < |s| then n else |s|
  {
    if n < |s| then s[..n] else s
  }

  lemma TakeAll<T>(s: seq<T>)
    ensures s[..|s|] == s
  {
  }

  lemma PrefixTransitive<T>(a: seq<T>, b: seq<T>, c: seq<T>)
    requires a <= b && b <= c
    ensures a <= c
  {
    assert a == b[..|a|] == c[..|a|];
  }

  /** Every element of a sequence of sequences, in order. */
  function Concat<T>(parts: seq<seq<T>>): seq<T> {
    if parts == [] then [] else parts[0] + Concat(parts[1..])
  }

  lemma {:induction false} ConcatAppend<T>(parts: seq<seq<T>>, last: seq<T>)
    ensures Concat(parts + [last]) == Concat(parts) + last
  {
    if parts == [] {
      assert parts + [last] == [last];
      assert [last][1..] == [];
    } else {
      ConcatAppend(parts[1..], last);
      assert (parts + [last])[1..] == parts[1..] + [last];
    }
  }
}
