/**
 * What happens to the writers of HAR files in the course of time, and what of it is in the files in the end. The
 * events are critical sections, so this is the same whoever the goroutines are.
 */
module Histories {
  import opened Common
  import opened Archives

  /** What has happened to the writers, in order: items put into one, and successful and failed writes of its file. */
  datatype Event = Put(k: nat, entry: bool, item: Item) | Wrote(k: nat) | Emptied(k: nat)

  /** The entries (or pages) put into a writer, in order. */
  function Logged(h: seq<Event>, k: nat, entries: bool): seq<Item> {
    if h == [] then []
    else
      var last := h[|h| - 1];
      Logged(h[..|h| - 1], k, entries) + if last.Put? && last.k == k && last.entry == entries then [last.item] else []
  }

  /**
   * What the last write of a writer's file wrote: all that had been put into it before. None if there is nothing in
   * it.
   */
  function OnFile(h: seq<Event>, k: nat): Option<(seq<Item>, seq<Item>)> {
    if h == [] then None
    else
      var before, last := h[..|h| - 1], h[|h| - 1];
      if last.k != k || last.Put? then OnFile(before, k)
      else if last.Emptied? then None
      else Some((Logged(before, k, true), Logged(before, k, false)))
  }

  /** The entries (or pages) accepted from anybody, in the order in which they were put into some writer. */
  function Puts(h: seq<Event>, entries: bool): seq<Item> {
    if h == [] then []
    else
      var last := h[|h| - 1];
      Puts(h[..|h| - 1], entries) + if last.Put? && last.entry == entries then [last.item] else []
  }

  /** The item put by event p has been written, and its file has not been emptied after that. */
  predicate Covered(h: seq<Event>, p: nat)
    requires p < |h|
  {
    exists q | p < q < |h| :: h[q] == Wrote(h[p].k) && forall r | q < r < |h| :: h[r] != Emptied(h[p].k)
  }

  /** No item was put into a writer after the last write of its file, and that write succeeded. */
  predicate NothingLate(h: seq<Event>) {
    forall p | 0 <= p < |h| && h[p].Put? :: Covered(h, p)
  }

  lemma LoggedMore(h: seq<Event>, e: Event, k: nat, entries: bool)
    ensures Logged(h + [e], k, entries)
            == if e.Put? && e.k == k && e.entry == entries
                then Logged(h, k, entries) + [e.item] else Logged(h, k, entries)
  {
    assert (h + [e])[..|h|] == h;
    assert Logged(h, k, entries) + [] == Logged(h, k, entries);
  }

  lemma OnFileMore(h: seq<Event>, e: Event, k: nat)
    ensures OnFile(h + [e], k)
            == if e.k != k || e.Put? then OnFile(h, k)
               else if e.Emptied? then None
               else Some((Logged(h, k, true), Logged(h, k, false)))
  {
    assert (h + [e])[..|h|] == h;
  }

  lemma {:induction false} LoggedNone(h: seq<Event>, k: nat, entries: bool)
    requires forall p | 0 <= p < |h| :: h[p].k != k
    ensures Logged(h, k, entries) == [] && OnFile(h, k).None?
  {
    if h != [] {
      LoggedNone(h[..|h| - 1], k, entries);
    }
  }

  // ----- What a file holds -----

  /** What is in the file of a writer. */
  function KeptOf(h: seq<Event>, k: nat, entries: bool): seq<Item> {
    match OnFile(h, k)
    case None => []
    case Some((e, p)) => if entries then e else p
  }

  lemma {:induction false} LoggedProper(h: seq<Event>, k: nat, entries: bool)
    requires forall p | 0 <= p < |h| && h[p].Put? :: Proper(h[p].item)
    ensures AllProper(Logged(h, k, entries))
  {
    if h != [] {
      LoggedProper(h[..|h| - 1], k, entries);
    }
  }

  lemma {:induction false} OnFileProper(h: seq<Event>, k: nat)
    requires forall p | 0 <= p < |h| && h[p].Put? :: Proper(h[p].item)
    ensures AllProper(KeptOf(h, k, true)) && AllProper(KeptOf(h, k, false))
  {
    if h != [] {
      OnFileProper(h[..|h| - 1], k);
      LoggedProper(h[..|h| - 1], k, true);
      LoggedProper(h[..|h| - 1], k, false);
    }
  }

  /** A file is the document of what was last written to it. */
  predicate Holds(version: Version, written: Option<(seq<Item>, seq<Item>)>, file: bytes) {
    match written
    case None => file == []
    case Some((entries, pages)) => AllGood(entries) && AllGood(pages) && file == Document(version, entries, pages)
  }

  lemma ReadHeld(version: Version, h: seq<Event>, k: nat, file: bytes)
    requires Holds(version, OnFile(h, k), file)
    requires forall p | 0 <= p < |h| && h[p].Put? :: Proper(h[p].item)
    ensures FileEntries(file) == KeptOf(h, k, true) && FilePages(file) == KeptOf(h, k, false)
  {
    OnFileProper(h, k);
    match OnFile(h, k)
    case None => ReadNothing();
    case Some((e, p)) => ReadDocument(version, e, p);
  }

  // ----- When everything is on disk -----

  /** A file is written only while its writer is the last one. */
  predicate Ordered(h: seq<Event>) {
    forall p, q | 0 <= p < q < |h| && !h[q].Put? :: h[p].k <= h[q].k
  }

  /** Everything put into a writer is in its file. */
  predicate Settled(h: seq<Event>, k: nat) {
    KeptOf(h, k, true) == Logged(h, k, true) && KeptOf(h, k, false) == Logged(h, k, false)
  }

  predicate WriterCovered(h: seq<Event>, k: nat) {
    forall p | 0 <= p < |h| && h[p].Put? && h[p].k == k :: Covered(h, p)
  }

  lemma {:induction false} KeptWithin(h: seq<Event>, k: nat, entries: bool)
    ensures KeptOf(h, k, entries) <= Logged(h, k, entries)
  {
    if h != [] {
      KeptWithin(h[..|h| - 1], k, entries);
    }
  }

  lemma {:induction false} NothingLogged(h: seq<Event>, k: nat)
    ensures Logged(h, k, true) == [] && Logged(h, k, false) == []
            <==> forall p | 0 <= p < |h| && h[p].Put? :: h[p].k != k
  {
    if h != [] {
      NothingLogged(h[..|h| - 1], k);
    }
  }

  lemma CoveredMore(h: seq<Event>, e: Event, p: nat)
    requires p < |h|
    ensures Covered(h + [e], p) <==> e == Wrote(h[p].k) || (Covered(h, p) && e != Emptied(h[p].k))
  {
    var all := h + [e];
    if e == Wrote(h[p].k) {
      assert all[|h|] == e;
    }
    if Covered(h, p) && e != Emptied(h[p].k) {
      var q :| p < q < |h| && h[q] == Wrote(h[p].k) && forall r | q < r < |h| :: h[r] != Emptied(h[p].k);
      assert all[q] == h[q] && forall r | q < r < |all| :: all[r] != Emptied(h[p].k);
    }
    if Covered(all, p) && e != Wrote(h[p].k) {
      var q :| p < q < |all| && all[q] == Wrote(h[p].k) && forall r | q < r < |all| :: all[r] != Emptied(h[p].k);
      assert all[|h|] == e && h[q] == all[q];
      assert forall r | q < r < |h| :: h[r] == all[r];
    }
  }

  lemma {:induction false} CoveredIff(h: seq<Event>, k: nat)
    ensures WriterCovered(h, k) <==> Settled(h, k)
  {
    if h != [] {
      var n := |h| - 1;
      var before, e := h[..n], h[n];
      assert h == before + [e];
      CoveredIff(before, k);
      forall p | 0 <= p < n
        ensures Covered(h, p) <==> e == Wrote(h[p].k) || (Covered(before, p) && e != Emptied(h[p].k)) {
        CoveredMore(before, e, p);
      }
      CoveredStep(before, e, k);
    }
  }

  predicate NonePut(h: seq<Event>, k: nat) {
    forall p | 0 <= p < |h| && h[p].Put? :: h[p].k != k
  }

  lemma SettledStep(before: seq<Event>, e: Event, k: nat)
    ensures Settled(before + [e], k) <==> if e.k != k then Settled(before, k)
                                          else e.Wrote? || (e.Emptied? && NonePut(before, k))
  {
    OnFileMore(before, e, k);
    LoggedMore(before, e, k, true);
    LoggedMore(before, e, k, false);
    if e.k == k && e.Put? {
      KeptWithin(before, k, e.entry);
    }
    NothingLogged(before, k);
  }

  lemma CoveredStep(before: seq<Event>, e: Event, k: nat)
    requires WriterCovered(before, k) <==> Settled(before, k)
    requires var h := before + [e];
             forall p | 0 <= p < |before| ::
               Covered(h, p) <==> e == Wrote(h[p].k) || (Covered(before, p) && e != Emptied(h[p].k))
    ensures WriterCovered(before + [e], k) <==> Settled(before + [e], k)
  {
    var h := before + [e];
    SettledStep(before, e, k);
    assert forall p | 0 <= p < |before| :: h[p] == before[p];
    assert h[|before|] == e && !Covered(h, |before|);
  }

  function LoggedAll(h: seq<Event>, n: nat, entries: bool): seq<seq<Item>> {
    seq(n, k requires 0 <= k < n => Logged(h, k, entries))
  }

  function KeptAll(h: seq<Event>, n: nat, entries: bool): seq<seq<Item>> {
    seq(n, k requires 0 <= k < n => KeptOf(h, k, entries))
  }

  lemma {:induction false} ConcatGrown(parts: seq<seq<Item>>, k: nat, x: Item)
    requires k < |parts|
    ensures |Concat(parts[k := parts[k] + [x]])| == |Concat(parts)| + 1
    ensures (forall j | k < j < |parts| :: parts[j] == []) ==> Concat(parts[k := parts[k] + [x]]) == Concat(parts) + [x]
  {
    var grown := parts[k := parts[k] + [x]];
    if k == 0 {
      assert grown[1..] == parts[1..];
      if forall j | k < j < |parts| :: parts[j] == [] {
        ConcatNothing(parts[1..]);
      }
    } else {
      ConcatGrown(parts[1..], k - 1, x);
      assert grown[1..] == parts[1..][k - 1 := parts[1..][k - 1] + [x]];
    }
  }

  lemma {:induction false} ConcatNothing(parts: seq<seq<Item>>)
    requires forall j | 0 <= j < |parts| :: parts[j] == []
    ensures Concat(parts) == []
  {
    if parts != [] {
      ConcatNothing(parts[1..]);
    }
  }

  /** The items are put into the writers one after the other. */
  predicate Sorted(h: seq<Event>) {
    forall p, q | 0 <= p < q < |h| && h[p].Put? && h[q].Put? :: h[p].k <= h[q].k
  }

  lemma PutGrows(before: seq<Event>, e: Event, n: nat, entries: bool)
    requires e.k < n
    ensures LoggedAll(before + [e], n, entries)
            == if e.Put? && e.entry == entries
                then LoggedAll(before, n, entries)[e.k := Logged(before, e.k, entries) + [e.item]]
               else LoggedAll(before, n, entries)
  {
    forall k | 0 <= k < n
      ensures LoggedAll(before + [e], n, entries)[k]
              == if e.Put? && e.k == k && e.entry == entries then Logged(before, k, entries) + [e.item]
                 else LoggedAll(before, n, entries)[k]
    {
      LoggedMore(before, e, k, entries);
    }
  }

  /** As many items as were put are in the writers' lists; one list after the other, if they came sorted. */
  lemma {:induction false} LoggedArePuts(h: seq<Event>, n: nat, entries: bool)
    requires forall p | 0 <= p < |h| :: h[p].k < n
    ensures |Concat(LoggedAll(h, n, entries))| == |Puts(h, entries)|
    ensures Sorted(h) ==> Concat(LoggedAll(h, n, entries)) == Puts(h, entries)
  {
    if h == [] {
      ConcatNothing(LoggedAll(h, n, entries));
    } else {
      var before, e := h[..|h| - 1], h[|h| - 1];
      assert h == before + [e];
      LoggedArePuts(before, n, entries);
      PutGrows(before, e, n, entries);
      if e.Put? && e.entry == entries {
        ConcatGrown(LoggedAll(before, n, entries), e.k, e.item);
        if Sorted(h) {
          NoneBeyond(before, e, n, entries);
        }
      }
    }
  }

  lemma NoneBeyond(before: seq<Event>, e: Event, n: nat, entries: bool)
    requires Sorted(before + [e]) && e.Put?
    ensures forall k | e.k < k < n :: LoggedAll(before, n, entries)[k] == []
  {
    forall p | 0 <= p < |before| && before[p].Put? ensures before[p].k <= e.k {
      assert (before + [e])[p] == before[p] && (before + [e])[|before|] == e;
    }
    forall k | e.k < k < n ensures LoggedAll(before, n, entries)[k] == [] {
      NothingLogged(before, k);
    }
  }

  lemma {:induction false} ShorterParts(parts: seq<seq<Item>>, all: seq<seq<Item>>)
    requires |parts| == |all| && forall k | 0 <= k < |parts| :: parts[k] <= all[k]
    ensures |Concat(parts)| <= |Concat(all)|
    ensures |Concat(parts)| == |Concat(all)| ==> parts == all
  {
    if parts != [] {
      ShorterParts(parts[1..], all[1..]);
      if |Concat(parts)| == |Concat(all)| {
        assert parts[0] == all[0] && parts == [parts[0]] + parts[1..] && all == [all[0]] + all[1..];
      }
    }
  }

  lemma CoveredAreSorted(h: seq<Event>)
    requires NothingLate(h) && Ordered(h)
    ensures Sorted(h)
  {
    forall p, q | 0 <= p < q < |h| && h[p].Put? && h[q].Put? ensures h[p].k <= h[q].k {
      assert Covered(h, q);
      var r :| q < r < |h| && h[r] == Wrote(h[q].k);
      assert !h[r].Put?;
    }
  }

  /** All items are on file, in order, exactly when none came late. */
  lemma KeptAreAllIff(h: seq<Event>, n: nat)
    requires Ordered(h) && forall p | 0 <= p < |h| :: h[p].k < n
    ensures Concat(KeptAll(h, n, true)) == Puts(h, true) && Concat(KeptAll(h, n, false)) == Puts(h, false)
            <==> NothingLate(h)
  {
    if NothingLate(h) {
      AllKeptInOrder(h, n);
    }
    if Concat(KeptAll(h, n, true)) == Puts(h, true) && Concat(KeptAll(h, n, false)) == Puts(h, false) {
      LoggedArePuts(h, n, true);
      LoggedArePuts(h, n, false);
      KeptShort(h, n, true);
      KeptShort(h, n, false);
      AllKept(h, n);
    }
  }

  lemma AllKeptInOrder(h: seq<Event>, n: nat)
    requires Ordered(h) && NothingLate(h) && forall p | 0 <= p < |h| :: h[p].k < n
    ensures Concat(KeptAll(h, n, true)) == Puts(h, true) && Concat(KeptAll(h, n, false)) == Puts(h, false)
  {
    CoveredAreSorted(h);
    LoggedArePuts(h, n, true);
    LoggedArePuts(h, n, false);
    AllSettled(h, n);
  }

  lemma AllSettled(h: seq<Event>, n: nat)
    requires NothingLate(h)
    ensures KeptAll(h, n, true) == LoggedAll(h, n, true) && KeptAll(h, n, false) == LoggedAll(h, n, false)
  {
    forall k | 0 <= k < n
      ensures KeptAll(h, n, true)[k] == LoggedAll(h, n, true)[k] && KeptAll(h, n, false)[k] == LoggedAll(h, n, false)[k]
    {
      CoveredIff(h, k);
    }
  }

  lemma KeptShort(h: seq<Event>, n: nat, entries: bool)
    ensures |Concat(KeptAll(h, n, entries))| == |Concat(LoggedAll(h, n, entries))|
            ==> KeptAll(h, n, entries) == LoggedAll(h, n, entries)
  {
    forall k | 0 <= k < n ensures KeptOf(h, k, entries) <= Logged(h, k, entries) {
      KeptWithin(h, k, entries);
    }
    ShorterParts(KeptAll(h, n, entries), LoggedAll(h, n, entries));
  }

  lemma AllKept(h: seq<Event>, n: nat)
    requires KeptAll(h, n, true) == LoggedAll(h, n, true) && KeptAll(h, n, false) == LoggedAll(h, n, false)
    requires forall p | 0 <= p < |h| :: h[p].k < n
    ensures NothingLate(h)
  {
    forall p | 0 <= p < |h| && h[p].Put? ensures Covered(h, p) {
      var k := h[p].k;
      assert KeptAll(h, n, true)[k] == LoggedAll(h, n, true)[k];
      assert KeptAll(h, n, false)[k] == LoggedAll(h, n, false)[k];
      CoveredIff(h, k);
    }
  }
}
