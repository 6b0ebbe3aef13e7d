/** Overlapping calls of the checkpoint receiver: what reaches the files in every interleaving, and what does not. */
module CheckpointOverlap {
  import opened Common
  import opened Archives
  import opened HarFile
  import opened Checkpoint
  import opened CheckpointRuns
  import opened CheckpointRace
  import opened Histories
  import FileNames

  // ----- What every step keeps -----

  /** An open writer is the current one and has kept all that was put into it. */
  predicate Fits(w: World, k: nat)
    requires k < |w.writers|
  {
    && w.writers[k].name in w.files
    && (w.writers[k].open ==>
          && k == |w.writers| - 1
          && w.writers[k].entries == Logged(w.history, k, true) && w.writers[k].pages == Logged(w.history, k, false))
  }

  predicate WritersInv(w: World) {
    && (forall k | 0 <= k < |w.writers| :: Fits(w, k))
    && (forall p | 0 <= p < |w.history| :: w.history[p].k < |w.writers|)
    && (forall p | 0 <= p < |w.history| && w.history[p].Put? :: Proper(w.history[p].item))
    && Ordered(w.history)
  }

  predicate ProperRequest(req: Request) {
    req.Do? && !req.op.DoFlush? ==> Proper(req.op.item)
  }

  predicate ThreadFits(w: World, i: nat)
    requires i in w.calls
  {
    var pc := w.calls[i].pc;
    && ProperRequest(w.calls[i].req)
    && (pc.Flushed? || pc.Disposed? ==> w.holder == Some(i))
    && (pc.Flushed? ==> w.writers != [] && w.writers[|w.writers| - 1].open)
    && (pc.Disposed? ==> w.writers == [] || !w.writers[|w.writers| - 1].open)
    && (pc.Looked? ==> pc.k < |w.writers|)
  }

  ghost predicate ThreadsInv(w: World) {
    forall i | i in w.calls :: ThreadFits(w, i)
  }

  function Names(w: World): seq<string> {
    seq(|w.writers|, k requires 0 <= k < |w.writers| => w.writers[k].name)
  }

  predicate FilesInv(c: Limits, w: World) {
    forall k | 0 <= k < |w.writers| ::
      w.writers[k].name in w.files && Holds(c.version, OnFile(w.history, k), w.files[w.writers[k].name])
  }

  ghost predicate Inv(c: Limits, w: World) {
    WritersInv(w) && ThreadsInv(w) && (FileNames.Distinct(Names(w)) ==> FilesInv(c, w))
  }

  lemma WrittenInv(c: Limits, w: World, k: nat)
    requires WritersInv(w) && k < |w.writers|
    ensures var (u, ok) := Written(c, w, k);
            && WritersInv(u) && u == w.(files := u.files, history := u.history) && (ok ==> w.writers[k].open)
            && (FileNames.Distinct(Names(w)) && FilesInv(c, w) ==> FilesInv(c, u))
  {
    var (u, ok) := Written(c, w, k);
    var x := w.writers[k];
    assert Fits(w, k);
    if x.open {
      var e := if ok then Wrote(k) else Emptied(k);
      forall j | 0 <= j < |w.writers| ensures Fits(u, j) {
        assert Fits(w, j);
        LoggedMore(w.history, e, j, true);
        LoggedMore(w.history, e, j, false);
      }
      if FileNames.Distinct(Names(w)) && FilesInv(c, w) {
        forall j | 0 <= j < |w.writers|
          ensures u.writers[j].name in u.files && Holds(c.version, OnFile(u.history, j), u.files[u.writers[j].name])
        {
          OnFileMore(w.history, e, j);
          assert j != k ==> Names(w)[j] != Names(w)[k];
        }
      }
    } else {
      assert u.files == w.files && u.history == w.history;
    }
  }

  /** The mutex and the calls do not matter for the writers and files. */
  lemma SameWriters(c: Limits, w: World, u: World)
    requires WritersInv(w) && u.writers == w.writers && u.files == w.files && u.history == w.history
    ensures WritersInv(u) && Names(u) == Names(w) && (FilesInv(c, w) ==> FilesInv(c, u))
  {
    forall k | 0 <= k < |u.writers| ensures Fits(u, k) {
      assert Fits(w, k);
    }
  }

  lemma SaveWriters(c: Limits, w: World, i: nat)
    requires WritersInv(w) && Enabled(w, Save(i))
    ensures var u := Next(c, w, Save(i));
            && WritersInv(u) && Names(u) == Names(w)
            && (FileNames.Distinct(Names(w)) && FilesInv(c, w) ==> FilesInv(c, u))
  {
    var u := Next(c, w, Save(i));
    if w.writers == [] {
      SameWriters(c, w, u);
    } else {
      WrittenInv(c, w, |w.writers| - 1);
      SameWriters(c, Written(c, w, |w.writers| - 1).0, u);
    }
  }

  lemma SaveThreads(c: Limits, w: World, i: nat)
    requires ThreadsInv(w) && Enabled(w, Save(i))
    ensures ThreadsInv(Next(c, w, Save(i)))
  {
    var u := Next(c, w, Save(i));
    assert ThreadFits(w, i);
    forall j | j in u.calls ensures ThreadFits(u, j) {
      assert ThreadFits(w, j);
    }
  }

  lemma SaveInv(c: Limits, w: World, i: nat)
    requires Inv(c, w) && Enabled(w, Save(i))
    ensures Inv(c, Next(c, w, Save(i)))
  {
    SaveWriters(c, w, i);
    SaveThreads(c, w, i);
  }

  lemma DisposeInv(c: Limits, w: World, i: nat)
    requires Inv(c, w) && Enabled(w, Dispose(i))
    ensures Inv(c, Next(c, w, Dispose(i)))
  {
    var u := Next(c, w, Dispose(i));
    assert ThreadFits(w, i);
    forall k | 0 <= k < |u.writers| ensures Fits(u, k) {
      assert Fits(w, k);
    }
    assert Names(u) == Names(w);
    forall j | j in u.calls ensures ThreadFits(u, j) {
      assert ThreadFits(w, j);
    }
  }

  lemma MakeInv(c: Limits, w: World, a: Action)
    requires Inv(c, w) && a.Make? && Enabled(w, a) && a.next.Some?
    ensures Inv(c, Next(c, w, a))
  {
    var u := Next(c, w, a);
    var n := |w.writers|;
    assert ThreadFits(w, a.i);
    LoggedNone(w.history, n, true);
    LoggedNone(w.history, n, false);
    forall k | 0 <= k < |u.writers| ensures Fits(u, k) {
      if k < n {
        assert Fits(w, k);
      }
    }
    forall j | j in u.calls ensures ThreadFits(u, j) {
      assert ThreadFits(w, j);
    }
    if FileNames.Distinct(Names(u)) {
      MadeFiles(c, w, a);
    }
  }

  lemma MadeFiles(c: Limits, w: World, a: Action)
    requires Inv(c, w) && a.Make? && Enabled(w, a) && a.next.Some? && FileNames.Distinct(Names(Next(c, w, a)))
    requires OnFile(w.history, |w.writers|).None?
    ensures FilesInv(c, Next(c, w, a))
  {
    var u, n := Next(c, w, a), |w.writers|;
    assert Names(u) == Names(w) + [a.next.value];
    FewerNames(Names(w), [a.next.value]);
    forall k | 0 <= k < |u.writers|
      ensures u.writers[k].name in u.files && Holds(c.version, OnFile(u.history, k), u.files[u.writers[k].name])
    {
      if k < n {
        assert Names(u)[k] != Names(u)[n];
        assert u.writers[k] == w.writers[k];
      }
    }
  }

  lemma PutWriters(c: Limits, w: World, i: nat)
    requires WritersInv(w) && Enabled(w, Use(i)) && !w.calls[i].req.op.DoFlush? && Proper(w.calls[i].req.op.item)
    ensures WritersInv(Next(c, w, Use(i)))
  {
    var u := Next(c, w, Use(i));
    var op := w.calls[i].req.op;
    var e := Put(w.calls[i].pc.k, op.AddEntry?, op.item);
    forall k | 0 <= k < |u.writers| ensures Fits(u, k) {
      assert Fits(w, k);
      LoggedMore(w.history, e, k, true);
      LoggedMore(w.history, e, k, false);
    }
  }

  lemma PutInv(c: Limits, w: World, i: nat)
    requires Inv(c, w) && Enabled(w, Use(i)) && !w.calls[i].req.op.DoFlush?
    ensures Inv(c, Next(c, w, Use(i)))
  {
    var u := Next(c, w, Use(i));
    var op := w.calls[i].req.op;
    assert ThreadFits(w, i);
    PutWriters(c, w, i);
    forall j | j in u.calls ensures ThreadFits(u, j) {
      assert ThreadFits(w, j);
    }
    assert Names(u) == Names(w);
    forall k | 0 <= k < |w.writers| ensures OnFile(u.history, k) == OnFile(w.history, k) {
      OnFileMore(w.history, Put(w.calls[i].pc.k, op.AddEntry?, op.item), k);
    }
  }

  lemma FlushInv(c: Limits, w: World, i: nat)
    requires Inv(c, w) && Enabled(w, Use(i)) && w.calls[i].req.op.DoFlush?
    ensures Inv(c, Next(c, w, Use(i)))
  {
    assert ThreadFits(w, i);
    WrittenInv(c, w, w.calls[i].pc.k);
    var u := Next(c, w, Use(i));
    SameWriters(c, Written(c, w, w.calls[i].pc.k).0, u);
    assert Names(u) == Names(w);
    forall j | j in u.calls ensures ThreadFits(u, j) {
      assert ThreadFits(w, j);
    }
  }

  predicate ProperAction(a: Action) {
    a.Call? ==> ProperRequest(a.req)
  }

  lemma StepInv(c: Limits, w: World, a: Action)
    requires Inv(c, w) && Enabled(w, a) && ProperAction(a)
    ensures Inv(c, Next(c, w, a))
  {
    var u := Next(c, w, a);
    match a
    case Save(i) => SaveInv(c, w, i);
    case Dispose(i) => DisposeInv(c, w, i);
    case Make(_, _, Some(_)) => MakeInv(c, w, a);
    case Use(i) =>
      if w.calls[i].req.op.DoFlush? {
        FlushInv(c, w, i);
      } else {
        PutInv(c, w, i);
      }
    case _ =>
      QuietInv(c, w, a);
  }

  /** Steps that do not touch the writers. */
  lemma QuietInv(c: Limits, w: World, a: Action)
    requires Inv(c, w) && Enabled(w, a) && ProperAction(a)
    requires a.Call? || a.Judge? || a.LookUp? || (a.Make? && a.next.None?)
    ensures Inv(c, Next(c, w, a))
  {
    var u := Next(c, w, a);
    SameWriters(c, w, u);
    forall j | j in u.calls ensures ThreadFits(u, j) {
      if j in w.calls {
        assert ThreadFits(w, j);
      }
    }
  }

  ghost predicate ProperActions(actions: seq<Action>) {
    forall n | 0 <= n < |actions| :: ProperAction(actions[n])
  }

  lemma {:induction false} InterleavingInv(c: Limits, worlds: seq<World>, actions: seq<Action>)
    requires Interleaving(c, worlds, actions) && ProperActions(actions)
    ensures Inv(c, worlds[|actions|])
  {
    if actions != [] {
      var n := |actions| - 1;
      InterleavingInv(c, worlds[..|actions|], actions[..n]);
      StepInv(c, worlds[n], actions[n]);
    }
  }

  // ----- What the files hold -----

  /**
   * In every interleaving the file of each writer holds the document of exactly the entries and pages that were put
   * into the writer before the file was last written; it is empty if it never was or if that write failed.
   */
  lemma FilesHoldLastWrites(c: Limits, worlds: seq<World>, actions: seq<Action>)
    requires Interleaving(c, worlds, actions) && ProperActions(actions)
    requires FileNames.Distinct(Names(worlds[|actions|]))
    ensures var w := worlds[|actions|];
            forall k | 0 <= k < |w.writers| ::
              && w.writers[k].name in w.files
              && Holds(c.version, OnFile(w.history, k), w.files[w.writers[k].name])
              && FileEntries(w.files[w.writers[k].name]) == KeptOf(w.history, k, true)
              && FilePages(w.files[w.writers[k].name]) == KeptOf(w.history, k, false)
  {
    InterleavingInv(c, worlds, actions);
    var w := worlds[|actions|];
    forall k | 0 <= k < |w.writers|
      ensures w.writers[k].name in w.files
      ensures FileEntries(w.files[w.writers[k].name]) == KeptOf(w.history, k, true)
      ensures FilePages(w.files[w.writers[k].name]) == KeptOf(w.history, k, false)
    {
      ReadHeld(c.version, w.history, k, w.files[w.writers[k].name]);
    }
  }

  /**
   * In every interleaving with distinct names the files, in the order they were made, hold exactly the accepted
   * entries and exactly the accepted pages, each once and in the order in which they were put, if and only if no item
   * was put into a writer after the last time that writer's file was written.
   */
  lemma AllOnDiskIff(c: Limits, worlds: seq<World>, actions: seq<Action>)
    requires Interleaving(c, worlds, actions) && ProperActions(actions)
    requires FileNames.Distinct(Names(worlds[|actions|]))
    ensures var w := worlds[|actions|];
            && (forall k | 0 <= k < |w.writers| :: Names(w)[k] in w.files)
            && var files := FilesOf(Names(w), w.files);
               (Concat(EntriesIn(files)) == Puts(w.history, true) && Concat(PagesIn(files)) == Puts(w.history, false)
                <==> NothingLate(w.history))
  {
    InterleavingInv(c, worlds, actions);
    FilesHoldLastWrites(c, worlds, actions);
    var w := worlds[|actions|];
    var files := FilesOf(Names(w), w.files);
    assert EntriesIn(files) == KeptAll(w.history, |w.writers|, true);
    assert PagesIn(files) == KeptAll(w.history, |w.writers|, false);
    KeptAreAllIff(w.history, |w.writers|);
  }

  /** The generator of the package answers each time it is asked. */
  ghost predicate NamesGiven(worlds: seq<World>, actions: seq<Action>, base: string, prefix: string,
                             clocks: seq<string>) {
    && |worlds| == |actions| + 1 && |clocks| == |actions| < TWO_63
    && forall n | 0 <= n < |actions| && actions[n].Make? ::
         actions[n].next == Some(FileNames.NameFor(base, prefix, clocks[n], WrapI64(|worlds[n].writers| + 1)))
  }

  lemma NamesNext(c: Limits, w: World, a: Action)
    requires Enabled(w, a)
    ensures Names(Next(c, w, a)) == if a.Make? && a.next.Some? then Names(w) + [a.next.value] else Names(w)
  {
  }

  lemma NamesStep(c: Limits, w: World, a: Action, base: string, prefix: string, clock: string)
    requires Enabled(w, a) && AllNumbered(Names(w)) && |Names(w)| + 1 < TWO_63
    requires a.Make? ==> a.next == Some(FileNames.NameFor(base, prefix, clock, WrapI64(|Names(w)| + 1)))
    ensures AllNumbered(Names(Next(c, w, a))) && |Names(Next(c, w, a))| <= |Names(w)| + 1
  {
    NamesNext(c, w, a);
    NumberedMore(Names(w), base, prefix, clock);
  }

  lemma {:induction false} NamesNumbered(c: Limits, worlds: seq<World>, actions: seq<Action>,
                                         base: string, prefix: string, clocks: seq<string>)
    requires Interleaving(c, worlds, actions) && NamesGiven(worlds, actions, base, prefix, clocks)
    ensures AllNumbered(Names(worlds[|actions|])) && |worlds[|actions|].writers| <= |actions|
  {
    if actions != [] {
      var n := |actions| - 1;
      NamesNumbered(c, worlds[..|actions|], actions[..n], base, prefix, clocks[..n]);
      NamesStep(c, worlds[n], actions[n], base, prefix, clocks[n]);
    }
  }

  /** With the package's own generator the names differ here, too. */
  lemma NamesDiffer(c: Limits, worlds: seq<World>, actions: seq<Action>, base: string, prefix: string,
                    clocks: seq<string>)
    requires Interleaving(c, worlds, actions) && NamesGiven(worlds, actions, base, prefix, clocks)
    ensures FileNames.Distinct(Names(worlds[|actions|]))
  {
    NamesNumbered(c, worlds, actions, base, prefix, clocks);
    NumberedDiffer(Names(worlds[|actions|]));
  }

  // ----- Lost for good -----

  /** An event of a closed writer that only a later write could cover. */
  predicate Lost(w: World, p: nat) {
    && p < |w.history| && w.history[p].Put? && !Covered(w.history, p)
    && w.history[p].k < |w.writers| && !w.writers[w.history[p].k].open
  }

  lemma LostMore(w: World, u: World, e: Event, p: nat)
    requires Lost(w, p) && u.history == w.history + [e] && e != Wrote(w.history[p].k)
    requires |u.writers| >= |w.writers| && u.writers[w.history[p].k].open == w.writers[w.history[p].k].open
    ensures Lost(u, p)
  {
    CoveredMore(w.history, e, p);
  }

  lemma LostWritten(c: Limits, w: World, k: nat, p: nat)
    requires Lost(w, p) && k < |w.writers|
    ensures Lost(Written(c, w, k).0, p)
  {
    var u := Written(c, w, k).0;
    if w.writers[k].open {
      LostMore(w, u, u.history[|w.history|], p);
    } else {
      assert u.history == w.history;
    }
  }

  lemma LostStep(c: Limits, w: World, a: Action, p: nat)
    requires Lost(w, p) && Enabled(w, a)
    ensures Lost(Next(c, w, a), p)
  {
    match a
    case Save(_) =>
      if w.writers != [] {
        LostWritten(c, w, |w.writers| - 1, p);
      }
    case Use(i) =>
      var k := w.calls[i].pc.k;
      if w.calls[i].req.op.DoFlush? {
        LostWritten(c, w, k, p);
      } else {
        LostMore(w, Next(c, w, a), Next(c, w, a).history[|w.history|], p);
      }
    case _ =>
  }

  /**
   * An entry or page that is put into a writer after that has been closed is accepted, and whatever anybody does
   * then, it never reaches a file.
   */
  lemma {:induction false} LateIsLost(c: Limits, worlds: seq<World>, actions: seq<Action>, n: nat, i: nat)
    requires Interleaving(c, worlds, actions) && n < |actions|
    requires actions[n] == Use(i) && !worlds[n].calls[i].req.op.DoFlush?
    requires !worlds[n].writers[worlds[n].calls[i].pc.k].open
    ensures worlds[n + 1].calls[i].pc == Back(true)
    ensures Lost(worlds[|actions|], |worlds[n].history|)
  {
    if n == |actions| - 1 {
      assert worlds[n + 1] == Next(c, worlds[n], actions[n]);
    } else {
      var m := |actions| - 1;
      LateIsLost(c, worlds[..|actions|], actions[..m], n, i);
      LostStep(c, worlds[m], actions[m], |worlds[n].history|);
    }
  }

  /**
   * It does happen: one call has looked up the writer, and another one that was told to rotate does so before it goes
   * on.
   */
  lemma LateHappens(c: Limits, w: World, i: nat, j: nat, name: string)
    requires Enabled(w, Use(i)) && !w.calls[i].req.op.DoFlush? && w.calls[i].pc.k == |w.writers| - 1
    requires j in w.calls && w.calls[j].pc.Due? && w.calls[j].req.Do? && w.holder.None?
    requires var x := w.writers[|w.writers| - 1]; x.open && AllGood(x.entries) && AllGood(x.pages)
    ensures var u := RolledTo(c, w, j, name);
            && Enabled(u, Use(i)) && !u.writers[u.calls[i].pc.k].open
            && Lost(Next(c, u, Use(i)), |u.history|)
  {
    var u := RolledTo(c, w, j, name);
    var v := Next(c, u, Use(i));
    assert v.history[|u.history|].Put?;
  }
}
