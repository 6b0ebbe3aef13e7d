/** A way to use the checkpoint receiver from many goroutines that loses nothing. */
module CheckpointUndisturbed {
  import opened Common
  import opened Archives
  import opened HarFile
  import opened Checkpoint
  import opened CheckpointRuns
  import opened CheckpointRace
  import opened CheckpointOverlap
  import opened Histories
  import FileNames

  /** A call that has been told not to rotate, or has rotated, and has not put its item into a writer yet. */
  predicate Underway(t: Thread) {
    t.req.Do? && !t.req.op.DoFlush? && (t.pc.Ready? || t.pc.Looked?)
  }

  ghost predicate NoneUnderway(w: World) {
    forall j | j in w.calls :: !Underway(w.calls[j])
  }

  /** A Close has returned. */
  ghost predicate Over(w: World) {
    exists j | j in w.calls :: w.calls[j].req.Shut? && w.calls[j].pc.Back?
  }

  /**
   * No rotation and no Close begins while a call is on its way to put an item into a writer, no call is judged after
   * a Close has returned, and the generator gives names.
   */
  ghost predicate Undisturbed(worlds: seq<World>, actions: seq<Action>) {
    forall n | 0 <= n < |actions| && n < |worlds| :: Considerate(worlds[n], actions[n])
  }

  ghost predicate Considerate(w: World, a: Action) {
    && (a.Save? ==> NoneUnderway(w))
    && (a.Judge? ==> !Over(w))
    && (a.Make? ==> a.next.Some?)
  }

  predicate LastOpen(w: World) {
    w.writers != [] && w.writers[|w.writers| - 1].open
  }

  predicate AllClosed(w: World) {
    w.holder.None? && (w.writers != [] ==> !w.writers[|w.writers| - 1].open)
  }

  predicate ClosedSettled(w: World) {
    forall k | 0 <= k < |w.writers| && !w.writers[k].open :: Settled(w.history, k)
  }

  /** All that was put into the current writer is in its file, and can be written again. */
  predicate LastSafe(w: World) {
    && w.writers != []
    && var k := |w.writers| - 1;
       Settled(w.history, k) && AllGood(w.writers[k].entries) && AllGood(w.writers[k].pages)
  }

  /** What a call may count on. */
  predicate Serves(w: World, i: nat)
    requires i in w.calls
  {
    var t := w.calls[i];
    && (Underway(t) ==> LastOpen(w) && w.holder.None? && (t.pc.Looked? ==> t.pc.k == |w.writers| - 1))
    && (t.pc.Flushed? ==> LastSafe(w))
  }

  ghost predicate CalmInv(w: World) {
    && ClosedSettled(w)
    && (forall i | i in w.calls :: Serves(w, i))
    && (w.holder.None? && !Over(w) && w.writers != [] ==> LastOpen(w))
  }

  lemma SettledMore(h: seq<Event>, e: Event, k: nat)
    requires e.k != k
    ensures Settled(h + [e], k) == Settled(h, k)
  {
    OnFileMore(h, e, k);
    LoggedMore(h, e, k, true);
    LoggedMore(h, e, k, false);
  }

  lemma SettledByWrite(h: seq<Event>, k: nat)
    ensures Settled(h + [Wrote(k)], k)
  {
    OnFileMore(h, Wrote(k), k);
    LoggedMore(h, Wrote(k), k, true);
    LoggedMore(h, Wrote(k), k, false);
  }

  /** A write settles its writer if it succeeds, and leaves the closed writers as they are. */
  lemma WrittenCalm(c: Limits, w: World, k: nat)
    requires WritersInv(w) && ClosedSettled(w) && k < |w.writers|
    ensures var (u, ok) := Written(c, w, k);
            && ClosedSettled(u) && u == w.(files := u.files, history := u.history)
            && (ok ==> Settled(u.history, k) && AllGood(w.writers[k].entries) && AllGood(w.writers[k].pages))
            && (!w.writers[k].open ==> u == w)
            && (w.writers[k].open ==> ok == (AllGood(w.writers[k].entries) && AllGood(w.writers[k].pages)))
  {
    var (u, ok) := Written(c, w, k);
    assert Fits(w, k);
    if w.writers[k].open {
      var e := if ok then Wrote(k) else Emptied(k);
      SettledByWrite(w.history, k);
      forall j | 0 <= j < |u.writers| && !u.writers[j].open ensures Settled(u.history, j) {
        SettledMore(w.history, e, j);
      }
    } else {
      assert w.history + [] == w.history;
    }
  }

  /** A call has moved to Flushed or Back, and no other one was counting on anything. */
  lemma ServesAfter(w: World, u: World, i: nat, j: nat)
    requires i in w.calls && i in u.calls && u.calls == w.calls[i := u.calls[i]] && j in w.calls
    requires u.calls[i].pc.Back? || (u.calls[i].pc.Flushed? && LastSafe(u))
    requires !Underway(w.calls[j]) && !w.calls[j].pc.Flushed?
    ensures Serves(u, j)
  {
  }

  /** What writing the current file in doRotate or Close comes to. */
  lemma SaveShape(c: Limits, w: World, i: nat)
    requires Enabled(w, Save(i)) && w.writers != []
    ensures var u, (v, ok) := Next(c, w, Save(i)), Written(c, w, |w.writers| - 1);
            && u.writers == w.writers && u.history == v.history
            && i in u.calls && u.calls == w.calls[i := u.calls[i]] && u.calls[i].req == w.calls[i].req
            && (if ok then u.calls[i].pc.Flushed? && u.holder == Some(i) else u.calls[i].pc.Back?)
  {
  }

  lemma SaveCalm(c: Limits, w: World, i: nat)
    requires WritersInv(w) && ThreadsInv(w) && CalmInv(w) && Enabled(w, Save(i)) && NoneUnderway(w)
    ensures CalmInv(Next(c, w, Save(i)))
  {
    if w.writers == [] {
      SaveNothing(c, w, i);
    } else {
      SaveShape(c, w, i);
      WrittenCalm(c, w, |w.writers| - 1);
      SavedCalm(w, Next(c, w, Save(i)), i);
    }
  }

  lemma SaveNothing(c: Limits, w: World, i: nat)
    requires CalmInv(w) && Enabled(w, Save(i)) && NoneUnderway(w) && w.writers == []
    ensures CalmInv(Next(c, w, Save(i)))
  {
  }

  lemma SavedCalm(w: World, u: World, i: nat)
    requires CalmInv(w) && ThreadsInv(w) && NoneUnderway(w) && w.holder.None?
    requires u.writers == w.writers && ClosedSettled(u) && i in w.calls && !w.calls[i].pc.Back?
    requires i in u.calls && u.calls == w.calls[i := u.calls[i]] && u.calls[i].req == w.calls[i].req
    requires u.calls[i].pc.Back? || (u.calls[i].pc.Flushed? && LastSafe(u) && u.holder == Some(i))
    ensures CalmInv(u)
  {
    forall j | j in u.calls ensures Serves(u, j) {
      assert ThreadFits(w, j);
      ServesAfter(w, u, i, j);
    }
    if Over(w) {
      OverMoved(w, u, i);
    }
  }

  lemma OverMoved(w: World, u: World, i: nat)
    requires i in w.calls && !w.calls[i].pc.Back? && i in u.calls && u.calls == w.calls[i := u.calls[i]]
    requires Over(w)
    ensures Over(u)
  {
    var j :| j in w.calls && w.calls[j].req.Shut? && w.calls[j].pc.Back?;
    assert u.calls[j] == w.calls[j];
  }

  lemma DisposeCalm(c: Limits, w: World, i: nat)
    requires Inv(c, w) && CalmInv(w) && Enabled(w, Dispose(i))
    ensures CalmInv(Next(c, w, Dispose(i)))
  {
    var u := Next(c, w, Dispose(i));
    assert Serves(w, i) && ThreadFits(w, i);
    forall j | j in u.calls ensures Serves(u, j) {
      assert Serves(w, j) && ThreadFits(w, j);
    }
    if w.calls[i].req.Shut? {
      assert u.calls[i].req.Shut? && u.calls[i].pc.Back?;
    }
  }

  lemma MakeCalm(c: Limits, w: World, a: Action)
    requires Inv(c, w) && CalmInv(w) && a.Make? && Enabled(w, a) && a.next.Some?
    ensures CalmInv(Next(c, w, a))
  {
    var u := Next(c, w, a);
    assert ThreadFits(w, a.i);
    forall j | j in u.calls ensures Serves(u, j) {
      assert Serves(w, j) && ThreadFits(w, j);
    }
    forall k | 0 <= k < |u.writers| && !u.writers[k].open ensures Settled(u.history, k) {
      assert u.writers[k] == w.writers[k];
    }
  }

  lemma PutCalm(c: Limits, w: World, i: nat)
    requires Inv(c, w) && CalmInv(w) && Enabled(w, Use(i)) && !w.calls[i].req.op.DoFlush?
    ensures CalmInv(Next(c, w, Use(i)))
  {
    var u := Next(c, w, Use(i));
    var op := w.calls[i].req.op;
    var k := w.calls[i].pc.k;
    assert Serves(w, i);
    forall j | 0 <= j < |u.writers| && !u.writers[j].open ensures Settled(u.history, j) {
      assert u.writers[j] == w.writers[j];
      SettledMore(w.history, Put(k, op.AddEntry?, op.item), j);
    }
    forall j | j in u.calls ensures Serves(u, j) {
      assert Serves(w, j) && ThreadFits(w, j);
    }
  }

  lemma FlushCalm(c: Limits, w: World, i: nat)
    requires WritersInv(w) && CalmInv(w) && Enabled(w, Use(i)) && w.calls[i].req.op.DoFlush?
    ensures CalmInv(Next(c, w, Use(i)))
  {
    FlushShape(c, w, i);
    FlushedCalm(w, Next(c, w, Use(i)), i);
  }

  /** What a flush of a writer comes to. */
  lemma FlushShape(c: Limits, w: World, i: nat)
    requires WritersInv(w) && ClosedSettled(w) && Enabled(w, Use(i)) && w.calls[i].req.op.DoFlush?
    ensures var u, v := Next(c, w, Use(i)), Written(c, w, w.calls[i].pc.k).0;
            && u.writers == w.writers && u.holder == w.holder && ClosedSettled(u)
            && i in u.calls && u.calls == w.calls[i := u.calls[i]] && u.calls[i].req == w.calls[i].req
            && u.calls[i].pc.Back? && (LastSafe(w) ==> LastSafe(u))
  {
    WrittenCalm(c, w, w.calls[i].pc.k);
    if LastSafe(w) {
      SafeStays(c, w, w.calls[i].pc.k);
    }
  }

  lemma SafeStays(c: Limits, w: World, k: nat)
    requires WritersInv(w) && ClosedSettled(w) && k < |w.writers| && LastSafe(w)
    ensures LastSafe(Written(c, w, k).0)
  {
    WrittenCalm(c, w, k);
    assert Fits(w, k);
  }

  lemma FlushedCalm(w: World, u: World, i: nat)
    requires CalmInv(w) && u.writers == w.writers && u.holder == w.holder && ClosedSettled(u)
    requires i in w.calls && w.calls[i].pc.Looked? && w.calls[i].req.Do?
    requires i in u.calls && u.calls == w.calls[i := u.calls[i]] && u.calls[i].req == w.calls[i].req
        && u.calls[i].pc.Back?
    requires LastSafe(w) ==> LastSafe(u)
    ensures CalmInv(u)
  {
    forall j | j in u.calls ensures Serves(u, j) {
      assert Serves(w, j);
    }
    if Over(w) {
      OverMoved(w, u, i);
    }
  }

  /** Steps that touch neither writers nor mutex. */
  lemma QuietCalm(c: Limits, w: World, a: Action)
    requires CalmInv(w) && Enabled(w, a) && Considerate(w, a) && (a.Call? || a.Judge? || a.LookUp?)
    ensures CalmInv(Next(c, w, a))
  {
    var u := Next(c, w, a);
    assert u.writers == w.writers && u.history == w.history && u.holder == w.holder;
    forall j | j in u.calls ensures Serves(u, j) {
      QuietServes(c, w, a, j);
    }
    if Over(w) {
      var j :| j in w.calls && w.calls[j].req.Shut? && w.calls[j].pc.Back?;
      assert u.calls[j] == w.calls[j];
    }
  }

  lemma QuietServes(c: Limits, w: World, a: Action, j: nat)
    requires CalmInv(w) && Enabled(w, a) && Considerate(w, a) && (a.Call? || a.Judge? || a.LookUp?)
    requires j in Next(c, w, a).calls
    ensures Serves(Next(c, w, a), j)
  {
    if j in w.calls {
      assert Serves(w, j);
    }
  }

  lemma CalmStep(c: Limits, w: World, a: Action)
    requires Inv(c, w) && CalmInv(w) && Enabled(w, a) && Considerate(w, a)
    ensures CalmInv(Next(c, w, a))
  {
    match a
    case Save(i) => SaveCalm(c, w, i);
    case Dispose(i) => DisposeCalm(c, w, i);
    case Make(_, _, _) => MakeCalm(c, w, a);
    case Use(i) =>
      if w.calls[i].req.op.DoFlush? {
        FlushCalm(c, w, i);
      } else {
        PutCalm(c, w, i);
      }
    case _ => QuietCalm(c, w, a);
  }

  lemma {:induction false} CalmRun(c: Limits, worlds: seq<World>, actions: seq<Action>)
    requires Interleaving(c, worlds, actions) && ProperActions(actions) && Undisturbed(worlds, actions)
    ensures CalmInv(worlds[|actions|])
  {
    if actions != [] {
      var n := |actions| - 1;
      InterleavingInv(c, worlds[..|actions|], actions[..n]);
      CalmRun(c, worlds[..|actions|], actions[..n]);
      assert Considerate(worlds[n], actions[n]);
      CalmStep(c, worlds[n], actions[n]);
    }
  }

  /**
   * However the calls overlap otherwise: if no rotation and no Close begins while a call is on its way from its
   * verdict to its writer, nothing comes late, so once the last file is closed all accepted items are in the files.
   */
  lemma UndisturbedLosesNothing(c: Limits, worlds: seq<World>, actions: seq<Action>)
    requires Interleaving(c, worlds, actions) && ProperActions(actions) && Undisturbed(worlds, actions)
    requires AllClosed(worlds[|actions|]) && FileNames.Distinct(Names(worlds[|actions|]))
    ensures var w := worlds[|actions|];
            && (forall k | 0 <= k < |w.writers| :: Names(w)[k] in w.files)
            && var files := FilesOf(Names(w), w.files);
               Concat(EntriesIn(files)) == Puts(w.history, true) && Concat(PagesIn(files)) == Puts(w.history, false)
  {
    InterleavingInv(c, worlds, actions);
    CalmRun(c, worlds, actions);
    var w := worlds[|actions|];
    forall p | 0 <= p < |w.history| && w.history[p].Put? ensures Covered(w.history, p) {
      var k := w.history[p].k;
      assert Fits(w, k) && Settled(w.history, k);
      CoveredIff(w.history, k);
    }
    AllOnDiskIff(c, worlds, actions);
  }

  /** Calls that do not overlap at all are a case of this. */
  lemma OneAtATime(worlds: seq<World>, actions: seq<Action>)
    requires |worlds| == |actions| + 1
    requires forall n | 0 <= n < |actions| :: Enabled(worlds[n], actions[n])
    requires forall n, i, j | 0 <= n < |actions| && i in worlds[n].calls && j in worlds[n].calls ::
               worlds[n].calls[i].pc.Back? || worlds[n].calls[j].pc.Back? || i == j
    requires forall n | 0 <= n < |actions| :: && (actions[n].Judge? ==> !Over(worlds[n]))
                                               && (actions[n].Make? ==> actions[n].next.Some?)
    ensures Undisturbed(worlds, actions)
  {
  }
}
