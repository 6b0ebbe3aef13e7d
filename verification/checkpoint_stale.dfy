/** Rotations that come twice: how many files overlapping calls of the checkpoint receiver can make. */
module CheckpointStale {
  import opened Common
  import opened Archives
  import opened HarFile
  import opened Checkpoint
  import opened CheckpointRuns
  import opened CheckpointRace
  import opened CheckpointSizes

  /** A call that is going to rotate, and the number of rotations there had been when it was told to. */
  function ToldAt(pc: Pc): Option<nat> {
    match pc
    case Due(since) => Some(since)
    case Flushed(since) => Some(since)
    case Disposed(since) => Some(since)
    case _ => None
  }

  /** A call whose verdict still stands finds the limit exceeded. */
  predicate Founded(c: Limits, w: World, i: nat)
    requires i in w.calls
  {
    w.calls[i].req.Do? && ToldAt(w.calls[i].pc) == Some(w.resets) && w.writers != [] ==> w.currentBytes > c.maxBytes
  }

  predicate SinceThen(w: World, i: nat)
    requires i in w.calls
  {
    ToldAt(w.calls[i].pc).Some? ==> ToldAt(w.calls[i].pc).value <= w.resets
  }

  /** All files but the first and those of stale rotations have been paid for. */
  predicate Paid(c: Limits, w: World) {
    if w.writers == [] then w.currentBytes == 0 && w.stale == 0
    else w.stale < |w.writers| && Overfull(|w.writers| - 1 - w.stale, c.maxBytes) + w.currentBytes <= w.charged
  }

  ghost predicate PaidInv(c: Limits, w: World) {
    Paid(c, w) && forall i | i in w.calls :: Founded(c, w, i) && SinceThen(w, i)
  }

  lemma JudgePaid(c: Limits, w: World, i: nat, now: int)
    requires c.maxBytes > 0 && c.maxDuration <= 0 && PaidInv(c, w) && Enabled(w, Judge(i, now))
    requires Next(c, w, Judge(i, now)).charged < TWO_64
    ensures PaidInv(c, Next(c, w, Judge(i, now)))
  {
    var u := Next(c, w, Judge(i, now));
    JudgedBytes(c, w, i, now);
    forall j | j in u.calls ensures Founded(c, u, j) && SinceThen(u, j) {
      assert Founded(c, w, j) && SinceThen(w, j);
    }
  }

  /** The verdict charges the item's size and asks for a rotation only beyond the limit. */
  lemma JudgedBytes(c: Limits, w: World, i: nat, now: int)
    requires c.maxBytes > 0 && c.maxDuration <= 0 && Enabled(w, Judge(i, now))
    requires w.writers != [] ==> w.currentBytes <= w.charged
    requires Next(c, w, Judge(i, now)).charged < TWO_64
    ensures var u := Next(c, w, Judge(i, now));
            && u == w.(currentBytes := u.currentBytes, charged := u.charged, calls := u.calls)
            && u.currentBytes - w.currentBytes == u.charged - w.charged >= 0
            && i in u.calls && u.calls == w.calls[i := u.calls[i]]
            && (ToldAt(u.calls[i].pc).Some? ==>
                  u.calls[i].pc == Due(w.resets) && (w.writers != [] ==> u.currentBytes > c.maxBytes))
  {
  }

  lemma MakePaid(c: Limits, w: World, a: Action)
    requires c.maxBytes > 0 && PaidInv(c, w) && a.Make? && Enabled(w, a) && w.calls[a.i].req.Do?
    ensures PaidInv(c, Next(c, w, a))
  {
    var u := Next(c, w, a);
    assert Founded(c, w, a.i);
    if w.writers != [] {
      OverfullMore(|w.writers| - 1 - w.stale, c.maxBytes);
    }
    forall j | j in u.calls ensures Founded(c, u, j) && SinceThen(u, j) {
      assert SinceThen(w, j);
    }
  }

  /** Steps that neither charge nor reset. */
  lemma OtherPaid(c: Limits, w: World, a: Action)
    requires PaidInv(c, w) && Enabled(w, a) && !a.Judge? && !a.Make?
    ensures PaidInv(c, Next(c, w, a))
  {
    var u := Next(c, w, a);
    assert |u.writers| == |w.writers| && u.currentBytes == w.currentBytes && u.charged == w.charged
           && u.stale == w.stale && u.resets == w.resets;
    forall j | j in u.calls ensures Founded(c, u, j) && SinceThen(u, j) {
      if j in w.calls {
        assert Founded(c, w, j) && SinceThen(w, j);
      }
    }
  }

  /** Only a call that rotates gets past writing without being a Close. */
  predicate OnlyDoMakes(w: World) {
    forall i | i in w.calls && (w.calls[i].pc.Due? || w.calls[i].pc.Disposed?) :: w.calls[i].req.Do?
  }

  lemma OnlyDoStep(c: Limits, w: World, a: Action)
    requires OnlyDoMakes(w) && Enabled(w, a)
    ensures OnlyDoMakes(Next(c, w, a))
  {
  }

  lemma ChargesGrow(c: Limits, w: World, a: Action)
    requires Enabled(w, a)
    ensures w.charged <= Next(c, w, a).charged
  {
  }

  lemma {:induction false} PaidRun(c: Limits, worlds: seq<World>, actions: seq<Action>)
    requires c.maxBytes > 0 && c.maxDuration <= 0
    requires Interleaving(c, worlds, actions) && worlds[|actions|].charged < TWO_64
    ensures PaidInv(c, worlds[|actions|]) && OnlyDoMakes(worlds[|actions|])
  {
    if actions != [] {
      var n := |actions| - 1;
      ChargesGrow(c, worlds[n], actions[n]);
      PaidRun(c, worlds[..|actions|], actions[..n]);
      OnlyDoStep(c, worlds[n], actions[n]);
      match actions[n]
      case Judge(i, now) => JudgePaid(c, worlds[n], i, now);
      case Make(_, _, _) => MakePaid(c, worlds[n], actions[n]);
      case _ => OtherPaid(c, worlds[n], actions[n]);
    }
  }

  /**
   * The packing bound for calls that overlap: without a limit on the age, k files of which s were made by rotations
   * that another one had come in front of need charges of (k - 1 - s) * (maxBytes + 1) bytes.
   */
  lemma RotationsAreNeededBut(c: Limits, worlds: seq<World>, actions: seq<Action>)
    requires c.maxBytes > 0 && c.maxDuration <= 0
    requires Interleaving(c, worlds, actions) && worlds[|actions|].charged < TWO_64
    ensures var w := worlds[|actions|];
            w.writers != [] ==>
              w.stale < |w.writers| && (|w.writers| - 1 - w.stale) * (c.maxBytes + 1) <= w.charged
  {
    PaidRun(c, worlds, actions);
    var w := worlds[|actions|];
    if w.writers != [] {
      ProductBound(|w.writers| - 1 - w.stale, c.maxBytes, w.charged);
    }
  }

  /** Both calls add entries that exceed the limit if they are judged one after the other. */
  predicate BothOver(c: Limits, w: World, i: nat, j: nat) {
    && i != j && Adds(w, i) && Adds(w, j) && w.holder.None? && w.writers != [] && c.maxBytes > 0
    && w.currentBytes + AddedSize(w.calls[i].req.op) > c.maxBytes
    && w.currentBytes + AddedSize(w.calls[i].req.op) + AddedSize(w.calls[j].req.op) < TWO_64
  }

  predicate Adds(w: World, i: nat) {
    && i in w.calls && w.calls[i].pc.Begun? && w.calls[i].req.Do?
    && w.calls[i].req.op.AddEntry? && w.calls[i].req.op.item.Good?
  }

  function BothJudged(c: Limits, w: World, i: nat, j: nat): (u: World)
    requires BothOver(c, w, i, j)
    ensures u.calls == w.calls[i := w.calls[i].(pc := Due(w.resets))][j := w.calls[j].(pc := Due(w.resets))]
    ensures u.charged == w.charged + AddedSize(w.calls[i].req.op) + AddedSize(w.calls[j].req.op)
    ensures u == w.(currentBytes := u.currentBytes, charged := u.charged, calls := u.calls)
  {
    Next(c, Next(c, w, Judge(i, 0)), Judge(j, 0))
  }

  /** Two calls are judged, and then one rotates after the other. */
  function BothRotate(c: Limits, w: World, i: nat, j: nat, first: string, second: string): World
    requires BothOver(c, w, i, j)
    requires var x := w.writers[|w.writers| - 1]; x.open && AllGood(x.entries) && AllGood(x.pages)
  {
    RolledTo(c, RolledTo(c, BothJudged(c, w, i, j), i, first), j, second)
  }

  /**
   * One overfull file is left twice: from any world in which an entry does not fit, a second call that is judged
   * before the rotation rotates again. The file in between gets no items, the second rotation is stale, and the
   * bound for calls one at a time is broken: here two new files cost less than two overfull ones.
   */
  lemma SecondRotationIsStale(c: Limits, w: World, i: nat, j: nat, first: string, second: string)
    requires BothOver(c, w, i, j)
    requires var x := w.writers[|w.writers| - 1]; x.open && AllGood(x.entries) && AllGood(x.pages)
    ensures var u := BothRotate(c, w, i, j, first, second);
            && |u.writers| == |w.writers| + 2 && u.stale == w.stale + 1
            && u.writers[|w.writers|] == Current(first, false, [], [])
            && u.charged == w.charged + AddedSize(w.calls[i].req.op) + AddedSize(w.calls[j].req.op)
            && u.calls[i].pc.Ready? && u.calls[j].pc.Ready?
            && (|w.writers| == 1 && u.charged < 2 * (c.maxBytes + 1)
                ==> Overfull(|u.writers| - 1, c.maxBytes) > u.charged)
  {
    OverfullMore(1, c.maxBytes);
    OverfullMore(0, c.maxBytes);
  }
}
