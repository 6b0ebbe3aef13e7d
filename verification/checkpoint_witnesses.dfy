/** Runs from the very start in which the checkpoint receiver loses something, or makes more files than are full. */
module CheckpointWitnesses {
  import opened Common
  import opened Archives
  import opened HarFile
  import opened Checkpoint
  import opened CheckpointRuns
  import opened CheckpointRace
  import opened CheckpointOverlap
  import opened CheckpointStale
  import opened Histories

  /** Some interleaving from the start leads to a world. */
  ghost predicate Reached(c: Limits, w: World) {
    exists worlds, actions :: Interleaving(c, worlds, actions) && ProperActions(actions) && worlds[|actions|] == w
  }

  lemma OneMore(c: Limits, worlds: seq<World>, actions: seq<Action>, a: Action)
    requires Interleaving(c, worlds, actions) && Enabled(worlds[|actions|], a)
    ensures Interleaving(c, worlds + [Next(c, worlds[|actions|], a)], actions + [a])
  {
    var worlds', actions' := worlds + [Next(c, worlds[|actions|], a)], actions + [a];
    forall n | 0 <= n < |actions'|
      ensures Enabled(worlds'[n], actions'[n]) && worlds'[n + 1] == Next(c, worlds'[n], actions'[n])
    {
      if n < |actions| {
        assert worlds'[n] == worlds[n] && worlds'[n + 1] == worlds[n + 1] && actions'[n] == actions[n];
      }
    }
  }

  lemma Then(c: Limits, w: World, a: Action)
    requires Reached(c, w) && Enabled(w, a) && ProperAction(a)
    ensures Reached(c, Next(c, w, a))
  {
    var worlds, actions :| Interleaving(c, worlds, actions) && ProperActions(actions) && worlds[|actions|] == w;
    OneMore(c, worlds, actions, a);
    var worlds', actions' := worlds + [Next(c, w, a)], actions + [a];
    assert ProperActions(actions') && worlds'[|actions'|] == Next(c, w, a);
  }

  function Start(files: map<string, bytes>): World {
    World([], files, 0, 0, None, map[], [], 0, 0, 0)
  }

  lemma StartReached(c: Limits, files: map<string, bytes>)
    ensures Reached(c, Start(files))
  {
    var worlds: seq<World>, actions: seq<Action> := [Start(files)], [];
    assert Interleaving(c, worlds, actions) && ProperActions(actions) && worlds[|actions|] == Start(files);
  }

  /** A rotation in one piece. */
  lemma ThenRolled(c: Limits, w: World, i: nat, name: string)
    requires Reached(c, w)
    requires i in w.calls && w.calls[i].pc.Due? && w.calls[i].req.Do? && w.holder.None? && w.writers != []
    requires var x := w.writers[|w.writers| - 1]; x.open && AllGood(x.entries) && AllGood(x.pages)
    ensures Reached(c, RolledTo(c, w, i, name))
  {
    Then(c, w, Save(i));
    var saved := Next(c, w, Save(i));
    assert saved.calls[i].pc.Flushed?;
    Then(c, saved, Dispose(i));
    var disposed := Next(c, saved, Dispose(i));
    assert disposed.calls[i].pc.Disposed?;
    Then(c, disposed, Make(i, 0, Some(name)));
  }

  // ----- The first file -----

  /** The first call has been told that there is no file yet. */
  function Told(files: map<string, bytes>, a: Item): World {
    Start(files).(calls := map[0 := Thread(Do(AddEntry(a)), Due(0))])
  }

  lemma ToldReached(c: Limits, files: map<string, bytes>, a: Item)
    requires Proper(a)
    ensures Reached(c, Told(files, a))
  {
    StartReached(c, files);
    Then(c, Start(files), Call(0, Do(AddEntry(a))));
    var w := Next(c, Start(files), Call(0, Do(AddEntry(a))));
    Then(c, w, Judge(0, 0));
    assert Next(c, w, Judge(0, 0)) == Told(files, a);
  }

  /** It has made one and is about to look up the writer. */
  function Opened(files: map<string, bytes>, a: Item, name: string): World {
    World([Current(name, true, [], [])], files[name := []], 0, 0, None, map[0 := Thread(Do(AddEntry(a)), Ready)], [],
          1, 0, 0)
  }

  lemma OpenedReached(c: Limits, files: map<string, bytes>, a: Item, name: string)
    requires Proper(a)
    ensures Reached(c, Opened(files, a, name))
  {
    ToldReached(c, files, a);
    Then(c, Told(files, a), Save(0));
    var w := Next(c, Told(files, a), Save(0));
    Then(c, w, Make(0, 0, Some(name)));
    assert Next(c, w, Make(0, 0, Some(name))) == Opened(files, a, name);
  }

  // ----- An entry that comes too late -----

  /** It has looked up the writer, and a second call has begun. */
  function Holding(files: map<string, bytes>, a: Item, b: Item, name: string): World {
    Opened(files, a, name).(calls := map[0 := Thread(Do(AddEntry(a)), Looked(0)), 1 := Thread(Do(AddEntry(b)), Begun)])
  }

  lemma HoldingReached(c: Limits, files: map<string, bytes>, a: Item, b: Item, name: string)
    requires Proper(a) && Proper(b)
    ensures Reached(c, Holding(files, a, b, name))
  {
    OpenedReached(c, files, a, name);
    Then(c, Opened(files, a, name), LookUp(0));
    var w := Next(c, Opened(files, a, name), LookUp(0));
    Then(c, w, Call(1, Do(AddEntry(b))));
    assert Next(c, w, Call(1, Do(AddEntry(b)))) == Holding(files, a, b, name);
  }

  /** The second entry does not fit, so that its call is going to rotate. */
  lemma OvertakingReached(c: Limits, files: map<string, bytes>, a: Item, b: Item, name: string) returns (w: World)
    requires Proper(a) && Proper(b) && b.Good? && 0 < c.maxBytes < Size(b) < TWO_64
    ensures Reached(c, w) && w.writers == [Current(name, true, [], [])] && w.holder.None?
    ensures w.calls == map[0 := Thread(Do(AddEntry(a)), Looked(0)), 1 := Thread(Do(AddEntry(b)), Due(1))]
  {
    HoldingReached(c, files, a, b, name);
    Then(c, Holding(files, a, b, name), Judge(1, 0));
    w := Next(c, Holding(files, a, b, name), Judge(1, 0));
  }

  /**
   * A loss from the start, for every limit on bytes and every second entry beyond it: the first entry is accepted, and
   * its writer, which has been closed, has not written it. By LateIsLost it never reaches a file.
   */
  lemma EntryIsLost(c: Limits, files: map<string, bytes>, a: Item, b: Item, name: string,
                    next: string) returns (w: World)
    requires Proper(a) && Proper(b) && b.Good? && 0 < c.maxBytes < Size(b) < TWO_64
    ensures Reached(c, w) && 0 in w.calls && w.calls[0] == Thread(Do(AddEntry(a)), Back(true))
    ensures w.history != [] && w.history[|w.history| - 1] == Put(0, true, a) && Lost(w, |w.history| - 1)
    ensures !NothingLate(w.history)
  {
    var v := OvertakingReached(c, files, a, b, name);
    ThenRolled(c, v, 1, next);
    LateHappens(c, v, 0, 1, next);
    var u := RolledTo(c, v, 1, next);
    Then(c, u, Use(0));
    w := Next(c, u, Use(0));
  }

  // ----- A file too many -----

  /** Two more calls have begun. */
  function Crowded(files: map<string, bytes>, a: Item, b: Item, d: Item, name: string): World {
    Opened(files, a, name).(calls := map[0 := Thread(Do(AddEntry(a)), Ready), 1 := Thread(Do(AddEntry(b)), Begun),
                                         2 := Thread(Do(AddEntry(d)), Begun)])
  }

  lemma CrowdedReached(c: Limits, files: map<string, bytes>, a: Item, b: Item, d: Item, name: string)
    requires Proper(a) && Proper(b) && Proper(d)
    ensures Reached(c, Crowded(files, a, b, d, name))
  {
    OpenedReached(c, files, a, name);
    Then(c, Opened(files, a, name), Call(1, Do(AddEntry(b))));
    var w := Next(c, Opened(files, a, name), Call(1, Do(AddEntry(b))));
    Then(c, w, Call(2, Do(AddEntry(d))));
    assert Next(c, w, Call(2, Do(AddEntry(d)))) == Crowded(files, a, b, d, name);
  }

  lemma ThenJudged(c: Limits, w: World, i: nat, j: nat)
    requires Reached(c, w) && BothOver(c, w, i, j)
    ensures Reached(c, BothJudged(c, w, i, j))
  {
    Then(c, w, Judge(i, 0));
    Then(c, Next(c, w, Judge(i, 0)), Judge(j, 0));
  }

  /** Two rotations one after the other. */
  lemma ThenTwice(c: Limits, w: World, i: nat, j: nat, first: string, second: string)
    requires Reached(c, w) && i != j && w.holder.None? && w.writers != []
    requires i in w.calls && w.calls[i].pc.Due? && w.calls[i].req.Do?
    requires j in w.calls && w.calls[j].pc.Due? && w.calls[j].req.Do?
    requires var x := w.writers[|w.writers| - 1]; x.open && AllGood(x.entries) && AllGood(x.pages)
    ensures Reached(c, RolledTo(c, RolledTo(c, w, i, first), j, second))
  {
    ThenRolled(c, w, i, first);
    ThenRolled(c, RolledTo(c, w, i, first), j, second);
  }

  lemma CrowdedOver(c: Limits, files: map<string, bytes>, a: Item, b: Item, d: Item, name: string)
    requires b.Good? && d.Good? && 0 < c.maxBytes < Size(b) && Size(b) + Size(d) < TWO_64
    ensures BothOver(c, Crowded(files, a, b, d, name), 1, 2)
    ensures AddedSize(Crowded(files, a, b, d, name).calls[1].req.op) == Size(b)
    ensures AddedSize(Crowded(files, a, b, d, name).calls[2].req.op) == Size(d)
  {
  }

  /**
   * The packing bound broken from the start: with an entry just beyond the limit and another one that fits, three
   * files are made although only one was full, and the charges do not pay for two.
   */
  lemma FileTooMany(c: Limits, files: map<string, bytes>, a: Item, b: Item, d: Item, name: string, first: string,
                    second: string)
    returns (w: World)
    requires Proper(a) && Proper(b) && Proper(d) && b.Good? && d.Good?
    requires 0 < c.maxBytes && Size(b) == c.maxBytes + 1 && Size(d) <= c.maxBytes && Size(b) + Size(d) < TWO_64
    ensures Reached(c, w) && |w.writers| == 3 && w.stale == 1 && w.writers[1] == Current(first, false, [], [])
    ensures 2 * (c.maxBytes + 1) > w.charged
  {
    var v := Crowded(files, a, b, d, name);
    CrowdedReached(c, files, a, b, d, name);
    CrowdedOver(c, files, a, b, d, name);
    ThenJudged(c, v, 1, 2);
    ThenTwice(c, BothJudged(c, v, 1, 2), 1, 2, first, second);
    SecondRotationIsStale(c, v, 1, 2, first, second);
    w := BothRotate(c, v, 1, 2, first, second);
  }

  // ----- No name for the next file -----

  lemma FirstAccepted(c: Limits, s: Rotation, a: Item, name: string)
    requires Fresh(s)
    ensures var (t, ok) := Perform(c, s, AddEntry(a), Env(0, 0, Some(name)));
            ok && t.cur == Some(Current(name, true, [a], [])) && t.currentBytes == 0
  {
    assert [] + [a] == [a];
  }

  lemma SecondAbandons(c: Limits, s: Rotation, b: Item)
    requires s.cur.Some? && s.cur.value.open && AllGood(s.cur.value.entries) && AllGood(s.cur.value.pages)
    requires s.currentBytes == 0 && b.Good? && 0 < c.maxBytes < Size(b) < TWO_64
    ensures Abandons(c, s, Turn(AddEntry(b), Env(0, 0, None)))
    ensures var (t, ok) := Perform(c, s, AddEntry(b), Env(0, 0, None)); !ok && Dead(t) && t.currentBytes == 0
  {
  }

  lemma ThirdAccepted(c: Limits, s: Rotation, d: Item)
    requires Dead(s) && s.currentBytes == 0 && d.Good? && Size(d) <= c.maxBytes && 0 < c.maxBytes && c.maxDuration <= 0
    ensures Takes(c, s, Turn(AddEntry(d), Env(0, 0, None)))
  {
  }

  lemma OneTurnMore(c: Limits, start: Rotation, turns: seq<Turn>, turn: Turn)
    ensures Run(c, start, turns + [turn]).state == Perform(c, Run(c, start, turns).state, turn.op, turn.env).0
    ensures Accepted(c, start, turns + [turn], true)
            == if Takes(c, Run(c, start, turns).state, turn) then After(Accepted(c, start, turns, true), turn.op, true)
               else Accepted(c, start, turns, true)
    ensures Abandoned(c, start, turns + [turn])
            == (Abandoned(c, start, turns) || Abandons(c, Run(c, start, turns).state, turn))
    ensures TakenTooLate(c, start, turns + [turn])
            == (|| TakenTooLate(c, start, turns)
                || (Abandoned(c, start, turns) && Takes(c, Run(c, start, turns).state, turn)))
  {
    assert (turns + [turn])[..|turns|] == turns;
  }

  lemma AfterOne(c: Limits, start: Rotation, a: Item, name: string, t1: Turn)
    requires Fresh(start) && a.Good? && t1 == Turn(AddEntry(a), Env(0, 0, Some(name)))
    ensures var s := Run(c, start, [t1]).state; s.cur == Some(Current(name, true, [a], [])) && s.currentBytes == 0
    ensures !Abandoned(c, start, [t1]) && Accepted(c, start, [t1], true) == [a]
  {
    FirstAccepted(c, start, a, name);
    OneTurnMore(c, start, [], t1);
    assert [] + [t1] == [t1] && After([], t1.op, true) == [a];
  }

  lemma AfterTwo(c: Limits, start: Rotation, a: Item, b: Item, name: string, t1: Turn, t2: Turn)
    requires Fresh(start) && a.Good? && b.Good? && 0 < c.maxBytes < Size(b) < TWO_64
    requires t1 == Turn(AddEntry(a), Env(0, 0, Some(name))) && t2 == Turn(AddEntry(b), Env(0, 0, None))
    ensures var s := Run(c, start, [t1, t2]).state; Dead(s) && s.currentBytes == 0
    ensures Abandoned(c, start, [t1, t2]) && Accepted(c, start, [t1, t2], true) == [a]
  {
    AfterOne(c, start, a, name, t1);
    SecondAbandons(c, Run(c, start, [t1]).state, b);
    OneTurnMore(c, start, [t1], t2);
    assert [t1] + [t2] == [t1, t2];
  }

  /**
   * A run from the start without overlapping calls: the second entry does not fit and there is no name for the next
   * file, so its call fails; the third one fits and is accepted, too late.
   */
  lemma AcceptedTooLate(c: Limits, start: Rotation, a: Item, b: Item, d: Item, name: string) returns (turns: seq<Turn>)
    requires Fresh(start) && c.maxDuration <= 0 && a.Good? && b.Good? && d.Good?
    requires 0 < c.maxBytes && Size(d) <= c.maxBytes < Size(b) < TWO_64
    ensures |turns| == 3 && turns[0].op == AddEntry(a) && turns[1].op == AddEntry(b) && turns[2].op == AddEntry(d)
    ensures TakenTooLate(c, start, turns) && Accepted(c, start, turns, true) == [a, d]
  {
    var t1, t2 := Turn(AddEntry(a), Env(0, 0, Some(name))), Turn(AddEntry(b), Env(0, 0, None));
    var t3 := Turn(AddEntry(d), Env(0, 0, None));
    AfterTwo(c, start, a, b, name, t1, t2);
    ThirdAccepted(c, Run(c, start, [t1, t2]).state, d);
    OneTurnMore(c, start, [t1, t2], t3);
    turns := [t1, t2] + [t3];
    assert [a] + [d] == [a, d];
  }
}
