/** HARFileReceiver used by many goroutines at once: Close gives up its lock between writing and clearing. */
module HarFileRace {
  import opened Common
  import opened Archives
  import opened HarFile
  import opened Histories

  /** The critical sections: Entry or Page, Flush, and the two of a Close. */
  datatype Action = Add(entry: bool, item: Item) | Flush | CloseFirst(i: nat) | CloseSecond(i: nat)

  /**
   * A started receiver and its file, and the calls of Close that have written the file but not yet cleared the lists.
   */
  datatype World = World(writer: Current, file: bytes, closing: set<nat>, history: seq<Event>)

  predicate Enabled(w: World, a: Action) {
    match a
    case CloseFirst(i) => i !in w.closing
    case CloseSecond(i) => i in w.closing
    case _ => true
  }

  /** HARFileReceiver.Flush, one critical section. A file that has been closed is not touched. */
  function Written(v: Version, w: World): (World, bool) {
    var (files, ok) := Save(v, map[w.writer.name := w.file], w.writer);
    var event := if !w.writer.open then [] else if ok then [Wrote(0)] else [Emptied(0)];
    (w.(file := files[w.writer.name], history := w.history + event), ok)
  }

  function Next(v: Version, w: World, a: Action): World
    requires Enabled(w, a)
  {
    var x := w.writer;
    match a
    case Add(entry, item) =>
      w.(writer := if entry then x.(entries := x.entries + [item]) else x.(pages := x.pages + [item]),
         history := w.history + [Put(0, entry, item)])
    case Flush => Written(v, w).0
    case CloseFirst(i) => var (u, ok) := Written(v, w); if ok then u.(closing := u.closing + {i}) else u
    case CloseSecond(i) => w.(writer := Current(x.name, false, [], []), closing := w.closing - {i})
  }

  /** Close with nothing between its two sections is what it is for one caller. */
  lemma UninterruptedClose(v: Version, w: World, i: nat)
    requires i !in w.closing
    ensures var u := Next(v, w, CloseFirst(i));
            var ok := i in u.closing;
            var t := if ok then Next(v, u, CloseSecond(i)) else u;
            (map[w.writer.name := t.file], t.writer, ok) == Finish(v, map[w.writer.name := w.file], w.writer)
  {
    var files := map[w.writer.name := w.file];
    var (saved, ok) := Save(v, files, w.writer);
    assert saved == map[w.writer.name := saved[w.writer.name]];
  }

  /** An interleaving, from right after Start. */
  ghost predicate Interleaving(v: Version, worlds: seq<World>, actions: seq<Action>) {
    && |worlds| == |actions| + 1 && worlds[0] == World(Current(worlds[0].writer.name, true, [], []), [], {}, [])
    && forall n | 0 <= n < |actions| :: Enabled(worlds[n], actions[n])
        && worlds[n + 1] == Next(v, worlds[n], actions[n])
  }

  predicate ProperAction(a: Action) {
    a.Add? ==> Proper(a.item)
  }

  ghost predicate ProperActions(actions: seq<Action>) {
    forall n | 0 <= n < |actions| :: ProperAction(actions[n])
  }

  /** An open receiver has kept everything. */
  ghost predicate Keeps(w: World) {
    && (w.writer.open ==>
          && w.writer.entries == Logged(w.history, 0, true)
          && w.writer.pages == Logged(w.history, 0, false))
    && (forall p | 0 <= p < |w.history| :: w.history[p].k == 0)
    && (forall p | 0 <= p < |w.history| && w.history[p].Put? :: Proper(w.history[p].item))
  }

  /** The file is the document of what was last written. */
  ghost predicate Inv(v: Version, w: World) {
    Keeps(w) && Holds(v, OnFile(w.history, 0), w.file)
  }

  lemma WrittenShape(v: Version, w: World)
    ensures var (u, ok) := Written(v, w);
            var x := w.writer;
            && u == w.(file := u.file, history := u.history)
            && (if x.open then
                  && ok == (AllGood(x.entries) && AllGood(x.pages))
                  && u.history == w.history + [if ok then Wrote(0) else Emptied(0)]
                  && u.file == (if ok then Document(v, x.entries, x.pages) else [])
                else !ok && u == w)
  {
    assert w.history + [] == w.history;
  }

  lemma WrittenHolds(v: Version, w: World)
    requires Inv(v, w)
    ensures Holds(v, OnFile(Written(v, w).0.history, 0), Written(v, w).0.file)
  {
    WrittenShape(v, w);
    if w.writer.open {
      OnFileMore(w.history, if Written(v, w).1 then Wrote(0) else Emptied(0), 0);
    }
  }

  lemma KeepsMore(w: World, u: World, e: Event)
    requires Keeps(w) && !e.Put? && e.k == 0 && u.writer == w.writer && u.history == w.history + [e]
    ensures Keeps(u)
  {
    LoggedMore(w.history, e, 0, true);
    LoggedMore(w.history, e, 0, false);
  }

  lemma WrittenInv(v: Version, w: World)
    requires Inv(v, w)
    ensures Inv(v, Written(v, w).0)
  {
    WrittenHolds(v, w);
    WrittenShape(v, w);
    if w.writer.open {
      KeepsMore(w, Written(v, w).0, if Written(v, w).1 then Wrote(0) else Emptied(0));
    }
  }

  lemma StepInv(v: Version, w: World, a: Action)
    requires Inv(v, w) && Enabled(w, a) && ProperAction(a)
    ensures Inv(v, Next(v, w, a))
  {
    match a
    case Add(entry, item) =>
      OnFileMore(w.history, Put(0, entry, item), 0);
      LoggedMore(w.history, Put(0, entry, item), 0, true);
      LoggedMore(w.history, Put(0, entry, item), 0, false);
    case CloseSecond(_) =>
    case _ => WrittenInv(v, w);
  }

  lemma {:induction false} InterleavingInv(v: Version, worlds: seq<World>, actions: seq<Action>)
    requires Interleaving(v, worlds, actions) && ProperActions(actions)
    ensures Keeps(worlds[|actions|])
    ensures Holds(v, OnFile(worlds[|actions|].history, 0), worlds[|actions|].file)
  {
    if actions != [] {
      var n := |actions| - 1;
      InterleavingInv(v, worlds[..|actions|], actions[..n]);
      StepInv(v, worlds[n], actions[n]);
    }
  }

  /**
   * In every interleaving the file is read as exactly the entries and pages handed over, in order, if and only if
   * none was handed over after the last write of the file, and that write succeeded.
   */
  lemma AllInFileIff(v: Version, worlds: seq<World>, actions: seq<Action>)
    requires Interleaving(v, worlds, actions) && ProperActions(actions)
    ensures var w := worlds[|actions|];
            FileEntries(w.file) == Puts(w.history, true) && FilePages(w.file) == Puts(w.history, false)
            <==> NothingLate(w.history)
  {
    InterleavingInv(v, worlds, actions);
    var w := worlds[|actions|];
    ReadHeld(v, w.history, 0, w.file);
    KeptAreAllIff(w.history, 1);
    OnePart(KeptAll(w.history, 1, true));
    OnePart(KeptAll(w.history, 1, false));
  }

  lemma OnePart(parts: seq<seq<Item>>)
    requires |parts| == 1
    ensures Concat(parts) == parts[0]
  {
    assert parts[1..] == [] && Concat(parts) == parts[0] + Concat(parts[1..]);
  }

  // ----- What comes between the two sections of Close -----

  /** An item is handed over before any Close has written the file, or not at all. */
  ghost predicate Careful(worlds: seq<World>, actions: seq<Action>) {
    forall n | 0 <= n < |actions| && n < |worlds| && actions[n].Add? :: worlds[n].writer.open && worlds[n].closing == {}
  }

  /** While a Close is under way, and after it, everything is in the file. */
  predicate SettledWhenClosing(w: World) {
    && (w.closing != {} || !w.writer.open ==> Settled(w.history, 0))
    && (w.closing != {} && w.writer.open ==> AllGood(w.writer.entries) && AllGood(w.writer.pages))
  }

  lemma CarefulStep(v: Version, w: World, a: Action)
    requires Inv(v, w) && SettledWhenClosing(w) && Enabled(w, a)
    requires a.Add? ==> w.writer.open && w.closing == {}
    ensures SettledWhenClosing(Next(v, w, a))
  {
    WrittenShape(v, w);
    SettledStep(w.history, Wrote(0), 0);
  }

  lemma {:induction false} CarefulRun(v: Version, worlds: seq<World>, actions: seq<Action>)
    requires Interleaving(v, worlds, actions) && ProperActions(actions) && Careful(worlds, actions)
    ensures SettledWhenClosing(worlds[|actions|])
  {
    if actions != [] {
      var n := |actions| - 1;
      CarefulRun(v, worlds[..|actions|], actions[..n]);
      InterleavingInv(v, worlds[..|actions|], actions[..n]);
      CarefulStep(v, worlds[n], actions[n]);
    }
  }

  /** So if nothing is handed over once a Close has written the file, a closed file has everything. */
  lemma CarefulLosesNothing(v: Version, worlds: seq<World>, actions: seq<Action>)
    requires Interleaving(v, worlds, actions) && ProperActions(actions) && Careful(worlds, actions)
    requires !worlds[|actions|].writer.open
    ensures var w := worlds[|actions|];
            FileEntries(w.file) == Puts(w.history, true) && FilePages(w.file) == Puts(w.history, false)
  {
    InterleavingInv(v, worlds, actions);
    CarefulRun(v, worlds, actions);
    CoveredIff(worlds[|actions|].history, 0);
    AllInFileIff(v, worlds, actions);
  }

  /** An item that a closed receiver has not written. */
  predicate Lost(w: World, p: nat) {
    p < |w.history| && w.history[p].Put? && w.history[p].k == 0 && !Covered(w.history, p) && !w.writer.open
  }

  lemma LostStep(v: Version, w: World, a: Action, p: nat)
    requires Lost(w, p) && Enabled(w, a)
    ensures Lost(Next(v, w, a), p)
  {
    WrittenShape(v, w);
    if a.Add? {
      CoveredMore(w.history, Put(0, a.entry, a.item), p);
    }
  }

  /** It stays lost, whatever is called then. */
  lemma {:induction false} LostForGood(v: Version, worlds: seq<World>, actions: seq<Action>, n: nat, p: nat)
    requires Interleaving(v, worlds, actions) && n <= |actions| && Lost(worlds[n], p)
    ensures Lost(worlds[|actions|], p)
  {
    if n < |actions| {
      var m := |actions| - 1;
      LostForGood(v, worlds[..|actions|], actions[..m], n, p);
      LostStep(v, worlds[m], actions[m], p);
    }
  }

  /**
   * And it does happen, from the start: an entry that arrives between the two sections of a Close is accepted, Close
   * returns nil, and the entry is lost.
   */
  lemma EntryWhileClosing(v: Version, name: string, item: Item) returns (worlds: seq<World>, actions: seq<Action>)
    ensures actions == [CloseFirst(0), Add(true, item), CloseSecond(0)] && Interleaving(v, worlds, actions)
    ensures worlds[1].closing == {0} && !worlds[3].writer.open && Lost(worlds[3], 1)
    ensures Puts(worlds[3].history, true) == [item] && !NothingLate(worlds[3].history)
  {
    var w0 := World(Current(name, true, [], []), [], {}, []);
    actions := [CloseFirst(0), Add(true, item), CloseSecond(0)];
    WrittenShape(v, w0);
    var w1 := Next(v, w0, CloseFirst(0));
    assert w1.history == [Wrote(0)] && w1.closing == {0};
    var w2 := Next(v, w1, Add(true, item));
    assert w2.history == [Wrote(0), Put(0, true, item)];
    var w3 := Next(v, w2, CloseSecond(0));
    worlds := [w0, w1, w2, w3];
    assert w3.history[..1] == [Wrote(0)] && w3.history[1] == Put(0, true, item);
    assert Puts([Wrote(0)], true) == [] && !Covered(w3.history, 1);
  }
}
