/**
 * Runs of the checkpoint receiver on a disk that may fail at any operation: a Close that returns nil tells the truth.
 */
module CheckpointDisk {
  import opened Common
  import opened Archives
  import opened HarFile
  import opened Checkpoint
  import opened CheckpointRuns
  import FileNames

  /** A turn with its result, and the name of the writer it has made. */
  datatype Done = Done(turn: Turn, ok: bool, made: Option<string>)

  ghost predicate DiskRun(c: Limits, scenes: seq<Scene>, dones: seq<Done>) {
    && |scenes| == |dones| + 1 && scenes[0].cur.None?
    && forall i | 0 <= i < |dones| ::
         Performs(c, scenes[i], dones[i].turn.op, dones[i].turn.env, dones[i].ok, dones[i].made, scenes[i + 1])
  }

  /** The names of the writers made, in order. */
  function MadeNames(dones: seq<Done>): seq<string> {
    if dones == [] then []
    else
      var made := dones[|dones| - 1].made;
      if made.None? then MadeNames(dones[..|dones| - 1]) else MadeNames(dones[..|dones| - 1]) + [made.value]
  }

  /** The entries (or pages) whose call returned nil, in order. */
  function AcceptedOf(dones: seq<Done>, entries: bool): seq<Item> {
    if dones == [] then []
    else
      var last := dones[|dones| - 1];
      var items := AcceptedOf(dones[..|dones| - 1], entries);
      if last.ok then After(items, last.turn.op, entries) else items
  }

  predicate ProperDones(dones: seq<Done>) {
    forall i | 0 <= i < |dones| && !dones[i].turn.op.DoFlush? :: Proper(dones[i].turn.op.item)
  }

  /** The parts of a run so far: what was made, what was accepted, and what went into the files that are closed. */
  datatype Parts = Parts(names: seq<string>, entries: seq<Item>, pages: seq<Item>,
                         filedEntries: seq<seq<Item>>, filedPages: seq<seq<Item>>)

  const NO_PARTS := Parts([], [], [], [], [])

  predicate Shelved(c: Limits, files: map<string, bytes>, p: Parts) {
    && |p.filedEntries| == |p.filedPages| <= |p.names|
    && (forall i | 0 <= i < |p.filedEntries| :: GoodItems(p.filedEntries[i]) && GoodItems(p.filedPages[i]))
    && (FileNames.Distinct(p.names) ==>
          forall i | 0 <= i < |p.filedEntries| ::
            FileOf(files, p.names[i]) == Some(Document(c.version, p.filedEntries[i], p.filedPages[i])))
  }

  /** As long as the current writer is open nothing has been lost. Without one there was nothing to lose. */
  predicate Safe(c: Limits, a: Scene, p: Parts) {
    match a.cur
    case None => p == NO_PARTS
    case Some(x) =>
      var s := x.session;
      s.open ==>
        && Shelved(c, a.files, p)
        && |p.names| == |p.filedEntries| + 1 && x.name == p.names[|p.filedEntries|]
        && s.version == c.version && AllProper(s.entries) && AllProper(s.pages)
        && p.entries == Concat(p.filedEntries) + s.entries && p.pages == Concat(p.filedPages) + s.pages
  }

  /** A write of the current file keeps the others. */
  lemma ShelvedStays(c: Limits, a: Scene, b: Scene, p: Parts)
    requires a.cur.Some? && SameWriter(a, b) && Shelved(c, a.files, p)
    requires |p.names| == |p.filedEntries| + 1 && a.cur.value.name == p.names[|p.filedEntries|]
    ensures Shelved(c, b.files, p)
  {
    if FileNames.Distinct(p.names) {
      assert forall i | 0 <= i < |p.filedEntries| :: p.names[i] != p.names[|p.filedEntries|];
    }
  }

  lemma FlushSafe(c: Limits, a: Scene, ok: bool, b: Scene, p: Parts)
    requires a.cur.Some? && Safe(c, a, p) && Flushes(a, ok, b)
    ensures Safe(c, b, p)
  {
    if b.cur.value.session.open {
      ShelvedStays(c, a, b, p);
    }
  }

  lemma FailedCloseSafe(c: Limits, a: Scene, b: Scene, p: Parts)
    requires Safe(c, a, p) && Closes(a, false, b)
    ensures Safe(c, b, p)
  {
    if b.cur.value.session.open {
      ShelvedStays(c, a, b, p);
    }
  }

  /** A Close that returns nil has put the current items into the file, after all those before. */
  function Filed(a: Scene, p: Parts): Parts {
    match a.cur
    case None => p
    case Some(x) => p.(filedEntries := p.filedEntries + [x.session.entries],
                       filedPages := p.filedPages + [x.session.pages])
  }

  lemma CloseSafe(c: Limits, a: Scene, u: Scene, p: Parts)
    requires Safe(c, a, p) && Closes(a, true, u)
    ensures var q := Filed(a, p);
            && Shelved(c, u.files, q) && |q.names| == |q.filedEntries|
            && p.entries == Concat(q.filedEntries) && p.pages == Concat(q.filedPages)
            && (u.cur.Some? ==> !u.cur.value.session.open)
  {
    if a.cur.Some? {
      var s := a.cur.value.session;
      ShelvedStays(c, a, u, p);
      ConcatAppend(p.filedEntries, s.entries);
      ConcatAppend(p.filedPages, s.pages);
      assert u.cur.value.session.content == Document(c.version, s.entries, s.pages);
    }
  }

  lemma ShelvedMore(c: Limits, files: map<string, bytes>, p: Parts, name: string)
    requires Shelved(c, files, p) && |p.names| == |p.filedEntries|
    ensures Shelved(c, files[name := []], p.(names := p.names + [name]))
  {
    var more := p.names + [name];
    if FileNames.Distinct(more) {
      FewerNames(p.names, [name]);
      forall i | 0 <= i < |p.filedEntries|
        ensures FileOf(files[name := []], more[i]) == Some(Document(c.version, p.filedEntries[i], p.filedPages[i]))
      {
        assert more[i] == p.names[i] && more[|p.names|] == name && more[i] != more[|p.names|];
      }
    }
  }

  lemma RenewSafe(c: Limits, a: Scene, u: Scene, env: Env, ok: bool, made: Option<string>, b: Scene, p: Parts)
    requires Safe(c, a, p) && Closes(a, true, u) && Renews(c, u, env, ok, made, b)
    ensures var q := if made.None? then Filed(a, p) else Filed(a, p).(names := p.names + [made.value]);
            Safe(c, b, q) && q.entries == p.entries && q.pages == p.pages
  {
    CloseSafe(c, a, u, p);
    if made.Some? {
      ShelvedMore(c, u.files, Filed(a, p), made.value);
      assert Concat(Filed(a, p).filedEntries) + [] == p.entries && Concat(Filed(a, p).filedPages) + [] == p.pages;
    }
  }

  /** What the parts of a run become in a step before its item is put. */
  predicate Next(p: Parts, made: Option<string>, q: Parts) {
    && q.names == (if made.None? then p.names else p.names + [made.value])
    && q.entries == p.entries && q.pages == p.pages
  }

  lemma PrepareSafe(c: Limits, a: Scene, add: Option<Item>, env: Env, ok: bool, made: Option<string>, b: Scene,
                    p: Parts)
    returns (q: Parts)
    requires Safe(c, a, p) && Prepares(c, a, add, env, ok, made, b)
    ensures Safe(c, b, q) && Next(p, made, q)
  {
    q := p;
    var (verdict, bytes) := Judge(c, a.cur.Some?, a.currentBytes, a.lastRoll, add, env.now);
    if verdict == Rotate {
      var a' := a.(currentBytes := bytes);
      if !ok && made.None? && Closes(a', false, b) {
        FailedCloseSafe(c, a', b, p);
      } else {
        var u :| Closes(a', true, u) && Renews(c, u, env, ok, made, b);
        RenewSafe(c, a', u, env, ok, made, b, p);
        q := if made.None? then Filed(a', p) else Filed(a', p).(names := p.names + [made.value]);
      }
    }
  }

  function Taken(p: Parts, op: Op): Parts {
    p.(entries := After(p.entries, op, true), pages := After(p.pages, op, false))
  }

  lemma ApplySafe(c: Limits, a: Scene, op: Op, ok: bool, b: Scene, p: Parts)
    requires Safe(c, a, p) && Applies(a, op, ok, b) && (!op.DoFlush? ==> Proper(op.item))
    ensures Safe(c, b, if ok then Taken(p, op) else p)
  {
    if op.DoFlush? {
      FlushSafe(c, a, ok, b, p);
    } else if a.cur.value.session.open {
      var s := a.cur.value.session;
      AllProperAfter(s.entries, op, true);
      AllProperAfter(s.pages, op, false);
      AfterConcat(Concat(p.filedEntries), s.entries, op, true);
      AfterConcat(Concat(p.filedPages), s.pages, op, false);
    }
  }

  lemma PerformSafe(c: Limits, a: Scene, done: Done, b: Scene, p: Parts) returns (q: Parts)
    requires Safe(c, a, p) && Performs(c, a, done.turn.op, done.turn.env, done.ok, done.made, b)
    requires !done.turn.op.DoFlush? ==> Proper(done.turn.op.item)
    ensures Safe(c, b, q) && Next(if done.ok then Taken(p, done.turn.op) else p, done.made, q)
  {
    var op, env := done.turn.op, done.turn.env;
    if !done.ok && Prepares(c, a, Added(op), env, false, done.made, b) {
      q := PrepareSafe(c, a, Added(op), env, false, done.made, b, p);
    } else {
      var u :| Prepares(c, a, Added(op), env, true, done.made, u) && Applies(u, op, done.ok, b);
      q := PrepareSafe(c, a, Added(op), env, true, done.made, u, p);
      ApplySafe(c, u, op, done.ok, b, q);
      q := if done.ok then Taken(q, op) else q;
    }
  }

  lemma {:induction false} RunSafe(c: Limits, scenes: seq<Scene>, dones: seq<Done>) returns (p: Parts)
    requires DiskRun(c, scenes, dones) && ProperDones(dones)
    ensures Safe(c, scenes[|dones|], p)
    ensures p.names == MadeNames(dones) && p.entries == AcceptedOf(dones, true) && p.pages == AcceptedOf(dones, false)
  {
    if dones == [] {
      p := NO_PARTS;
    } else {
      var n := |dones| - 1;
      p := RunSafe(c, scenes[..|dones|], dones[..n]);
      p := PerformSafe(c, scenes[n], dones[n], scenes[n + 1], p);
    }
  }

  lemma ShelvesRead(c: Limits, files: map<string, bytes>, p: Parts)
    requires Shelved(c, files, p) && FileNames.Distinct(p.names) && |p.names| == |p.filedEntries|
    ensures forall i | 0 <= i < |p.names| :: p.names[i] in files
    ensures var all := FilesOf(p.names, files);
            && (forall i | 0 <= i < |all| :: ReadArchive(all[i]).Some?)
            && EntriesIn(all) == p.filedEntries && PagesIn(all) == p.filedPages
  {
    forall i | 0 <= i < |p.names|
      ensures p.names[i] in files && ReadArchive(files[p.names[i]]).Some?
      ensures FileEntries(files[p.names[i]]) == p.filedEntries[i] && FilePages(files[p.names[i]]) == p.filedPages[i]
    {
      assert FileOf(files, p.names[i]) == Some(Document(c.version, p.filedEntries[i], p.filedPages[i]));
      ReadDocument(c.version, p.filedEntries[i], p.filedPages[i]);
    }
  }

  /**
   * A Close that returns nil tells the truth, whatever the disk and the generator did before: all files made are
   * whole archives, and in the order in which they were made they hold exactly the accepted entries and exactly the
   * accepted pages, each once and in order.
   */
  lemma CloseTellsTheTruth(c: Limits, scenes: seq<Scene>, dones: seq<Done>, t: Scene)
    requires DiskRun(c, scenes, dones) && ProperDones(dones) && FileNames.Distinct(MadeNames(dones))
    requires Closes(scenes[|dones|], true, t)
    ensures var names := MadeNames(dones);
            && (forall i | 0 <= i < |names| :: names[i] in t.files)
            && var files := FilesOf(names, t.files);
               && (forall i | 0 <= i < |files| :: ReadArchive(files[i]).Some?)
               && Concat(EntriesIn(files)) == AcceptedOf(dones, true)
               && Concat(PagesIn(files)) == AcceptedOf(dones, false)
  {
    var p := RunSafe(c, scenes, dones);
    CloseSafe(c, scenes[|dones|], t, p);
    ShelvesRead(c, t.files, Filed(scenes[|dones|], p));
  }

  // ----- When the disk does not fail -----

  /** A writer is made exactly when a turn rotates and gets a name. */
  lemma MadeSteadily(c: Limits, a: Scene, turn: Turn, ok: bool, made: Option<string>, b: Scene)
    requires Steady(c, a) && Prepares(c, a, Added(turn.op), turn.env, ok, made, b)
    ensures made == if Rotates(c, Simple(a), turn) then turn.env.next else None
  {
    var (verdict, bytes) := Judge(c, a.cur.Some?, a.currentBytes, a.lastRoll, Added(turn.op), turn.env.now);
    if verdict == Rotate {
      var a' := a.(currentBytes := bytes);
      if !ok && made.None? && Closes(a', false, b) {
        ClosesSteadily(c, a', false, b);
      } else {
        var u :| Closes(a', true, u) && Renews(c, u, turn.env, ok, made, b);
        ClosesSteadily(c, a', true, u);
      }
    }
  }

  lemma PerformMade(c: Limits, a: Scene, done: Done, b: Scene)
    requires Steady(c, a) && Performs(c, a, done.turn.op, done.turn.env, done.ok, done.made, b)
    ensures done.made == if Rotates(c, Simple(a), done.turn) then done.turn.env.next else None
  {
    var op, env := done.turn.op, done.turn.env;
    if !done.ok && Prepares(c, a, Added(op), env, false, done.made, b) {
      MadeSteadily(c, a, done.turn, false, done.made, b);
    } else {
      var u :| Prepares(c, a, Added(op), env, true, done.made, u) && Applies(u, op, done.ok, b);
      MadeSteadily(c, a, done.turn, true, done.made, u);
    }
  }

  function TurnsOf(dones: seq<Done>): seq<Turn> {
    seq(|dones|, i requires 0 <= i < |dones| => dones[i].turn)
  }

  /** Then a run of the receiver is the run of the functions: the state, the names and what is accepted. */
  lemma {:induction false} RunsSteadily(c: Limits, scenes: seq<Scene>, dones: seq<Done>)
    requires DiskRun(c, scenes, dones) && Steady(c, scenes[0])
    ensures var n, start, turns := |dones|, Simple(scenes[0]), TurnsOf(dones);
            && Steady(c, scenes[n]) && Simple(scenes[n]) == Run(c, start, turns).state
            && MadeNames(dones) == Run(c, start, turns).names
            && AcceptedOf(dones, true) == Accepted(c, start, turns, true)
            && AcceptedOf(dones, false) == Accepted(c, start, turns, false)
  {
    if dones != [] {
      var n := |dones| - 1;
      RunsSteadily(c, scenes[..|dones|], dones[..n]);
      assert TurnsOf(dones)[..n] == TurnsOf(dones[..n]);
      StepSteadily(c, scenes[n], dones[n], scenes[n + 1], Run(c, Simple(scenes[0]), TurnsOf(dones[..n])));
    }
  }

  lemma StepSteadily(c: Limits, a: Scene, done: Done, b: Scene, l: Ledger)
    requires Steady(c, a) && Performs(c, a, done.turn.op, done.turn.env, done.ok, done.made, b) && l.state == Simple(a)
    ensures Steady(c, b) && Record(c, l, done.turn).state == Simple(b)
    ensures Record(c, l, done.turn).names == l.names + if done.made.Some? then [done.made.value] else []
    ensures !done.turn.op.DoFlush? ==> done.ok == Takes(c, l.state, done.turn)
  {
    PerformsSteadily(c, a, done.turn.op, done.turn.env, done.ok, done.made, b);
    PerformMade(c, a, done, b);
    assert l.names + [] == l.names;
  }

  /** So on a disk that does not fail ConservedIff speaks of the receiver. */
  lemma ConservedOnDisk(c: Limits, scenes: seq<Scene>, dones: seq<Done>, ok: bool, t: Scene)
    requires DiskRun(c, scenes, dones) && ProperDones(dones) && FileNames.Distinct(MadeNames(dones))
    requires scenes[0].calm && scenes[0].currentBytes == 0 && Closes(scenes[|dones|], ok, t)
    ensures var names, start, turns := MadeNames(dones), Simple(scenes[0]), TurnsOf(dones);
            && (ok <==> AcceptedMarshals(c, start, turns) && !Abandoned(c, start, turns))
            && (forall i | 0 <= i < |names| :: names[i] in t.files)
            && var files := FilesOf(names, t.files);
               (Concat(EntriesIn(files)) == AcceptedOf(dones, true)
                && Concat(PagesIn(files)) == AcceptedOf(dones, false)
                <==> AcceptedMarshals(c, start, turns) && !TakenTooLate(c, start, turns))
  {
    RunsSteadily(c, scenes, dones);
    ClosesSteadily(c, scenes[|dones|], ok, t);
    ConservedIff(c, Simple(scenes[0]), TurnsOf(dones));
  }
}
