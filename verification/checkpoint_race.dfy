/** The checkpoint receiver used by many goroutines at once: every interleaving of its critical sections. */
module CheckpointRace {
  import opened Common
  import opened Archives
  import opened HarFile
  import opened Checkpoint
  import opened CheckpointRuns
  import opened Histories

  /** What a goroutine calls: Entry, Page or Flush, or Close. */
  datatype Request = Do(op: Op) | Shut

  /**
   * Where a call is: not begun; told to rotate, when so many rotations had been made; in the middle of closing the
   * current file, which has been written; about to make the next file; about to look up the current writer; with
   * a writer in hand; or back. From Flushed until it is back or Ready a call holds the receiver's mutex.
   */
  datatype Pc =
    | Begun | Due(since: nat) | Flushed(since: nat) | Disposed(since: nat) | Ready | Looked(k: nat) | Back(ok: bool)

  datatype Thread = Thread(req: Request, pc: Pc)

  /**
   * All writers ever made, the last being the current one, and the state of the receiver. The last three say how many
   * rotations there were, how many of them made a further file although another rotation had come in between the
   * verdict and the rotation, and how many bytes have been charged in all.
   */
  datatype World = World(writers: seq<Current>, files: map<string, bytes>, currentBytes: uint64, lastRoll: int,
                         holder: Option<nat>, calls: map<nat, Thread>, history: seq<Event>,
                         resets: nat, stale: nat, charged: nat)

  datatype Action =
    | Call(i: nat, req: Request)
    | Judge(i: nat, now: int)
    | Save(i: nat)
    | Dispose(i: nat)
    | Make(i: nat, rollAt: int, next: Option<string>)
    | LookUp(i: nat)
    | Use(i: nat)

  /** The receiver as a call sees it that nobody interrupts. */
  function View(w: World): Rotation {
    Rotation(w.files, if w.writers == [] then None else Some(w.writers[|w.writers| - 1]), w.currentBytes, w.lastRoll)
  }

  predicate Enabled(w: World, a: Action) {
    match a
    case Call(i, _) => i !in w.calls
    case Judge(i, _) => i in w.calls && w.calls[i].pc.Begun? && w.calls[i].req.Do? && w.holder.None?
    case Save(i) =>
      && i in w.calls && w.holder.None?
      && (w.calls[i].pc.Due? || (w.calls[i].pc.Begun? && w.calls[i].req.Shut?))
    case Dispose(i) => i in w.calls && w.calls[i].pc.Flushed? && w.writers != []
    case Make(i, _, _) => i in w.calls && w.calls[i].pc.Disposed?
    case LookUp(i) => i in w.calls && w.calls[i].pc.Ready? && w.writers != []
    case Use(i) => i in w.calls && w.calls[i].pc.Looked? && w.calls[i].req.Do? && w.calls[i].pc.k < |w.writers|
  }

  function Move(w: World, i: nat, pc: Pc): World
    requires i in w.calls
  {
    w.(calls := w.calls[i := w.calls[i].(pc := pc)])
  }

  /** shouldRotate, one critical section. */
  function Judged(c: Limits, w: World, i: nat, now: int): World
    requires Enabled(w, Judge(i, now))
  {
    var op := w.calls[i].req.op;
    var (verdict, bytes) := Decide(c, View(w), Added(op), now);
    var size := if w.writers != [] && c.maxBytes > 0 then AddedSize(op) else 0;
    Move(w.(currentBytes := bytes, charged := w.charged + size), i,
         match verdict case Refuse => Back(false) case Keep => Ready case Rotate => Due(w.resets))
  }

  /** HARFileReceiver.Flush, one critical section. A file that has been closed is not touched. */
  function Written(c: Limits, w: World, k: nat): (World, bool)
    requires k < |w.writers|
  {
    var (files, ok) := HarFile.Save(c.version, w.files, w.writers[k]);
    var event := if !w.writers[k].open then [] else if ok then [Wrote(k)] else [Emptied(k)];
    (w.(files := files, history := w.history + event), ok)
  }

  /**
   * The receiver's mutex is taken, in doRotate or in Close, and the current file is written. (Others may still put
   * items into its writer between the two, which amounts to the mutex being taken later.)
   */
  function Saved(c: Limits, w: World, i: nat): World
    requires Enabled(w, Save(i))
  {
    var shut := w.calls[i].req.Shut?;
    var since := if w.calls[i].pc.Due? then w.calls[i].pc.since else 0;
    if w.writers == [] then
      if shut then Move(w, i, Back(true)) else Move(w.(holder := Some(i)), i, Disposed(since))
    else
      var (u, ok) := Written(c, w, |w.writers| - 1);
      if ok then Move(u.(holder := Some(i)), i, Flushed(since)) else Move(u, i, Back(false))
  }

  /** The second critical section of HARFileReceiver.Close. */
  function Cleared(w: World, i: nat): World
    requires Enabled(w, Dispose(i))
  {
    var k := |w.writers| - 1;
    var u := w.(writers := w.writers[k := Current(w.writers[k].name, false, [], [])]);
    if w.calls[i].req.Shut? then Move(u.(holder := None), i, Back(true))
    else Move(u, i, Disposed(w.calls[i].pc.since))
  }

  /** The rest of doRotate. */
  function Made(w: World, i: nat, rollAt: int, next: Option<string>): World
    requires Enabled(w, Make(i, rollAt, next))
  {
    var u := w.(currentBytes := 0, lastRoll := rollAt, resets := w.resets + 1, holder := None);
    match next
    case None => Move(u, i, Back(false))
    case Some(name) =>
      var late := w.writers != [] && w.calls[i].pc.since != w.resets;
      Move(u.(writers := w.writers + [Current(name, true, [], [])], files := w.files[name := []],
              stale := w.stale + if late then 1 else 0), i, Ready)
  }

  /** Entry, Page or Flush of the writer that was looked up, one critical section. */
  function Used(c: Limits, w: World, i: nat): World
    requires Enabled(w, Use(i))
  {
    var k := w.calls[i].pc.k;
    var x := w.writers[k];
    match w.calls[i].req.op
    case AddEntry(item) =>
      Move(w.(writers := w.writers[k := x.(entries := x.entries + [item])],
              history := w.history + [Put(k, true, item)]), i, Back(true))
    case AddPage(item) =>
      Move(w.(writers := w.writers[k := x.(pages := x.pages + [item])],
              history := w.history + [Put(k, false, item)]), i, Back(true))
    case DoFlush =>
      var (u, ok) := Written(c, w, k);
      Move(u, i, Back(ok))
  }

  function Next(c: Limits, w: World, a: Action): World
    requires Enabled(w, a)
  {
    match a
    case Call(i, req) => w.(calls := w.calls[i := Thread(req, Begun)])
    case Judge(i, now) => Judged(c, w, i, now)
    case Save(i) => Saved(c, w, i)
    case Dispose(i) => Cleared(w, i)
    case Make(i, rollAt, next) => Made(w, i, rollAt, next)
    case LookUp(i) => Move(w, i, Looked(|w.writers| - 1))
    case Use(i) => Used(c, w, i)
  }

  /** A receiver that has been started, on a disk that may hold other files. */
  predicate Starting(w: World) {
    && w.writers == [] && w.currentBytes == 0 && w.holder.None? && w.calls == map[] && w.history == []
    && w.resets == w.stale == w.charged == 0
  }

  /** An interleaving: the worlds it goes through and the actions between them. */
  ghost predicate Interleaving(c: Limits, worlds: seq<World>, actions: seq<Action>) {
    && |worlds| == |actions| + 1 && Starting(worlds[0])
    && forall n | 0 <= n < |actions| :: Enabled(worlds[n], actions[n])
        && worlds[n + 1] == Next(c, worlds[n], actions[n])
  }

  // ----- One call alone -----

  /** All steps of a call in a row, with what they leave and what the call returns. */
  function Alone(c: Limits, w: World, i: nat, op: Op, env: Env): (World, bool)
    requires i !in w.calls && w.holder.None?
  {
    var judged := Next(c, Next(c, w, Call(i, Do(op))), Judge(i, env.now));
    var ready := if judged.calls[i].pc.Due? then Rolled(c, judged, i, env) else judged;
    if ready.calls[i].pc.Back? || ready.writers == [] then (ready, false)
    else
      var used := Next(c, Next(c, ready, LookUp(i)), Use(i));
      (used, used.calls[i].pc.ok)
  }

  /** doRotate */
  function Rolled(c: Limits, w: World, i: nat, env: Env): (u: World)
    requires Enabled(w, Save(i)) && w.calls[i].pc.Due? && w.calls[i].req.Do?
    ensures i in u.calls && u.calls[i].req == w.calls[i].req && (u.calls[i].pc.Ready? || u.calls[i].pc.Back?)
  {
    var saved := Next(c, w, Save(i));
    var disposed := if saved.calls[i].pc.Flushed? then Next(c, saved, Dispose(i)) else saved;
    if disposed.calls[i].pc.Disposed? then Next(c, disposed, Make(i, env.rollAt, env.next)) else disposed
  }

  /** A call that is told to rotate does so, from an open file whose items can be marshalled. */
  function RolledTo(c: Limits, w: World, i: nat, name: string): (u: World)
    requires i in w.calls && w.calls[i].pc.Due? && w.calls[i].req.Do? && w.holder.None? && w.writers != []
    requires var x := w.writers[|w.writers| - 1]; x.open && AllGood(x.entries) && AllGood(x.pages)
    ensures u.holder.None? && u.resets == w.resets + 1 && u.charged == w.charged
    ensures u.stale == w.stale + (if w.calls[i].pc.since != w.resets then 1 else 0)
    ensures |u.writers| == |w.writers| + 1 && u.writers[|w.writers|] == Current(name, true, [], [])
    ensures u.writers[|w.writers| - 1] == Current(w.writers[|w.writers| - 1].name, false, [], [])
    ensures u.calls == w.calls[i := w.calls[i].(pc := Ready)]
  {
    Rolled(c, w, i, Env(0, 0, Some(name)))
  }

  lemma RolledAlone(c: Limits, w: World, i: nat, env: Env)
    requires Enabled(w, Save(i)) && w.calls[i].pc.Due? && w.calls[i].req.Do?
    ensures var u := Rolled(c, w, i, env);
            && (View(u), u.calls[i].pc.Ready?) == Roll(c, View(w), env)
            && (u.calls[i].pc.Ready? ==> u.writers != [])
  {
  }

  lemma JudgedAlone(c: Limits, w: World, i: nat, op: Op, now: int)
    requires i !in w.calls && w.holder.None?
    ensures var u := Next(c, Next(c, w, Call(i, Do(op))), Judge(i, now));
            var (verdict, bytes) := Decide(c, View(w), Added(op), now);
            && View(u) == View(w).(currentBytes := bytes) && u.holder.None? && u.writers == w.writers
            && i in u.calls && u.calls[i].req == Do(op)
            && u.calls[i].pc == match verdict case Refuse => Back(false) case Keep => Ready case Rotate => Due(w.resets)
  {
  }

  lemma UsedAlone(c: Limits, w: World, i: nat)
    requires i in w.calls && w.calls[i].pc.Ready? && w.calls[i].req.Do? && w.writers != []
    ensures var used := Next(c, Next(c, w, LookUp(i)), Use(i));
            && used.calls[i].pc.Back?
            && (View(used), used.calls[i].pc.ok) == Apply(c, View(w), w.calls[i].req.op)
  {
  }

  /** A call that nobody interrupts does what it does as a whole. */
  lemma UninterruptedCall(c: Limits, w: World, i: nat, op: Op, env: Env)
    requires i !in w.calls && w.holder.None?
    ensures var (u, ok) := Alone(c, w, i, op, env);
            (View(u), ok) == Perform(c, View(w), op, env)
  {
    JudgedAlone(c, w, i, op, env.now);
    var judged := Next(c, Next(c, w, Call(i, Do(op))), Judge(i, env.now));
    match judged.calls[i].pc
    case Due(_) =>
      RolledAlone(c, judged, i, env);
      var ready := Rolled(c, judged, i, env);
      if ready.calls[i].pc.Ready? {
        UsedAlone(c, ready, i);
      }
    case Ready =>
      UsedAlone(c, judged, i);
    case Back(_) =>
    case _ =>
  }

  /** The same for Close. */
  lemma UninterruptedClose(c: Limits, w: World, i: nat)
    requires i !in w.calls && w.holder.None?
    ensures var saved := Next(c, Next(c, w, Call(i, Shut)), Save(i));
            var u := if saved.calls[i].pc.Flushed? then Next(c, saved, Dispose(i)) else saved;
            u.calls[i].pc.Back? && (View(u), u.calls[i].pc.ok) == CloseAll(c, View(w))
  {
  }
}
