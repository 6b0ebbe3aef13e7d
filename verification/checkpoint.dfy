/** The checkpoint receiver: a new HAR file whenever the current one is full or old enough. */
module Checkpoint {
  import opened Common
  import opened Json
  import opened Archives
  import opened HarFile
  import Utf8

  datatype Limits = Limits(maxBytes: uint64, maxDuration: int64, version: Version)

  datatype Rotation = Rotation(files: map<string, bytes>, cur: Option<Current>, currentBytes: uint64, lastRoll: int)

  datatype Op = AddEntry(item: Item) | AddPage(item: Item) | DoFlush

  /**
   * What a call meets: the clock when the age is looked at, the clock when a rotation takes place, and what the
   * file name generator answers if it is asked (None is its error).
   */
  datatype Env = Env(now: int, rollAt: int, next: Option<string>)

  function Added(op: Op): Option<Item> {
    if op.DoFlush? then None else Some(op.item)
  }

  /** The length of json.Marshal's result. */
  function Size(item: Item): nat {
    match item
    case Good(j) => |Utf8.Encode(Print(j))|
    case Unmarshalable => 0
  }

  datatype Verdict = Rotate | Keep | Refuse

  /** shouldRotate, when there is a file or none, and what it leaves in currentBytes. */
  function Judge(c: Limits, file: bool, currentBytes: uint64, lastRoll: int, add: Option<Item>,
                 now: int): (r: (Verdict, uint64)) {
    var aged := c.maxDuration > 0 && Elapsed(lastRoll, now) > c.maxDuration;
    if !file then (Rotate, currentBytes)
    else if c.maxBytes > 0 && add.Some? then
      if add.value.Unmarshalable? then (Refuse, currentBytes)
      else
        var bytes := AddU64(currentBytes, Size(add.value));
        (if bytes > c.maxBytes || aged then Rotate else Keep, bytes)
    else (if aged then Rotate else Keep, currentBytes)
  }

  function Decide(c: Limits, s: Rotation, add: Option<Item>, now: int): (r: (Verdict, uint64)) {
    Judge(c, s.cur.Some?, s.currentBytes, s.lastRoll, add, now)
  }

  /** doRotate */
  function Roll(c: Limits, s: Rotation, env: Env): (r: (Rotation, bool)) {
    var (files, cur, closed) :=
      match s.cur
      case None => (s.files, None, true)
      case Some(w) => var (f, w', ok) := Finish(c.version, s.files, w); (f, Some(w'), ok);
    if !closed then (s.(files := files), false)
    else
      match env.next
      case None => (Rotation(files, cur, 0, env.rollAt), false)
      case Some(name) => (Rotation(files[name := []], Some(Current(name, true, [], [])), 0, env.rollAt), true)
  }

  /** rotateIfNeeded */
  function Prepare(c: Limits, s: Rotation, add: Option<Item>, env: Env): (r: (Rotation, bool)) {
    var (verdict, bytes) := Decide(c, s, add, env.now);
    match verdict
    case Refuse => (s, false)
    case Keep => (s.(currentBytes := bytes), true)
    case Rotate => Roll(c, s.(currentBytes := bytes), env)
  }

  /** The rest of Entry, Page and Flush, on the current file. */
  function Apply(c: Limits, s: Rotation, op: Op): (r: (Rotation, bool))
    requires s.cur.Some?
  {
    var w := s.cur.value;
    match op
    case AddEntry(item) => (s.(cur := Some(w.(entries := w.entries + [item]))), true)
    case AddPage(item) => (s.(cur := Some(w.(pages := w.pages + [item]))), true)
    case DoFlush => var (files, ok) := Save(c.version, s.files, w); (s.(files := files), ok)
  }

  /** One call from beginning to end; false is an error (which Page keeps to itself). */
  function Perform(c: Limits, s: Rotation, op: Op, env: Env): (r: (Rotation, bool)) {
    var (s', ok) := Prepare(c, s, Added(op), env);
    if ok && s'.cur.Some? then Apply(c, s', op) else (s', false)
  }

  function CloseAll(c: Limits, s: Rotation): (r: (Rotation, bool)) {
    match s.cur
    case None => (s, true)
    case Some(w) =>
      var (files, w', ok) := Finish(c.version, s.files, w);
      (s.(files := files, cur := Some(w')), ok)
  }

  // ----- On a disk that may fail -----

  /** The current writer: its file, and what can be told about it. A writer whose Start failed is not open. */
  datatype Slot = Slot(name: string, session: HarFile.Session)

  /** The receiver on any disk. It is calm when no operation is going to fail. */
  datatype Scene = Scene(files: map<string, bytes>, calm: bool, cur: Option<Slot>, currentBytes: uint64, lastRoll: int)

  function FileOf(files: map<string, bytes>, name: string): Option<bytes> {
    if name in files then Some(files[name]) else None
  }

  /** Only the current file may have changed; everything else is as it was. */
  predicate SameWriter(a: Scene, b: Scene) {
    && a.cur.Some? && b.cur.Some? && b.cur.value.name == a.cur.value.name
    && b == a.(files := b.files, calm := b.calm, cur := b.cur)
    && var name := a.cur.value.name;
       && (b.files == a.files || (name in b.files && b.files == a.files[name := b.files[name]]))
       && (if a.cur.value.session.open then FileOf(b.files, name) == Some(b.cur.value.session.content)
           else b.files == a.files)
       && (b.cur.value.session.reliable ==> b.calm)
  }

  ghost predicate Flushes(a: Scene, ok: bool, b: Scene) {
    SameWriter(a, b) && HarFile.Rewritten(a.cur.value.session, ok, b.cur.value.session)
  }

  /** Close, and the beginning of a rotation. */
  ghost predicate Closes(a: Scene, ok: bool, b: Scene) {
    if a.cur.None? then ok && b == a
    else SameWriter(a, b) && HarFile.Closed(a.cur.value.session, ok, b.cur.value.session)
  }

  /** The rest of doRotate: a new writer, unless there is no name for it; its file may turn out not to be creatable. */
  predicate Renews(c: Limits, a: Scene, env: Env, ok: bool, made: Option<string>, b: Scene) {
    && b.currentBytes == 0 && b.lastRoll == env.rollAt && made == env.next
    && match made
       case None => !ok && b.files == a.files && b.calm == a.calm && b.cur == a.cur
       case Some(name) =>
         && b.cur.Some? && b.cur.value.name == name
         && b.files == (if ok then a.files[name := []] else a.files)
         && b.cur.value.session == HarFile.Session(b.cur.value.session.content, ok, ok && b.calm, c.version, [], [])
         && (ok ==> b.cur.value.session.content == []) && (a.calm ==> ok && b.calm)
  }

  ghost predicate Rolls(c: Limits, a: Scene, env: Env, ok: bool, made: Option<string>, b: Scene) {
    || (!ok && made.None? && Closes(a, false, b))
    || (exists u :: Closes(a, true, u) && Renews(c, u, env, ok, made, b))
  }

  ghost predicate Prepares(c: Limits, a: Scene, add: Option<Item>, env: Env, ok: bool, made: Option<string>, b: Scene) {
    var (verdict, bytes) := Judge(c, a.cur.Some?, a.currentBytes, a.lastRoll, add, env.now);
    match verdict
    case Refuse => !ok && made.None? && b == a
    case Keep => ok && made.None? && b == a.(currentBytes := bytes)
    case Rotate => Rolls(c, a.(currentBytes := bytes), env, ok, made, b)
  }

  function WithItem(a: Scene, op: Op): Scene
    requires a.cur.Some? && !op.DoFlush?
  {
    var slot := a.cur.value;
    var s := slot.session;
    a.(cur := Some(slot.(session := if op.AddEntry? then s.(entries := s.entries + [op.item])
                                    else s.(pages := s.pages + [op.item]))))
  }

  ghost predicate Applies(a: Scene, op: Op, ok: bool, b: Scene) {
    && a.cur.Some?
    && if op.DoFlush? then Flushes(a, ok, b) else ok && b == WithItem(a, op)
  }

  /** One call from beginning to end, with its result and the name of the writer it has made, if any. */
  ghost predicate Performs(c: Limits, a: Scene, op: Op, env: Env, ok: bool, made: Option<string>, b: Scene) {
    || (!ok && Prepares(c, a, Added(op), env, false, made, b))
    || (exists u :: Prepares(c, a, Added(op), env, true, made, u) && Applies(u, op, ok, b))
  }

  // ----- Without failures -----

  /** No operation has failed or is going to fail. */
  predicate Steady(c: Limits, a: Scene) {
    && a.calm
    && (a.cur.Some? ==>
          && a.cur.value.session.reliable && a.cur.value.session.version == c.version
          && FileOf(a.files, a.cur.value.name) == Some(a.cur.value.session.content))
  }

  function Simple(a: Scene): Rotation {
    var cur := match a.cur
               case None => None
               case Some(x) => Some(Current(x.name, x.session.open, x.session.entries, x.session.pages));
    Rotation(a.files, cur, a.currentBytes, a.lastRoll)
  }

  lemma FlushesSteadily(c: Limits, a: Scene, ok: bool, b: Scene)
    requires Steady(c, a) && Flushes(a, ok, b)
    ensures Steady(c, b) && var (files, saved) := Save(c.version, a.files, Simple(a).cur.value);
            ok == saved && Simple(b) == Simple(a).(files := files)
  {
  }

  lemma ClosesSteadily(c: Limits, a: Scene, ok: bool, b: Scene)
    requires Steady(c, a) && Closes(a, ok, b)
    ensures Steady(c, b) && (Simple(b), ok) == CloseAll(c, Simple(a))
  {
    if a.cur.Some? {
      ClosedSession(a.cur.value.session, ok, b.cur.value.session);
      var w, t := a.cur.value, b.cur.value.session;
      if w.session.open {
        assert b.files == a.files[w.name := t.content];
      }
    }
  }

  /** What closing means for a session that nothing goes wrong in. */
  lemma ClosedSession(s: HarFile.Session, ok: bool, t: HarFile.Session)
    requires s.reliable && HarFile.Closed(s, ok, t)
    ensures t.reliable && t.version == s.version
    ensures ok == (s.open && s.Marshals())
    ensures ok ==> t.content == Document(s.version, s.entries, s.pages) && !t.open && t.entries == [] && t.pages == []
    ensures !ok && s.open ==> t.content == []
    ensures !ok ==> t == s.(content := t.content) && (!s.open ==> t == s)
  {
  }

  lemma RollsSteadily(c: Limits, a: Scene, env: Env, ok: bool, made: Option<string>, b: Scene)
    requires Steady(c, a) && Rolls(c, a, env, ok, made, b)
    ensures Steady(c, b) && (Simple(b), ok) == Roll(c, Simple(a), env)
  {
    if !ok && made.None? && Closes(a, false, b) {
      ClosesSteadily(c, a, false, b);
    } else {
      var u :| Closes(a, true, u) && Renews(c, u, env, ok, made, b);
      ClosesSteadily(c, a, true, u);
    }
  }

  lemma PreparesSteadily(c: Limits, a: Scene, add: Option<Item>, env: Env, ok: bool, made: Option<string>, b: Scene)
    requires Steady(c, a) && Prepares(c, a, add, env, ok, made, b)
    ensures Steady(c, b) && (Simple(b), ok) == Prepare(c, Simple(a), add, env) && (ok ==> b.cur.Some?)
  {
    var (verdict, bytes) := Judge(c, a.cur.Some?, a.currentBytes, a.lastRoll, add, env.now);
    if verdict == Rotate {
      RollsSteadily(c, a.(currentBytes := bytes), env, ok, made, b);
    }
  }

  /** While no disk operation fails, a call does exactly what Perform says. */
  lemma PerformsSteadily(c: Limits, a: Scene, op: Op, env: Env, ok: bool, made: Option<string>, b: Scene)
    requires Steady(c, a) && Performs(c, a, op, env, ok, made, b)
    ensures Steady(c, b) && (Simple(b), ok) == Perform(c, Simple(a), op, env)
  {
    if !ok && Prepares(c, a, Added(op), env, false, made, b) {
      PreparesSteadily(c, a, Added(op), env, false, made, b);
    } else {
      var u :| Prepares(c, a, Added(op), env, true, made, u) && Applies(u, op, ok, b);
      PreparesSteadily(c, a, Added(op), env, true, made, u);
      if op.DoFlush? {
        FlushesSteadily(c, u, ok, b);
      }
    }
  }

  class Receiver {
    const disk: Disk
    const maxBytes: uint64
    const maxDuration: int64
    var version: Version
    var currentBytes: uint64
    var lastRoll: int
    var harWriter: HarFileReceiver?

    ghost predicate Valid()
      reads this, harWriter, if harWriter == null then {} else {harWriter.fp}, disk
    {
      harWriter != null ==> harWriter.disk == disk && harWriter.Valid() && harWriter.version == version
    }

    ghost function View(): Scene
      requires Valid()
      reads this, harWriter, if harWriter == null then {} else {harWriter.fp}, disk
    {
      var cur := if harWriter == null then None else Some(Slot(harWriter.fileName, harWriter.Told()));
      Scene(disk.files, disk.plan == [], cur, currentBytes, lastRoll)
    }

    ghost function Settings(): Limits
      reads this
    {
      Limits(maxBytes, maxDuration, version)
    }

    ghost function Objects(): set<object>
      reads this, harWriter
    {
      {this, disk} + (if harWriter == null then {} else {harWriter})
      + (if harWriter == null || harWriter.fp == null then {} else {harWriter.fp})
    }

    /** The name of the writer made since then. */
    twostate function Made(): Option<string>
      reads this, harWriter
    {
      if harWriter == old(harWriter) || harWriter == null then None else Some(harWriter.fileName)
    }

    constructor (disk: Disk, maxBytes: uint64, maxDuration: int64)
      ensures Valid() && harWriter == null && currentBytes == 0
      ensures this.disk == disk && this.maxBytes == maxBytes && this.maxDuration == maxDuration
    {
      this.disk, this.maxBytes, this.maxDuration := disk, maxBytes, maxDuration;
      version, currentBytes, lastRoll, harWriter := Version("", "", ""), 0, 0, null;
    }

    /** shouldRotate */
    method ShouldRotate(add: Option<Item>, now: int) returns (verdict: Verdict)
      requires Valid()
      modifies this`currentBytes
      ensures (verdict, currentBytes) == Judge(Settings(), harWriter != null, old(currentBytes), lastRoll, add, now)
    {
      if harWriter == null {
        return Rotate;
      }
      if maxBytes > 0 && add.Some? {
        if add.value.Unmarshalable? {
          return Refuse;
        }
        currentBytes := AddU64(currentBytes, Size(add.value));
        if currentBytes > maxBytes {
          return Rotate;
        }
      }
      if maxDuration > 0 {
        if Elapsed(lastRoll, now) > maxDuration {
          return Rotate;
        }
      }
      return Keep;
    }

    /** Closing the current writer, if there is one. */
    method CloseWriter() returns (ok: bool)
      requires Valid()
      modifies Objects()
      ensures Valid() && version == old(version) && harWriter == old(harWriter) && Objects() == old(Objects())
      ensures Closes(old(View()), ok, View())
    {
      if harWriter == null {
        return true;
      }
      ok := harWriter.Close();
    }

    method Close() returns (ok: bool)
      requires Valid()
      modifies Objects()
      ensures Valid() && version == old(version) && harWriter == old(harWriter) && Objects() == old(Objects())
      ensures Closes(old(View()), ok, View())
    {
      ok := CloseWriter();
    }

    /** The rest of doRotate. */
    method Renew(env: Env) returns (ok: bool)
      requires Valid()
      modifies this, disk
      ensures Valid() && version == old(version) && fresh(Objects() - old(Objects())) && (ok ==> harWriter != null)
      ensures harWriter == old(harWriter) || (harWriter != null && fresh(harWriter))
      ensures Renews(Settings(), old(View()), env, ok, Made(), View())
    {
      lastRoll := env.rollAt;
      currentBytes := 0;
      if env.next.None? {
        return false;
      }
      harWriter := new HarFileReceiver(disk, env.next.value);
      ok := harWriter.Start(version);
    }

    /** doRotate */
    method DoRotate(env: Env) returns (ok: bool)
      requires Valid()
      modifies Objects()
      ensures Valid() && version == old(version) && fresh(Objects() - old(Objects())) && (ok ==> harWriter != null)
      ensures harWriter == old(harWriter) || (harWriter != null && fresh(harWriter))
      ensures Rolls(Settings(), old(View()), env, ok, Made(), View())
    {
      ghost var before := View();
      ok := CloseWriter();
      if !ok {
        return;
      }
      ghost var closed := View();
      ok := Renew(env);
      assert Closes(before, true, closed) && Renews(Settings(), closed, env, ok, Made(), View());
    }

    /** rotateIfNeeded */
    method RotateIfNeeded(add: Option<Item>, env: Env) returns (ok: bool)
      requires Valid()
      modifies Objects()
      ensures Valid() && version == old(version) && fresh(Objects() - old(Objects())) && (ok ==> harWriter != null)
      ensures harWriter == old(harWriter) || (harWriter != null && fresh(harWriter))
      ensures Prepares(Settings(), old(View()), add, env, ok, Made(), View())
    {
      var verdict := ShouldRotate(add, env.now);
      if verdict == Refuse {
        return false;
      }
      if verdict == Rotate {
        ok := DoRotate(env);
        return;
      }
      return true;
    }

    method Start(version: Version) returns (ok: bool)
      requires Valid()
      modifies Objects()
      ensures Valid() && this.version == version && fresh(Objects() - old(Objects())) && harWriter == old(harWriter)
      ensures currentBytes == old(currentBytes) && lastRoll == old(lastRoll)
      ensures harWriter == null ==> ok && disk.files == old(disk.files)
      ensures harWriter != null ==>
                && harWriter.entries == old(harWriter.entries) && harWriter.pages == old(harWriter.pages)
                && (ok ==> harWriter.Told().open)
                && disk.files == if ok then old(disk.files)[harWriter.fileName := []] else old(disk.files)
    {
      this.version := version;
      if harWriter == null {
        return true;
      }
      ok := harWriter.Start(version);
    }

    method Entry(item: Item, env: Env) returns (ok: bool)
      requires Valid()
      modifies Objects()
      ensures Valid() && version == old(version) && fresh(Objects() - old(Objects()))
      ensures Performs(Settings(), old(View()), AddEntry(item), env, ok, Made(), View())
    {
      ok := RotateIfNeeded(Some(item), env);
      if !ok {
        return;
      }
      ghost var u, made := View(), Made();
      ok := harWriter.Entry(item);
      assert Prepares(Settings(), old(View()), Some(item), env, true, made, u)
          && Applies(u, AddEntry(item), ok, View());
    }

    /** Page has no result; an error of the rotation drops the page. */
    method Page(item: Item, env: Env)
      requires Valid()
      modifies Objects()
      ensures Valid() && version == old(version) && fresh(Objects() - old(Objects()))
      ensures exists ok :: Performs(Settings(), old(View()), AddPage(item), env, ok, Made(), View())
    {
      var ok := RotateIfNeeded(Some(item), env);
      if !ok {
        assert Performs(Settings(), old(View()), AddPage(item), env, false, Made(), View());
        return;
      }
      ghost var u, made := View(), Made();
      if harWriter != null {
        harWriter.Page(item);
      }
      assert Prepares(Settings(), old(View()), Some(item), env, true, made, u)
          && Applies(u, AddPage(item), true, View());
      assert Performs(Settings(), old(View()), AddPage(item), env, true, Made(), View());
    }

    /** Flushing the current writer. */
    method FlushWriter() returns (ok: bool)
      requires Valid() && harWriter != null
      modifies Objects()
      ensures Valid() && version == old(version) && harWriter == old(harWriter) && Objects() == old(Objects())
      ensures Flushes(old(View()), ok, View())
    {
      ok := harWriter.Flush();
    }

    method Flush(env: Env) returns (ok: bool)
      requires Valid()
      modifies Objects()
      ensures Valid() && version == old(version) && fresh(Objects() - old(Objects()))
      ensures Performs(Settings(), old(View()), DoFlush, env, ok, Made(), View())
    {
      ghost var before := View();
      ok := RotateIfNeeded(None, env);
      if !ok {
        return;
      }
      ghost var u, made := View(), Made();
      ok := FlushWriter();
      assert Prepares(Settings(), before, None, env, true, made, u) && Applies(u, DoFlush, ok, View());
    }
  }
}
