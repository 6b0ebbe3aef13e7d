/**
 * Whole runs of the checkpoint receiver, with any items and any answers of the name generator: what is lost, and
 * when.
 */
module CheckpointRuns {
  import opened Common
  import opened Archives
  import opened HarFile
  import opened Checkpoint
  import FileNames

  datatype Turn = Turn(op: Op, env: Env)

  /**
   * A run with its history: the names of the files in the order they were made, for each when that was and the size of
   * the item whose call made it (0 for a flush), and what was in each file that has been closed.
   */
  datatype Ledger = Ledger(state: Rotation, names: seq<string>, madeAt: seq<int>, openers: seq<nat>,
                           filedEntries: seq<seq<Item>>, filedPages: seq<seq<Item>>)

  function AddedSize(op: Op): nat {
    if op.DoFlush? then 0 else Size(op.item)
  }

  /** A turn whose rotation gets past closing the current file. */
  predicate Rotates(c: Limits, s: Rotation, turn: Turn) {
    && Decide(c, s, Added(turn.op), turn.env.now).0 == Rotate
    && (s.cur.None? || Finish(c.version, s.files, s.cur.value).2)
  }

  function Record(c: Limits, l: Ledger, turn: Turn): Ledger {
    var s := l.state;
    var t := Perform(c, s, turn.op, turn.env).0;
    if !Rotates(c, s, turn) then l.(state := t)
    else
      Ledger(t,
             l.names + (if turn.env.next.Some? then [turn.env.next.value] else []),
             l.madeAt + (if turn.env.next.Some? then [turn.env.rollAt] else []),
             l.openers + (if turn.env.next.Some? then [AddedSize(turn.op)] else []),
             l.filedEntries + (if s.cur.Some? then [s.cur.value.entries] else []),
             l.filedPages + (if s.cur.Some? then [s.cur.value.pages] else []))
  }

  function Run(c: Limits, start: Rotation, turns: seq<Turn>): Ledger {
    if turns == [] then Ledger(start, [], [], [], [], [])
    else Record(c, Run(c, start, turns[..|turns| - 1]), turns[|turns| - 1])
  }

  /** A receiver that has been given nothing yet, on a disk that may hold other files. */
  predicate Fresh(s: Rotation) {
    s.cur.None? && s.currentBytes == 0
  }

  /** Items whose JSON, if they have any, is valid. */
  predicate ProperTurns(turns: seq<Turn>) {
    forall i | 0 <= i < |turns| && !turns[i].op.DoFlush? :: Proper(turns[i].op.item)
  }

  /** The item of a turn is accepted: its call returns nil. (Page keeps the error to itself and drops the page.) */
  predicate Takes(c: Limits, s: Rotation, turn: Turn) {
    !turn.op.DoFlush? && Perform(c, s, turn.op, turn.env).1
  }

  /** A list of items after an operation that may add to it. */
  function After(items: seq<Item>, op: Op, entries: bool): seq<Item> {
    if (if entries then op.AddEntry? else op.AddPage?) then items + [op.item] else items
  }

  /** The entries (or the pages) of a run that were accepted, in order. */
  function Accepted(c: Limits, start: Rotation, turns: seq<Turn>, entries: bool): seq<Item> {
    if turns == [] then []
    else
      var before, last := turns[..|turns| - 1], turns[|turns| - 1];
      var items := Accepted(c, start, before, entries);
      if Takes(c, Run(c, start, before).state, last) then After(items, last.op, entries) else items
  }

  predicate Dead(s: Rotation) {
    s.cur.Some? && !s.cur.value.open
  }

  /** A turn that rotates away from a file and gets no name for the next one. */
  predicate Abandons(c: Limits, s: Rotation, turn: Turn) {
    Rotates(c, s, turn) && s.cur.Some? && turn.env.next.None?
  }

  /** Some turn of a run has done so. */
  predicate Abandoned(c: Limits, start: Rotation, turns: seq<Turn>) {
    turns != [] &&
    var before, last := turns[..|turns| - 1], turns[|turns| - 1];
    Abandoned(c, start, before) || Abandons(c, Run(c, start, before).state, last)
  }

  /** Some item was accepted after a rotation that had got no name. */
  predicate TakenTooLate(c: Limits, start: Rotation, turns: seq<Turn>) {
    turns != [] &&
    var before, last := turns[..|turns| - 1], turns[|turns| - 1];
    || TakenTooLate(c, start, before)
    || (Abandoned(c, start, before) && Takes(c, Run(c, start, before).state, last))
  }

  // ----- What every turn keeps -----

  /** The current file after an operation. */
  function Grown(w: Current, op: Op): Current {
    w.(entries := After(w.entries, op, true), pages := After(w.pages, op, false))
  }

  /** The files that were made, those that were closed, and the current one. */
  ghost predicate Standing(l: Ledger) {
    var s, k := l.state, |l.filedEntries|;
    && |l.filedPages| == k && |l.openers| == |l.names|
    && (forall i | 0 <= i < k :: GoodItems(l.filedEntries[i]) && GoodItems(l.filedPages[i]))
    && (forall i | 0 <= i < |l.names| :: l.names[i] in s.files)
    && match s.cur
       case None => l.names == [] && k == 0
       case Some(w) =>
         && AllProper(w.entries) && AllProper(w.pages)
         && |l.names| == (if w.open then k + 1 else k) && |l.names| > 0 && w.name == l.names[|l.names| - 1]
  }

  /** Every file that has been closed holds the document of its items. */
  ghost predicate OnDisk(c: Limits, l: Ledger)
    requires Standing(l)
  {
    forall i | 0 <= i < |l.filedEntries| ::
      l.state.files[l.names[i]] == Document(c.version, l.filedEntries[i], l.filedPages[i])
  }

  function CurrentItems(s: Rotation, entries: bool): seq<Item> {
    if s.cur.None? then [] else if entries then s.cur.value.entries else s.cur.value.pages
  }

  /** The items of the closed files and of the current one are the items accepted. */
  predicate Conserved(l: Ledger, entries: seq<Item>, pages: seq<Item>) {
    && Concat(l.filedEntries) + CurrentItems(l.state, true) == entries
    && Concat(l.filedPages) + CurrentItems(l.state, false) == pages
  }

  /** Only the current file's content may have changed. */
  predicate OthersSame(files: map<string, bytes>, name: string, files': map<string, bytes>) {
    files' == files || (name in files' && files' == files[name := files'[name]])
  }

  lemma StayEffect(c: Limits, l: Ledger, turn: Turn)
    requires Standing(l) && !Rotates(c, l.state, turn)
    ensures var m, w := Record(c, l, turn), l.state.cur;
            && w.Some? && m == l.(state := m.state) && OthersSame(l.state.files, w.value.name, m.state.files)
            && m.state.cur == Some(if Takes(c, l.state, turn) then Grown(w.value, turn.op) else w.value)
  {
    assert l.state.files[l.state.cur.value.name := l.state.files[l.state.cur.value.name]] == l.state.files;
  }

  /** The files after a rotation: the one before has been written, the next one is empty or not there. */
  function RotatedFiles(c: Limits, s: Rotation, next: Option<string>): map<string, bytes> {
    var closed := if s.cur.None? then s.files else Finish(c.version, s.files, s.cur.value).0;
    if next.None? then closed else closed[next.value := []]
  }

  lemma RotateEffect(c: Limits, l: Ledger, turn: Turn)
    requires Standing(l) && Rotates(c, l.state, turn)
    ensures var s, t, next := l.state, Record(c, l, turn).state, turn.env.next;
            && (s.cur.Some? ==> s.cur.value.open && AllGood(s.cur.value.entries) && AllGood(s.cur.value.pages))
            && t.currentBytes == 0
            && (Takes(c, s, turn) <==> next.Some? && !turn.op.DoFlush?)
            && (next.None? ==> t.files == RotatedFiles(c, s, next) && t.cur == if s.cur.None? then None
                                  else Some(Current(s.cur.value.name, false, [], [])))
            && (next.Some? ==>
                  && t.cur == Some(Grown(Current(next.value, true, [], []), turn.op))
                  && next.value in t.files
                  && t.files == RotatedFiles(c, s, next)[next.value := t.files[next.value]])
  {
    var s, next := l.state, turn.env.next;
    var (t, ok) := Roll(c, s.(currentBytes := Decide(c, s, Added(turn.op), turn.env.now).1), turn.env);
    assert t.files == RotatedFiles(c, s, next) && ok == next.Some? && t.currentBytes == 0;
    assert next.Some? ==> t.cur == Some(Current(next.value, true, [], []));
  }

  lemma AfterConcat(a: seq<Item>, b: seq<Item>, op: Op, entries: bool)
    ensures a + After(b, op, entries) == After(a + b, op, entries)
  {
  }

  lemma AllProperAfter(items: seq<Item>, op: Op, entries: bool)
    requires AllProper(items) && (!op.DoFlush? ==> Proper(op.item))
    ensures AllProper(After(items, op, entries))
  {
  }

  lemma StayKeeps(c: Limits, l: Ledger, turn: Turn, entries: seq<Item>, pages: seq<Item>)
    requires Standing(l) && !Rotates(c, l.state, turn) && (!turn.op.DoFlush? ==> Proper(turn.op.item))
    requires Conserved(l, entries, pages)
    ensures var m, took := Record(c, l, turn), Takes(c, l.state, turn);
            && Standing(m)
            && Conserved(m, if took then After(entries, turn.op, true) else entries,
                         if took then After(pages, turn.op, false) else pages)
            && (FileNames.Distinct(l.names) && OnDisk(c, l) ==> OnDisk(c, m))
  {
    StayEffect(c, l, turn);
    var w, m := l.state.cur.value, Record(c, l, turn);
    AllProperAfter(w.entries, turn.op, true);
    AllProperAfter(w.pages, turn.op, false);
    AfterConcat(Concat(l.filedEntries), w.entries, turn.op, true);
    AfterConcat(Concat(l.filedPages), w.pages, turn.op, false);
    if FileNames.Distinct(l.names) && OnDisk(c, l) {
      StayOnDisk(c, l, turn);
    }
  }

  /**
   * The current file is written in a turn without a rotation only while it is open, and then it is not a closed one.
   */
  lemma StayOnDisk(c: Limits, l: Ledger, turn: Turn)
    requires Standing(l) && !Rotates(c, l.state, turn) && Standing(Record(c, l, turn))
    requires FileNames.Distinct(l.names) && OnDisk(c, l)
    ensures OnDisk(c, Record(c, l, turn))
  {
    StayEffect(c, l, turn);
    var w, m := l.state.cur.value, Record(c, l, turn);
    if w.open {
      assert forall i | 0 <= i < |l.filedEntries| :: l.names[i] != l.names[|l.names| - 1];
    } else {
      DeadTurn(c, l.state, turn.op, turn.env);
    }
  }

  lemma DeadTurn(c: Limits, s: Rotation, op: Op, env: Env)
    requires Dead(s)
    ensures var t := Perform(c, s, op, env).0; Dead(t) && t.files == s.files
  {
  }

  lemma RotateStanding(c: Limits, l: Ledger, turn: Turn)
    requires Standing(l) && Rotates(c, l.state, turn) && (!turn.op.DoFlush? ==> Proper(turn.op.item))
    ensures Standing(Record(c, l, turn))
  {
    RotateEffect(c, l, turn);
    var m := Record(c, l, turn);
    AllProperAfter([], turn.op, true);
    AllProperAfter([], turn.op, false);
    forall i | 0 <= i < |m.filedEntries| ensures GoodItems(m.filedEntries[i]) && GoodItems(m.filedPages[i]) {
      if i < |l.filedEntries| {
        assert m.filedEntries[i] == l.filedEntries[i] && m.filedPages[i] == l.filedPages[i];
      }
    }
    forall i | 0 <= i < |m.names| ensures m.names[i] in m.state.files {
      if i < |l.names| {
        assert m.names[i] == l.names[i];
      }
    }
  }

  lemma RotateOnDisk(c: Limits, l: Ledger, turn: Turn)
    requires Standing(l) && Rotates(c, l.state, turn) && Standing(Record(c, l, turn))
    requires FileNames.Distinct(Record(c, l, turn).names) && OnDisk(c, l)
    ensures OnDisk(c, Record(c, l, turn))
  {
    RotateEffect(c, l, turn);
    var m := Record(c, l, turn);
    forall i | 0 <= i < |m.filedEntries|
      ensures m.state.files[m.names[i]] == Document(c.version, m.filedEntries[i], m.filedPages[i])
    {
      assert turn.env.next.Some? ==> m.names[i] != m.names[|l.names|];
      FiledStays(c, l, turn, i);
    }
  }

  /** A file that has been closed is written as its document, and only the new file differs from then on. */
  lemma FiledStays(c: Limits, l: Ledger, turn: Turn, i: nat)
    requires Standing(l) && OnDisk(c, l) && Rotates(c, l.state, turn) && Standing(Record(c, l, turn))
    requires FileNames.Distinct(Record(c, l, turn).names) && i < |Record(c, l, turn).filedEntries|
    ensures var m, files := Record(c, l, turn), RotatedFiles(c, l.state, None);
            && m.names[i] in files && files[m.names[i]] == Document(c.version, m.filedEntries[i], m.filedPages[i])
  {
    var m := Record(c, l, turn);
    assert m.names[i] == l.names[i];
    if i < |l.filedEntries| {
      assert m.filedEntries[i] == l.filedEntries[i] && m.filedPages[i] == l.filedPages[i];
      assert m.names[i] != m.names[|l.filedEntries|];
    }
  }

  lemma RotateConserved(c: Limits, l: Ledger, turn: Turn, entries: seq<Item>, pages: seq<Item>)
    requires Standing(l) && Rotates(c, l.state, turn) && Conserved(l, entries, pages)
    ensures var m, took := Record(c, l, turn), Takes(c, l.state, turn);
            Conserved(m, if took then After(entries, turn.op, true) else entries,
                      if took then After(pages, turn.op, false) else pages)
  {
    RotateEffect(c, l, turn);
    var m := Record(c, l, turn);
    if l.state.cur.Some? {
      ConcatAppend(l.filedEntries, l.state.cur.value.entries);
      ConcatAppend(l.filedPages, l.state.cur.value.pages);
    }
    assert Concat(m.filedEntries) == entries && Concat(m.filedPages) == pages;
    AfterConcat(entries, [], turn.op, true);
    AfterConcat(pages, [], turn.op, false);
    assert entries + [] == entries && pages + [] == pages;
  }

  lemma FewerNames(names: seq<string>, more: seq<string>)
    requires FileNames.Distinct(names + more)
    ensures FileNames.Distinct(names)
  {
    assert forall i | 0 <= i < |names| :: (names + more)[i] == names[i];
  }

  /** One turn keeps what there is to keep: closed files hold their documents, and no accepted item is forgotten. */
  lemma TurnKeeps(c: Limits, l: Ledger, turn: Turn, entries: seq<Item>, pages: seq<Item>)
    requires Standing(l) && Conserved(l, entries, pages) && (!turn.op.DoFlush? ==> Proper(turn.op.item))
    requires FileNames.Distinct(l.names) ==> OnDisk(c, l)
    ensures var m, took := Record(c, l, turn), Takes(c, l.state, turn);
            && Standing(m)
            && Conserved(m, if took then After(entries, turn.op, true) else entries,
                         if took then After(pages, turn.op, false) else pages)
            && (FileNames.Distinct(m.names) ==> OnDisk(c, m))
  {
    if !Rotates(c, l.state, turn) {
      StayEffect(c, l, turn);
      StayKeeps(c, l, turn, entries, pages);
    } else {
      RotateStanding(c, l, turn);
      RotateConserved(c, l, turn, entries, pages);
      if FileNames.Distinct(Record(c, l, turn).names) {
        FewerNames(l.names, if turn.env.next.Some? then [turn.env.next.value] else []);
        RotateOnDisk(c, l, turn);
      }
    }
  }

  lemma {:induction false} RunKeeps(c: Limits, start: Rotation, turns: seq<Turn>)
    requires Fresh(start) && ProperTurns(turns)
    ensures var l := Run(c, start, turns);
            && Standing(l)
            && Conserved(l, Accepted(c, start, turns, true), Accepted(c, start, turns, false))
            && (FileNames.Distinct(l.names) ==> OnDisk(c, l))
  {
    if turns != [] {
      var before := turns[..|turns| - 1];
      RunKeeps(c, start, before);
      TurnKeeps(c, Run(c, start, before), turns[|turns| - 1],
                Accepted(c, start, before, true), Accepted(c, start, before, false));
    }
  }

  // ----- When a file is abandoned -----

  /** A turn kills the receiver exactly when it abandons a file; a dead one abandons nothing and stays dead. */
  lemma DeadAfterTurn(c: Limits, l: Ledger, turn: Turn)
    requires Standing(l)
    ensures Dead(Record(c, l, turn).state) <==> Dead(l.state) || Abandons(c, l.state, turn)
    ensures Dead(l.state) ==> !Rotates(c, l.state, turn)
  {
    if Rotates(c, l.state, turn) {
      RotateEffect(c, l, turn);
    } else {
      StayEffect(c, l, turn);
    }
  }

  /** The receiver ends without an open file exactly when some rotation left a file and got no name for the next. */
  lemma {:induction false} DeadIff(c: Limits, start: Rotation, turns: seq<Turn>)
    requires Fresh(start) && ProperTurns(turns)
    ensures Dead(Run(c, start, turns).state) <==> Abandoned(c, start, turns)
  {
    if turns != [] {
      var n := |turns| - 1;
      DeadIff(c, start, turns[..n]);
      RunKeeps(c, start, turns[..n]);
      DeadAfterTurn(c, Run(c, start, turns[..n]), turns[n]);
    }
  }

  /** What a dead receiver has collected is what came too late. */
  lemma {:induction false} DeadCollects(c: Limits, start: Rotation, turns: seq<Turn>)
    requires Fresh(start) && ProperTurns(turns) && Dead(Run(c, start, turns).state)
    ensures var s := Run(c, start, turns).state;
            TakenTooLate(c, start, turns) <==> CurrentItems(s, true) != [] || CurrentItems(s, false) != []
  {
    if turns != [] {
      var n := |turns| - 1;
      var l, turn := Run(c, start, turns[..n]), turns[n];
      RunKeeps(c, start, turns[..n]);
      DeadIff(c, start, turns[..n]);
      DeadAfterTurn(c, l, turn);
      if Dead(l.state) {
        DeadCollects(c, start, turns[..n]);
        StayEffect(c, l, turn);
      } else {
        RotateEffect(c, l, turn);
        NotTooLate(c, start, turns[..n]);
      }
    }
  }

  lemma {:induction false} NotTooLate(c: Limits, start: Rotation, turns: seq<Turn>)
    requires !Abandoned(c, start, turns)
    ensures !TakenTooLate(c, start, turns)
  {
    if turns != [] {
      NotTooLate(c, start, turns[..|turns| - 1]);
    }
  }

  // ----- Conservation -----

  /** The files of a finished run, in the order they were made. */
  function FilesOf(names: seq<string>, files: map<string, bytes>): (r: seq<bytes>)
    requires forall i | 0 <= i < |names| :: names[i] in files
  {
    seq(|names|, i requires 0 <= i < |names| => files[names[i]])
  }

  function EntriesIn(files: seq<bytes>): seq<seq<Item>> {
    seq(|files|, i requires 0 <= i < |files| => FileEntries(files[i]))
  }

  function PagesIn(files: seq<bytes>): seq<seq<Item>> {
    seq(|files|, i requires 0 <= i < |files| => FilePages(files[i]))
  }

  /** The current file can still be written. */
  predicate Sound(s: Rotation) {
    s.cur.Some? ==> s.cur.value.open && AllGood(s.cur.value.entries) && AllGood(s.cur.value.pages)
  }

  /** What is in the last file after Close: all of the current items, or nothing at all. */
  function LastPart(s: Rotation, entries: bool): seq<seq<Item>> {
    if s.cur.None? || !s.cur.value.open then [] else [if Sound(s) then CurrentItems(s, entries) else []]
  }

  lemma ClosedFile(c: Limits, l: Ledger, t: Rotation, i: nat)
    requires Standing(l) && OnDisk(c, l) && FileNames.Distinct(l.names) && t == CloseAll(c, l.state).0
    requires i < |l.filedEntries|
    ensures i < |l.names| && l.names[i] in t.files
    ensures FileEntries(t.files[l.names[i]]) == l.filedEntries[i] && FilePages(t.files[l.names[i]]) == l.filedPages[i]
  {
    ReadDocument(c.version, l.filedEntries[i], l.filedPages[i]);
    if l.state.cur.value.open {
      assert l.names[i] != l.names[|l.names| - 1];
    }
  }

  lemma LastFile(c: Limits, l: Ledger, t: Rotation)
    requires Standing(l) && t == CloseAll(c, l.state).0 && l.state.cur.Some? && l.state.cur.value.open
    ensures var name := l.state.cur.value.name;
            && name in t.files
            && [FileEntries(t.files[name])] == LastPart(l.state, true)
            && [FilePages(t.files[name])] == LastPart(l.state, false)
  {
    if Sound(l.state) {
      ReadDocument(c.version, l.state.cur.value.entries, l.state.cur.value.pages);
    } else {
      ReadNothing();
    }
  }

  /** What closing leaves in one file. */
  lemma OneFile(c: Limits, l: Ledger, t: Rotation, i: nat)
    requires Standing(l) && OnDisk(c, l) && FileNames.Distinct(l.names) && t == CloseAll(c, l.state).0
    requires i < |l.names|
    ensures l.names[i] in t.files
    ensures i < |l.filedEntries + LastPart(l.state, true)| && i < |l.filedPages + LastPart(l.state, false)|
    ensures FileEntries(t.files[l.names[i]]) == (l.filedEntries + LastPart(l.state, true))[i]
    ensures FilePages(t.files[l.names[i]]) == (l.filedPages + LastPart(l.state, false))[i]
  {
    if i < |l.filedEntries| {
      ClosedFile(c, l, t, i);
    } else {
      LastFile(c, l, t);
    }
  }

  /** What closing leaves in the files. */
  lemma AllFiles(c: Limits, l: Ledger, t: Rotation)
    requires Standing(l) && OnDisk(c, l) && FileNames.Distinct(l.names) && t == CloseAll(c, l.state).0
    ensures forall i | 0 <= i < |l.names| :: l.names[i] in t.files
    ensures var files := FilesOf(l.names, t.files);
            && EntriesIn(files) == l.filedEntries + LastPart(l.state, true)
            && PagesIn(files) == l.filedPages + LastPart(l.state, false)
  {
    var entries, pages := l.filedEntries + LastPart(l.state, true), l.filedPages + LastPart(l.state, false);
    assert |entries| == |pages| == |l.names|;
    forall i | 0 <= i < |l.names|
      ensures l.names[i] in t.files
      ensures FileEntries(t.files[l.names[i]]) == entries[i] && FilePages(t.files[l.names[i]]) == pages[i]
    {
      OneFile(c, l, t, i);
    }
    InOrder(l.names, t.files, entries, pages);
  }

  lemma InOrder(names: seq<string>, files: map<string, bytes>, entries: seq<seq<Item>>, pages: seq<seq<Item>>)
    requires |entries| == |pages| == |names|
    requires forall i | 0 <= i < |names| ::
               names[i] in files && FileEntries(files[names[i]]) == entries[i] && FilePages(files[names[i]]) == pages[i]
    ensures EntriesIn(FilesOf(names, files)) == entries && PagesIn(FilesOf(names, files)) == pages
  {
  }

  lemma {:induction false} FiledIsGood(parts: seq<seq<Item>>)
    requires forall i | 0 <= i < |parts| :: GoodItems(parts[i])
    ensures AllGood(Concat(parts))
  {
    if parts != [] {
      FiledIsGood(parts[1..]);
    }
  }

  lemma GoodConcat(a: seq<Item>, b: seq<Item>)
    requires AllGood(a)
    ensures AllGood(a + b) <==> AllGood(b)
  {
    if AllGood(a + b) {
      forall i | 0 <= i < |b| ensures b[i].Good? {
        assert (a + b)[|a| + i] == b[i];
      }
    }
  }

  /** The accepted items can all be marshalled exactly when those of the current file can. */
  lemma AcceptedGood(c: Limits, start: Rotation, turns: seq<Turn>, entries: bool)
    requires Fresh(start) && ProperTurns(turns)
    ensures AllGood(Accepted(c, start, turns, entries)) <==> AllGood(CurrentItems(Run(c, start, turns).state, entries))
  {
    RunKeeps(c, start, turns);
    var l := Run(c, start, turns);
    var filed := if entries then l.filedEntries else l.filedPages;
    FiledIsGood(filed);
    GoodConcat(Concat(filed), CurrentItems(l.state, entries));
  }

  /** Every accepted item can be marshalled. */
  predicate AcceptedMarshals(c: Limits, start: Rotation, turns: seq<Turn>) {
    AllGood(Accepted(c, start, turns, true)) && AllGood(Accepted(c, start, turns, false))
  }

  lemma {:induction false} ConcatLast(filed: seq<seq<Item>>, s: Rotation, entries: bool)
    ensures Concat(filed + LastPart(s, entries))
            == Concat(filed) + if s.cur.Some? && Sound(s) then CurrentItems(s, entries) else []
  {
    if LastPart(s, entries) == [] {
      assert filed + [] == filed && Concat(filed) + [] == Concat(filed);
    } else {
      ConcatAppend(filed, LastPart(s, entries)[0]);
    }
  }

  /**
   * What is lost, over all runs with distinct names, whatever the items and whatever the generator answers: the files
   * in the order they were made hold exactly the accepted entries and exactly the accepted pages, in order, if and
   * only if every accepted item can be marshalled and none was accepted after a rotation had left a file without
   * getting a name. Close succeeds if and only if every accepted item can be marshalled and there was no such rotation.
   */
  lemma ConservedIff(c: Limits, start: Rotation, turns: seq<Turn>)
    requires Fresh(start) && ProperTurns(turns) && FileNames.Distinct(Run(c, start, turns).names)
    ensures var l := Run(c, start, turns);
            var (t, ok) := CloseAll(c, l.state);
            && (ok <==> AcceptedMarshals(c, start, turns) && !Abandoned(c, start, turns))
            && (forall i | 0 <= i < |l.names| :: l.names[i] in t.files)
            && var files := FilesOf(l.names, t.files);
               (Concat(EntriesIn(files)) == Accepted(c, start, turns, true)
                && Concat(PagesIn(files)) == Accepted(c, start, turns, false))
               <==> AcceptedMarshals(c, start, turns) && !TakenTooLate(c, start, turns)
  {
    var l := Run(c, start, turns);
    RunKeeps(c, start, turns);
    AllFiles(c, l, CloseAll(c, l.state).0);
    ConcatLast(l.filedEntries, l.state, true);
    ConcatLast(l.filedPages, l.state, false);
    AcceptedGood(c, start, turns, true);
    AcceptedGood(c, start, turns, false);
    DeadIff(c, start, turns);
    if Dead(l.state) {
      DeadCollects(c, start, turns);
    } else {
      NotTooLate(c, start, turns);
    }
  }

  // ----- Without failures -----

  /** No failure: items can be marshalled and the generator gives names. */
  predicate HealthyTurn(turn: Turn) {
    turn.env.next.Some? && (!turn.op.DoFlush? ==> turn.op.item.Good? && Proper(turn.op.item))
  }

  predicate Healthy(turns: seq<Turn>) {
    forall i | 0 <= i < |turns| :: HealthyTurn(turns[i])
  }

  /** The entries (or the pages) handed over in a run. */
  function Handed(turns: seq<Turn>, entries: bool): seq<Item> {
    if turns == [] then []
    else After(Handed(turns[..|turns| - 1], entries), turns[|turns| - 1].op, entries)
  }

  lemma HealthyStep(c: Limits, l: Ledger, turn: Turn)
    requires Standing(l) && Sound(l.state) && HealthyTurn(turn)
    ensures Sound(Record(c, l, turn).state)
    ensures turn.op.DoFlush? || Takes(c, l.state, turn)
    ensures !Abandons(c, l.state, turn)
  {
    if Rotates(c, l.state, turn) {
      RotateEffect(c, l, turn);
    } else {
      StayEffect(c, l, turn);
    }
  }

  lemma HealthyBefore(turns: seq<Turn>)
    requires Healthy(turns)
    ensures ProperTurns(turns)
    ensures turns != [] ==> Healthy(turns[..|turns| - 1]) && HealthyTurn(turns[|turns| - 1])
  {
  }

  /** Then every item is accepted and no file is abandoned. */
  lemma {:induction false} HealthyRun(c: Limits, start: Rotation, turns: seq<Turn>)
    requires Fresh(start) && Healthy(turns)
    ensures !Abandoned(c, start, turns) && Sound(Run(c, start, turns).state)
    ensures Accepted(c, start, turns, true) == Handed(turns, true)
    ensures Accepted(c, start, turns, false) == Handed(turns, false)
  {
    HealthyBefore(turns);
    if turns != [] {
      var before := turns[..|turns| - 1];
      HealthyBefore(before);
      HealthyRun(c, start, before);
      RunKeeps(c, start, before);
      HealthyStep(c, Run(c, start, before), turns[|turns| - 1]);
    }
  }

  /**
   * Nothing is lost and nothing is doubled: without failures Close succeeds, and the files in the order they were
   * made hold exactly the entries and exactly the pages handed over, for any mix of reasons to rotate.
   */
  lemma Conservation(c: Limits, start: Rotation, turns: seq<Turn>)
    requires Fresh(start) && Healthy(turns) && FileNames.Distinct(Run(c, start, turns).names)
    ensures var l := Run(c, start, turns);
            var (t, ok) := CloseAll(c, l.state);
            && ok && (forall i | 0 <= i < |l.names| :: l.names[i] in t.files)
            && var files := FilesOf(l.names, t.files);
               && Concat(EntriesIn(files)) == Handed(turns, true)
               && Concat(PagesIn(files)) == Handed(turns, false)
  {
    HealthyBefore(turns);
    HealthyRun(c, start, turns);
    AcceptedGood(c, start, turns, true);
    AcceptedGood(c, start, turns, false);
    NotTooLate(c, start, turns);
    ConservedIff(c, start, turns);
  }

  // ----- Names -----

  /** The generator of the package answers each time it is asked, counting its own calls. */
  ghost predicate AnsweredBy(c: Limits, start: Rotation, turns: seq<Turn>, base: string, prefix: string,
                             clocks: seq<string>) {
    && |clocks| == |turns| < TWO_63
    && (turns != [] ==>
          var n := |turns| - 1;
          && AnsweredBy(c, start, turns[..n], base, prefix, clocks[..n])
          && turns[n].env.next
             == Some(FileNames.NameFor(base, prefix, clocks[n], WrapI64(|Run(c, start, turns[..n]).names| + 1))))
  }

  predicate AllNumbered(names: seq<string>) {
    forall i | 0 <= i < |names| :: FileNames.Numbered(names[i], i + 1)
  }

  lemma NumberedMore(names: seq<string>, base: string, prefix: string, clock: string)
    requires AllNumbered(names) && |names| + 1 < TWO_63
    ensures AllNumbered(names + [FileNames.NameFor(base, prefix, clock, WrapI64(|names| + 1))])
  {
    FileNames.NameEnds(base, prefix, clock, |names| + 1);
    var more := names + [FileNames.NameFor(base, prefix, clock, WrapI64(|names| + 1))];
    assert forall i | 0 <= i < |names| :: more[i] == names[i];
  }

  lemma NextName(c: Limits, l: Ledger, turn: Turn, base: string, prefix: string, clock: string)
    requires AllNumbered(l.names) && |l.names| + 1 < TWO_63
    requires turn.env.next == Some(FileNames.NameFor(base, prefix, clock, WrapI64(|l.names| + 1)))
    ensures var names := Record(c, l, turn).names;
            AllNumbered(names) && |names| <= |l.names| + 1
  {
    NumberedMore(l.names, base, prefix, clock);
    assert l.names + [] == l.names;
  }

  /** The names of a run are numbered from 1. */
  lemma {:induction false} GeneratedNames(c: Limits, start: Rotation, turns: seq<Turn>,
                                          base: string, prefix: string, clocks: seq<string>)
    requires AnsweredBy(c, start, turns, base, prefix, clocks)
    ensures var names := Run(c, start, turns).names;
            |names| <= |turns| && AllNumbered(names)
  {
    if turns != [] {
      var n := |turns| - 1;
      GeneratedNames(c, start, turns[..n], base, prefix, clocks[..n]);
      NextName(c, Run(c, start, turns[..n]), turns[n], base, prefix, clocks[n]);
    }
  }

  /** With the package's own generator the names differ, so conservation needs no assumption about them. */
  lemma GeneratedNamesDiffer(c: Limits, start: Rotation, turns: seq<Turn>,
                             base: string, prefix: string, clocks: seq<string>)
    requires AnsweredBy(c, start, turns, base, prefix, clocks)
    ensures FileNames.Distinct(Run(c, start, turns).names)
  {
    GeneratedNames(c, start, turns, base, prefix, clocks);
    NumberedDiffer(Run(c, start, turns).names);
  }

  lemma NumberedDiffer(names: seq<string>)
    requires AllNumbered(names)
    ensures FileNames.Distinct(names)
  {
    forall i, j | 0 <= i < j < |names| ensures names[i] != names[j] {
      assert FileNames.Numbered(names[i], i + 1) && FileNames.Numbered(names[j], j + 1);
      if names[i] == names[j] {
        FileNames.CounterIsKnown(names[i], i + 1, j + 1);
      }
    }
  }

  // ----- After a failure -----

  function RunFrom(c: Limits, s: Rotation, turns: seq<Turn>): Rotation {
    if turns == [] then s
    else
      var last := turns[|turns| - 1];
      Perform(c, RunFrom(c, s, turns[..|turns| - 1]), last.op, last.env).0
  }

  /**
   * From the loss of the current file on nothing reaches any file and Close fails, although items are still accepted.
   */
  lemma {:induction false} DeadForever(c: Limits, s: Rotation, turns: seq<Turn>)
    requires Dead(s)
    ensures var t := RunFrom(c, s, turns);
            Dead(t) && t.files == s.files && !CloseAll(c, t).1 && CloseAll(c, t).0.files == s.files
  {
    if turns != [] {
      DeadForever(c, s, turns[..|turns| - 1]);
    }
  }

  /** The current file is open and has an item that cannot be marshalled. */
  predicate Spoiled(s: Rotation) {
    s.cur.Some? && s.cur.value.open && !Sound(s)
  }

  lemma SpoiledTurn(c: Limits, s: Rotation, turn: Turn)
    requires Spoiled(s)
    ensures var (t, ok) := Perform(c, s, turn.op, turn.env);
            && Spoiled(t) && t.cur.value.name == s.cur.value.name
            && (t.files == s.files || t.files == s.files[s.cur.value.name := []])
            && (turn.op.DoFlush? || Decide(c, s, Added(turn.op), turn.env.now).0 == Rotate ==> !ok)
  {
    var w, op := s.cur.value, turn.op;
    if !op.DoFlush? {
      GrownStaysBad(w.entries, op, true);
      GrownStaysBad(w.pages, op, false);
    }
  }

  lemma GrownStaysBad(items: seq<Item>, op: Op, entries: bool)
    ensures AllGood(After(items, op, entries)) ==> AllGood(items)
  {
    assert forall i | 0 <= i < |items| :: After(items, op, entries)[i] == items[i];
  }

  /**
   * An item that cannot be marshalled and is not marshalled when it comes (it opens a file, or there is no limit on
   * bytes) spoils its file for good: no rotation gets past it, every flush and Close fail, no other file ever
   * changes, and the file is empty in the end.
   */
  lemma {:induction false} SpoiledForever(c: Limits, s: Rotation, turns: seq<Turn>)
    requires Spoiled(s)
    ensures var t := RunFrom(c, s, turns);
            && Spoiled(t) && t.cur.value.name == s.cur.value.name
            && (t.files == s.files || t.files == s.files[s.cur.value.name := []])
            && !CloseAll(c, t).1 && CloseAll(c, t).0.files == s.files[s.cur.value.name := []]
  {
    if turns != [] {
      var n := |turns| - 1;
      SpoiledForever(c, s, turns[..n]);
      SpoiledTurn(c, RunFrom(c, s, turns[..n]), turns[n]);
    }
  }

  /** With a limit on bytes, only the item that opens the first file can be accepted without being marshalled. */
  lemma OnlyTheFirstUnchecked(c: Limits, start: Rotation, turns: seq<Turn>, i: nat)
    requires i < |turns| && c.maxBytes > 0
    requires Takes(c, Run(c, start, turns[..i]).state, turns[i]) && turns[i].op.item.Unmarshalable?
    ensures Run(c, start, turns[..i]).state.cur.None?
  {
  }
}
