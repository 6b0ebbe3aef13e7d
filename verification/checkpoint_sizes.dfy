/** How large the files of a run become, and how many there are. */
module CheckpointSizes {
  import opened Common
  import opened Archives
  import opened HarFile
  import opened Checkpoint
  import opened CheckpointRuns
  import FileNames

  function SizeSum(items: seq<Item>): nat {
    if items == [] then 0 else SizeSum(items[..|items| - 1]) + Size(items[|items| - 1])
  }

  function TotalSize(turns: seq<Turn>): nat {
    if turns == [] then 0 else TotalSize(turns[..|turns| - 1]) + AddedSize(turns[|turns| - 1].op)
  }

  lemma SizeAppend(items: seq<Item>, item: Item)
    ensures SizeSum(items + [item]) == SizeSum(items) + Size(item)
  {
    assert (items + [item])[..|items|] == items;
  }

  /** The least size of what overfills k files, one byte too much for each: k * (limit + 1). */
  function Overfull(k: nat, limit: nat): nat {
    if k == 0 then 0 else Overfull(k - 1, limit) + (limit + 1)
  }

  lemma {:induction false} OverfullProduct(k: nat, limit: nat)
    ensures Overfull(k, limit) == k * (limit + 1)
  {
    if k > 0 {
      OverfullProduct(k - 1, limit);
      assert k * (limit + 1) == (k - 1) * (limit + 1) + (limit + 1);
    }
  }

  /** What all turns of a run without failures have in common after the first. */
  ghost predicate Going(l: Ledger) {
    Standing(l) && Sound(l.state) && l.state.cur.Some?
  }

  /** The files fit, opener by opener. */
  ghost predicate AllFit(entries: seq<seq<Item>>, pages: seq<seq<Item>>, openers: seq<nat>, limit: nat) {
    && |entries| == |pages| <= |openers|
    && forall i | 0 <= i < |entries| :: SizeSum(entries[i]) + SizeSum(pages[i]) <= limit + openers[i]
  }

  /** currentBytes counts the current file's items except the one that opened it, and stays within the limit. */
  ghost predicate Charged(c: Limits, l: Ledger, total: nat)
    requires Going(l)
  {
    var w, k := l.state.cur.value, |l.filedEntries|;
    && l.state.currentBytes + l.openers[k] == SizeSum(w.entries) + SizeSum(w.pages)
    && l.state.currentBytes <= c.maxBytes
    && AllFit(l.filedEntries, l.filedPages, l.openers, c.maxBytes)
    && l.state.currentBytes + l.openers[0] <= total
    && (c.maxDuration <= 0 ==> Overfull(k, c.maxBytes) + l.state.currentBytes + l.openers[0] <= total)
  }

  lemma SizesAfter(entries: seq<Item>, pages: seq<Item>, op: Op)
    ensures SizeSum(After(entries, op, true)) + SizeSum(After(pages, op, false))
            == SizeSum(entries) + SizeSum(pages) + AddedSize(op)
  {
    if !op.DoFlush? {
      SizeAppend(entries, op.item);
      SizeAppend(pages, op.item);
    }
  }

  lemma ChargedStay(c: Limits, l: Ledger, turn: Turn, total: nat)
    requires c.maxBytes > 0 && Going(l) && HealthyTurn(turn) && Charged(c, l, total)
    requires !Rotates(c, l.state, turn) && total + AddedSize(turn.op) < TWO_64
    ensures Going(Record(c, l, turn)) && Charged(c, Record(c, l, turn), total + AddedSize(turn.op))
  {
    HealthyStep(c, l, turn);
    StayStanding(c, l, turn);
    StayCharge(c, l, turn);
    StaySums(c, l, turn);
    ChargedGrown(c, l, Record(c, l, turn), AddedSize(turn.op), total);
  }

  /** Without a rotation the current file grows by the item of the turn. */
  lemma StaySums(c: Limits, l: Ledger, turn: Turn)
    requires Going(l) && HealthyTurn(turn) && !Rotates(c, l.state, turn)
    ensures var m, w := Record(c, l, turn), l.state.cur.value;
            && m == l.(state := m.state) && m.state.cur.Some?
            && SizeSum(m.state.cur.value.entries) + SizeSum(m.state.cur.value.pages)
               == SizeSum(w.entries) + SizeSum(w.pages) + AddedSize(turn.op)
  {
    HealthyStep(c, l, turn);
    StayEffect(c, l, turn);
    SizesAfter(l.state.cur.value.entries, l.state.cur.value.pages, turn.op);
  }

  lemma ChargedGrown(c: Limits, l: Ledger, m: Ledger, size: nat, total: nat)
    requires Going(l) && Charged(c, l, total) && Going(m) && m == l.(state := m.state)
    requires m.state.currentBytes == l.state.currentBytes + size <= c.maxBytes
    requires SizeSum(m.state.cur.value.entries) + SizeSum(m.state.cur.value.pages)
             == SizeSum(l.state.cur.value.entries) + SizeSum(l.state.cur.value.pages) + size
    ensures Charged(c, m, total + size)
  {
  }

  lemma StayStanding(c: Limits, l: Ledger, turn: Turn)
    requires Going(l) && HealthyTurn(turn) && !Rotates(c, l.state, turn)
    ensures Standing(Record(c, l, turn))
  {
    var entries := Concat(l.filedEntries) + CurrentItems(l.state, true);
    StayKeeps(c, l, turn, entries, Concat(l.filedPages) + CurrentItems(l.state, false));
  }

  /** Without a rotation exactly the item of the turn is charged, and the limit is kept. */
  lemma StayCharge(c: Limits, l: Ledger, turn: Turn)
    requires c.maxBytes > 0 && Going(l) && HealthyTurn(turn) && !Rotates(c, l.state, turn)
    requires l.state.currentBytes <= c.maxBytes
    ensures var t := Record(c, l, turn).state;
            t.currentBytes == AddU64(l.state.currentBytes, AddedSize(turn.op)) <= c.maxBytes
  {
  }

  /** What a rotation away from a file adds to the history. */
  lemma RotateRecord(c: Limits, l: Ledger, turn: Turn)
    requires Going(l) && HealthyTurn(turn) && Rotates(c, l.state, turn)
    ensures var m, w := Record(c, l, turn), l.state.cur.value;
            && m.openers == l.openers + [AddedSize(turn.op)]
            && m.filedEntries == l.filedEntries + [w.entries] && m.filedPages == l.filedPages + [w.pages]
            && |l.openers| == |l.filedEntries| + 1
  {
  }

  lemma FitsMore(entries: seq<seq<Item>>, pages: seq<seq<Item>>, openers: seq<nat>, limit: nat,
                 e: seq<Item>, p: seq<Item>, o: nat)
    requires AllFit(entries, pages, openers, limit) && |openers| == |entries| + 1
    requires SizeSum(e) + SizeSum(p) <= limit + openers[|entries|]
    ensures AllFit(entries + [e], pages + [p], openers + [o], limit)
  {
  }

  /** Without a limit on the age there is only one reason for a rotation. */
  lemma ChargedRotate(c: Limits, l: Ledger, turn: Turn, total: nat)
    requires c.maxBytes > 0 && Going(l) && HealthyTurn(turn) && Charged(c, l, total)
    requires Rotates(c, l.state, turn) && total + AddedSize(turn.op) < TWO_64
    ensures Going(Record(c, l, turn)) && Charged(c, Record(c, l, turn), total + AddedSize(turn.op))
  {
    HealthyStep(c, l, turn);
    RotateStanding(c, l, turn);
    RotateRecord(c, l, turn);
    NewFile(c, l, turn);
    if c.maxDuration <= 0 {
      OnlyWhenFull(c, l.state, turn);
    }
    ChargedNew(c, l, Record(c, l, turn), AddedSize(turn.op), total);
  }

  lemma ChargedNew(c: Limits, l: Ledger, m: Ledger, size: nat, total: nat)
    requires Going(l) && Charged(c, l, total) && Going(m) && m.state.currentBytes == 0
    requires m.openers == l.openers + [size]
    requires m.filedEntries == l.filedEntries + [l.state.cur.value.entries]
    requires m.filedPages == l.filedPages + [l.state.cur.value.pages]
    requires SizeSum(m.state.cur.value.entries) + SizeSum(m.state.cur.value.pages) == size
    requires c.maxDuration <= 0 ==> l.state.currentBytes + size > c.maxBytes
    ensures Charged(c, m, total + size)
  {
    FitsMore(l.filedEntries, l.filedPages, l.openers, c.maxBytes, l.state.cur.value.entries, l.state.cur.value.pages,
             size);
    OverfullMore(|l.filedEntries|, c.maxBytes);
  }

  lemma OverfullMore(k: nat, limit: nat)
    ensures Overfull(k + 1, limit) == Overfull(k, limit) + (limit + 1)
  {
  }

  /** A new file holds what opened it, and nothing is charged for that. */
  lemma NewFile(c: Limits, l: Ledger, turn: Turn)
    requires Standing(l) && HealthyTurn(turn) && Rotates(c, l.state, turn)
    ensures var t := Record(c, l, turn).state;
            && t.cur.Some? && t.currentBytes == 0
            && SizeSum(t.cur.value.entries) + SizeSum(t.cur.value.pages) == AddedSize(turn.op)
  {
    RotateEffect(c, l, turn);
    SizesAfter([], [], turn.op);
  }

  lemma OnlyWhenFull(c: Limits, s: Rotation, turn: Turn)
    requires c.maxBytes > 0 && c.maxDuration <= 0 && s.cur.Some? && HealthyTurn(turn)
    requires s.currentBytes <= c.maxBytes && s.currentBytes + AddedSize(turn.op) < TWO_64
    requires Rotates(c, s, turn)
    ensures s.currentBytes + AddedSize(turn.op) > c.maxBytes
  {
  }

  /** The first turn of a run makes the first file. */
  lemma ChargedFirst(c: Limits, l: Ledger, turn: Turn)
    requires Standing(l) && l.state.cur.None? && HealthyTurn(turn)
    ensures Going(Record(c, l, turn)) && Charged(c, Record(c, l, turn), AddedSize(turn.op))
  {
    HealthyStep(c, l, turn);
    RotateStanding(c, l, turn);
    NewFile(c, l, turn);
  }

  lemma {:induction false} RunCharged(c: Limits, start: Rotation, turns: seq<Turn>)
    requires c.maxBytes > 0 && Fresh(start) && Healthy(turns) && turns != [] && TotalSize(turns) < TWO_64
    ensures Going(Run(c, start, turns)) && Charged(c, Run(c, start, turns), TotalSize(turns))
  {
    var n := |turns| - 1;
    var l := Run(c, start, turns[..n]);
    if n == 0 {
      ChargedFirst(c, l, turns[n]);
      assert turns[..n] == [];
    } else {
      RunCharged(c, start, turns[..n]);
      if Rotates(c, l.state, turns[n]) {
        ChargedRotate(c, l, turns[n], TotalSize(turns[..n]));
      } else {
        ChargedStay(c, l, turns[n], TotalSize(turns[..n]));
      }
    }
  }

  /** The item whose call made file i is not charged to it; all other items of a file fit the limit together. */
  lemma FilesFitTheLimit(c: Limits, start: Rotation, turns: seq<Turn>)
    requires c.maxBytes > 0 && Fresh(start) && Healthy(turns) && turns != [] && TotalSize(turns) < TWO_64
    ensures var l := Run(c, start, turns);
            var w, k := l.state.cur.value, |l.filedEntries|;
            && l.state.cur.Some? && |l.filedPages| == k && |l.openers| == k + 1
            && l.state.currentBytes + l.openers[k] == SizeSum(w.entries) + SizeSum(w.pages)
            && l.state.currentBytes <= c.maxBytes
            && forall i | 0 <= i < k ::
                 SizeSum(l.filedEntries[i]) + SizeSum(l.filedPages[i]) <= c.maxBytes + l.openers[i]
  {
    RunCharged(c, start, turns);
  }

  /** What overfilling comes to, as a product. */
  lemma ProductBound(k: nat, limit: nat, size: int)
    requires Overfull(k, limit) <= size
    ensures k * (limit + 1) <= size
  {
    OverfullProduct(k, limit);
  }

  /**
   * The files pay for themselves: k files need items of a total size of at least (k - 1) * (maxBytes + 1), the one
   * that opened the first file not counted.
   */
  predicate FilesPay(c: Limits, l: Ledger, total: nat) {
    && |l.openers| == |l.names| >= 1
    && (|l.names| - 1) * (c.maxBytes + 1) <= total - l.openers[0]
  }

  lemma ChargesCount(c: Limits, l: Ledger, total: nat)
    requires Going(l) && Charged(c, l, total) && c.maxDuration <= 0
    ensures |l.openers| == |l.names| >= 1 && Overfull(|l.names| - 1, c.maxBytes) <= total - l.openers[0]
  {
  }

  lemma CountsPay(c: Limits, l: Ledger, total: nat)
    requires |l.openers| == |l.names| >= 1 && Overfull(|l.names| - 1, c.maxBytes) <= total - l.openers[0]
    ensures FilesPay(c, l, total)
  {
    ProductBound(|l.names| - 1, c.maxBytes, total - l.openers[0]);
  }

  lemma ChargesPay(c: Limits, l: Ledger, total: nat)
    requires Going(l) && Charged(c, l, total) && c.maxDuration <= 0
    ensures FilesPay(c, l, total)
  {
    ChargesCount(c, l, total);
    CountsPay(c, l, total);
  }

  /** Without a limit on the age rotation never happens without need. */
  lemma RotationsAreNeeded(c: Limits, start: Rotation, turns: seq<Turn>)
    requires c.maxBytes > 0 && c.maxDuration <= 0
    requires Fresh(start) && Healthy(turns) && turns != [] && TotalSize(turns) < TWO_64
    ensures FilesPay(c, Run(c, start, turns), TotalSize(turns))
  {
    RunCharged(c, start, turns);
    ChargesPay(c, Run(c, start, turns), TotalSize(turns));
  }

  /**
   * The limit is not one on the file: an item that opens a file is free, so it shares the file with any further
   * item of at most maxBytes, whatever their sizes come to together.
   */
  lemma OpenerIsFree(c: Limits, start: Rotation, a: Item, b: Item, env: Env)
    requires c.maxBytes > 0 && c.maxDuration <= 0 && Fresh(start) && env.next.Some?
    requires a.Good? && b.Good? && Size(b) <= c.maxBytes
    ensures var l := Run(c, start, [Turn(AddEntry(a), env), Turn(AddEntry(b), env)]);
            l.names == [env.next.value] && l.state.cur.Some? && l.state.cur.value.entries == [a, b]
  {
    var first, second := Turn(AddEntry(a), env), Turn(AddEntry(b), env);
    assert [first, second][..1] == [first] && [first][..0] == [];
    assert Run(c, start, [first]) == Record(c, Run(c, start, []), first);
    assert Run(c, start, [first, second]) == Record(c, Run(c, start, [first]), second);
  }

  // ----- Bytes on disk -----

  /** What is charged for items is the length of their texts. */
  lemma {:induction false} SizesAreTexts(items: seq<Item>)
    requires AllGood(items)
    ensures SizeSum(items) == TextLengths(Jsons(items))
  {
    if items != [] {
      var before := items[..|items| - 1];
      SizesAreTexts(before);
      assert Jsons(items)[..|items| - 1] == Jsons(before) && Jsons(items)[|items| - 1] == items[|items| - 1].json;
    }
  }

  /** The bytes of a file that come with any items: an empty archive, and the commas. */
  function Around(version: Version, entries: nat, pages: nat): nat {
    |Document(version, [], [])| + Commas(entries) + Commas(pages)
  }

  lemma DocumentLength(version: Version, entries: seq<Item>, pages: seq<Item>)
    requires AllGood(entries) && AllGood(pages)
    ensures |Document(version, entries, pages)|
            == Around(version, |entries|, |pages|) + SizeSum(entries) + SizeSum(pages)
  {
    HarFileLength(Archive(version, Jsons(pages), Jsons(entries)));
    assert Jsons([]) == [];
    SizesAreTexts(entries);
    SizesAreTexts(pages);
  }

  /**
   * So the limit is one on the files: each file that has been closed is, apart from what surrounds the items, no longer
   * than maxBytes and the item that opened it.
   */
  lemma FilesOnDiskFit(c: Limits, start: Rotation, turns: seq<Turn>, i: nat)
    requires c.maxBytes > 0 && Fresh(start) && Healthy(turns) && turns != [] && TotalSize(turns) < TWO_64
    requires FileNames.Distinct(Run(c, start, turns).names) && i < |Run(c, start, turns).filedEntries|
    ensures var l := Run(c, start, turns);
            && |l.filedEntries| == |l.filedPages| < |l.names| == |l.openers| && l.names[i] in l.state.files
            && |l.state.files[l.names[i]]|
               <= Around(c.version, |l.filedEntries[i]|, |l.filedPages[i]|) + c.maxBytes + l.openers[i]
  {
    HealthyBefore(turns);
    RunKeeps(c, start, turns);
    RunCharged(c, start, turns);
    FiledLength(c, Run(c, start, turns), TotalSize(turns), i);
  }

  lemma FiledLength(c: Limits, l: Ledger, total: nat, i: nat)
    requires Going(l) && Charged(c, l, total) && OnDisk(c, l) && i < |l.filedEntries|
    ensures |l.filedEntries| == |l.filedPages| < |l.names| == |l.openers| && l.names[i] in l.state.files
    ensures |l.state.files[l.names[i]]|
            <= Around(c.version, |l.filedEntries[i]|, |l.filedPages[i]|) + c.maxBytes + l.openers[i]
  {
    DocumentLength(c.version, l.filedEntries[i], l.filedPages[i]);
  }
}
