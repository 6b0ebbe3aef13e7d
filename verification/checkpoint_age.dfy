/**
 * When the checkpoint receiver begins a new file: the two limits, told from what is in the files and when they were
 * made.
 */
module CheckpointAge {
  import opened Common
  import opened Archives
  import opened HarFile
  import opened Checkpoint
  import opened CheckpointRuns
  import opened CheckpointSizes

  /** The time of the last rotation is when the current file was made, as long as that is open. */
  ghost predicate Dated(l: Ledger) {
    && |l.madeAt| == |l.names|
    && (l.state.cur.Some? && l.state.cur.value.open ==>
          |l.madeAt| > 0 && l.state.lastRoll == l.madeAt[|l.madeAt| - 1])
  }

  lemma DatedStep(c: Limits, l: Ledger, turn: Turn)
    requires Standing(l) && Dated(l)
    ensures Dated(Record(c, l, turn))
  {
    if Rotates(c, l.state, turn) {
      RotateEffect(c, l, turn);
      RollDates(c, l.state, turn);
    } else {
      StayEffect(c, l, turn);
      StayDates(c, l, turn);
    }
  }

  lemma RollDates(c: Limits, s: Rotation, turn: Turn)
    requires Rotates(c, s, turn)
    ensures Perform(c, s, turn.op, turn.env).0.lastRoll == turn.env.rollAt
  {
  }

  lemma StayDates(c: Limits, l: Ledger, turn: Turn)
    requires !Rotates(c, l.state, turn)
    ensures Record(c, l, turn).state.lastRoll == l.state.lastRoll
  {
  }

  lemma {:induction false} RunDated(c: Limits, start: Rotation, turns: seq<Turn>)
    requires Fresh(start) && ProperTurns(turns)
    ensures Dated(Run(c, start, turns))
  {
    if turns != [] {
      var before := turns[..|turns| - 1];
      RunDated(c, start, before);
      RunKeeps(c, start, before);
      DatedStep(c, Run(c, start, before), turns[|turns| - 1]);
    }
  }

  // ----- No item in an old file -----

  /** In a run the clock of a turn does not go back between looking at the age and rotating. */
  predicate Forward(turns: seq<Turn>) {
    forall i | 0 <= i < |turns| :: turns[i].env.now <= turns[i].env.rollAt
  }

  lemma TakenYoung(c: Limits, l: Ledger, turn: Turn)
    requires Standing(l) && Dated(l) && 0 < c.maxDuration < MAX_INT64 && turn.env.now <= turn.env.rollAt
    requires Takes(c, l.state, turn) && Record(c, l, turn).state.cur.value.open
    ensures var m := Record(c, l, turn);
            |m.madeAt| > 0 && turn.env.now - m.madeAt[|m.madeAt| - 1] <= c.maxDuration
  {
    DatedStep(c, l, turn);
    if Rotates(c, l.state, turn) {
      RotateEffect(c, l, turn);
      RollDates(c, l.state, turn);
    } else {
      StayEffect(c, l, turn);
      StayDates(c, l, turn);
    }
  }

  lemma RunNext(c: Limits, start: Rotation, turns: seq<Turn>, i: nat)
    requires i < |turns|
    ensures Run(c, start, turns[..i + 1]) == Record(c, Run(c, start, turns[..i]), turns[i])
  {
    assert turns[..i + 1][..i] == turns[..i];
  }

  lemma SoFar(c: Limits, start: Rotation, turns: seq<Turn>, i: nat)
    requires Fresh(start) && ProperTurns(turns) && i <= |turns|
    ensures Standing(Run(c, start, turns[..i])) && Dated(Run(c, start, turns[..i]))
  {
    assert ProperTurns(turns[..i]);
    RunDated(c, start, turns[..i]);
    RunKeeps(c, start, turns[..i]);
  }

  /** The current writer after an item was accepted is the last one made. */
  lemma TakenLast(c: Limits, l: Ledger, turn: Turn)
    requires Standing(l) && Standing(Record(c, l, turn)) && Takes(c, l.state, turn)
    ensures var m := Record(c, l, turn);
            m.state.cur.Some? && |m.names| > 0 && m.state.cur.value.name == m.names[|m.names| - 1]
  {
    if Rotates(c, l.state, turn) {
      RotateEffect(c, l, turn);
    } else {
      StayEffect(c, l, turn);
    }
  }

  /**
   * With a limit on the age, an item that is accepted into an open file comes no later than that after the file was
   * made; for any items, any generator, and any clock that does not go back within a turn.
   */
  lemma ItemsAreYoung(c: Limits, start: Rotation, turns: seq<Turn>, i: nat)
    requires Fresh(start) && ProperTurns(turns) && Forward(turns) && i < |turns|
    requires 0 < c.maxDuration < MAX_INT64 && Takes(c, Run(c, start, turns[..i]).state, turns[i])
    ensures var m := Run(c, start, turns[..i + 1]);
            && m.state.cur.Some? && |m.madeAt| == |m.names| > 0
            && (m.state.cur.value.open ==>
                  && m.state.cur.value.name == m.names[|m.names| - 1]
                  && turns[i].env.now - m.madeAt[|m.madeAt| - 1] <= c.maxDuration)
  {
    var l := Run(c, start, turns[..i]);
    SoFar(c, start, turns, i);
    SoFar(c, start, turns, i + 1);
    RunNext(c, start, turns, i);
    TakenLast(c, l, turns[i]);
    if Record(c, l, turns[i]).state.cur.value.open {
      TakenYoung(c, l, turns[i]);
    }
  }

  // ----- Exactly when there is a new file -----

  /** The sizes in the current file without its opener. */
  function Load(l: Ledger): int
    requires l.state.cur.Some? && l.openers != []
  {
    SizeSum(l.state.cur.value.entries) + SizeSum(l.state.cur.value.pages) - l.openers[|l.openers| - 1]
  }

  /** One more item is too much, or the file is too old. */
  predicate TooFull(c: Limits, l: Ledger, turn: Turn)
    requires l.state.cur.Some? && l.openers != []
  {
    c.maxBytes > 0 && !turn.op.DoFlush? && Load(l) + AddedSize(turn.op) > c.maxBytes
  }

  predicate TooOld(c: Limits, l: Ledger, turn: Turn)
    requires l.madeAt != []
  {
    c.maxDuration > 0 && turn.env.now - l.madeAt[|l.madeAt| - 1] > c.maxDuration
  }

  lemma RotatesIff(c: Limits, l: Ledger, turn: Turn)
    requires Going(l) && Dated(l) && HealthyTurn(turn) && c.maxDuration < MAX_INT64
    requires c.maxBytes > 0 ==> l.state.currentBytes == Load(l) && Load(l) + AddedSize(turn.op) < TWO_64
    ensures Rotates(c, l.state, turn) <==> TooFull(c, l, turn) || TooOld(c, l, turn)
  {
  }

  lemma HealthyGoing(c: Limits, start: Rotation, turns: seq<Turn>)
    requires Fresh(start) && Healthy(turns) && turns != []
    ensures Going(Run(c, start, turns))
  {
    HealthyBefore(turns);
    HealthyRun(c, start, turns);
    RunKeeps(c, start, turns);
    var before, last := turns[..|turns| - 1], turns[|turns| - 1];
    HealthyBefore(before);
    RunKeeps(c, start, before);
    if Rotates(c, Run(c, start, before).state, last) {
      RotateEffect(c, Run(c, start, before), last);
    } else {
      StayEffect(c, Run(c, start, before), last);
    }
  }

  /** currentBytes is the load; how much that is at most. */
  lemma ChargedLoad(c: Limits, l: Ledger, total: nat)
    requires Going(l) && Charged(c, l, total)
    ensures l.state.currentBytes == Load(l) <= total
  {
  }

  lemma NamesGrow(c: Limits, l: Ledger, turn: Turn)
    requires HealthyTurn(turn)
    ensures Record(c, l, turn).names == l.names + if Rotates(c, l.state, turn) then [turn.env.next.value] else []
  {
    assert l.names + [] == l.names;
  }

  lemma LoadIsCharged(c: Limits, start: Rotation, turns: seq<Turn>)
    requires Fresh(start) && Healthy(turns) && turns != []
    requires c.maxBytes > 0 && TotalSize(turns) < TWO_64
    ensures var l := Run(c, start, turns);
            Going(l) && l.state.currentBytes == Load(l) <= TotalSize(turns)
  {
    RunCharged(c, start, turns);
    ChargedLoad(c, Run(c, start, turns), TotalSize(turns));
  }

  /**
   * After the first turn of a run without failures, a turn begins a new file exactly when its item is too much for the
   * current one or that is too old: so never without need, and always when there is need.
   */
  lemma NextFileIff(c: Limits, start: Rotation, turns: seq<Turn>, turn: Turn)
    requires Fresh(start) && Healthy(turns) && turns != [] && HealthyTurn(turn) && c.maxDuration < MAX_INT64
    requires c.maxBytes > 0 ==> TotalSize(turns) + AddedSize(turn.op) < TWO_64
    ensures var l := Run(c, start, turns);
            && l.state.cur.Some? && |l.openers| == |l.madeAt| == |l.names| > 0
            && Run(c, start, turns + [turn]).names
               == l.names + if TooFull(c, l, turn) || TooOld(c, l, turn) then [turn.env.next.value] else []
  {
    HealthyBefore(turns);
    RunDated(c, start, turns);
    HealthyGoing(c, start, turns);
    if c.maxBytes > 0 {
      LoadIsCharged(c, start, turns);
    }
    RotatesIff(c, Run(c, start, turns), turn);
    NamesGrow(c, Run(c, start, turns), turn);
    assert (turns + [turn])[..|turns|] == turns;
  }
}
