/** Recording trips from many goroutines at once: every interleaving of the steps of RoundTrip and closeNotify. */
module ExactlyOnce {
  import opened Common
  import Copier

  /**
   * Where a call of closeNotify is: waiting for the mutex, about to look at the flag, about to unlock after setting
   * it, about to run the callback, or back. A call that found the flag set is back without having been first.
   */
  datatype Pc = Waiting | Holding | Marked | Unlocked | Back(first: bool)

  /** An included trip: recorded by RoundTrip itself (no response or no body), or through its body's copier. */
  datatype Trip =
    | Direct(recorded: bool)
    | Streamed(holder: Option<nat>, closed: bool, calls: map<nat, Pc>)

  /** All trips so far, and the calls of sendEntry in order, each by the trip it is for. */
  datatype World = World(trips: map<nat, Trip>, sent: seq<nat>)

  const START := World(map[], [])

  datatype Action =
    | BeginDirect(t: nat)
    | BeginStreamed(t: nat)
    | RecordDirect(t: nat)
    | Call(t: nat, i: nat)
    | Lock(t: nat, i: nat)
    | Look(t: nat, i: nat)
    | Unlock(t: nat, i: nat)
    | RunCallback(t: nat, i: nat)

  predicate At(w: World, t: nat, i: nat, pc: Pc) {
    t in w.trips && w.trips[t].Streamed? && i in w.trips[t].calls && w.trips[t].calls[i] == pc
  }

  predicate Enabled(w: World, a: Action) {
    match a
    case BeginDirect(t) => t !in w.trips
    case BeginStreamed(t) => t !in w.trips
    case RecordDirect(t) => t in w.trips && w.trips[t] == Direct(false)
    case Call(t, i) => t in w.trips && w.trips[t].Streamed? && i !in w.trips[t].calls
    case Lock(t, i) => At(w, t, i, Waiting) && w.trips[t].holder.None?
    case Look(t, i) => At(w, t, i, Holding)
    case Unlock(t, i) => At(w, t, i, Marked)
    case RunCallback(t, i) => At(w, t, i, Unlocked)
  }

  /** One step. A repaired closeNotify would also unlock when it finds the flag set. */
  function Next(w: World, a: Action, repaired: bool): World
    requires Enabled(w, a)
  {
    match a
    case BeginDirect(t) => w.(trips := w.trips[t := Direct(false)])
    case BeginStreamed(t) => w.(trips := w.trips[t := Streamed(None, false, map[])])
    case RecordDirect(t) => World(w.trips[t := Direct(true)], w.sent + [t])
    case Call(t, i) => w.(trips := w.trips[t := Move(w.trips[t], i, Waiting)])
    case Lock(t, i) => w.(trips := w.trips[t := Move(w.trips[t], i, Holding).(holder := Some(i))])
    case Look(t, i) =>
      var trip := w.trips[t];
      var moved := if trip.closed then Move(trip, i, Back(false)).(holder := if repaired then None else trip.holder)
                   else Move(trip, i, Marked).(closed := true);
      w.(trips := w.trips[t := moved])
    case Unlock(t, i) => w.(trips := w.trips[t := Move(w.trips[t], i, Unlocked).(holder := None)])
    case RunCallback(t, i) => World(w.trips[t := Move(w.trips[t], i, Back(true))], w.sent + [t])
  }

  function Move(trip: Trip, i: nat, pc: Pc): (r: Trip)
    requires trip.Streamed?
    ensures r.Streamed?
  {
    trip.(calls := trip.calls[i := pc])
  }

  /** An interleaving: the worlds it goes through and the actions between them. */
  ghost predicate Interleaving(worlds: seq<World>, actions: seq<Action>, repaired: bool) {
    && |worlds| == |actions| + 1 && worlds[0] == START
    && forall k | 0 <= k < |actions| ::
         Enabled(worlds[k], actions[k]) && worlds[k + 1] == Next(worlds[k], actions[k], repaired)
  }

  // ----- What every step keeps -----

  /** The call that set the flag. */
  predicate Winner(pc: Pc) {
    pc == Marked || pc == Unlocked || pc == Back(true)
  }

  /** The mutex is held by whoever is inside, or by a call that went back with it. */
  ghost predicate Locking(trip: Trip, repaired: bool)
    requires trip.Streamed?
  {
    && (forall i | i in trip.calls && (trip.calls[i] == Holding || trip.calls[i] == Marked) :: trip.holder == Some(i))
    && (!repaired ==> forall i | i in trip.calls && trip.calls[i] == Back(false) :: trip.holder == Some(i))
    && (trip.holder.Some? ==>
          && trip.holder.value in trip.calls
          && (var pc := trip.calls[trip.holder.value];
              pc == Holding || pc == Marked || (pc == Back(false) && !repaired)))
  }

  ghost predicate OneWinner(trip: Trip)
    requires trip.Streamed?
  {
    && (forall i, j | i in trip.calls && j in trip.calls && Winner(trip.calls[i]) && Winner(trip.calls[j]) :: i == j)
    && (trip.closed <==> exists i :: i in trip.calls && Winner(trip.calls[i]))
    && (forall i | i in trip.calls && trip.calls[i] == Back(false) :: trip.closed)
  }

  /** A trip is finished when its recording has been done: by RoundTrip, or by the call that was first. */
  predicate Finished(trip: Trip) {
    match trip
    case Direct(recorded) => recorded
    case Streamed(_, _, calls) => exists i | i in calls :: calls[i] == Back(true)
  }

  ghost predicate Inv(w: World, repaired: bool) {
    && (forall t | t in w.trips && w.trips[t].Streamed? :: Locking(w.trips[t], repaired) && OneWinner(w.trips[t]))
    && (forall t :: multiset(w.sent)[t] == if t in w.trips && Finished(w.trips[t]) then 1 else 0)
  }

  lemma StepInv(w: World, a: Action, repaired: bool)
    requires Inv(w, repaired) && Enabled(w, a)
    ensures Inv(Next(w, a, repaired), repaired)
  {
    var u := Next(w, a, repaired);
    var t := a.t;
    assert forall s | s in u.trips && s != t :: s in w.trips && u.trips[s] == w.trips[s];
    LockingStep(w, a, repaired);
    WinnerStep(w, a, repaired);
    CountStep(w, a, repaired);
    forall s ensures multiset(u.sent)[s] == if s in u.trips && Finished(u.trips[s]) then 1 else 0 {
      if s != t {
        assert multiset(w.sent)[s] == multiset(u.sent)[s];
      }
    }
  }

  lemma LockingStep(w: World, a: Action, repaired: bool)
    requires Inv(w, repaired) && Enabled(w, a)
    ensures var trip := Next(w, a, repaired).trips[a.t]; trip.Streamed? ==> Locking(trip, repaired)
  {
  }

  /** A call that moves without becoming or ceasing to be the winner. */
  lemma WinnerKept(before: Trip, after: Trip, i: nat, pc: Pc)
    requires before.Streamed? && after.Streamed? && OneWinner(before)
    requires after.closed == before.closed && after.calls == before.calls[i := pc]
    requires if i in before.calls then Winner(before.calls[i]) == Winner(pc) else !Winner(pc)
    requires pc == Back(false) ==> before.closed
    ensures OneWinner(after)
  {
    if before.closed {
      var k :| k in before.calls && Winner(before.calls[k]);
      assert k in after.calls && Winner(after.calls[k]);
    }
  }

  /** The first call to find the flag unset is the winner. */
  lemma WinnerFound(before: Trip, after: Trip, i: nat)
    requires before.Streamed? && after.Streamed? && OneWinner(before) && !before.closed
    requires after.closed && after.calls == before.calls[i := Marked]
    ensures OneWinner(after)
  {
    assert Winner(after.calls[i]);
  }

  lemma WinnerStep(w: World, a: Action, repaired: bool)
    requires Inv(w, repaired) && Enabled(w, a)
    ensures var trip := Next(w, a, repaired).trips[a.t]; trip.Streamed? ==> OneWinner(trip)
  {
    if !a.BeginDirect? && !a.BeginStreamed? && !a.RecordDirect? {
      var before, after := w.trips[a.t], Next(w, a, repaired).trips[a.t];
      if a.Look? && !before.closed {
        WinnerFound(before, after, a.i);
      } else {
        WinnerKept(before, after, a.i, after.calls[a.i]);
      }
    }
  }

  lemma CountStep(w: World, a: Action, repaired: bool)
    requires Inv(w, repaired) && Enabled(w, a)
    ensures var u := Next(w, a, repaired); multiset(u.sent)[a.t] == (if Finished(u.trips[a.t]) then 1 else 0)
  {
    if !a.BeginDirect? && !a.BeginStreamed? && !a.RecordDirect? {
      FinishedMoves(w, a, repaired);
    }
  }

  /** Only running the callback finishes a trip, and then the trip was not finished before. */
  lemma FinishedMoves(w: World, a: Action, repaired: bool)
    requires Inv(w, repaired) && Enabled(w, a)
    requires !a.BeginDirect? && !a.BeginStreamed? && !a.RecordDirect?
    ensures Finished(w.trips[a.t]) ==> !a.RunCallback?
    ensures Finished(Next(w, a, repaired).trips[a.t]) <==> Finished(w.trips[a.t]) || a.RunCallback?
  {
    var before, after := w.trips[a.t], Next(w, a, repaired).trips[a.t];
    if Finished(before) {
      var k :| k in before.calls && before.calls[k] == Back(true);
      if a.RunCallback? {
        assert false;
      }
      assert after.calls[k] == Back(true);
    }
    if a.RunCallback? {
      assert after.calls[a.i] == Back(true);
    } else if Finished(after) {
      var k :| k in after.calls && after.calls[k] == Back(true);
      assert k != a.i;
      assert before.calls[k] == Back(true);
    }
  }

  lemma {:induction false} InterleavingInv(worlds: seq<World>, actions: seq<Action>, repaired: bool)
    requires Interleaving(worlds, actions, repaired)
    ensures Inv(worlds[|actions|], repaired)
  {
    if actions != [] {
      var n := |actions| - 1;
      InterleavingInv(worlds[..|actions|], actions[..n], repaired);
      StepInv(worlds[n], actions[n], repaired);
    }
  }

  // ----- The steps of one call together -----

  /** The mutex and the flag as the copier sees them. */
  function GateOf(trip: Trip): Copier.Gate
    requires trip.Streamed?
  {
    Copier.Gate(trip.holder.Some?, trip.closed)
  }

  /** A call that nobody interrupts does what closeNotify does as a whole. */
  lemma UninterruptedCall(w: World, t: nat, i: nat)
    requires t in w.trips && w.trips[t].Streamed? && i !in w.trips[t].calls
    ensures var (gate, notice) := Copier.Notify(GateOf(w.trips[t]));
            var called := Next(w, Call(t, i), false);
            if notice.Stuck? then At(called, t, i, Waiting) && !Enabled(called, Lock(t, i))
            else
              && Enabled(called, Lock(t, i))
              && var looked := Next(Next(called, Lock(t, i), false), Look(t, i), false);
                 if notice.Repeated? then At(looked, t, i, Back(false)) && GateOf(looked.trips[t]) == gate
                 else
                   && Enabled(looked, Unlock(t, i))
                   && var free := Next(looked, Unlock(t, i), false);
                      && GateOf(free.trips[t]) == gate && Enabled(free, RunCallback(t, i))
                      && Next(free, RunCallback(t, i), false).sent == w.sent + [t]
  {
  }

  // ----- Exactly once -----

  /** The trips whose recording has been done. */
  function FinishedTrips(w: World): set<nat> {
    set t | t in w.trips && Finished(w.trips[t])
  }

  /**
   * In every interleaving, whoever reads or closes whatever and however often, sendEntry has been called once for
   * each finished trip and not at all for the others.
   */
  lemma ExactlyOnce(worlds: seq<World>, actions: seq<Action>, repaired: bool)
    requires Interleaving(worlds, actions, repaired)
    ensures var w := worlds[|actions|];
            && multiset(w.sent) == multiset(FinishedTrips(w))
            && |w.sent| == |FinishedTrips(w)|
  {
    InterleavingInv(worlds, actions, repaired);
    var w := worlds[|actions|];
    assert multiset(w.sent) == multiset(FinishedTrips(w));
    assert |multiset(w.sent)| == |w.sent|;
  }

  /** Nothing more can happen to the calls made on a trip so far. */
  ghost predicate Quiet(w: World, t: nat) {
    forall i :: && !Enabled(w, Lock(t, i)) && !Enabled(w, Look(t, i))
                && !Enabled(w, Unlock(t, i)) && !Enabled(w, RunCallback(t, i))
  }

  /** Once the calls on a body have come to rest, its trip has been recorded: once if there was a call, else never. */
  lemma RecordedWhenQuiet(worlds: seq<World>, actions: seq<Action>, repaired: bool, t: nat)
    requires Interleaving(worlds, actions, repaired)
    requires var w := worlds[|actions|]; t in w.trips && w.trips[t].Streamed? && Quiet(w, t)
    ensures var w := worlds[|actions|];
            multiset(w.sent)[t] == if w.trips[t].calls == map[] then 0 else 1
  {
    InterleavingInv(worlds, actions, repaired);
    var w := worlds[|actions|];
    var trip := w.trips[t];
    if trip.calls != map[] {
      QuietHasWinner(w, t, repaired);
    }
  }

  lemma QuietHasWinner(w: World, t: nat, repaired: bool)
    requires Inv(w, repaired) && t in w.trips && w.trips[t].Streamed? && Quiet(w, t)
    requires w.trips[t].calls != map[]
    ensures exists k :: k in w.trips[t].calls && w.trips[t].calls[k] == Back(true)
  {
    var trip := w.trips[t];
    var i :| i in trip.calls;
    if trip.calls[i] == Waiting {
      assert !Enabled(w, Lock(t, i));
      var h := trip.holder.value;
      assert !Enabled(w, Look(t, h)) && !Enabled(w, Unlock(t, h));
      assert trip.closed;
    } else {
      assert !Enabled(w, Look(t, i)) && !Enabled(w, Unlock(t, i)) && !Enabled(w, RunCallback(t, i));
      assert trip.closed;
    }
    var k :| k in trip.calls && Winner(trip.calls[k]);
    assert !Enabled(w, Unlock(t, k)) && !Enabled(w, RunCallback(t, k));
  }

  // ----- Which calls come back -----

  /** The calls of closeNotify on a body that have returned. */
  function Returned(trip: Trip): set<nat>
    requires trip.Streamed?
  {
    set i | i in trip.calls && trip.calls[i].Back?
  }

  /** As the code is, no more than two calls on one body ever return. */
  lemma AtMostTwoReturn(worlds: seq<World>, actions: seq<Action>, t: nat)
    requires Interleaving(worlds, actions, false)
    requires var w := worlds[|actions|]; t in w.trips && w.trips[t].Streamed?
    ensures |Returned(worlds[|actions|].trips[t])| <= 2
  {
    InterleavingInv(worlds, actions, false);
    var trip := worlds[|actions|].trips[t];
    var first := set i | i in trip.calls && trip.calls[i] == Back(true);
    var later := set i | i in trip.calls && trip.calls[i] == Back(false);
    AtMostOne(first);
    AtMostOne(later);
    assert Returned(trip) == first + later;
  }

  lemma AtMostOne(s: set<nat>)
    requires forall i, j | i in s && j in s :: i == j
    ensures |s| <= 1
  {
    if s != {} {
      var i :| i in s;
      assert s == {i};
    }
  }

  /** A call that finds the flag set keeps the mutex for good, so whoever waits then waits forever. */
  lemma WaitsForever(w: World, a: Action, t: nat, i: nat, j: nat)
    requires Inv(w, false) && Enabled(w, a) && At(w, t, i, Back(false)) && At(w, t, j, Waiting)
    ensures var u := Next(w, a, false);
            Inv(u, false) && At(u, t, i, Back(false)) && At(u, t, j, Waiting)
  {
    StepInv(w, a, false);
    assert w.trips[t].holder == Some(i);
  }

  /** At rest, all calls on a body have returned exactly when there were at most two; with the unlock, always. */
  lemma AllReturnIff(worlds: seq<World>, actions: seq<Action>, repaired: bool, t: nat)
    requires Interleaving(worlds, actions, repaired)
    requires var w := worlds[|actions|]; t in w.trips && w.trips[t].Streamed? && Quiet(w, t)
    ensures var trip := worlds[|actions|].trips[t];
            Returned(trip) == trip.calls.Keys <==> repaired || |trip.calls| <= 2
  {
    InterleavingInv(worlds, actions, repaired);
    var w := worlds[|actions|];
    var trip := w.trips[t];
    if Returned(trip) == trip.calls.Keys && !repaired {
      AtMostTwoReturn(worlds, actions, t);
    }
    if Returned(trip) != trip.calls.Keys {
      var i :| i in trip.calls && i !in Returned(trip);
      StuckMeansThree(w, t, i, repaired);
    }
  }

  /** Who is stuck waits for a call that came back with the mutex after another one had been first. */
  lemma StuckMeansThree(w: World, t: nat, i: nat, repaired: bool)
    requires Inv(w, repaired) && t in w.trips && w.trips[t].Streamed? && Quiet(w, t)
    requires i in w.trips[t].calls && !w.trips[t].calls[i].Back?
    ensures !repaired && |w.trips[t].calls| > 2
  {
    var trip := w.trips[t];
    assert !Enabled(w, Lock(t, i)) && !Enabled(w, Look(t, i));
    assert !Enabled(w, Unlock(t, i)) && !Enabled(w, RunCallback(t, i));
    var h := trip.holder.value;
    assert !Enabled(w, Look(t, h)) && !Enabled(w, Unlock(t, h));
    QuietHasWinner(w, t, repaired);
    var k :| k in trip.calls && trip.calls[k] == Back(true);
    ThreeKeys(trip.calls.Keys, i, h, k);
    assert |trip.calls| == |trip.calls.Keys|;
  }

  lemma ThreeKeys(s: set<nat>, i: nat, j: nat, k: nat)
    requires i in s && j in s && k in s && i != j && j != k && i != k
    ensures |s| > 2
  {
    assert {i, j, k} <= s;
    assert s == {i, j, k} + (s - {i, j, k});
    assert |{i, j, k}| == 3;
  }
}
