/** Concrete runs of the shutdown protocol: what its guarantees do not cover, and that their exceptions happen. */
module ShutdownRuns {
  import opened Types
  import opened BackgroundTasks
  import opened ShutdownSafety
  import opened ShutdownTheorems

  ghost predicate Reaches(s: State, s': State) {
    exists steps :: CanAll(s, steps) && DoAll(s, steps) == s'
  }

  /** The set of states is closed under steps, so it holds whatever runs from its members reach. */
  ghost predicate Closed(r: State -> bool) {
    forall s: State, step: Step | r(s) && Can(s, step) :: r(Do(s, step))
  }

  lemma ReachableIsClosed(s: State) returns (r: State -> bool)
    ensures Closed(r) && r(s) && forall z :: r(z) ==> Reaches(s, z)
  {
    r := z => Reaches(s, z);
    forall z: State, step: Step | r(z) && Can(z, step) ensures r(Do(z, step)) {
      var p :| CanAll(s, p) && DoAll(s, p) == z;
      Then(s, p, step);
    }
    assert CanAll(s, []) && DoAll(s, []) == s;
  }

  /** A snapshot of the parts these runs look at; only agents 0 and 1 are busy, and nobody holds the lock. */
  ghost predicate Where(s: State, gates: Gates, count: int, main: Main, ph0: Phase, ph1: Phase) {
    && s.gates == gates && s.count == count && s.main == main && s.lock == None
    && forall a: Agent :: Ph(s, a) == if a == 0 then ph0 else if a == 1 then ph1 else Idle
  }

  lemma Act0(r: State -> bool, s1: State, act: Act, ph1: Phase) returns (s2: State)
    requires Closed(r) && r(s1) && Where(s1, s1.gates, s1.count, s1.main, From(act), ph1) && Reaped(act) == {}
    requires !InLock(From(act)) && !InLock(To(s1.gates, s1.count, act))
    ensures r(s2)
    ensures Where(s2, ActGates(s1.gates, act), ActCount(s1.count, act), s1.main, To(s1.gates, s1.count, act), ph1)
    ensures s2.notified == (s1.notified || act.BackOutNotify? || act.DropNotify?)
  {
    s2 := Do(s1, By(0, act));
    OthersStay(s1, 0, act);
  }

  lemma Act1(r: State -> bool, s1: State, act: Act, ph0: Phase) returns (s2: State)
    requires Closed(r) && r(s1) && Where(s1, s1.gates, s1.count, s1.main, ph0, From(act)) && Reaped(act) == {}
    requires !InLock(From(act)) && !InLock(To(s1.gates, s1.count, act))
    ensures r(s2)
    ensures Where(s2, ActGates(s1.gates, act), ActCount(s1.count, act), s1.main, ph0, To(s1.gates, s1.count, act))
  {
    s2 := Do(s1, By(1, act));
    OthersStay(s1, 1, act);
  }

  lemma Move1(r: State -> bool, s1: State, move: Move, ph0: Phase, ph1: Phase) returns (s2: State)
    requires Closed(r) && r(s1) && CanMove(s1, move) && Where(s1, s1.gates, s1.count, s1.main, ph0, ph1)
    ensures r(s2)
    ensures Where(s2, MoveGates(s1.gates, move), s1.count, MoveMain(s1.main, s1.count, s1.notified, move), ph0, ph1)
    ensures s2.notified == (s1.notified && !move.Create? && !move.Renew?)
  {
    s2 := Do(s1, Shutdown(move));
    assert forall a: Agent :: Ph(s2, a) == Ph(s1, a);
  }

  const OPEN := Gates(false, false, false)
  const SHUT := Gates(true, false, false)
  const PUBLISHED := Gates(true, true, true)

  /** begin_embed_admission of agent 0, all the way to a live guard. */
  lemma Admit0(r: State -> bool, s1: State, ph1: Phase) returns (s2: State)
    requires Closed(r) && r(s1) && Where(s1, OPEN, s1.count, s1.main, Idle, ph1)
    ensures r(s2) && Where(s2, OPEN, s1.count + 1, s1.main, Holding, ph1)
  {
    s2 := Act0(r, s1, Begin, ph1);
    s2 := Act0(r, s2, Increment, ph1);
    s2 := Act0(r, s2, Recheck, ph1);
  }

  lemma Admit1(r: State -> bool, s1: State, ph0: Phase) returns (s2: State)
    requires Closed(r) && r(s1) && Where(s1, OPEN, s1.count, s1.main, ph0, Idle)
    ensures r(s2) && Where(s2, OPEN, s1.count + 1, s1.main, ph0, Holding)
  {
    s2 := Act1(r, s1, Begin, ph0);
    s2 := Act1(r, s2, Increment, ph0);
    s2 := Act1(r, s2, Recheck, ph0);
  }

  /** The drop of agent 0's guard, up to and including its decrement. */
  lemma Drop0(r: State -> bool, s1: State, ph1: Phase) returns (s2: State)
    requires Closed(r) && r(s1) && Where(s1, s1.gates, s1.count, s1.main, Holding, ph1)
    ensures r(s2)
    ensures Where(s2, s1.gates, s1.count - 1, s1.main, if s1.count == 1 then LastDropped else Idle, ph1)
    ensures s2.notified == s1.notified
  {
    s2 := Act0(r, s1, StartDrop, ph1);
    s2 := Act0(r, s2, Decrement, ph1);
  }

  /** The shutdown call from its start to parking on a positive count. */
  lemma Park(r: State -> bool, s1: State, ph0: Phase, ph1: Phase) returns (s2: State)
    requires Closed(r) && r(s1) && Where(s1, s1.gates, s1.count, Creating, ph0, ph1) && s1.count > 0
    ensures r(s2) && Where(s2, s1.gates, s1.count, Parked, ph0, ph1)
  {
    s2 := Move1(r, s1, Create, ph0, ph1);
    s2 := Move1(r, s2, Enable, ph0, ph1);
    s2 := Move1(r, s2, Look, ph0, ph1);
  }

  lemma TimeOut(r: State -> bool, s1: State, ph0: Phase, ph1: Phase) returns (s2: State)
    requires Closed(r) && r(s1) && Where(s1, OPEN, s1.count, Off, ph0, ph1) && s1.count > 0
    ensures r(s2) && Where(s2, SHUT, s1.count, ClosingSpawns, ph0, ph1)
  {
    s2 := Move1(r, s1, Start, ph0, ph1);
    s2 := Park(r, s2, ph0, ph1);
    s2 := Move1(r, s2, Deadline, ph0, ph1);
  }

  /** Closing the admitted spawns and publishing the reset flag. */
  lemma PublishTimeOut(r: State -> bool, s1: State, ph0: Phase, ph1: Phase) returns (s2: State)
    requires Closed(r) && r(s1) && Where(s1, SHUT, s1.count, ClosingSpawns, ph0, ph1)
    ensures r(s2) && Where(s2, PUBLISHED, s1.count, TakingLate, ph0, ph1)
  {
    s2 := Move1(r, s1, CloseSpawns, ph0, ph1);
    s2 := Move1(r, s2, Publish, ph0, ph1);
  }

  lemma InitialWhere()
    ensures Where(INITIAL, OPEN, 0, Off, Idle, Idle)
  {
  }

  /** A last drop that swaps before the flag is published strands the coordinator with both gates closed. */
  lemma LateDropStrandsIn(r: State -> bool) returns (z: State)
    requires Closed(r) && r(INITIAL)
    ensures r(z) && Stranded(z) && Where(z, PUBLISHED, 0, TakingLate, LastNotify, Idle)
  {
    InitialWhere();
    z := Admit0(r, INITIAL, Idle);
    z := TimeOut(r, z, Holding, Idle);
    z := Drop0(r, z, Idle);
    z := Act0(r, z, SwapReset, Idle);
    z := PublishTimeOut(r, z, LastNotify, Idle);
  }

  /** A begin that backs out last strands it too: its decrement does not look at the flag. */
  lemma BackOutStrandsIn(r: State -> bool) returns (z: State)
    requires Closed(r) && r(INITIAL)
    ensures r(z) && Stranded(z) && z.count == 0
  {
    InitialWhere();
    z := Admit0(r, INITIAL, Idle);
    z := Act1(r, z, Begin, Holding);
    z := TimeOut(r, z, Holding, Checked);
    z := Act1(r, z, Increment, Holding);
    z := PublishTimeOut(r, z, Holding, Counted);
    z := Drop0(r, z, Counted);
    z := Act1(r, z, Recheck, Idle);
    z := Act1(r, z, BackOut, Idle);
  }

  /** Reopening by agent 0, which reached zero with its drop. */
  lemma Reopen0(r: State -> bool, s1: State, ph1: Phase) returns (s2: State)
    requires Closed(r) && r(s1) && Where(s1, s1.gates, s1.count, s1.main, LastDropped, ph1) && s1.gates.reset
    ensures r(s2) && Where(s2, OPEN, s1.count, s1.main, LastNotify, ph1) && s2.notified == s1.notified
  {
    s2 := Act0(r, s1, SwapReset, ph1);
    s2 := Act0(r, s2, DropOpensSpawns, ph1);
    s2 := Act0(r, s2, DropOpensGate, ph1);
  }

  /** A drop that reached zero before the shutdown began, and swaps only after it timed out, reopens the gates
      although another guard is live. */
  lemma StaleSwapReopensEarlyIn(r: State -> bool) returns (z: State)
    requires Closed(r) && r(INITIAL)
    ensures r(z) && z.main == TakingLate && GuardLive(Ph(z, 1)) && z.count == 1 && z.gates == OPEN
  {
    InitialWhere();
    z := Admit0(r, INITIAL, Idle);
    z := Drop0(r, z, Idle);
    z := Admit1(r, z, LastDropped);
    z := TimeOut(r, z, LastDropped, Holding);
    z := PublishTimeOut(r, z, LastDropped, Holding);
    z := Reopen0(r, z, Holding);
  }

  /** What a second shutdown does first if it starts while the gate is still closed. */
  function StartAnyway(s: State): State {
    s.(gates := s.gates.(shuttingDown := true), main := Creating, cleaned := false)
  }

  /** Why a shutdown has to start from the open gate: started while a timed-out predecessor's flag is up, it can see
      zero admissions and then have a guard go live before it has reopened anything itself. */
  lemma OverlapBreaksExclusion() returns (y: State, z: State)
    ensures Reaches(INITIAL, y) && y.main == Off && y.gates == PUBLISHED
    ensures Reaches(StartAnyway(y), z) && IsDrained(z.main) && GuardLive(Ph(z, 1))
  {
    y := TimedOutAndReturned();
    z := GuardWhileDraining(StartAnyway(y));
  }

  lemma TimedOutAndReturned() returns (y: State)
    ensures Reaches(INITIAL, y) && Where(y, PUBLISHED, 1, Off, Holding, Idle)
    ensures Where(StartAnyway(y), PUBLISHED, 1, Creating, Holding, Idle)
  {
    var r := ReachableIsClosed(INITIAL);
    y := GivenUp(r);
    assert forall a: Agent :: Ph(StartAnyway(y), a) == Ph(y, a);
  }

  lemma GuardWhileDraining(s: State) returns (z: State)
    requires Where(s, PUBLISHED, 1, Creating, Holding, Idle)
    ensures Reaches(s, z) && IsDrained(z.main) && GuardLive(Ph(z, 1))
  {
    var r := ReachableIsClosed(s);
    z := SecondShutdownSeesZero(r, s);
    z := Admit1(r, z, Idle);
  }

  /** A timed-out shutdown that has returned, its flag still up and one guard still live. */
  lemma GivenUp(r: State -> bool) returns (y: State)
    requires Closed(r) && r(INITIAL)
    ensures r(y) && Where(y, PUBLISHED, 1, Off, Holding, Idle)
  {
    InitialWhere();
    y := Admit0(r, INITIAL, Idle);
    y := TimeOut(r, y, Holding, Idle);
    y := PublishTimeOut(r, y, Holding, Idle);
    y := Move1(r, y, TakeLate, Holding, Idle);
    y := Move1(r, y, CleanLate, Holding, Idle);
    y := Move1(r, y, ReturnLate, Holding, Idle);
  }

  lemma SecondShutdownSeesZero(r: State -> bool, s: State) returns (z: State)
    requires Closed(r) && r(s) && Where(s, PUBLISHED, 1, Creating, Holding, Idle)
    ensures r(z) && Where(z, OPEN, 0, Taking, Idle, Idle)
  {
    z := Park(r, s, Holding, Idle);
    z := Drop0(r, z, Idle);
    z := Reopen0(r, z, Idle);
    z := Act0(r, z, DropNotify, Idle);
    z := Move1(r, z, Wake, Idle, Idle);
    z := Move1(r, z, Renew, Idle, Idle);
    z := Move1(r, z, Enable, Idle, Idle);
    z := Move1(r, z, Look, Idle, Idle);
  }

  lemma LateDropStrands() returns (z: State)
    ensures Reaches(INITIAL, z) && Stranded(z)
  {
    var r := ReachableIsClosed(INITIAL);
    z := LateDropStrandsIn(r);
  }

  lemma BackOutStrands() returns (z: State)
    ensures Reaches(INITIAL, z) && Stranded(z) && z.count == 0
  {
    var r := ReachableIsClosed(INITIAL);
    z := BackOutStrandsIn(r);
  }

  lemma StaleSwapReopensEarly() returns (z: State)
    ensures Reaches(INITIAL, z) && z.main == TakingLate && GuardLive(Ph(z, 1)) && z.count == 1 && z.gates == OPEN
  {
    var r := ReachableIsClosed(INITIAL);
    z := StaleSwapReopensEarlyIn(r);
  }

  // ---- A stranded coordinator, shut down again ----

  /** A second shutdown of a stranded coordinator reopens both gates and leaves the reset flag up; then a third one,
      started from the open gate, has its gate reopened by a guard drop while it drains. */
  lemma StrandedThenTwoMore() returns (y: State, w: State, z: State)
    ensures Reaches(INITIAL, y) && y.main == Off && Stranded(y)
    ensures Reaches(StartAnyway(y), w) && w.main == Off && w.gates == LEFT_UP
    ensures Reaches(w, z) && IsDrained(z.main) && GuardLive(Ph(z, 1))
  {
    y := StrandedAndReturned();
    w := ReopenedWithFlag(StartAnyway(y));
    var r := ReachableIsClosed(w);
    z := ThirdShutdown(r, w);
  }

  const LEFT_UP := Gates(false, false, true)

  lemma StrandedAndReturned() returns (y: State)
    ensures Reaches(INITIAL, y) && y.main == Off && Stranded(y) &&
            Where(StartAnyway(y), PUBLISHED, 0, Creating, Idle, Idle)
  {
    var r := ReachableIsClosed(INITIAL);
    y := LateDropStrandsIn(r);
    y := FinishLate(r, y);
    StartAnywayWhere(y);
  }

  lemma StartAnywayWhere(y: State)
    requires Where(y, PUBLISHED, 0, Off, Idle, Idle)
    ensures Stranded(y) && Where(StartAnyway(y), PUBLISHED, 0, Creating, Idle, Idle)
  {
    assert forall a: Agent :: Ph(StartAnyway(y), a) == Ph(y, a);
  }

  lemma FinishLate(r: State -> bool, s: State) returns (y: State)
    requires Closed(r) && r(s) && Where(s, PUBLISHED, 0, TakingLate, LastNotify, Idle)
    ensures r(y) && Where(y, PUBLISHED, 0, Off, Idle, Idle)
  {
    y := Act0(r, s, DropNotify, Idle);
    y := Move1(r, y, TakeLate, Idle, Idle);
    y := Move1(r, y, CleanLate, Idle, Idle);
    y := Move1(r, y, ReturnLate, Idle, Idle);
  }

  lemma ReopenedWithFlag(s: State) returns (w: State)
    requires Where(s, PUBLISHED, 0, Creating, Idle, Idle)
    ensures Reaches(s, w) && Where(w, LEFT_UP, 0, Off, Idle, Idle)
  {
    var r := ReachableIsClosed(s);
    w := Move1(r, s, Create, Idle, Idle);
    w := Move1(r, w, Enable, Idle, Idle);
    w := Move1(r, w, Look, Idle, Idle);
    w := Move1(r, w, Take, Idle, Idle);
    w := Move1(r, w, DrainDeadline, Idle, Idle);
    w := Move1(r, w, Clean, Idle, Idle);
    w := Move1(r, w, OpenSpawns, Idle, Idle);
    w := Move1(r, w, OpenGate, Idle, Idle);
    w := Move1(r, w, Return, Idle, Idle);
  }

  lemma ThirdShutdown(r: State -> bool, w: State) returns (z: State)
    requires Closed(r) && r(w) && Where(w, LEFT_UP, 0, Off, Idle, Idle)
    ensures r(z) && IsDrained(z.main) && GuardLive(Ph(z, 1))
  {
    z := Act0(r, w, Begin, Idle);
    z := Act0(r, z, Increment, Idle);
    z := Act0(r, z, Recheck, Idle);
    z := Move1(r, z, Start, Holding, Idle);
    z := Move1(r, z, Create, Holding, Idle);
    z := Move1(r, z, Enable, Holding, Idle);
    z := Drop0(r, z, Idle);
    z := Move1(r, z, Look, LastDropped, Idle);
    z := Reopen0(r, z, Idle);
    z := Admit1(r, z, LastNotify);
  }

  // ---- Spawns that passed their check before the gate closed ----

  /** Only agent 0 is busy, possibly inside the lock; `next` tasks have been spawned. */
  ghost predicate Alone(s: State, gates: Gates, count: int, main: Main, ph: Phase, lock: Option<Agent>, next: Task) {
    && s.gates == gates && s.count == count && s.main == main && s.lock == lock && s.tasks.next == next
    && forall a: Agent :: Ph(s, a) == if a == 0 then ph else Idle
  }

  lemma AloneAct(r: State -> bool, s: State, act: Act) returns (t: State)
    requires Closed(r) && r(s) && Alone(s, s.gates, s.count, s.main, From(act), s.lock, s.tasks.next)
    requires Reaped(act) == {} && (act.LockAdmitted? || act.LockBest? ==> s.lock == None)
    ensures r(t)
    ensures Alone(t, ActGates(s.gates, act), ActCount(s.count, act), s.main, To(s.gates, s.count, act),
                  ActLock(s.lock, 0, From(act), To(s.gates, s.count, act)),
                    if Inserts(act) then s.tasks.next + 1 else s.tasks.next)
  {
    t := Do(s, By(0, act));
    OthersStay(s, 0, act);
  }

  lemma AloneMove(r: State -> bool, s: State, move: Move, ph: Phase) returns (t: State)
    requires Closed(r) && r(s) && CanMove(s, move) && Alone(s, s.gates, s.count, s.main, ph, s.lock, s.tasks.next)
    ensures r(t) && Alone(t, MoveGates(s.gates, move), s.count, MoveMain(s.main, s.count, s.notified, move), ph, s.lock,
                          s.tasks.next)
    ensures t.notified == (s.notified && !move.Create? && !move.Renew?)
  {
    t := Do(s, Shutdown(move));
    assert forall a: Agent :: Ph(t, a) == Ph(s, a);
  }

  /** An admitted spawn that read the flag before it was set inserts after publication, with its guard live. */
  lemma ClearedSpawnStillInserts() returns (y: State)
    ensures Reaches(INITIAL, y) && y.gates.reset && y.count == 1 && NoPendingSwap(y)
    ensures Can(y, By(0, InsertAdmitted({}))) && Spawns(y, By(0, InsertAdmitted({})))
  {
    var r := ReachableIsClosed(INITIAL);
    y := ClearedAtPublication(r);
    InsertsAdmitted(y);
  }

  lemma ClearedAtPublication(r: State -> bool) returns (y: State)
    requires Closed(r) && r(INITIAL)
    ensures r(y) && Alone(y, PUBLISHED, 1, TakingLate, SpawnCleared, Some(0), 0)
  {
    y := ClearedAdmission(r);
    y := TimeOutAround(r, y);
  }

  lemma InsertsAdmitted(y: State)
    requires Alone(y, PUBLISHED, 1, TakingLate, SpawnCleared, Some(0), 0)
    ensures y.gates.reset && y.count == 1 && NoPendingSwap(y)
    ensures Can(y, By(0, InsertAdmitted({}))) && Spawns(y, By(0, InsertAdmitted({})))
  {
    assert Ph(y, 0) == SpawnCleared;
  }

  lemma ClearedAdmission(r: State -> bool) returns (y: State)
    requires Closed(r) && r(INITIAL)
    ensures r(y) && Alone(y, OPEN, 1, Off, SpawnCleared, Some(0), 0)
  {
    assert Alone(INITIAL, OPEN, 0, Off, Idle, None, 0);
    y := AloneAct(r, INITIAL, Begin);
    y := AloneAct(r, y, Increment);
    y := AloneAct(r, y, Recheck);
    y := AloneAct(r, y, LockAdmitted);
    y := AloneAct(r, y, CheckAdmitted);
  }

  lemma TimeOutAround(r: State -> bool, s: State) returns (y: State)
    requires Closed(r) && r(s) && Alone(s, OPEN, 1, Off, SpawnCleared, Some(0), 0)
    ensures r(y) && Alone(y, PUBLISHED, 1, TakingLate, SpawnCleared, Some(0), 0)
  {
    y := AloneMove(r, s, Start, SpawnCleared);
    y := AloneMove(r, y, Create, SpawnCleared);
    y := AloneMove(r, y, Enable, SpawnCleared);
    y := AloneMove(r, y, Look, SpawnCleared);
    y := AloneMove(r, y, Deadline, SpawnCleared);
    y := AloneMove(r, y, CloseSpawns, SpawnCleared);
    y := AloneMove(r, y, Publish, SpawnCleared);
  }

  /** A best-effort spawn that saw the gate open inserts after the wait has seen zero. */
  lemma BestEffortStillInserts() returns (y: State)
    ensures Reaches(INITIAL, y) && y.main == Taking && IsDrained(y.main)
    ensures Can(y, By(0, InsertBest)) && Spawns(y, By(0, InsertBest))
  {
    var r := ReachableIsClosed(INITIAL);
    y := BestClearedWhileDrained(r);
    InsertsBest(y);
  }

  lemma InsertsBest(y: State)
    requires Alone(y, SHUT, 0, Taking, BestCleared, Some(0), 0)
    ensures Can(y, By(0, InsertBest)) && Spawns(y, By(0, InsertBest))
  {
    assert Ph(y, 0) == BestCleared;
  }

  lemma BestClearedWhileDrained(r: State -> bool) returns (y: State)
    requires Closed(r) && r(INITIAL)
    ensures r(y) && Alone(y, SHUT, 0, Taking, BestCleared, Some(0), 0)
  {
    assert Alone(INITIAL, OPEN, 0, Off, Idle, None, 0);
    y := AloneAct(r, INITIAL, LockBest({}));
    y := AloneAct(r, y, CheckBest);
    y := AloneMove(r, y, Start, BestCleared);
    y := AloneMove(r, y, Create, BestCleared);
    y := AloneMove(r, y, Enable, BestCleared);
    y := AloneMove(r, y, Look, BestCleared);
  }
}
