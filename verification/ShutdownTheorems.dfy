/** What the shutdown protocol guarantees over whole runs, and exactly where a timed-out shutdown stops guaranteeing
    it. */
module ShutdownTheorems {
  import opened Types
  import opened BackgroundTasks
  import opened ShutdownSafety

  // ---- Drained shutdown ----

  /** The step puts a new task into the shared set. */
  predicate Spawns(s: State, step: Step)
    requires Can(s, step)
  {
    Do(s, step).tasks.next != s.tasks.next
  }

  /** A step spawns a task only from a cleared phase, inside the lock. */
  lemma WhoSpawns(s: State, step: Step)
    requires Can(s, step)
    ensures Spawns(s, step) <==> step.By? && (step.act.InsertAdmitted? || step.act.InsertBest?)
  {
  }

  lemma DrainedStep(s: State, step: Step)
    requires LockInv(s) && DrainInv(s) && IsDrained(s.main) && Can(s, step)
    ensures Spawns(s, step) <==> step.By? && step.act.InsertBest?
    ensures Spawns(s, step) ==> s.main == Taking && s.lock == Some(step.a)
  {
    WhoSpawns(s, step);
    if Spawns(s, step) {
      assert !GuardLive(Ph(s, step.a));
      assert InLock(Ph(s, step.a)) <==> s.lock == Some(step.a);
    }
  }

  /** From the moment the wait sees zero until the gate reopens, no admission guard is live. Once the task set has been
      taken, it stays empty and nothing enters it; before that a spawn enters exactly when it is a best-effort one that
      saw the gate open and still holds the lock. */
  lemma DrainedExcludesWork(steps: seq<Step>, step: Step)
    requires CanAll(INITIAL, steps) && Can(DoAll(INITIAL, steps), step)
    requires IsDrained(DoAll(INITIAL, steps).main)
    ensures var s := DoAll(INITIAL, steps);
            && s.gates.shuttingDown
            && (forall a: Agent :: !GuardLive(Ph(s, a)))
            && (s.main != Taking ==> s.tasks.shared == {})
            && (Spawns(s, step) <==> s.main == Taking && step.By? && step.act.InsertBest?)
            && (Spawns(s, step) ==> s.lock == Some(step.a))
  {
    InitialInv();
    RunsKeepInv(INITIAL, steps);
    DrainedStep(DoAll(INITIAL, steps), step);
  }

  // ---- Task conservation ----

  /** Tasks only move forward: out of the shared set, never back into it. */
  ghost predicate Forward(t: Tasks, u: Tasks) {
    && t.next <= u.next
    && (forall x | x in u.shared :: x in t.shared || x >= t.next)
    && t.joined <= u.joined && t.dropped <= u.dropped
  }

  lemma ForwardStep(s: State, step: Step)
    requires Can(s, step)
    ensures Forward(s.tasks, Do(s, step).tasks)
  {
  }

  lemma {:induction false} TasksMoveForward(s: State, steps: seq<Step>)
    requires CanAll(s, steps)
    ensures Forward(s.tasks, DoAll(s, steps).tasks)
    decreases |steps|
  {
    if steps != [] {
      ForwardStep(s, steps[0]);
      TasksMoveForward(Do(s, steps[0]), steps[1..]);
      ForwardComposes(s.tasks, Do(s, steps[0]).tasks, DoAll(s, steps).tasks);
    }
  }

  lemma ForwardComposes(t: Tasks, u: Tasks, v: Tasks)
    requires Forward(t, u) && Forward(u, v)
    ensures Forward(t, v)
  {
  }

  /** In every run each spawned task is in exactly one of the shared set, the taken set, joined, or dropped. */
  lemma TasksAreConserved(steps: seq<Step>, t: Task)
    requires CanAll(INITIAL, steps)
    ensures var k := DoAll(INITIAL, steps).tasks;
            One(t in k.shared) + One(t in k.local) + One(t in k.joined) + One(t in k.dropped) == One(t < k.next)
  {
    InitialInv();
    RunsKeepInv(INITIAL, steps);
  }

  lemma DropStep(s: State, step: Step)
    requires CleanInv(s) && Can(s, step)
    ensures Do(s, step).tasks.dropped == s.tasks.dropped || s.cleaned
  {
    if step.Shutdown? && !step.move.Return? && !step.move.ReturnLate? {
      assert MoveTasks(s.tasks, step.move).dropped == s.tasks.dropped;
    }
  }

  /** In every run, no step drops a task before the cleanup of its shutdown has run. */
  lemma DroppedOnlyAfterCleanup(steps: seq<Step>, step: Step)
    requires CanAll(INITIAL, steps) && Can(DoAll(INITIAL, steps), step)
    ensures var s := DoAll(INITIAL, steps); Do(s, step).tasks.dropped == s.tasks.dropped || s.cleaned
  {
    InitialInv();
    RunsKeepInv(INITIAL, steps);
    DropStep(DoAll(INITIAL, steps), step);
  }

  /** Once a drained shutdown has reopened the gate, the shared set only ever holds tasks spawned after that. */
  lemma OnlyNewTasksAfterReopening(before: seq<Step>, after: seq<Step>)
    requires CanAll(INITIAL, before) && DoAll(INITIAL, before).main == OpeningGate
    requires CanAll(DoAll(INITIAL, before), [Shutdown(OpenGate)] + after)
    ensures var s := DoAll(INITIAL, before);
            forall t | t in DoAll(s, [Shutdown(OpenGate)] + after).tasks.shared :: t >= s.tasks.next
  {
    InitialInv();
    RunsKeepInv(INITIAL, before);
    TasksMoveForward(DoAll(INITIAL, before), [Shutdown(OpenGate)] + after);
  }

  // ---- No lost wake-up ----

  /** A parked waiter that no agent can still wake has already been woken. */
  lemma QuiescentWaiterIsWoken(steps: seq<Step>)
    requires CanAll(INITIAL, steps) && DoAll(INITIAL, steps).main == Parked
    requires forall a: Agent :: !InCount(Ph(DoAll(INITIAL, steps), a)) && !OwesNotice(Ph(DoAll(INITIAL, steps), a))
    ensures Can(DoAll(INITIAL, steps), Shutdown(Wake))
  {
    InitialInv();
    RunsKeepInv(INITIAL, steps);
    var s := DoAll(INITIAL, steps);
    assert forall a | a in s.agents :: !InCount(Ph(s, a));
    assert Tally(s.agents) == {};
  }

  // ---- Timed-out shutdown: how long the gates stay closed ----

  /** The count is positive in every state of the run, ends included. */
  ghost predicate PositiveThroughout(s: State, steps: seq<Step>)
    requires CanAll(s, steps)
    decreases |steps|
  {
    s.count > 0 && (steps == [] || PositiveThroughout(Do(s, steps[0]), steps[1..]))
  }

  ghost predicate NoPendingSwap(s: State) {
    forall a: Agent :: Ph(s, a) != LastDropped
  }

  lemma NoPendingSwapStep(s: State, step: Step)
    requires Inv(s) && Can(s, step) && s.gates.reset && NoPendingSwap(s) && Do(s, step).count > 0
    ensures Do(s, step).gates.reset && NoPendingSwap(Do(s, step))
  {
    if step.By? {
      OthersStay(s, step.a, step.act);
      assert Ph(s, step.a) != LastDropped;
    } else {
      assert forall a: Agent :: Ph(Do(s, step), a) == Ph(s, a);
    }
  }

  lemma {:induction false} StaysClosed(s: State, steps: seq<Step>)
    requires Inv(s) && s.gates.reset && NoPendingSwap(s) && CanAll(s, steps) && PositiveThroughout(s, steps)
    ensures DoAll(s, steps).gates == Gates(true, true, true)
    decreases |steps|
  {
    if steps != [] {
      Preserved(s, steps[0]);
      NoPendingSwapStep(s, steps[0]);
      StaysClosed(Do(s, steps[0]), steps[1..]);
    }
  }

  lemma PendingSwapOpens(s: State, a: Agent)
    requires Inv(s) && s.gates.reset && s.count > 0 && Ph(s, a) == LastDropped
    ensures var steps := [By(a, SwapReset), By(a, DropOpensSpawns)];
            CanAll(s, steps) && PositiveThroughout(s, steps) && !DoAll(s, steps).gates.closed
  {
    var x, y := By(a, SwapReset), By(a, DropOpensSpawns);
    var s1 := Do(s, x);
    assert Ph(s1, a) == ReopenSpawns;
    TwoSteps(s, x, y);
  }

  lemma TwoSteps(s: State, x: Step, y: Step)
    requires Can(s, x) && Can(Do(s, x), y)
    ensures CanAll(s, [x, y]) && DoAll(s, [x, y]) == Do(Do(s, x), y)
    ensures s.count > 0 && Do(s, x).count > 0 && Do(Do(s, x), y).count > 0 ==> PositiveThroughout(s, [x, y])
  {
    assert [x, y][1..] == [y] && [y][1..] == [];
    assert CanAll(Do(s, x), [y]);
    assert DoAll(Do(s, x), [y]) == Do(Do(s, x), y);
  }

  /** After the reset flag is published, the admitted-spawn gate stays closed for as long as the count stays positive,
      if and only if no guard drop was still between its zero-reaching decrement and its swap. */
  lemma ClosedWhilePositiveExactly(s: State)
    requires Inv(s) && s.gates.reset && s.count > 0
    ensures (forall steps | CanAll(s, steps) && PositiveThroughout(s, steps) :: DoAll(s, steps).gates.closed) <==>
            NoPendingSwap(s)
  {
    if NoPendingSwap(s) {
      forall steps | CanAll(s, steps) && PositiveThroughout(s, steps) ensures DoAll(s, steps).gates.closed {
        StaysClosed(s, steps);
      }
    } else {
      var a: Agent :| Ph(s, a) == LastDropped;
      PendingSwapOpens(s, a);
    }
  }

  // ---- Timed-out shutdown: which admitted spawns still go through ----

  /** A spawn that is cleared while the flag is up was cleared before, so it keeps the lock and the task set is not yet
      taken. */
  lemma ClearedStep(s: State, step: Step, a: Agent)
    requires LockInv(s) && Can(s, step) && s.gates.closed && Ph(Do(s, step), a) == SpawnCleared
    ensures Ph(s, a) == SpawnCleared && s.lock == Some(a)
    ensures s.main == TakingLate ==> Do(s, step).main == TakingLate
  {
    if step.By? {
      OthersStay(s, step.a, step.act);
      ClosedClearsNobody(s.gates, s.count, step.act);
    } else {
      assert Ph(Do(s, step), a) == Ph(s, a);
    }
    assert InLock(Ph(s, a)) <==> s.lock == Some(a);
  }

  lemma ClosedClearsNobody(g: Gates, count: int, act: Act)
    requires g.closed
    ensures To(g, count, act) != SpawnCleared
  {
  }

  /** After publication, while the count stays positive and no swap was pending, nobody new gets past the check. */
  lemma {:induction false} ClearedSincePublication(s: State, steps: seq<Step>, a: Agent)
    requires Inv(s) && s.gates.reset && NoPendingSwap(s) && CanAll(s, steps) && PositiveThroughout(s, steps)
    requires Ph(DoAll(s, steps), a) == SpawnCleared
    ensures Ph(s, a) == SpawnCleared && DoAll(s, steps).lock == Some(a)
    ensures s.main == TakingLate ==> DoAll(s, steps).main == TakingLate
    decreases |steps|
  {
    if steps != [] {
      Preserved(s, steps[0]);
      NoPendingSwapStep(s, steps[0]);
      ClearedSincePublication(Do(s, steps[0]), steps[1..], a);
      ClearedStep(s, steps[0], a);
    } else {
      assert InLock(Ph(s, a)) <==> s.lock == Some(a);
    }
  }

  /** While the flag is up, cleared spawns exist only before the task set is taken. */
  ghost predicate ClearedInv(s: State) {
    s.gates.reset && s.main != TakingLate ==> forall a: Agent :: Ph(s, a) != SpawnCleared
  }

  lemma ClearedInvStep(s: State, step: Step)
    requires Inv(s) && ClearedInv(s) && Can(s, step)
    ensures ClearedInv(Do(s, step))
  {
    var t := Do(s, step);
    if t.gates.reset && t.main != TakingLate {
      forall a: Agent ensures Ph(t, a) != SpawnCleared {
        if Ph(t, a) == SpawnCleared {
          FlagWasUp(s, step);
          ClearedStep(s, step, a);
        }
      }
    }
  }

  lemma FlagWasUp(s: State, step: Step)
    requires Can(s, step) && Do(s, step).gates.reset && Do(s, step).main != TakingLate
    ensures s.gates.reset
  {
  }

  lemma {:induction false} ClearedInvOverRuns(s: State, steps: seq<Step>)
    requires Inv(s) && ClearedInv(s) && CanAll(s, steps)
    ensures Inv(DoAll(s, steps)) && ClearedInv(DoAll(s, steps))
    decreases |steps|
  {
    if steps != [] {
      Preserved(s, steps[0]);
      ClearedInvStep(s, steps[0]);
      ClearedInvOverRuns(Do(s, steps[0]), steps[1..]);
    }
  }

  /** In every run, an admitted spawn that goes through while the flag is up does so inside the lock and before the
      timed-out shutdown takes the task set, so its task is among those the cleanup is run for. */
  lemma LateSpawnsAreTaken(steps: seq<Step>, step: Step)
    requires CanAll(INITIAL, steps) && Can(DoAll(INITIAL, steps), step)
    ensures var s := DoAll(INITIAL, steps);
            s.gates.reset && step.By? && step.act.InsertAdmitted? ==> s.main == TakingLate && s.lock == Some(step.a)
  {
    InitialInv();
    ClearedInvOverRuns(INITIAL, steps);
    LateSpawnIsTaken(DoAll(INITIAL, steps), step);
  }

  lemma LateSpawnIsTaken(s: State, step: Step)
    requires LockInv(s) && ClearedInv(s) && Can(s, step)
    ensures s.gates.reset && step.By? && step.act.InsertAdmitted? ==> s.main == TakingLate && s.lock == Some(step.a)
  {
    if step.By? && step.act.InsertAdmitted? {
      assert InLock(Ph(s, step.a)) <==> s.lock == Some(step.a);
    }
  }

  /** Some run that keeps the count positive lets an admitted spawn insert its task. */
  ghost predicate AdmitsSpawn(s: State) {
    exists z, a: Agent :: PositivelyReaches(s, z) && CanAct(z, a, InsertAdmitted({}))
  }

  ghost predicate PositivelyReaches(s: State, z: State) {
    exists steps :: CanAll(s, steps) && PositiveThroughout(s, steps) && DoAll(s, steps) == z
  }

  lemma {:induction false} PositiveThen(s: State, steps: seq<Step>, x: Step)
    requires CanAll(s, steps) && PositiveThroughout(s, steps) && Can(DoAll(s, steps), x) &&
             Do(DoAll(s, steps), x).count > 0
    ensures CanAll(s, steps + [x]) && PositiveThroughout(s, steps + [x]) &&
            DoAll(s, steps + [x]) == Do(DoAll(s, steps), x)
    decreases |steps|
  {
    if steps == [] {
      assert steps + [x] == [x] && [x][1..] == [];
      assert CanAll(Do(s, x), []) && PositiveThroughout(Do(s, x), []);
    } else {
      PositiveThen(Do(s, steps[0]), steps[1..], x);
      assert (steps + [x])[1..] == steps[1..] + [x];
    }
  }

  /** Closed under steps that leave the count positive. */
  ghost predicate PositivelyClosed(r: State -> bool) {
    forall s: State, step: Step | r(s) && Can(s, step) && Do(s, step).count > 0 :: r(Do(s, step))
  }

  lemma PositiveReach(s: State) returns (r: State -> bool)
    requires s.count > 0
    ensures PositivelyClosed(r) && r(s) && forall z :: r(z) ==> PositivelyReaches(s, z)
  {
    r := z => PositivelyReaches(s, z);
    forall z: State, step: Step | r(z) && Can(z, step) && Do(z, step).count > 0 ensures r(Do(z, step)) {
      var p :| CanAll(s, p) && PositiveThroughout(s, p) && DoAll(s, p) == z;
      PositiveThen(s, p, step);
    }
    assert CanAll(s, []) && PositiveThroughout(s, []) && DoAll(s, []) == s;
  }

  lemma ActIn(r: State -> bool, s: State, a: Agent, act: Act) returns (t: State)
    requires PositivelyClosed(r) && r(s) && LockInv(s) && CanAct(s, a, act) && ActCount(s.count, act) > 0
    ensures r(t) && LockInv(t) && t.gates == ActGates(s.gates, act) && t.count == ActCount(s.count, act)
    ensures t.lock == ActLock(s.lock, a, From(act), To(s.gates, s.count, act))
    ensures forall b: Agent :: Ph(t, b) == if b == a then To(s.gates, s.count, act) else Ph(s, b)
  {
    t := DoAct(s, a, act);
    assert Do(s, By(a, act)) == t && Can(s, By(a, act));
    LockStep(s, By(a, act));
    OthersStay(s, a, act);
  }

  /** A pending swap reopens the gates under the guards that are still live. */
  lemma SwapOpens(r: State -> bool, s: State, a: Agent) returns (t: State)
    requires PositivelyClosed(r) && r(s) && LockInv(s) && GateInv(s) && s.gates.reset && s.count > 0 &&
             Ph(s, a) == LastDropped
    ensures r(t) && LockInv(t) && t.count > 0 && t.gates == Gates(false, false, false) && Ph(t, a) == Idle
  {
    t := ActIn(r, s, a, SwapReset);
    t := ActIn(r, t, a, DropOpensSpawns);
    t := ActIn(r, t, a, DropOpensGate);
    t := ActIn(r, t, a, DropNotify);
  }

  /** Whoever holds the lock with the gates open either is cleared to insert or gives the lock back. */
  lemma LockComesFree(r: State -> bool, s: State, a: Agent) returns (t: State, b: Agent)
    requires PositivelyClosed(r) && r(s) && LockInv(s) && s.count > 0 && s.gates == Gates(false, false, false) &&
             Ph(s, a) == Idle
    ensures r(t) && LockInv(t) && t.count > 0 && t.gates == Gates(false, false, false)
    ensures Ph(t, b) == SpawnCleared || (Ph(t, a) == Idle && t.lock == None)
  {
    t, b := s, a;
    if s.lock.Some? {
      b := s.lock.value;
      assert InLock(Ph(s, b));
      if Ph(t, b) == SpawnLocked {
        t := ActIn(r, t, b, CheckAdmitted);
      } else if Ph(t, b) == BestLocked {
        t := ActIn(r, t, b, CheckBest);
      }
      if Ph(t, b) == BestCleared {
        t := ActIn(r, t, b, InsertBest);
      }
    }
  }

  lemma PendingSwapAdmits(r: State -> bool, s: State, a: Agent) returns (t: State, b: Agent)
    requires PositivelyClosed(r) && r(s) && LockInv(s) && GateInv(s) && s.gates.reset && s.count > 0 &&
             Ph(s, a) == LastDropped
    ensures r(t) && Ph(t, b) == SpawnCleared
  {
    t := SwapOpens(r, s, a);
    t, b := LockComesFree(r, t, a);
    if Ph(t, b) != SpawnCleared {
      t := AdmitAndSpawn(r, t, a);
      b := a;
    }
  }

  lemma AdmitAndSpawn(r: State -> bool, s: State, a: Agent) returns (t: State)
    requires PositivelyClosed(r) && r(s) && LockInv(s) && s.count > 0 && s.gates == Gates(false, false, false)
    requires Ph(s, a) == Idle && s.lock == None
    ensures r(t) && Ph(t, a) == SpawnCleared
  {
    t := ActIn(r, s, a, Begin);
    t := ActIn(r, t, a, Increment);
    t := ActIn(r, t, a, Recheck);
    t := ActIn(r, t, a, LockAdmitted);
    t := ActIn(r, t, a, CheckAdmitted);
  }

  /** After publication every admitted spawn is refused while the count stays positive, if and only if no drop has yet
      to swap and no spawn had already read the open flag. */
  lemma RefusedWhilePositiveExactly(s: State)
    requires Inv(s) && s.gates.reset && s.count > 0
    ensures !AdmitsSpawn(s) <==> NoPendingSwap(s) && forall a: Agent :: Ph(s, a) != SpawnCleared
  {
    var r := PositiveReach(s);
    if b: Agent :| Ph(s, b) == SpawnCleared {
      assert CanAct(s, b, InsertAdmitted({}));
    } else if a: Agent :| Ph(s, a) == LastDropped {
      var t, b := PendingSwapAdmits(r, s, a);
      assert CanAct(t, b, InsertAdmitted({}));
    } else if z, a: Agent :| PositivelyReaches(s, z) && CanAct(z, a, InsertAdmitted({})) {
      var steps :| CanAll(s, steps) && PositiveThroughout(s, steps) && DoAll(s, steps) == z;
      ClearedSincePublication(s, steps, a);
      assert false;
    }
  }

  // ---- Timed-out shutdown: when the gates reopen at all ----

  /** The reset flag is published, and nobody is left who could swap it. */
  ghost predicate Stranded(s: State) {
    s.gates.reset && NoPendingSwap(s) && forall a: Agent :: !GuardLive(Ph(s, a))
  }

  lemma StrandedStep(s: State, step: Step)
    requires GateInv(s) && Can(s, step) && Stranded(s)
    ensures Stranded(Do(s, step))
  {
    if step.By? {
      OthersStay(s, step.a, step.act);
      assert !GuardLive(Ph(s, step.a)) && Ph(s, step.a) != LastDropped;
    } else {
      assert forall a: Agent :: Ph(Do(s, step), a) == Ph(s, a);
    }
  }

  lemma StrandedForever(s: State, steps: seq<Step>)
    requires Inv(s) && Stranded(s) && CanAll(s, steps)
    ensures DoAll(s, steps).gates == Gates(true, true, true)
  {
    StaysStranded(s, steps);
  }

  /** The two ways in: publishing when nobody is left to swap, or the last live guard dropping while begins are still
      counted. */
  ghost predicate Strands(s: State, step: Step) {
    && NoPendingSwap(s)
    && (|| (step == Shutdown(Publish) && forall a: Agent :: !GuardLive(Ph(s, a)))
        || (s.gates.reset && step.By? && step.act.Decrement? && s.count > 1 &&
            forall b: Agent | b != step.a :: !GuardLive(Ph(s, b))))
  }

  lemma PublishStrands(s: State)
    requires Can(s, Shutdown(Publish))
    ensures Stranded(Do(s, Shutdown(Publish))) <==> Strands(s, Shutdown(Publish))
  {
    assert forall a: Agent :: Ph(Do(s, Shutdown(Publish)), a) == Ph(s, a);
  }

  lemma ActStrands(s: State, a: Agent, act: Act)
    requires Inv(s) && CanAct(s, a, act) && !Stranded(s)
    ensures Stranded(DoAct(s, a, act)) <==> Strands(s, By(a, act))
  {
    if Stranded(DoAct(s, a, act)) {
      StrandedByDrop(s, a, act);
    }
    if Strands(s, By(a, act)) {
      DropStrands(s, a);
    }
  }

  lemma DropStrands(s: State, a: Agent)
    requires CanAct(s, a, Decrement) && Strands(s, By(a, Decrement))
    ensures Stranded(DoAct(s, a, Decrement))
  {
    OthersStay(s, a, Decrement);
  }

  lemma StrandedByDrop(s: State, a: Agent, act: Act)
    requires CountInv(s) && CanAct(s, a, act) && !Stranded(s) && Stranded(DoAct(s, a, act))
    ensures Strands(s, By(a, act))
  {
    OthersStay(s, a, act);
    FlagStaysDown(s.gates, act);
    var t := DoAct(s, a, act);
    forall b: Agent | b != a ensures !GuardLive(Ph(s, b)) && Ph(s, b) != LastDropped {
      assert Ph(t, b) == Ph(s, b);
    }
    assert !GuardLive(Ph(t, a)) && Ph(t, a) != LastDropped;
    LastGuardOut(s.gates, s.count, act);
    NoUnderflow(s, a);
  }

  lemma FlagStaysDown(g: Gates, act: Act)
    ensures ActGates(g, act).reset ==> g.reset && !act.SwapReset?
  {
  }

  /** With the gates closed, the only act that ends a guard or a pending swap without leaving one is a decrement above
      one. */
  lemma LastGuardOut(g: Gates, count: int, act: Act)
    requires GuardLive(From(act)) || From(act) == LastDropped
    requires !GuardLive(To(g, count, act)) && To(g, count, act) != LastDropped
    ensures act.SwapReset? || (act.Decrement? && count != 1)
  {
  }

  /** Exactly these two steps strand a coordinator that is not stranded yet. */
  lemma StrandedByExactly(s: State, step: Step)
    requires Inv(s) && Can(s, step) && !Stranded(s)
    ensures Stranded(Do(s, step)) <==> Strands(s, step)
  {
    match step
    case By(a, act) => ActStrands(s, a, act);
    case Shutdown(move) =>
      if move == Publish {
        PublishStrands(s);
      } else {
        assert forall a: Agent :: Ph(Do(s, step), a) == Ph(s, a);
      }
    case Finish(t) => assert forall a: Agent :: Ph(Do(s, step), a) == Ph(s, a);
  }

  /** In the second case the decrement is not the last: a begin is still counted, and it can only back out. */
  lemma BeginsLeftBehind(s: State, a: Agent) returns (b: Agent)
    requires Inv(s) && CanAct(s, a, Decrement) && Strands(s, By(a, Decrement))
    ensures b != a && (Ph(s, b) == Counted || Ph(s, b) == BackingOut)
  {
    b := AnotherCounted(s, a);
  }

  ghost predicate StrandsAlong(s: State, steps: seq<Step>)
    requires CanAll(s, steps)
    decreases |steps|
  {
    steps != [] && (Strands(s, steps[0]) || StrandsAlong(Do(s, steps[0]), steps[1..]))
  }

  /** Over whole runs: a coordinator ends stranded if and only if one of the two steps was taken on the way. */
  lemma {:induction false} StrandedExactly(s: State, steps: seq<Step>)
    requires Inv(s) && !Stranded(s) && CanAll(s, steps)
    ensures Stranded(DoAll(s, steps)) <==> StrandsAlong(s, steps)
    decreases |steps|
  {
    if steps != [] {
      StrandedByExactly(s, steps[0]);
      Preserved(s, steps[0]);
      if Stranded(Do(s, steps[0])) {
        StaysStranded(Do(s, steps[0]), steps[1..]);
      } else {
        StrandedExactly(Do(s, steps[0]), steps[1..]);
      }
    }
  }

  lemma {:induction false} StaysStranded(s: State, steps: seq<Step>)
    requires Inv(s) && Stranded(s) && CanAll(s, steps)
    ensures Inv(DoAll(s, steps)) && Stranded(DoAll(s, steps))
    decreases |steps|
  {
    if steps != [] {
      Preserved(s, steps[0]);
      StrandedStep(s, steps[0]);
      StaysStranded(Do(s, steps[0]), steps[1..]);
    }
  }

  /** The way out for a counted agent: its next act, and how many are left. */
  function WayOut(ph: Phase): Act
    requires InCount(ph)
  {
    match ph
    case Counted => Recheck
    case BackingOut => BackOut
    case Holding => StartDrop
    case SpawnLocked => CheckAdmitted
    case SpawnCleared => InsertAdmitted({})
    case Dropping => Decrement
  }

  function ActsLeft(ph: Phase): nat {
    match ph
    case Counted => 2
    case BackingOut => 1
    case SpawnLocked => 4
    case SpawnCleared => 3
    case Holding => 2
    case Dropping => 1
    case _ => 0
  }

  /** One counted agent leaves, everybody else stays put, and the published flag stays up. */
  ghost predicate Left(s: State, s': State, b: Agent) {
    && s'.gates == s.gates && s'.count == s.count - 1
    && (forall x: Agent | x != b :: Ph(s', x) == Ph(s, x))
    && Ph(s', b) == if s.count != 1 then Idle else if GuardLive(Ph(s, b)) then LastDropped else MustNotify
  }

  /** Either one act finishes the exit, or it leaves the agent counted and closer to it. */
  lemma OneActOut(s: State, b: Agent)
    requires CountInv(s) && s.gates.shuttingDown && InCount(Ph(s, b))
    ensures var act := WayOut(Ph(s, b));
            && CanAct(s, b, act)
            && var s1 := DoAct(s, b, act);
               && s1.gates == s.gates
               && (forall x: Agent | x != b :: Ph(s1, x) == Ph(s, x))
               && (ActsLeft(Ph(s, b)) == 1 ==> Left(s, s1, b))
               && (ActsLeft(Ph(s, b)) > 1 ==>
                     InCount(Ph(s1, b)) && s1.count == s.count && ActsLeft(Ph(s1, b)) < ActsLeft(Ph(s, b)) &&
                     (GuardLive(Ph(s1, b)) <==> GuardLive(Ph(s, b))))
  {
    OthersStay(s, b, WayOut(Ph(s, b)));
  }

  /** Only agents act. */
  predicate ActsOnly(steps: seq<Step>) {
    forall k: nat | k < |steps| :: steps[k].By?
  }

  lemma {:induction false} LetOut(s: State, b: Agent) returns (steps: seq<Step>)
    requires CountInv(s) && s.gates.shuttingDown && InCount(Ph(s, b))
    ensures CanAll(s, steps) && ActsOnly(steps) && Left(s, DoAll(s, steps), b) && CountInv(DoAll(s, steps))
    decreases ActsLeft(Ph(s, b))
  {
    OneActOut(s, b);
    var first := By(b, WayOut(Ph(s, b)));
    var s1 := Do(s, first);
    CountStep(s, first);
    if ActsLeft(Ph(s, b)) == 1 {
      steps := [first];
    } else {
      var rest := LetOut(s1, b);
      steps := [first] + rest;
      assert steps[1..] == rest;
    }
  }

  lemma {:induction false} RunsCompose(s: State, p: seq<Step>, q: seq<Step>)
    requires CanAll(s, p) && CanAll(DoAll(s, p), q)
    ensures CanAll(s, p + q) && DoAll(s, p + q) == DoAll(DoAll(s, p), q)
    decreases |p|
  {
    if p == [] {
      assert p + q == q;
    } else {
      RunsCompose(Do(s, p[0]), p[1..], q);
      assert (p + q)[1..] == p[1..] + q;
    }
  }

  /** With a live guard left, everybody else can be let out first, so that this guard's drop is the last one. */
  lemma {:induction false} GuardCanDropLast(s: State, a: Agent) returns (steps: seq<Step>)
    requires CountInv(s) && s.gates.shuttingDown && GuardLive(Ph(s, a))
    ensures CanAll(s, steps) && ActsOnly(steps)
    ensures DoAll(s, steps).gates == s.gates && DoAll(s, steps).count == 0 && Ph(DoAll(s, steps), a) == LastDropped
    decreases s.count
  {
    NoUnderflow(s, a);
    if s.count == 1 {
      steps := LetOut(s, a);
    } else {
      var b := AnotherCounted(s, a);
      var p := LetOut(s, b);
      var q := GuardCanDropLast(DoAll(s, p), a);
      RunsCompose(s, p, q);
      steps := p + q;
    }
  }

  lemma AnotherCounted(s: State, a: Agent) returns (b: Agent)
    requires CountInv(s) && s.count > 1
    ensures b != a && InCount(Ph(s, b))
  {
    var t := Tally(s.agents);
    if a in t {
      assert t == (t - {a}) + {a};
    }
    assert |t - {a}| > 0;
    b :| b in t - {a};
  }

  /** A run can be extended by any step its last state allows. */
  lemma Then(s: State, p: seq<Step>, x: Step)
    requires CanAll(s, p) && Can(DoAll(s, p), x)
    ensures CanAll(s, p + [x]) && DoAll(s, p + [x]) == Do(DoAll(s, p), x)
  {
    var s1 := DoAll(s, p);
    assert [x][0] == x && [x][1..] == [];
    assert CanAll(Do(s1, x), []) && DoAll(Do(s1, x), []) == Do(s1, x);
    assert CanAll(s1, [x]);
    RunsCompose(s, p, [x]);
  }

  /** The swap that finds the flag set reopens both gates by its own next two steps, whatever the others do in
      between. */
  lemma SwapLeadsToOpenGates(s: State, a: Agent)
    requires Inv(s) && IsReopening(Ph(s, a))
    ensures Ph(s, a) == ReopenSpawns ==>
              CanAct(s, a, DropOpensSpawns) && Ph(DoAct(s, a, DropOpensSpawns), a) == ReopenGate
    ensures Ph(s, a) == ReopenGate ==>
              CanAct(s, a, DropOpensGate) && DoAct(s, a, DropOpensGate).gates == Gates(false, false, false)
  {
  }

  lemma PendingSwapReopens(s: State, a: Agent) returns (steps: seq<Step>)
    requires Inv(s) && s.gates.reset && Ph(s, a) == LastDropped
    ensures CanAll(s, steps) && DoAll(s, steps).gates == Gates(false, false, false)
  {
    var x, y, z := By(a, SwapReset), By(a, DropOpensSpawns), By(a, DropOpensGate);
    Preserved(s, x);
    var s1 := Do(s, x);
    assert Ph(s1, a) == ReopenSpawns;
    SwapLeadsToOpenGates(s1, a);
    Preserved(s1, y);
    SwapLeadsToOpenGates(Do(s1, y), a);
    TwoSteps(s, x, y);
    Then(s, [x, y], z);
    steps := [x, y] + [z];
  }

  lemma CanReopen(s: State) returns (steps: seq<Step>)
    requires Inv(s) && s.gates.reset && !Stranded(s)
    ensures CanAll(s, steps) && DoAll(s, steps).gates == Gates(false, false, false)
  {
    var a: Agent :| Ph(s, a) == LastDropped || GuardLive(Ph(s, a));
    if GuardLive(Ph(s, a)) {
      var p := GuardCanDropLast(s, a);
      RunsKeepInv(s, p);
      var q := PendingSwapReopens(DoAll(s, p), a);
      RunsCompose(s, p, q);
      steps := p + q;
    } else {
      steps := PendingSwapReopens(s, a);
    }
  }

  /** Once the flag is published, some run reopens both gates if and only if a guard is still live or a drop has yet to
      swap. */
  lemma ReopensExactly(s: State)
    requires Inv(s) && s.gates.reset
    ensures (exists steps :: CanAll(s, steps) && DoAll(s, steps).gates == Gates(false, false, false)) <==> !Stranded(s)
  {
    if Stranded(s) {
      forall steps | CanAll(s, steps) ensures DoAll(s, steps).gates == Gates(true, true, true) {
        StrandedForever(s, steps);
      }
    } else {
      var steps := CanReopen(s);
    }
  }
}
