/** A shutdown called on whatever earlier ones left behind: exactly when it still excludes new work. */
module ShutdownRestart {
  import opened Types
  import opened BackgroundTasks
  import opened ShutdownSafety
  import opened ShutdownTheorems
  import opened ShutdownRuns

  // ---- What an earlier shutdown can leave behind ----

  /** A gate that no running shutdown keeps shut is shut by a published flag or is being reopened. */
  ghost predicate ShutInv(s: State) {
    && (s.main == Returning ==> !s.gates.shuttingDown)
    && (s.main == Off || IsLate(s.main) ==> s.gates.shuttingDown ==> s.gates.reset || !NoneReopening(s))
  }

  lemma ShutActStep(s: State, a: Agent, act: Act)
    requires ShutInv(s) && GateInv(s) && CanAct(s, a, act)
    ensures ShutInv(DoAct(s, a, act))
  {
    OthersStay(s, a, act);
    var t := DoAct(s, a, act);
    if (s.main == Off || IsLate(s.main)) && t.gates.shuttingDown && !t.gates.reset {
      var b: Agent := a;
      if !s.gates.reset {
        b :| IsReopening(Ph(s, b));
      }
      assert IsReopening(Ph(t, b));
    }
  }

  lemma ShutStep(s: State, step: Step)
    requires ShutInv(s) && GateInv(s) && Can(s, step)
    ensures ShutInv(Do(s, step))
  {
    if step.By? {
      ShutActStep(s, step.a, step.act);
    } else {
      assert forall a: Agent :: Ph(Do(s, step), a) == Ph(s, a);
    }
  }

  lemma {:induction false} ShutOverRuns(s: State, steps: seq<Step>)
    requires Inv(s) && ShutInv(s) && CanAll(s, steps)
    ensures ShutInv(DoAll(s, steps))
    decreases |steps|
  {
    if steps != [] {
      Preserved(s, steps[0]);
      ShutStep(s, steps[0]);
      ShutOverRuns(Do(s, steps[0]), steps[1..]);
    }
  }

  // ---- Runs of the shutdown that is called now ----

  /** Neither reopens the gate nor gives up and returns. */
  predicate Ongoing(step: Step) {
    step != Shutdown(OpenGate) && step != Shutdown(ReturnLate)
  }

  predicate AllOngoing(steps: seq<Step>) {
    forall k: nat | k < |steps| :: Ongoing(steps[k])
  }

  ghost predicate ReachesWithin(s: State, z: State) {
    exists steps :: CanAll(s, steps) && AllOngoing(steps) && DoAll(s, steps) == z
  }

  /** No guard is live, the task set stays empty once taken, and a task enters exactly by a best-effort spawn that had
      passed its check, before the take. */
  ghost predicate Excluded(z: State) {
    && (forall a: Agent :: !GuardLive(Ph(z, a)))
    && (z.main != Taking ==> z.tasks.shared == {})
    && (forall step: Step | Can(z, step) :: Spawns(z, step) <==> z.main == Taking && step.By? && step.act.InsertBest?)
  }

  /** Once the wait has seen zero, new work is excluded until the gate reopens. */
  ghost predicate KeepsExclusion(s: State) {
    forall z | ReachesWithin(s, z) && IsDrained(z.main) :: Excluded(z)
  }

  // ---- Nobody left to reopen: the shutdown is safe ----

  /** Nobody is reopening the gate, and nobody who could is left if the reset flag is up. */
  ghost predicate NobodyReopens(s: State) {
    && NoneReopening(s)
    && (s.gates.reset ==> forall a: Agent :: !GuardLive(Ph(s, a)) && Ph(s, a) != LastDropped)
  }

  /** What the call relies on while it waits and drains. */
  ghost predicate Held(s: State) {
    && CountInv(s) && LockInv(s) && DrainInv(s)
    && (IsWaiting(s.main) || IsDrained(s.main) || IsLate(s.main))
    && (!IsLate(s.main) ==> s.gates.shuttingDown && NobodyReopens(s))
  }

  lemma NobodyReopensAct(s: State, a: Agent, act: Act)
    requires s.gates.shuttingDown && NobodyReopens(s) && CanAct(s, a, act)
    ensures DoAct(s, a, act).gates.shuttingDown && NobodyReopens(DoAct(s, a, act))
  {
    OthersStay(s, a, act);
    assert !IsReopening(Ph(s, a));
    FlagStaysDown(s.gates, act);
  }

  lemma HeldMove(s: State, move: Move)
    requires Held(s) && CanMove(s, move) && Ongoing(Shutdown(move))
    ensures Held(DoMove(s, move))
  {
    CountStep(s, Shutdown(move));
    LockStep(s, Shutdown(move));
    DrainMoveStep(s, move);
    assert forall a: Agent :: Ph(DoMove(s, move), a) == Ph(s, a);
  }

  lemma HeldStep(s: State, step: Step)
    requires Held(s) && Can(s, step) && Ongoing(step)
    ensures Held(Do(s, step))
  {
    match step
    case By(a, act) =>
      CountStep(s, step);
      LockStep(s, step);
      DrainActStep(s, a, act);
      if !IsLate(s.main) {
        NobodyReopensAct(s, a, act);
      }
    case Shutdown(move) => HeldMove(s, move);
    case Finish(t) =>
      CountStep(s, step);
      LockStep(s, step);
      assert forall a: Agent :: Ph(Do(s, step), a) == Ph(s, a);
  }

  lemma {:induction false} HeldOverRuns(s: State, steps: seq<Step>)
    requires Held(s) && CanAll(s, steps) && AllOngoing(steps)
    ensures Held(DoAll(s, steps))
    decreases |steps|
  {
    if steps != [] {
      HeldStep(s, steps[0]);
      HeldOverRuns(Do(s, steps[0]), steps[1..]);
    }
  }

  lemma HeldExcludes(z: State)
    requires LockInv(z) && DrainInv(z) && IsDrained(z.main)
    ensures Excluded(z)
  {
    forall step: Step | Can(z, step)
      ensures Spawns(z, step) <==> z.main == Taking && step.By? && step.act.InsertBest?
    {
      DrainedStep(z, step);
    }
  }

  lemma SafeWhenNobodyReopens(y: State)
    requires CountInv(y) && LockInv(y) && NobodyReopens(y)
    ensures KeepsExclusion(StartAnyway(y))
  {
    var s := StartAnyway(y);
    assert forall a: Agent :: Ph(s, a) == Ph(y, a);
    forall z | ReachesWithin(s, z) && IsDrained(z.main) ensures Excluded(z) {
      var steps :| CanAll(s, steps) && AllOngoing(steps) && DoAll(s, steps) == z;
      HeldOverRuns(s, steps);
      HeldExcludes(z);
    }
  }

  // ---- Otherwise the gate is reopened under the shutdown ----

  /** Everybody counted leaves; the others stay where they are. */
  lemma {:induction false} AllOut(s: State) returns (steps: seq<Step>)
    requires CountInv(s) && s.gates.shuttingDown
    ensures CanAll(s, steps) && ActsOnly(steps)
    ensures DoAll(s, steps).gates == s.gates && DoAll(s, steps).count == 0
    ensures forall x: Agent | !InCount(Ph(s, x)) :: Ph(DoAll(s, steps), x) == Ph(s, x)
    decreases s.count
  {
    if s.count == 0 {
      steps := [];
    } else {
      var b :| b in Tally(s.agents);
      var p := LetOut(s, b);
      var q := AllOut(DoAll(s, p));
      RunsCompose(s, p, q);
      steps := p + q;
    }
  }

  lemma {:induction false} ActsKeepMain(s: State, steps: seq<Step>)
    requires CanAll(s, steps) && ActsOnly(steps)
    ensures DoAll(s, steps).main == s.main && AllOngoing(steps)
    decreases |steps|
  {
    if steps != [] {
      ActsKeepMain(Do(s, steps[0]), steps[1..]);
      forall k: nat | k < |steps| ensures Ongoing(steps[k]) {
        assert steps[k].By?;
      }
    }
  }

  /** About to reopen the gate: between the decrement to zero with the flag up, and the store that opens the gate. */
  predicate WillReopen(g: Gates, ph: Phase) {
    IsReopening(ph) || (ph == LastDropped && g.reset)
  }

  /** Whoever will reopen, or can be made to, still will once the count is down to zero. */
  lemma SomebodyWillReopen(s: State) returns (steps: seq<Step>, a: Agent)
    requires CountInv(s) && s.gates.shuttingDown
    requires !NobodyReopens(s)
    ensures CanAll(s, steps) && ActsOnly(steps) && DoAll(s, steps).gates == s.gates && DoAll(s, steps).count == 0
    ensures WillReopen(s.gates, Ph(DoAll(s, steps), a))
  {
    if !NoneReopening(s) {
      a :| IsReopening(Ph(s, a));
      steps := AllOut(s);
    } else {
      a :| GuardLive(Ph(s, a)) || Ph(s, a) == LastDropped;
      if GuardLive(Ph(s, a)) {
        steps := GuardCanDropLast(s, a);
      } else {
        steps := AllOut(s);
      }
    }
  }

  /** Closed under the steps of an ongoing shutdown. */
  ghost predicate WithinClosed(r: State -> bool) {
    forall s: State, step: Step | r(s) && Can(s, step) && Ongoing(step) :: r(Do(s, step))
  }

  lemma WithinReach(s: State) returns (r: State -> bool)
    ensures WithinClosed(r) && forall z :: r(z) <==> ReachesWithin(s, z)
  {
    r := z => ReachesWithin(s, z);
    forall z: State, step: Step | r(z) && Can(z, step) && Ongoing(step) ensures r(Do(z, step)) {
      var p :| CanAll(s, p) && AllOngoing(p) && DoAll(s, p) == z;
      Then(s, p, step);
      assert AllOngoing(p + [step]);
    }
  }

  lemma ActWithin(r: State -> bool, s: State, a: Agent, act: Act) returns (t: State)
    requires WithinClosed(r) && r(s) && CanAct(s, a, act)
    ensures r(t) && t.gates == ActGates(s.gates, act) && t.count == ActCount(s.count, act) && t.main == s.main
    ensures Ph(t, a) == To(s.gates, s.count, act)
  {
    t := Do(s, By(a, act));
  }

  lemma MoveWithin(r: State -> bool, s: State, move: Move, a: Agent) returns (t: State)
    requires WithinClosed(r) && r(s) && CanMove(s, move) && Ongoing(Shutdown(move))
    ensures r(t) && t.gates == MoveGates(s.gates, move) && t.count == s.count
    ensures t.main == MoveMain(s.main, s.count, s.notified, move) && Ph(t, a) == Ph(s, a)
  {
    t := Do(s, Shutdown(move));
  }

  /** The wait sees zero while somebody will still reopen the gate. */
  lemma SeesZero(r: State -> bool, s: State, a: Agent) returns (t: State)
    requires WithinClosed(r) && r(s) && s.main == Creating && s.count == 0
    ensures r(t) && t.main == Taking && t.gates == s.gates && t.count == 0 && Ph(t, a) == Ph(s, a)
  {
    t := MoveWithin(r, s, Create, a);
    t := MoveWithin(r, t, Enable, a);
    t := MoveWithin(r, t, Look, a);
  }

  lemma FinishReopening(r: State -> bool, s: State, a: Agent) returns (t: State)
    requires WithinClosed(r) && r(s) && WillReopen(s.gates, Ph(s, a))
    ensures r(t) && t.main == s.main && !t.gates.shuttingDown && Ph(t, a) == Idle
  {
    t := s;
    if Ph(t, a) == LastDropped {
      t := ActWithin(r, t, a, SwapReset);
    }
    if Ph(t, a) == ReopenSpawns {
      t := ActWithin(r, t, a, DropOpensSpawns);
    }
    t := ActWithin(r, t, a, DropOpensGate);
    t := ActWithin(r, t, a, DropNotify);
  }

  lemma GuardGoesLive(r: State -> bool, s: State, a: Agent) returns (t: State)
    requires WithinClosed(r) && r(s) && !s.gates.shuttingDown && Ph(s, a) == Idle
    ensures r(t) && t.main == s.main && GuardLive(Ph(t, a))
  {
    t := ActWithin(r, s, a, Begin);
    t := ActWithin(r, t, a, Increment);
    t := ActWithin(r, t, a, Recheck);
  }

  lemma ReopenedUnderneath(r: State -> bool, s: State, a: Agent) returns (t: State)
    requires WithinClosed(r) && r(s) && s.main == Creating && s.count == 0 && WillReopen(s.gates, Ph(s, a))
    ensures r(t) && IsDrained(t.main) && GuardLive(Ph(t, a))
  {
    t := SeesZero(r, s, a);
    t := FinishReopening(r, t, a);
    t := GuardGoesLive(r, t, a);
  }

  lemma OtherwiseUnsafe(s: State)
    requires CountInv(s) && s.main == Creating && s.gates.shuttingDown && !NobodyReopens(s)
    ensures !KeepsExclusion(s)
  {
    var steps, a := SomebodyWillReopen(s);
    ActsKeepMain(s, steps);
    var r := WithinReach(s);
    var u := DoAll(s, steps);
    assert ReachesWithin(s, u);
    var t := ReopenedUnderneath(r, u, a);
    assert ReachesWithin(s, t) && !Excluded(t);
  }

  /** Whatever state it is called in, a shutdown excludes new work in every run, until it reopens the gate or gives up,
      if and only if nobody is left to reopen the gate under it. */
  lemma ShutdownExcludesExactly(y: State)
    requires CountInv(y) && LockInv(y)
    ensures KeepsExclusion(StartAnyway(y)) <==> NobodyReopens(y)
  {
    var s := StartAnyway(y);
    assert forall a: Agent :: Ph(s, a) == Ph(y, a);
    if NobodyReopens(y) {
      SafeWhenNobodyReopens(y);
    } else {
      assert !NobodyReopens(s);
      OtherwiseUnsafe(s);
    }
  }

  // ---- Histories in which shutdowns are called at any time ----

  /** As `Can`, but a shutdown may be called whenever none is running, whatever the gate and the flag are. */
  predicate CanFreely(s: State, step: Step) {
    if step == Shutdown(Start) then s.main == Off else Can(s, step)
  }

  function DoFreely(s: State, step: Step): State
    requires CanFreely(s, step)
  {
    if step == Shutdown(Start) then StartAnyway(s) else Do(s, step)
  }

  predicate CanAllFreely(s: State, steps: seq<Step>)
    decreases |steps|
  {
    steps == [] || (CanFreely(s, steps[0]) && CanAllFreely(DoFreely(s, steps[0]), steps[1..]))
  }

  function DoAllFreely(s: State, steps: seq<Step>): State
    requires CanAllFreely(s, steps)
    decreases |steps|
  {
    if steps == [] then s else DoAllFreely(DoFreely(s, steps[0]), steps[1..])
  }

  /** Called from the open gate, a shutdown does what the protocol's own first step does. */
  lemma StartIsStartAnyway(s: State)
    requires Can(s, Shutdown(Start))
    ensures Do(s, Shutdown(Start)) == StartAnyway(s)
  {
  }

  lemma {:induction false} CountsFreely(s: State, steps: seq<Step>)
    requires CountInv(s) && LockInv(s) && CanAllFreely(s, steps)
    ensures CountInv(DoAllFreely(s, steps)) && LockInv(DoAllFreely(s, steps))
    decreases |steps|
  {
    if steps != [] {
      var t := DoFreely(s, steps[0]);
      if steps[0] == Shutdown(Start) {
        assert forall a: Agent :: Ph(t, a) == Ph(s, a);
      } else {
        CountStep(s, steps[0]);
        LockStep(s, steps[0]);
      }
      CountsFreely(t, steps[1..]);
    }
  }

  /** After any history of such calls, one more made while none is running excludes new work if and only if nobody is
      left to reopen the gate under it. */
  lemma RestartExcludesExactly(before: seq<Step>)
    requires CanAllFreely(INITIAL, before) && DoAllFreely(INITIAL, before).main == Off
    ensures var y := DoAllFreely(INITIAL, before); KeepsExclusion(StartAnyway(y)) <==> NobodyReopens(y)
  {
    InitialInv();
    CountsFreely(INITIAL, before);
    ShutdownExcludesExactly(DoAllFreely(INITIAL, before));
  }

  /** When every earlier shutdown was called from the open gate, this means: the gate is open, or the coordinator is
      stranded. */
  lemma FirstRestartExcludesExactly(before: seq<Step>)
    requires CanAll(INITIAL, before) && DoAll(INITIAL, before).main == Off
    ensures var y := DoAll(INITIAL, before);
            KeepsExclusion(StartAnyway(y)) <==> !y.gates.shuttingDown || Stranded(y)
  {
    InitialInv();
    RunsKeepInv(INITIAL, before);
    ShutOverRuns(INITIAL, before);
    ShutdownExcludesExactly(DoAll(INITIAL, before));
    NobodyReopensMeans(DoAll(INITIAL, before));
  }

  lemma NobodyReopensMeans(y: State)
    requires GateInv(y) && ShutInv(y) && y.main == Off
    ensures NobodyReopens(y) <==> !y.gates.shuttingDown || Stranded(y)
  {
  }
}
