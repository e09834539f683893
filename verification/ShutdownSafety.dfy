/** Invariants of the admission and shutdown protocol, and what they give over whole runs. */
module ShutdownSafety {
  import opened Types
  import opened BackgroundTasks

  // ---- The invariants ----

  predicate InCount(ph: Phase) {
    ph.Counted? || ph.BackingOut? || GuardLive(ph)
  }

  predicate GuardLive(ph: Phase) {
    ph.Holding? || ph.SpawnLocked? || ph.SpawnCleared? || ph.Dropping?
  }

  /** Between the decrement that reached zero and the notification it owes. */
  predicate OwesNotice(ph: Phase) {
    ph.MustNotify? || ph.LastDropped? || IsReopening(ph) || ph.LastNotify?
  }

  predicate IsReopening(ph: Phase) {
    ph.ReopenSpawns? || ph.ReopenGate?
  }

  ghost function Tally(agents: map<Agent, Phase>): set<Agent> {
    set a | a in agents && InCount(agents[a])
  }

  /** The counter is the number of live guards plus the begins between their increment and their outcome. */
  ghost predicate CountInv(s: State) {
    s.count == |Tally(s.agents)|
  }

  ghost predicate LockInv(s: State) {
    forall a: Agent :: InLock(Ph(s, a)) <==> s.lock == Some(a)
  }

  predicate HasTaken(m: Main) {
    m.CleaningLate? || m.ReturningLate? || m.Returning? || (IsDrained(m) && !m.Taking?)
  }

  /** Every task spawned so far is in exactly one place. */
  ghost predicate TaskInv(s: State) {
    && s.tasks.shared !! s.tasks.local !! s.tasks.joined !! s.tasks.dropped
    && (forall t: Task :: t < s.tasks.next <==>
          t in s.tasks.shared || t in s.tasks.local || t in s.tasks.joined || t in s.tasks.dropped)
    && (s.tasks.local != {} ==> HasTaken(s.main))
  }

  predicate IsWaiting(m: Main) {
    m.Looking? || m.Creating? || m.Enabling? || m.Parked? || m.Renewing? || m.ClosingSpawns? || m.Publishing?
  }

  /** From the moment the wait saw zero until the gate reopens. */
  predicate IsDrained(m: Main) {
    m.Taking? || m.Draining? || m.Cleaning? || m.OpeningSpawns? || m.OpeningGate?
  }

  predicate IsLate(m: Main) {
    m.TakingLate? || m.CleaningLate? || m.ReturningLate?
  }

  ghost predicate NoneReopening(s: State) {
    forall a: Agent :: !IsReopening(Ph(s, a))
  }

  ghost predicate GateInv(s: State) {
    && (!s.gates.shuttingDown ==> !s.gates.closed)
    && (s.gates.reset ==> s.gates.closed && s.gates.shuttingDown && (IsLate(s.main) || s.main == Off))
    && (IsWaiting(s.main) || IsDrained(s.main) ==> s.gates.shuttingDown && NoneReopening(s))
    && (IsWaiting(s.main) || IsDrained(s.main) ==> (s.gates.closed <==> s.main == Publishing))
    && (s.main == OpeningGate ==> !s.gates.closed)
    && (forall a: Agent | IsReopening(Ph(s, a)) ::
          s.gates.shuttingDown && !s.gates.reset && (Ph(s, a) == ReopenGate ==> !s.gates.closed))
    && (forall a: Agent, b: Agent | IsReopening(Ph(s, a)) && IsReopening(Ph(s, b)) :: a == b)
  }

  ghost predicate DrainInv(s: State) {
    && (IsDrained(s.main) ==> forall a: Agent :: !GuardLive(Ph(s, a)))
    && (IsDrained(s.main) && s.main != Taking ==> s.tasks.shared == {} && forall a: Agent :: Ph(s, a) != BestCleared)
  }

  /** No lost wake-up. */
  ghost predicate WakeInv(s: State) {
    s.main == Parked && !s.notified ==> s.count > 0 || exists a: Agent :: OwesNotice(Ph(s, a))
  }

  predicate CleanInv(s: State) {
    && (s.main == ReturningLate ==> s.cleaned)
    && (s.main.OpeningSpawns? || s.main.OpeningGate? || s.main.Returning? ==> s.tasks.local == {} || s.cleaned)
  }

  ghost predicate Inv(s: State) {
    CountInv(s) && LockInv(s) && TaskInv(s) && GateInv(s) && DrainInv(s) && WakeInv(s) && CleanInv(s)
  }

  // ---- One step ----

  function One(b: bool): int {
    if b then 1 else 0
  }

  lemma TallyMoves(agents: map<Agent, Phase>, a: Agent, ph: Phase)
    ensures |Tally(agents[a := ph])| == |Tally(agents)| - One(a in Tally(agents)) + One(InCount(ph))
  {
    TallyAfter(agents, a, ph);
    SizeAfter(Tally(agents), a, InCount(ph));
  }

  lemma SizeAfter(t: set<Agent>, a: Agent, stays: bool)
    ensures |(t - {a}) + if stays then {a} else {}| == |t| - One(a in t) + One(stays)
  {
    if a in t {
      assert |t - {a}| == |t| - 1;
    } else {
      assert t - {a} == t;
    }
    assert !stays ==> (t - {a}) + {} == t - {a};
  }

  lemma TallyAfter(agents: map<Agent, Phase>, a: Agent, ph: Phase)
    ensures Tally(agents[a := ph]) == (Tally(agents) - {a}) + if InCount(ph) then {a} else {}
  {
  }

  /** An act changes the counter exactly as it moves its agent into or out of the counted phases. */
  lemma CountMatchesPhase(g: Gates, count: int, act: Act)
    ensures ActCount(count, act) == count - One(InCount(From(act))) + One(InCount(To(g, count, act)))
  {
  }

  lemma CountStep(s: State, step: Step)
    requires CountInv(s) && Can(s, step)
    ensures CountInv(Do(s, step))
  {
    if step.By? {
      CountMatchesPhase(s.gates, s.count, step.act);
      TallyMoves(s.agents, step.a, To(s.gates, s.count, step.act));
      assert step.a in Tally(s.agents) <==> InCount(Ph(s, step.a));
    }
  }

  /** The counter never underflows: whoever is about to decrement is itself counted. */
  lemma NoUnderflow(s: State, a: Agent)
    requires CountInv(s) && InCount(Ph(s, a))
    ensures s.count > 0
  {
    assert a in Tally(s.agents);
  }

  /** An act moves its own agent only. */
  lemma OthersStay(s: State, a: Agent, act: Act)
    requires CanAct(s, a, act)
    ensures forall b: Agent :: Ph(DoAct(s, a, act), b) == if b == a then To(s.gates, s.count, act) else Ph(s, b)
  {
  }

  lemma LockStep(s: State, step: Step)
    requires LockInv(s) && Can(s, step)
    ensures LockInv(Do(s, step))
  {
    var s' := Do(s, step);
    if step.By? {
      assert InLock(Ph(s, step.a)) <==> s.lock == Some(step.a);
      OthersStay(s, step.a, step.act);
      forall b: Agent ensures InLock(Ph(s', b)) <==> s'.lock == Some(b) {
        assert InLock(Ph(s, b)) <==> s.lock == Some(b);
      }
    } else {
      forall b: Agent ensures Ph(s', b) == Ph(s, b) {
      }
    }
  }

  lemma TaskStep(s: State, step: Step)
    requires TaskInv(s) && Can(s, step)
    ensures TaskInv(Do(s, step))
  {
  }

  lemma GateActStep(s: State, a: Agent, act: Act)
    requires GateInv(s) && CanAct(s, a, act)
    ensures GateInv(DoAct(s, a, act))
  {
    OthersStay(s, a, act);
    assert IsReopening(Ph(s, a)) ==> s.gates.shuttingDown && !s.gates.reset;
  }

  lemma GateMoveStep(s: State, move: Move)
    requires GateInv(s) && CanMove(s, move)
    ensures GateInv(DoMove(s, move))
  {
    assert forall a: Agent :: Ph(DoMove(s, move), a) == Ph(s, a);
  }

  lemma DrainActStep(s: State, a: Agent, act: Act)
    requires DrainInv(s) && CanAct(s, a, act) && (IsDrained(s.main) ==> s.gates.shuttingDown)
    ensures DrainInv(DoAct(s, a, act))
  {
    OthersStay(s, a, act);
  }

  lemma ZeroMeansNoGuards(s: State)
    requires CountInv(s) && s.count == 0
    ensures forall a: Agent :: !GuardLive(Ph(s, a))
  {
    forall a: Agent ensures !GuardLive(Ph(s, a)) {
      assert a !in Tally(s.agents);
    }
  }

  lemma DrainMoveStep(s: State, move: Move)
    requires CountInv(s) && LockInv(s) && DrainInv(s) && CanMove(s, move)
    ensures DrainInv(DoMove(s, move))
  {
    var s' := DoMove(s, move);
    assert forall a: Agent :: Ph(s', a) == Ph(s, a);
    if move == Look && s.count == 0 {
      ZeroMeansNoGuards(s);
    } else if move == Take {
      forall a: Agent ensures Ph(s', a) != BestCleared {
        assert InLock(Ph(s, a)) <==> s.lock == Some(a);
      }
    }
  }

  /** The decrement that reaches zero owes a notice, and the debt ends with the notice. */
  lemma NoticeOwed(g: Gates, count: int, act: Act)
    ensures count > 0 && ActCount(count, act) <= 0 ==> OwesNotice(To(g, count, act))
    ensures OwesNotice(From(act)) && !act.BackOutNotify? && !act.DropNotify? ==> OwesNotice(To(g, count, act))
  {
  }

  lemma WakeActStep(s: State, a: Agent, act: Act)
    requires WakeInv(s) && CanAct(s, a, act)
    ensures WakeInv(DoAct(s, a, act))
  {
    var s' := DoAct(s, a, act);
    OthersStay(s, a, act);
    NoticeOwed(s.gates, s.count, act);
    if s.main == Parked && !s'.notified && s'.count <= 0 {
      var b: Agent := a;
      if s.count <= 0 {
        b :| OwesNotice(Ph(s, b));
      }
      assert OwesNotice(Ph(s', b));
    }
  }

  lemma WakeMoveStep(s: State, move: Move)
    requires CountInv(s) && WakeInv(s) && CanMove(s, move)
    ensures WakeInv(DoMove(s, move))
  {
  }

  lemma CleanStep(s: State, step: Step)
    requires CleanInv(s) && Can(s, step)
    ensures CleanInv(Do(s, step))
  {
  }

  lemma Preserved(s: State, step: Step)
    requires Inv(s) && Can(s, step)
    ensures Inv(Do(s, step))
  {
    CountStep(s, step);
    LockStep(s, step);
    TaskStep(s, step);
    CleanStep(s, step);
    match step
    case By(a, act) =>
      GateActStep(s, a, act);
      DrainActStep(s, a, act);
      WakeActStep(s, a, act);
    case Shutdown(move) =>
      GateMoveStep(s, move);
      DrainMoveStep(s, move);
      WakeMoveStep(s, move);
    case Finish(t) =>
  }

  /** Every state of every run satisfies the invariants. */
  lemma {:induction false} RunsKeepInv(s: State, steps: seq<Step>)
    requires Inv(s) && CanAll(s, steps)
    ensures Inv(DoAll(s, steps))
    decreases |steps|
  {
    if steps != [] {
      Preserved(s, steps[0]);
      RunsKeepInv(Do(s, steps[0]), steps[1..]);
    }
  }

  lemma InitialInv()
    ensures Inv(INITIAL)
  {
  }
}
