/** The admission and shutdown protocol of the background-task coordinator, as a transition system.
    One step is one atomic operation, one lock operation, or one lock-protected update; any number of agents run
    concurrently with one shutdown call. Steps interleave under sequential consistency. */
module BackgroundTasks {
  import opened Types

  type Agent = nat
  type Task = nat

  /** Where an agent stands in begin_embed_admission, EmbedAdmission::spawn, its drop, or spawn_best_effort. */
  datatype Phase =
    | Idle
    | Checked        // begin: the gate looked open, about to increment
    | Counted        // begin: incremented, about to look at the gate again
    | BackingOut     // begin: the gate had closed, about to decrement
    | MustNotify     // begin: its decrement reached zero, about to notify
    | Holding        // the admission guard is live
    | SpawnLocked    // admitted spawn: holds the task lock, about to look at admitted_spawns_closed
    | SpawnCleared   // admitted spawn: was not refused, about to insert
    | Dropping       // guard drop: about to decrement
    | LastDropped    // guard drop: its decrement reached zero, about to swap the reset flag
    | ReopenSpawns   // guard drop: the flag was set, about to clear admitted_spawns_closed
    | ReopenGate     // guard drop: about to clear shutting_down
    | LastNotify     // guard drop: about to notify
    | BestLocked     // best-effort spawn: holds the task lock, about to look at the gate
    | BestCleared    // best-effort spawn: the gate was open, about to insert

  /** Where the shutdown call stands. */
  datatype Main =
    | Off
    | Creating                    // gate closed, about to create the wake-up future
    | Enabling                    // about to register it
    | Looking(already: bool)      // registered, about to read the count
    | Parked                      // waits for a wake-up or the deadline
    | Renewing                    // about to replace the wake-up future
    | ClosingSpawns               // timed out, about to set admitted_spawns_closed
    | Publishing                  // about to set reset_after_admission_timeout
    | TakingLate | CleaningLate | ReturningLate
    | Taking                      // admissions drained, about to take the task set
    | Draining                    // joins the taken tasks
    | Cleaning                    // deadline hit while draining, about to run the cleanup
    | OpeningSpawns | OpeningGate // about to clear the two gates
    | Returning                   // about to drop what is left of the taken set

  /** The three atomic flags. */
  datatype Gates = Gates(shuttingDown: bool, closed: bool, reset: bool)

  /** Where the spawned tasks are: the shared set, the set a shutdown took, joined after finishing, or dropped. */
  datatype Tasks = Tasks(next: Task, shared: set<Task>, local: set<Task>, joined: set<Task>, dropped: set<Task>,
                         finished: set<Task>)

  datatype State = State(
    gates: Gates,
    count: int,
    agents: map<Agent, Phase>,
    lock: Option<Agent>,
    main: Main,
    notified: bool,      // the registered future has received its wake-up
    cleaned: bool,       // the cleanup of the current shutdown has run
    tasks: Tasks)

  const INITIAL := State(Gates(false, false, false), 0, map[], None, Off, false, false, Tasks(0, {}, {}, {}, {}, {}))

  function Ph(s: State, a: Agent): Phase {
    if a in s.agents then s.agents[a] else Idle
  }

  // ---- What agents do ----

  datatype Act =
    | Begin | Increment | Recheck | BackOut | BackOutNotify
    | LockAdmitted | CheckAdmitted | InsertAdmitted(reaped: set<Task>)
    | StartDrop | Decrement | SwapReset | DropOpensSpawns | DropOpensGate | DropNotify
    | LockBest(reaped: set<Task>) | CheckBest | InsertBest

  /** The phase an act starts from. */
  function From(act: Act): Phase {
    match act
    case Begin => Idle
    case Increment => Checked
    case Recheck => Counted
    case BackOut => BackingOut
    case BackOutNotify => MustNotify
    case LockAdmitted => Holding
    case CheckAdmitted => SpawnLocked
    case InsertAdmitted(_) => SpawnCleared
    case StartDrop => Holding
    case Decrement => Dropping
    case SwapReset => LastDropped
    case DropOpensSpawns => ReopenSpawns
    case DropOpensGate => ReopenGate
    case DropNotify => LastNotify
    case LockBest(_) => Idle
    case CheckBest => BestLocked
    case InsertBest => BestCleared
  }

  /** The phase it leads to, given what it reads. */
  function To(g: Gates, count: int, act: Act): Phase {
    match act
    case Begin => if g.shuttingDown then Idle else Checked
    case Increment => Counted
    case Recheck => if g.shuttingDown then BackingOut else Holding
    case BackOut => if count == 1 then MustNotify else Idle
    case BackOutNotify => Idle
    case LockAdmitted => SpawnLocked
    case CheckAdmitted => if g.closed then Holding else SpawnCleared
    case InsertAdmitted(_) => Holding
    case StartDrop => Dropping
    case Decrement => if count == 1 then LastDropped else Idle
    case SwapReset => if g.reset then ReopenSpawns else LastNotify
    case DropOpensSpawns => ReopenGate
    case DropOpensGate => LastNotify
    case DropNotify => Idle
    case LockBest(_) => BestLocked
    case CheckBest => if g.shuttingDown then Idle else BestCleared
    case InsertBest => Idle
  }

  /** The phases inside the task lock. */
  predicate InLock(ph: Phase) {
    ph.SpawnLocked? || ph.SpawnCleared? || ph.BestLocked? || ph.BestCleared?
  }

  function Reaped(act: Act): set<Task> {
    if act.InsertAdmitted? || act.LockBest? then act.reaped else {}
  }

  predicate Inserts(act: Act) {
    act.InsertAdmitted? || act.InsertBest?
  }

  predicate CanAct(s: State, a: Agent, act: Act) {
    && Ph(s, a) == From(act)
    && (act.LockAdmitted? || act.LockBest? ==> s.lock == None)
    && Reaped(act) <= s.tasks.shared * s.tasks.finished
  }

  function ActCount(count: int, act: Act): int {
    if act.Increment? then count + 1 else if act.BackOut? || act.Decrement? then count - 1 else count
  }

  function ActGates(g: Gates, act: Act): Gates {
    match act
    case SwapReset => g.(reset := false)
    case DropOpensSpawns => g.(closed := false)
    case DropOpensGate => g.(shuttingDown := false)
    case _ => g
  }

  function ActLock(lock: Option<Agent>, a: Agent, was: Phase, now: Phase): Option<Agent> {
    if InLock(now) then Some(a) else if InLock(was) then None else lock
  }

  function ActTasks(t: Tasks, act: Act): Tasks {
    var kept := t.(shared := t.shared - Reaped(act), joined := t.joined + Reaped(act));
    if Inserts(act) then kept.(shared := kept.shared + {t.next}, next := t.next + 1) else kept
  }

  function DoAct(s: State, a: Agent, act: Act): State
    requires CanAct(s, a, act)
  {
    var now := To(s.gates, s.count, act);
    State(ActGates(s.gates, act), ActCount(s.count, act), s.agents[a := now], ActLock(s.lock, a, From(act), now),
          s.main,
          s.notified || act.BackOutNotify? || act.DropNotify?, s.cleaned, ActTasks(s.tasks, act))
  }

  // ---- What the shutdown call does ----

  datatype Move =
    | Start | Create | Enable | Look | Wake | Deadline | Renew
    | CloseSpawns | Publish | TakeLate | CleanLate | ReturnLate
    | Take | Join(t: Task) | JoinedAll | DrainDeadline | Clean | OpenSpawns | OpenGate | Return

  /** A shutdown starts only from the open gate, one at a time. */
  predicate CanMove(s: State, move: Move) {
    match move
    case Start => s.main == Off && !s.gates.shuttingDown
    case Create => s.main == Creating
    case Enable => s.main == Enabling
    case Look => s.main.Looking?
    case Wake => s.main == Parked && s.notified
    case Deadline => s.main == Parked
    case Renew => s.main == Renewing
    case CloseSpawns => s.main == ClosingSpawns
    case Publish => s.main == Publishing
    case TakeLate => s.main == TakingLate && s.lock == None
    case CleanLate => s.main == CleaningLate
    case ReturnLate => s.main == ReturningLate
    case Take => s.main == Taking && s.lock == None
    case Join(t) => s.main == Draining && t in s.tasks.local && t in s.tasks.finished
    case JoinedAll => s.main == Draining && s.tasks.local == {}
    case DrainDeadline => s.main == Draining
    case Clean => s.main == Cleaning
    case OpenSpawns => s.main == OpeningSpawns
    case OpenGate => s.main == OpeningGate
    case Return => s.main == Returning
  }

  /** Where the shutdown call stands after a move, given the count and the wake-up it reads. */
  function MoveMain(m: Main, count: int, notified: bool, move: Move): Main {
    match move
    case Start => Creating
    case Create => Enabling
    case Enable => Looking(notified)
    case Look => if count == 0 then Taking else if m.Looking? && m.already then Renewing else Parked
    case Wake => Renewing
    case Deadline => ClosingSpawns
    case Renew => Enabling
    case CloseSpawns => Publishing
    case Publish => TakingLate
    case TakeLate => CleaningLate
    case CleanLate => ReturningLate
    case ReturnLate => Off
    case Take => Draining
    case Join(_) => Draining
    case JoinedAll => OpeningSpawns
    case DrainDeadline => Cleaning
    case Clean => OpeningSpawns
    case OpenSpawns => OpeningGate
    case OpenGate => Returning
    case Return => Off
  }

  function MoveGates(g: Gates, move: Move): Gates {
    match move
    case Start => g.(shuttingDown := true)
    case CloseSpawns => g.(closed := true)
    case Publish => g.(reset := true)
    case OpenSpawns => g.(closed := false)
    case OpenGate => g.(shuttingDown := false)
    case _ => g
  }

  function MoveTasks(t: Tasks, move: Move): Tasks {
    match move
    case Take => t.(local := t.shared, shared := {})
    case TakeLate => t.(local := t.shared, shared := {})
    case Join(x) => t.(local := t.local - {x}, joined := t.joined + {x})
    case Return => t.(dropped := t.dropped + t.local, local := {})
    case ReturnLate => t.(dropped := t.dropped + t.local, local := {})
    case _ => t
  }

  function DoMove(s: State, move: Move): State
    requires CanMove(s, move)
  {
    State(MoveGates(s.gates, move), s.count, s.agents, s.lock, MoveMain(s.main, s.count, s.notified, move),
          s.notified && !move.Create? && !move.Renew?,
          (s.cleaned || move.Clean? || move.CleanLate?) && !move.Start?,
          MoveTasks(s.tasks, move))
  }

  // ---- Runs ----

  datatype Step = By(a: Agent, act: Act) | Shutdown(move: Move) | Finish(t: Task)

  predicate Can(s: State, step: Step) {
    match step
    case By(a, act) => CanAct(s, a, act)
    case Shutdown(move) => CanMove(s, move)
    case Finish(t) => t in s.tasks.shared || t in s.tasks.local
  }

  function Do(s: State, step: Step): State
    requires Can(s, step)
  {
    match step
    case By(a, act) => DoAct(s, a, act)
    case Shutdown(move) => DoMove(s, move)
    case Finish(t) => s.(tasks := s.tasks.(finished := s.tasks.finished + {t}))
  }

  /** A run: every step can be taken where it is taken. */
  predicate CanAll(s: State, steps: seq<Step>)
    decreases |steps|
  {
    steps == [] || (Can(s, steps[0]) && CanAll(Do(s, steps[0]), steps[1..]))
  }

  function DoAll(s: State, steps: seq<Step>): State
    requires CanAll(s, steps)
    decreases |steps|
  {
    if steps == [] then s else DoAll(Do(s, steps[0]), steps[1..])
  }
}
