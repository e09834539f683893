/** The capped session manager as a transition system: the create lock, the activity map, stream guards, closers and the
    reaper. One step is one lock section; any number of callers interleave. Time is left open: the reaper may find any
    entry without streams stale. */
module Sessions {
  import opened Types

  type SessionId = nat

  /** What the caller inside the create lock has established. */
  datatype Creator =
    | Nobody
    | Looking(id: SessionId)              // restore: about to ask whether the session is there
    | Measuring(want: Option<SessionId>)  // about to compare the session count with the cap
    | Admitted(want: Option<SessionId>)   // there was room, about to add the session
    | Added(id: SessionId)                // about to insert its activity entry

  datatype State = State(
    cap: nat,
    sessions: set<SessionId>,
    activity: map<SessionId, nat>,    // active_streams of each entry
    guards: multiset<SessionId>,      // live stream guards
    creator: Creator,
    confirmed: multiset<SessionId>,   // reapers that found the entry still stale and are about to close the session
    closing: multiset<SessionId>)     // closers and reapers about to remove the entry

  function Initial(cap: nat): State {
    State(cap, {}, map[], multiset{}, Nobody, multiset{}, multiset{})
  }

  datatype Step =
    | Acquire(want: Option<SessionId>)  // create (None) or restore (Some) takes the create lock
    | Find                              // restore: is the session there already?
    | Measure                           // ensure_capacity
    | Add(id: SessionId)                // the inner manager creates or restores the session
    | Insert                            // its activity entry, and out of the lock
    | GiveUp                            // the inner manager failed, or the caller went away
    | Close(id: SessionId)              // close_session: the inner close
    | Confirm(id: SessionId)            // reaper: the entry is still stale
    | ReapClose(id: SessionId, ok: bool)
    | Remove(id: SessionId)             // closer or reaper: the activity entry
    | Track(id: SessionId)              // a stream begins
    | DropStream(id: SessionId)         // a stream guard is dropped

  predicate Can(s: State, step: Step) {
    match step
    case Acquire(_) => s.creator.Nobody?
    case Find => s.creator.Looking?
    case Measure => s.creator.Measuring?
    case Add(id) => s.creator.Admitted? &&
      (if s.creator.want.Some? then id == s.creator.want.value else id !in s.sessions)
    case Insert => s.creator.Added?
    case GiveUp => !s.creator.Nobody? && !s.creator.Added?
    case Close(_) => true
    case Confirm(id) => id in s.activity && s.activity[id] == 0
    case ReapClose(id, _) => id in s.confirmed
    case Remove(id) => id in s.closing
    case Track(_) => true
    case DropStream(id) => id in s.guards
  }

  function StreamCount(s: State, id: SessionId): nat {
    if id in s.activity then s.activity[id] else 0
  }

  function Do(s: State, step: Step): State
    requires Can(s, step)
  {
    match step
    case Acquire(want) => s.(creator := if want.Some? then Looking(want.value) else Measuring(None))
    case Find => s.(creator := if s.creator.id in s.sessions then Nobody else Measuring(Some(s.creator.id)))
    case Measure => s.(creator := if |s.sessions| >= s.cap then Nobody else Admitted(s.creator.want))
    case Add(id) => s.(sessions := s.sessions + {id}, creator := Added(id))
    case Insert => s.(activity := s.activity[s.creator.id := 0], creator := Nobody)
    case GiveUp => s.(creator := Nobody)
    case Close(id) => s.(sessions := s.sessions - {id}, closing := s.closing + multiset{id})
    case Confirm(id) => s.(confirmed := s.confirmed + multiset{id})
    case ReapClose(id, ok) =>
      s.(sessions := if ok then s.sessions - {id} else s.sessions,
         confirmed := s.confirmed - multiset{id}, closing := s.closing + multiset{id})
    case Remove(id) => s.(activity := s.activity - {id}, closing := s.closing - multiset{id})
    case Track(id) => s.(activity := s.activity[id := StreamCount(s, id) + 1], guards := s.guards + multiset{id})
    case DropStream(id) =>
      s.(guards := s.guards - multiset{id},
         activity :=
           if id in s.activity then s.activity[id := if s.activity[id] == 0 then 0 else s.activity[id] - 1]
           else s.activity)
  }

  predicate CanAll(s: State, run: seq<Step>)
    decreases |run|
  {
    run == [] || (Can(s, run[0]) && CanAll(Do(s, run[0]), run[1..]))
  }

  function DoAll(s: State, run: seq<Step>): State
    requires CanAll(s, run)
    decreases |run|
  {
    if run == [] then s else DoAll(Do(s, run[0]), run[1..])
  }

  // ---- The cap ----

  /** A caller that was let past the capacity check still has room: only it can add sessions. */
  ghost predicate CapInv(s: State) {
    && |s.sessions| <= s.cap
    && (s.creator.Admitted? ==> |s.sessions| < s.cap)
  }

  lemma FewerSessions(a: set<SessionId>, id: SessionId)
    ensures |a - {id}| <= |a| && |a + {id}| <= |a| + 1
  {
    if id in a {
      assert a + {id} == a;
    }
  }

  lemma CapKept(s: State, step: Step)
    requires CapInv(s) && Can(s, step)
    ensures CapInv(Do(s, step)) && Do(s, step).cap == s.cap
  {
    match step
    case Add(id) => FewerSessions(s.sessions, id);
    case Close(id) => FewerSessions(s.sessions, id);
    case ReapClose(id, _) => FewerSessions(s.sessions, id);
    case _ =>
  }

  lemma {:induction false} CapKeptOverRuns(s: State, run: seq<Step>)
    requires CapInv(s) && CanAll(s, run)
    ensures CapInv(DoAll(s, run)) && DoAll(s, run).cap == s.cap
    decreases |run|
  {
    if run != [] {
      CapKept(s, run[0]);
      CapKeptOverRuns(Do(s, run[0]), run[1..]);
    }
  }

  /** In every interleaving the number of sessions stays within the cap. */
  lemma CapHolds(cap: nat, run: seq<Step>)
    requires CanAll(Initial(cap), run)
    ensures |DoAll(Initial(cap), run).sessions| <= cap
  {
    CapKeptOverRuns(Initial(cap), run);
  }

  // ---- Stream counts ----

  /** No entry counts a stream that is not live. */
  ghost predicate NoPhantoms(s: State) {
    forall id: SessionId :: StreamCount(s, id) <= s.guards[id]
  }

  lemma NoPhantomsKept(s: State, step: Step)
    requires NoPhantoms(s) && Can(s, step)
    ensures NoPhantoms(Do(s, step))
  {
    var t := Do(s, step);
    forall id: SessionId ensures StreamCount(t, id) <= t.guards[id] {
      assert StreamCount(s, id) <= s.guards[id];
    }
  }

  lemma {:induction false} NoPhantomsOverRuns(s: State, run: seq<Step>)
    requires NoPhantoms(s) && CanAll(s, run)
    ensures NoPhantoms(DoAll(s, run))
    decreases |run|
  {
    if run != [] {
      NoPhantomsKept(s, run[0]);
      NoPhantomsOverRuns(Do(s, run[0]), run[1..]);
    }
  }

  /** Whatever is removed or overwritten, an entry never counts more streams than are live, so once its streams are gone
      it can be reaped. */
  lemma IdleEntriesCanBeReaped(cap: nat, run: seq<Step>, id: SessionId)
    requires CanAll(Initial(cap), run)
    ensures StreamCount(DoAll(Initial(cap), run), id) <= DoAll(Initial(cap), run).guards[id]
    ensures var s := DoAll(Initial(cap), run); id in s.activity && id !in s.guards ==> Can(s, Confirm(id))
  {
    NoPhantomsOverRuns(Initial(cap), run);
    assert NoPhantoms(DoAll(Initial(cap), run));
  }

  /** The entry of `id` counts exactly its live streams; a missing entry counts none. */
  predicate Exact(s: State, id: SessionId) {
    StreamCount(s, id) == s.guards[id]
  }

  /** The step takes the entry of `id` away from guards that are still live, by removal or by a new entry. */
  predicate Detaches(s: State, step: Step, id: SessionId) {
    && id in s.guards
    && (step == Remove(id) || (step == Insert && s.creator == Added(id)))
  }

  /** A drop that finds the count at zero already. */
  predicate Saturates(s: State, step: Step, id: SessionId) {
    step == DropStream(id) && id in s.activity && s.activity[id] == 0
  }

  lemma ExactTrack(s: State, x: SessionId, id: SessionId)
    requires Exact(s, id)
    ensures Exact(Do(s, Track(x)), id)
  {
  }

  lemma ExactDrop(s: State, x: SessionId, id: SessionId)
    requires Exact(s, id) && Can(s, DropStream(x))
    ensures Exact(Do(s, DropStream(x)), id) && !Saturates(s, DropStream(x), id)
  {
  }

  lemma ExactRemove(s: State, x: SessionId, id: SessionId)
    requires Exact(s, id) && Can(s, Remove(x))
    ensures Exact(Do(s, Remove(x)), id) <==> !(x == id && id in s.guards)
  {
  }

  lemma ExactInsert(s: State, id: SessionId)
    requires Exact(s, id) && Can(s, Insert)
    ensures Exact(Do(s, Insert), id) <==> !(s.creator == Added(id) && id in s.guards)
  {
  }

  /** The steps that touch neither counts nor guards. */
  lemma ElsewhereStep(s: State, step: Step)
    requires Can(s, step) && !step.Track? && !step.DropStream? && !step.Remove? && !step.Insert?
    ensures Do(s, step).activity == s.activity && Do(s, step).guards == s.guards
  {
  }

  /** Exactness is lost by detaching steps and by nothing else, and while it holds no drop saturates. */
  lemma ExactUntilDetached(s: State, step: Step, id: SessionId)
    requires Exact(s, id) && Can(s, step)
    ensures Exact(Do(s, step), id) <==> !Detaches(s, step, id)
    ensures !Saturates(s, step, id)
  {
    match step
    case Track(x) => ExactTrack(s, x, id);
    case DropStream(x) => ExactDrop(s, x, id);
    case Remove(x) => ExactRemove(s, x, id);
    case Insert => ExactInsert(s, id);
    case _ => ElsewhereStep(s, step);
  }

  /** No step of the run detaches a guard of `id`. */
  predicate NeverDetaches(s: State, run: seq<Step>, id: SessionId)
    requires CanAll(s, run)
    decreases |run|
  {
    run == [] || (!Detaches(s, run[0], id) && NeverDetaches(Do(s, run[0]), run[1..], id))
  }

  predicate NeverSaturates(s: State, run: seq<Step>, id: SessionId)
    requires CanAll(s, run)
    decreases |run|
  {
    run == [] || (!Saturates(s, run[0], id) && NeverSaturates(Do(s, run[0]), run[1..], id))
  }

  predicate AlwaysExact(s: State, run: seq<Step>, id: SessionId)
    requires CanAll(s, run)
    decreases |run|
  {
    Exact(s, id) && (run == [] || AlwaysExact(Do(s, run[0]), run[1..], id))
  }

  /** Over whole runs: the count of `id` equals its live guards all along if and only if no step detaches a guard of
      `id`, and then no drop saturates. */
  lemma {:induction false} ExactExactlyWhenNeverDetached(s: State, run: seq<Step>, id: SessionId)
    requires Exact(s, id) && CanAll(s, run)
    ensures AlwaysExact(s, run, id) <==> NeverDetaches(s, run, id)
    ensures NeverDetaches(s, run, id) ==> NeverSaturates(s, run, id)
    decreases |run|
  {
    if run != [] {
      ExactUntilDetached(s, run[0], id);
      if !Detaches(s, run[0], id) {
        ExactExactlyWhenNeverDetached(Do(s, run[0]), run[1..], id);
      } else {
        InexactIsSeen(Do(s, run[0]), run[1..], id);
      }
    }
  }

  lemma InexactIsSeen(s: State, run: seq<Step>, id: SessionId)
    requires !Exact(s, id) && CanAll(s, run)
    ensures !AlwaysExact(s, run, id)
  {
  }

  /** Where the count is exact, the reaper finds stale only entries without live streams. */
  lemma ReaperSparesLiveStreams(s: State, id: SessionId)
    requires Exact(s, id) && Can(s, Confirm(id))
    ensures id !in s.guards
  {
  }

  // ---- What the reaper's close meets ----

  /** How many streams of `id` the run begins, and how many it ends. */
  function Began(run: seq<Step>, id: SessionId): nat {
    if run == [] then 0 else (if run[0] == Track(id) then 1 else 0) + Began(run[1..], id)
  }

  function Ended(run: seq<Step>, id: SessionId): nat {
    if run == [] then 0 else (if run[0] == DropStream(id) then 1 else 0) + Ended(run[1..], id)
  }

  lemma {:induction false} GuardsBalance(s: State, run: seq<Step>, id: SessionId)
    requires CanAll(s, run)
    ensures DoAll(s, run).guards[id] == s.guards[id] + Began(run, id) - Ended(run, id)
    decreases |run|
  {
    if run != [] {
      GuardsBalance(Do(s, run[0]), run[1..], id);
    }
  }

  /** The reaper looks and closes in two steps. When it found an exact entry stale, its close leaves no live stream of
      the session behind if and only if as many streams ended as began in between. */
  lemma ReaperSparesLiveStreamsExactly(s: State, run: seq<Step>, id: SessionId, ok: bool)
    requires Exact(s, id) && Can(s, Confirm(id)) && CanAll(Do(s, Confirm(id)), run)
    requires Can(DoAll(Do(s, Confirm(id)), run), ReapClose(id, ok))
    ensures id !in Do(DoAll(Do(s, Confirm(id)), run), ReapClose(id, ok)).guards <==> Began(run, id) == Ended(run, id)
  {
    GuardsBalance(Do(s, Confirm(id)), run, id);
  }

  /** Nothing in the state rules the race out: from every state in which a reaper is about to close, a stream may begin
      first and lose its session. */
  lemma CloseCanAlwaysRace(s: State, id: SessionId)
    requires id in s.confirmed
    ensures var run := [Track(id), ReapClose(id, true)];
            && CanAll(s, run)
            && id in DoAll(s, run).guards && id !in DoAll(s, run).sessions
  {
    var x, y := Track(id), ReapClose(id, true);
    assert [x, y][1..] == [y] && [y][1..] == [];
    assert CanAll(Do(s, x), [y]) && DoAll(Do(s, x), [y]) == Do(Do(s, x), y);
  }

  /** In particular it is enough that no stream begins. */
  lemma {:induction false} QuietSessionsAreSpared(s: State, run: seq<Step>, id: SessionId)
    requires CanAll(s, run) && id !in s.guards && Began(run, id) == 0
    ensures id !in DoAll(s, run).guards
    decreases |run|
  {
    if run != [] {
      QuietSessionsAreSpared(Do(s, run[0]), run[1..], id);
    }
  }

  // ---- Sessions the reaper can see ----

  /** Every session has an activity entry, or its creator is about to insert one. */
  ghost predicate Tracked(s: State) {
    forall id | id in s.sessions :: id in s.activity || s.creator == Added(id)
  }

  /** A late removal meets a session that has been restored under the same id since it was closed, or that the inner
      manager refused to close. */
  predicate Untracks(s: State, step: Step) {
    step.Remove? && step.id in s.sessions && s.creator != Added(step.id)
  }

  /** A session loses its entry by such a removal and in no other way. */
  lemma TrackedUntilLateRemoval(s: State, step: Step)
    requires Tracked(s) && Can(s, step)
    ensures Tracked(Do(s, step)) <==> !Untracks(s, step)
  {
    var t := Do(s, step);
    if Untracks(s, step) {
      assert step.id in t.sessions && step.id !in t.activity;
    } else {
      forall id | id in t.sessions ensures id in t.activity || t.creator == Added(id) {
        assert id in s.sessions ==> id in s.activity || s.creator == Added(id);
      }
    }
  }

  ghost predicate AlwaysTracked(s: State, run: seq<Step>)
    requires CanAll(s, run)
    decreases |run|
  {
    Tracked(s) && (run == [] || AlwaysTracked(Do(s, run[0]), run[1..]))
  }

  predicate NeverUntracks(s: State, run: seq<Step>)
    requires CanAll(s, run)
    decreases |run|
  {
    run == [] || (!Untracks(s, run[0]) && NeverUntracks(Do(s, run[0]), run[1..]))
  }

  /** Over whole runs: every session can be seen by the reaper all along if and only if no removal comes late. */
  lemma {:induction false} TrackedExactlyWithoutLateRemoval(s: State, run: seq<Step>)
    requires Tracked(s) && CanAll(s, run)
    ensures AlwaysTracked(s, run) <==> NeverUntracks(s, run)
    decreases |run|
  {
    if run != [] {
      TrackedUntilLateRemoval(s, run[0]);
      if !Untracks(s, run[0]) {
        TrackedExactlyWithoutLateRemoval(Do(s, run[0]), run[1..]);
      } else {
        assert !Tracked(Do(s, run[0]));
      }
    }
  }

  // ---- Concrete runs ----

  lemma {:induction false} OneMore(s: State, run: seq<Step>, step: Step)
    requires CanAll(s, run) && Can(DoAll(s, run), step)
    ensures CanAll(s, run + [step]) && DoAll(s, run + [step]) == Do(DoAll(s, run), step)
    decreases |run|
  {
    if run != [] {
      OneMore(Do(s, run[0]), run[1..], step);
      assert (run + [step])[1..] == run[1..] + [step];
    }
  }

  ghost predicate Reachable(s: State) {
    exists run :: CanAll(Initial(1), run) && DoAll(Initial(1), run) == s
  }

  lemma Then(s: State, step: Step) returns (t: State)
    requires Reachable(s) && Can(s, step)
    ensures Reachable(t) && t == Do(s, step)
  {
    t := Do(s, step);
    var run :| CanAll(Initial(1), run) && DoAll(Initial(1), run) == s;
    OneMore(Initial(1), run, step);
  }

  lemma Begin() returns (s: State)
    ensures Reachable(s) && s == Initial(1).(sessions := {0}, activity := map[0 := 0])
  {
    assert CanAll(Initial(1), []) && DoAll(Initial(1), []) == Initial(1);
    s := Then(Initial(1), Acquire(None));
    s := Then(s, Measure);
    s := Then(s, Add(0));
    s := Then(s, Insert);
  }

  lemma Restore(s: State) returns (t: State)
    requires Reachable(s) && s.creator == Nobody && s.sessions == {} && s.cap == 1
    ensures Reachable(t) && t == s.(sessions := {0}, activity := s.activity[0 := 0])
  {
    t := Then(s, Acquire(Some(0)));
    t := Then(t, Find);
    t := Then(t, Measure);
    t := Then(t, Add(0));
    t := Then(t, Insert);
  }

  /** The reaper looks and closes in two steps: a stream that starts in between loses its session. */
  lemma ReaperClosesUnderAStream() returns (s: State, t: State)
    ensures Reachable(s) && Exact(s, 0) && 0 in s.guards && 0 in s.sessions
    ensures Can(s, ReapClose(0, true)) && t == Do(s, ReapClose(0, true)) && 0 !in t.sessions
  {
    s := Begin();
    s := Then(s, Confirm(0));
    s := Then(s, Track(0));
    t := Do(s, ReapClose(0, true));
  }

  /** A guard that outlives its entry takes the count of the next entry with it: the reaper may then find a session
      stale while its own stream is live. */
  lemma DetachedGuardHidesAStream() returns (s: State)
    ensures Reachable(s) && 0 in s.sessions && 0 in s.guards && Can(s, Confirm(0))
  {
    s := Begin();
    s := Then(s, Track(0));
    s := Then(s, Close(0));
    s := Then(s, Remove(0));
    s := Restore(s);
    s := Then(s, Track(0));
    s := Then(s, DropStream(0));
  }

  /** A close that removes its entry only after the session was restored leaves a session the reaper does not see until
      a stream is tracked for it. */
  lemma LateRemovalHidesASession() returns (s: State)
    ensures Reachable(s) && 0 in s.sessions && 0 !in s.activity && s.creator == Nobody
  {
    s := Begin();
    s := Then(s, Close(0));
    s := Restore(s);
    s := Then(s, Remove(0));
  }
}
