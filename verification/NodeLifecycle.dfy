/** The life of a node: one worker thread running the loop, and any number of threads calling start,
    pause, resume and terminate.

    A step is one atomic store or compare-and-swap, one critical section, or one notification.
    Hooks of derived classes take any time but return; setup may throw. */
module NodeLifecycle {

  datatype Event = Setup | Process | Cleanup

  datatype Starter = NoStart | InSetup | SetupThrew | ThreadMade

  /** Where the worker is.  Drowsy: it holds the gate's mutex and has found its condition false. */
  datatype Worker =
    | NoThread
    | LoopTest
    | AtGate
    | Drowsy
    | Asleep
    | PastGate
    | Cleared
    | Processing
    | CleaningUp
    | CleanedUp
    | ExitSet
    | Gone

  /** Where the one effective call of terminate is; later calls return at once. */
  datatype Terminator =
    | NotCalled
    | Called
    | Flagged
    | Unpaused
    | Notified
    | Interrupted
    | MarkedExited
    | AtExit
    | ExitAsleep
    | Returned

  /** `notifies` counts resumes that have yet to notify; `unstarted` says that terminate found the
      node never started. */
  datatype State = State(
    started: bool,
    paused: bool,
    terminating: bool,
    exited: bool,
    starter: Starter,
    worker: Worker,
    term: Terminator,
    timed: bool,
    unstarted: bool,
    notifies: nat,
    log: seq<Event>)

  function Fresh(paused: bool): State {
    State(false, paused, false, false, NoStart, NoThread, NotCalled, false, false, 0, [])
  }

  datatype Action =
    | CallStart
    | SetupEnds(ok: bool)
    | Pause
    | ResumeStore
    | ResumeNotify
    | CallTerminate(withTimeout: bool)
    | SetTerminating
    | Unpause
    | NotifyGate
    | Interrupt
    | CheckStarted
    | NotifyUnstarted
    | CheckExited
    | TimeOut
    | WakeTerminator
    | TestLoop
    | CheckGate
    | FallAsleep
    | WakeWorker
    | Retest
    | BeginProcess
    | EndProcess
    | EndCleanup
    | SetExited
    | NotifyExit

  /** Stores that need the gate's mutex wait while the worker is about to sleep. */
  predicate Enabled(s: State, a: Action) {
    match a
    case CallStart => !s.started
    case SetupEnds(_) => s.starter.InSetup?
    case Pause => true
    case ResumeStore => !s.worker.Drowsy?
    case ResumeNotify => s.notifies > 0
    case CallTerminate(_) => s.term.NotCalled?
    case SetTerminating => s.term.Called?
    case Unpause => s.term.Flagged? && !s.worker.Drowsy?
    case NotifyGate => s.term.Unpaused?
    case Interrupt => s.term.Notified?
    case CheckStarted => s.term.Interrupted?
    case NotifyUnstarted => s.term.MarkedExited?
    case CheckExited => s.term.AtExit?
    case TimeOut => s.timed && (s.term.AtExit? || s.term.ExitAsleep?)
    case WakeTerminator => s.term.ExitAsleep?
    case TestLoop => s.worker.LoopTest?
    case CheckGate => s.worker.AtGate?
    case FallAsleep => s.worker.Drowsy?
    case WakeWorker => s.worker.Asleep?
    case Retest => s.worker.PastGate?
    case BeginProcess => s.worker.Cleared?
    case EndProcess => s.worker.Processing?
    case EndCleanup => s.worker.CleaningUp?
    case SetExited => s.worker.CleanedUp?
    case NotifyExit => s.worker.ExitSet?
  }

  function Woken(w: Worker): Worker {
    if w.Asleep? then AtGate else w
  }

  function Step(s: State, a: Action): State {
    match a
    case CallStart => s.(started := true, starter := InSetup, log := s.log + [Setup])
    case SetupEnds(ok) => if ok then s.(starter := ThreadMade, worker := LoopTest) else s.(starter := SetupThrew)
    case Pause => s.(paused := true)
    case ResumeStore => s.(paused := false, notifies := s.notifies + 1)
    case ResumeNotify => s.(notifies := if s.notifies > 0 then s.notifies - 1 else 0, worker := Woken(s.worker))
    case CallTerminate(withTimeout) => s.(term := Called, timed := withTimeout)
    case SetTerminating => s.(term := Flagged, terminating := true)
    case Unpause => s.(term := Unpaused, paused := false)
    case NotifyGate => s.(term := Notified, worker := Woken(s.worker))
    case Interrupt => s.(term := Interrupted)
    case CheckStarted =>
      if s.started then s.(term := AtExit) else s.(term := MarkedExited, exited := true, unstarted := true)
    case NotifyUnstarted => s.(term := Returned)
    case CheckExited => s.(term := if s.exited then Returned else ExitAsleep)
    case TimeOut => s.(term := Returned)
    case WakeTerminator => s.(term := AtExit)
    case TestLoop => s.(worker := if s.terminating then CleaningUp else AtGate)
    case CheckGate => s.(worker := if !s.paused || s.terminating then PastGate else Drowsy)
    case FallAsleep => s.(worker := Asleep)
    case WakeWorker => s.(worker := AtGate)
    case Retest => s.(worker := if s.terminating then CleaningUp else Cleared)
    case BeginProcess => s.(worker := Processing, log := s.log + [Process])
    case EndProcess => s.(worker := LoopTest)
    case EndCleanup => s.(worker := CleanedUp, log := s.log + [Cleanup])
    case SetExited => s.(worker := ExitSet, exited := true)
    case NotifyExit => s.(worker := Gone, term := if s.term.ExitAsleep? then AtExit else s.term)
  }

  ghost predicate IsRun(run: seq<State>, actions: seq<Action>) {
    && |run| == |actions| + 1 && run[0] == Fresh(run[0].paused)
    && forall n {:trigger actions[n]} | 0 <= n < |actions| ::
         Enabled(run[n], actions[n]) && run[n + 1] == Step(run[n], actions[n])
  }

  // ----- invariants -----

  predicate PastCleanup(w: Worker) {
    w.CleanedUp? || w.ExitSet? || w.Gone?
  }

  /** A setup, then processes, then a cleanup. */
  predicate InOrder(log: seq<Event>) {
    && (forall i | 0 <= i < |log| :: log[i].Setup? <==> i == 0)
    && (forall i | 0 <= i < |log| :: log[i].Cleanup? ==> i == |log| - 1)
  }

  predicate LogMatches(s: State) {
    && InOrder(s.log)
    && (s.log == [] <==> s.starter.NoStart?)
    && (s.started <==> !s.starter.NoStart?)
    && (s.worker.NoThread? <==> !s.starter.ThreadMade?)
    && (s.worker.NoThread? ==> |s.log| <= 1)
    && ((s.log != [] && s.log[|s.log| - 1].Cleanup?) <==> PastCleanup(s.worker))
  }

  predicate FlagsMatch(s: State) {
    && (s.terminating <==> !s.term.NotCalled? && !s.term.Called?)
    && (s.exited <==> s.worker.ExitSet? || s.worker.Gone? || s.unstarted)
    && (s.unstarted ==> s.term.MarkedExited? || s.term.Returned?)
    && (s.term.MarkedExited? ==> s.unstarted)
    && (s.term.AtExit? || s.term.ExitAsleep? ==> s.started)
    && (s.term.Returned? && !s.timed && !s.unstarted ==> s.exited)
    && (s.worker.CleaningUp? || PastCleanup(s.worker) ==> s.terminating)
  }

  /** At the gate: asleep, or about to be, while nothing holds it back, only if a notifier is still
      on its way. */
  predicate GateIsWatched(s: State) {
    (s.worker.Drowsy? || s.worker.Asleep?) && (!s.paused || s.terminating)
    ==> s.notifies > 0 || s.term.Flagged? || s.term.Unpaused?
  }

  predicate ExitIsWatched(s: State) {
    s.term.ExitAsleep? && s.exited ==> s.worker.ExitSet?
  }

  /** The gate's mutex makes it so: what a worker about to sleep has seen still holds, except that
      a termination may have begun, which cannot clear the pause before the worker sleeps. */
  predicate DrowsySawPaused(s: State) {
    s.worker.Drowsy? ==> s.paused && (s.terminating ==> s.term.Flagged?)
  }

  predicate Inv(s: State) {
    LogMatches(s) && FlagsMatch(s) && DrowsySawPaused(s) && GateIsWatched(s) && ExitIsWatched(s)
  }

  predicate Logs(a: Action) {
    a.CallStart? || a.BeginProcess? || a.EndCleanup?
  }

  lemma LoggingKeepsLog(s: State, a: Action)
    requires Enabled(s, a) && LogMatches(s) && Logs(a)
    ensures LogMatches(Step(s, a))
  {
  }

  lemma StepKeepsLog(s: State, a: Action)
    requires Enabled(s, a) && LogMatches(s)
    ensures LogMatches(Step(s, a))
  {
    if Logs(a) {
      LoggingKeepsLog(s, a);
    } else {
      assert Step(s, a).log == s.log;
    }
  }

  predicate IsTerminatorAction(a: Action) {
    a.CallTerminate? || a.SetTerminating? || a.Unpause? || a.NotifyGate? || a.Interrupt? || a.CheckStarted?
    || a.NotifyUnstarted? || a.CheckExited? || a.TimeOut? || a.WakeTerminator?
  }

  predicate IsWorkerAction(a: Action) {
    a.TestLoop? || a.CheckGate? || a.Retest? || a.BeginProcess? || a.EndProcess? || a.EndCleanup?
    || a.SetExited? || a.NotifyExit?
  }

  lemma OpeningKeepsFlags(s: State, a: Action)
    requires Enabled(s, a) && LogMatches(s) && FlagsMatch(s)
    requires a.CallTerminate? || a.SetTerminating? || a.Unpause? || a.NotifyGate? || a.Interrupt?
    ensures FlagsMatch(Step(s, a))
  {
    assert Step(s, a).exited == s.exited && Step(s, a).unstarted == s.unstarted;
  }

  lemma LeavingKeepsFlags(s: State, a: Action)
    requires Enabled(s, a) && LogMatches(s) && FlagsMatch(s)
    requires a.CheckStarted? || a.NotifyUnstarted? || a.CheckExited? || a.TimeOut? || a.WakeTerminator?
    ensures FlagsMatch(Step(s, a))
  {
    assert Step(s, a).worker == s.worker && Step(s, a).terminating == s.terminating && Step(s, a).started == s.started;
  }

  lemma ExitingKeepsFlags(s: State, a: Action)
    requires Enabled(s, a) && LogMatches(s) && FlagsMatch(s)
    requires a.EndCleanup? || a.SetExited? || a.NotifyExit?
    ensures FlagsMatch(Step(s, a))
  {
    assert Step(s, a).terminating == s.terminating && Step(s, a).unstarted == s.unstarted;
  }

  lemma LoopingKeepsFlags(s: State, a: Action)
    requires Enabled(s, a) && LogMatches(s) && FlagsMatch(s)
    requires a.TestLoop? || a.CheckGate? || a.Retest? || a.BeginProcess? || a.EndProcess?
    ensures FlagsMatch(Step(s, a))
  {
    var s' := Step(s, a);
    assert s'.exited == s.exited && s'.term == s.term && s'.terminating == s.terminating;
    assert !PastCleanup(s'.worker) && !PastCleanup(s.worker);
  }

  lemma StepKeepsFlags(s: State, a: Action)
    requires Enabled(s, a) && LogMatches(s) && FlagsMatch(s)
    ensures FlagsMatch(Step(s, a))
  {
    if a.CheckStarted? || a.NotifyUnstarted? || a.CheckExited? || a.TimeOut? || a.WakeTerminator? {
      LeavingKeepsFlags(s, a);
    } else if IsTerminatorAction(a) {
      OpeningKeepsFlags(s, a);
    } else if a.EndCleanup? || a.SetExited? || a.NotifyExit? {
      ExitingKeepsFlags(s, a);
    } else if IsWorkerAction(a) {
      LoopingKeepsFlags(s, a);
    } else {
      assert Step(s, a).term == s.term && Step(s, a).exited == s.exited;
    }
  }

  lemma TerminatorKeepsGate(s: State, a: Action)
    requires Enabled(s, a) && FlagsMatch(s) && DrowsySawPaused(s) && GateIsWatched(s) && IsTerminatorAction(a)
    ensures DrowsySawPaused(Step(s, a)) && GateIsWatched(Step(s, a))
  {
    if a.NotifyGate? {
      assert !Step(s, a).worker.Asleep? && !s.worker.Drowsy?;
    } else {
      assert Step(s, a).worker == s.worker && Step(s, a).notifies == s.notifies;
    }
  }

  lemma WorkerKeepsGate(s: State, a: Action)
    requires Enabled(s, a) && FlagsMatch(s) && DrowsySawPaused(s) && GateIsWatched(s) && IsWorkerAction(a)
    ensures DrowsySawPaused(Step(s, a)) && GateIsWatched(Step(s, a))
  {
    if a.CheckGate? {
      assert Step(s, a).worker.Drowsy? ==> s.paused && !s.terminating;
    } else {
      assert !Step(s, a).worker.Drowsy? && !Step(s, a).worker.Asleep?;
    }
  }

  lemma StepKeepsGate(s: State, a: Action)
    requires Enabled(s, a) && FlagsMatch(s) && DrowsySawPaused(s) && GateIsWatched(s)
    ensures DrowsySawPaused(Step(s, a)) && GateIsWatched(Step(s, a))
  {
    if IsTerminatorAction(a) {
      TerminatorKeepsGate(s, a);
    } else if IsWorkerAction(a) {
      WorkerKeepsGate(s, a);
    } else {
      assert Step(s, a).term == s.term && Step(s, a).terminating == s.terminating;
    }
  }

  lemma WorkerKeepsExit(s: State, a: Action)
    requires Enabled(s, a) && LogMatches(s) && FlagsMatch(s) && ExitIsWatched(s) && IsWorkerAction(a)
    ensures ExitIsWatched(Step(s, a))
  {
    if !a.SetExited? && !a.NotifyExit? {
      assert Step(s, a).exited == s.exited && Step(s, a).term == s.term;
    }
  }

  lemma StepKeepsExit(s: State, a: Action)
    requires Enabled(s, a) && LogMatches(s) && FlagsMatch(s) && ExitIsWatched(s)
    ensures ExitIsWatched(Step(s, a))
  {
    if IsWorkerAction(a) {
      WorkerKeepsExit(s, a);
    }
  }

  lemma StepKeepsInv(s: State, a: Action)
    requires Enabled(s, a) && Inv(s)
    ensures Inv(Step(s, a))
  {
    StepKeepsLog(s, a);
    StepKeepsFlags(s, a);
    StepKeepsGate(s, a);
    StepKeepsExit(s, a);
  }

  lemma {:induction false} InvInEveryRun(run: seq<State>, actions: seq<Action>, n: nat)
    requires IsRun(run, actions) && n < |run|
    ensures Inv(run[n])
  {
    if n > 0 {
      InvInEveryRun(run, actions, n - 1);
      StepKeepsInv(run[n - 1], actions[n - 1]);
    }
  }

  // ----- what that means -----

  /** With any mix of calls: at most one setup, then processes, then at most one cleanup, and
      nothing after it; and once the terminating flag is set at most one more process call begins,
      that of a worker past both its tests. */
  lemma OneSetupThenProcessesThenOneCleanup(run: seq<State>, actions: seq<Action>, n: nat)
    requires IsRun(run, actions) && n < |run|
    ensures InOrder(run[n].log)
    ensures PastCleanup(run[n].worker) ==> forall m | n <= m < |run| :: run[m].log == run[n].log
    ensures run[n].terminating ==>
              forall m | n <= m < |run| :: Begun(run[m]) <= Begun(run[n]) + (if run[n].worker.Cleared? then 1 else 0)
  {
    if run[n].terminating {
      forall m | n <= m < |run| ensures Begun(run[m]) <= Begun(run[n]) + (if run[n].worker.Cleared? then 1 else 0) {
        FewLateCalls(run, actions, n, m);
      }
    }
    InvInEveryRun(run, actions, n);
    if PastCleanup(run[n].worker) {
      forall m | n <= m < |run| ensures run[m].log == run[n].log {
        LogIsFinal(run, actions, n, m);
      }
    }
  }

  /** How many process calls have begun. */
  function Begun(s: State): nat {
    multiset(s.log)[Process]
  }

  function IsCleared(w: Worker): nat {
    if w.Cleared? then 1 else 0
  }

  lemma {:induction false} FewLateCalls(run: seq<State>, actions: seq<Action>, n: nat, m: nat)
    requires IsRun(run, actions) && n <= m < |run| && run[n].terminating
    ensures run[m].terminating
    ensures Begun(run[m]) + IsCleared(run[m].worker) <= Begun(run[n]) + IsCleared(run[n].worker)
  {
    if n < m {
      FewLateCalls(run, actions, n, m - 1);
      StoresOfTerminating(run[m - 1], actions[m - 1]);
      LateStep(run[m - 1], actions[m - 1]);
    }
  }

  lemma LateStep(s: State, a: Action)
    requires Enabled(s, a) && s.terminating
    ensures Begun(Step(s, a)) + IsCleared(Step(s, a).worker) <= Begun(s) + IsCleared(s.worker)
  {
    match a {
      case Retest =>
      case BeginProcess =>
      case CallStart =>
      case EndCleanup =>
      case _ => OthersClearNothing(s, a);
    }
  }

  lemma OthersClearNothing(s: State, a: Action)
    requires Enabled(s, a) && !Logs(a) && !a.Retest?
    ensures Step(s, a).log == s.log && IsCleared(Step(s, a).worker) <= IsCleared(s.worker)
  {
    match a {
      case NotifyGate =>
      case ResumeNotify =>
      case SetupEnds(_) =>
      case TestLoop =>
      case CheckGate =>
      case FallAsleep =>
      case WakeWorker =>
      case EndProcess =>
      case SetExited =>
      case NotifyExit =>
      case _ =>
    }
  }

  lemma {:induction false} LogIsFinal(run: seq<State>, actions: seq<Action>, n: nat, m: nat)
    requires IsRun(run, actions) && n <= m < |run| && PastCleanup(run[n].worker)
    ensures run[m].log == run[n].log && PastCleanup(run[m].worker)
  {
    if n < m {
      LogIsFinal(run, actions, n, m - 1);
      CleanedUpHasThread(run, actions, m - 1);
      AfterCleanupNothing(run[m - 1], actions[m - 1]);
    }
  }

  lemma CleanedUpHasThread(run: seq<State>, actions: seq<Action>, n: nat)
    requires IsRun(run, actions) && n < |run| && PastCleanup(run[n].worker)
    ensures run[n].started && run[n].starter.ThreadMade?
  {
    InvInEveryRun(run, actions, n);
  }

  lemma AfterCleanupNothing(s: State, a: Action)
    requires Enabled(s, a) && s.started && s.starter.ThreadMade? && PastCleanup(s.worker)
    ensures Step(s, a).log == s.log && PastCleanup(Step(s, a).worker)
  {
    if !a.SetExited? && !a.NotifyExit? {
      assert Step(s, a).worker == s.worker;
    }
  }

  /** No lost wake-up: the worker is asleep at the gate while resumed or terminating only if a
      notification is still to come. */
  lemma NoLostWakeUp(run: seq<State>, actions: seq<Action>, n: nat)
    requires IsRun(run, actions) && n < |run| && run[n].worker.Asleep?
    requires !run[n].paused || run[n].terminating
    ensures exists a :: (a == ResumeNotify || a == Unpause || a == NotifyGate) && Enabled(run[n], a)
  {
    InvInEveryRun(run, actions, n);
    if run[n].notifies > 0 {
      assert Enabled(run[n], ResumeNotify);
    } else if run[n].term.Flagged? {
      assert Enabled(run[n], Unpause);
    } else {
      assert Enabled(run[n], NotifyGate);
    }
  }

  /** terminate without a timeout returns only after cleanup -- unless it found the node not started,
      in which case a start that comes later still runs its setup and its cleanup. */
  lemma TerminateReturnsAfterCleanup(run: seq<State>, actions: seq<Action>, n: nat)
    requires IsRun(run, actions) && n < |run| && run[n].term.Returned? && !run[n].timed
    ensures run[n].unstarted || (PastCleanup(run[n].worker) && run[n].log != [] && run[n].log[|run[n].log| - 1] == Cleanup)
  {
    InvInEveryRun(run, actions, n);
  }

  /** terminate is not left asleep: once the exit flag is set its wake-up is on its way. */
  lemma ExitWakesTerminator(run: seq<State>, actions: seq<Action>, n: nat)
    requires IsRun(run, actions) && n < |run| && run[n].term.ExitAsleep? && run[n].exited
    ensures Enabled(run[n], NotifyExit) && Step(run[n], NotifyExit).term.AtExit?
  {
    InvInEveryRun(run, actions, n);
  }

  /** While terminate waits for a node whose thread was made, that thread can always go on, or a
      notification for it is still to come: nothing is stuck. */
  lemma TerminationIsNeverStuck(run: seq<State>, actions: seq<Action>, n: nat)
    requires IsRun(run, actions) && n < |run| && run[n].starter.ThreadMade?
    requires run[n].term.ExitAsleep? && !run[n].exited
    ensures exists a :: (IsWorkerAction(a) || a == ResumeNotify) && Enabled(run[n], a)
  {
    InvInEveryRun(run, actions, n);
    var s := run[n];
    match s.worker {
      case LoopTest => assert Enabled(s, TestLoop);
      case AtGate => assert Enabled(s, CheckGate);
      case Asleep => assert Enabled(s, ResumeNotify);
      case PastGate => assert Enabled(s, Retest);
      case Cleared => assert Enabled(s, BeginProcess);
      case Processing => assert Enabled(s, EndProcess);
      case CleaningUp => assert Enabled(s, EndCleanup);
      case CleanedUp => assert Enabled(s, SetExited);
      case _ =>
    }
  }

  /** After a setup that threw, terminate without a timeout waits for ever: no thread will set the
      exit flag. */
  lemma {:induction false} FailedSetupIsWaitedForForever(run: seq<State>, actions: seq<Action>, n: nat, m: nat)
    requires IsRun(run, actions) && n <= m < |run|
    requires WaitsForFailedSetup(run[n])
    ensures WaitsForFailedSetup(run[m])
  {
    if n < m {
      FailedSetupIsWaitedForForever(run, actions, n, m - 1);
      WaiterHasNoThread(run, actions, m - 1);
      StillWaiting(run[m - 1], actions[m - 1]);
    }
  }

  lemma WaiterHasNoThread(run: seq<State>, actions: seq<Action>, n: nat)
    requires IsRun(run, actions) && n < |run| && WaitsForFailedSetup(run[n])
    ensures run[n].worker.NoThread? && run[n].started && !run[n].exited
  {
    InvInEveryRun(run, actions, n);
  }

  predicate WaitsForFailedSetup(s: State) {
    s.starter.SetupThrew? && !s.timed && (s.term.AtExit? || s.term.ExitAsleep?)
  }

  lemma StillWaiting(s: State, a: Action)
    requires Enabled(s, a) && s.worker.NoThread? && s.started && !s.exited && WaitsForFailedSetup(s)
    ensures WaitsForFailedSetup(Step(s, a))
  {
  }

  lemma Extend(run: seq<State>, actions: seq<Action>, a: Action)
    returns (run': seq<State>, actions': seq<Action>)
    requires IsRun(run, actions) && Enabled(run[|actions|], a)
    ensures IsRun(run', actions') && |actions'| == |actions| + 1
    ensures run'[|actions'|] == Step(run[|actions|], a)
  {
    run', actions' := run + [Step(run[|actions|], a)], actions + [a];
  }

  lemma ASetupFails(paused: bool) returns (run: seq<State>, actions: seq<Action>)
    ensures IsRun(run, actions)
    ensures run[|actions|] == Fresh(paused).(started := true, starter := SetupThrew, log := [Setup])
  {
    run, actions := [Fresh(paused)], [];
    run, actions := Extend(run, actions, CallStart);
    run, actions := Extend(run, actions, SetupEnds(false));
  }

  /** Such a run exists. */
  lemma AFailedSetupExample(paused: bool) returns (run: seq<State>, actions: seq<Action>)
    ensures IsRun(run, actions) && WaitsForFailedSetup(run[|actions|])
  {
    run, actions := ASetupFails(paused);
    run, actions := Extend(run, actions, CallTerminate(false));
    run, actions := Extend(run, actions, SetTerminating);
    run, actions := Extend(run, actions, Unpause);
    assert run[|actions|].starter.SetupThrew? && run[|actions|].term.Unpaused?;
    assert run[|actions|].started && !run[|actions|].timed;
    run, actions := Extend(run, actions, NotifyGate);
    run, actions := Extend(run, actions, Interrupt);
    run, actions := Extend(run, actions, CheckStarted);
  }

  // ----- when terminate returns -----

  predicate Possible(s: State, actions: seq<Action>)
    decreases |actions|
  {
    actions == [] || (Enabled(s, actions[0]) && Possible(Step(s, actions[0]), actions[1..]))
  }

  function After(s: State, actions: seq<Action>): State
    requires Possible(s, actions)
    decreases |actions|
  {
    if actions == [] then s else After(Step(s, actions[0]), actions[1..])
  }

  predicate Waits(s: State) {
    !s.timed && (s.term.AtExit? || s.term.ExitAsleep?)
  }

  /** How far the worker is from being gone, once a terminate waits. */
  function Rank(w: Worker): nat {
    match w
    case NoThread => 8
    case Drowsy => 7
    case Asleep | Cleared => 6
    case AtGate | Processing => 5
    case LoopTest | PastGate => 4
    case CleaningUp => 3
    case CleanedUp => 2
    case ExitSet => 1
    case Gone => 0
  }

  /** While a terminate waits no step takes the worker further from its end, and each of its own
      brings it nearer. */
  lemma WaitingMakesProgress(run: seq<State>, actions: seq<Action>, n: nat, a: Action)
    requires IsRun(run, actions) && n < |run| && Waits(run[n]) && Enabled(run[n], a)
    ensures Rank(Step(run[n], a).worker) <= Rank(run[n].worker)
    ensures IsWorkerAction(a) ==> Rank(Step(run[n], a).worker) < Rank(run[n].worker)
    ensures a.ResumeNotify? && run[n].worker.Asleep? ==> Rank(Step(run[n], a).worker) < Rank(run[n].worker)
  {
    InvInEveryRun(run, actions, n);
    WaitingProgress(run[n], a);
  }

  lemma WaitingProgress(s: State, a: Action)
    requires Inv(s) && Waits(s) && Enabled(s, a)
    ensures Rank(Step(s, a).worker) <= Rank(s.worker)
    ensures IsWorkerAction(a) ==> Rank(Step(s, a).worker) < Rank(s.worker)
    ensures a.ResumeNotify? && s.worker.Asleep? ==> Rank(Step(s, a).worker) < Rank(s.worker)
  {
    assert s.terminating;
  }

  /** What the worker does next, or what wakes it; terminate's own look when the exit flag is set. */
  function NextTowardsExit(s: State): Action {
    if s.exited && s.term.AtExit? then CheckExited
    else
      match s.worker
      case NoThread => SetupEnds(true)
      case LoopTest => TestLoop
      case AtGate => CheckGate
      case Drowsy => FallAsleep
      case Asleep => ResumeNotify
      case PastGate => Retest
      case Cleared => BeginProcess
      case Processing => EndProcess
      case CleaningUp => EndCleanup
      case CleanedUp => SetExited
      case ExitSet | Gone => NotifyExit
  }

  lemma ThereIsAWayOn(s: State)
    requires Inv(s) && Waits(s) && !s.starter.SetupThrew?
    ensures Enabled(s, NextTowardsExit(s))
    ensures var s' := Step(s, NextTowardsExit(s));
            && !s'.starter.SetupThrew?
            && if s.exited && s.term.AtExit? then s'.term.Returned?
               else Waits(s') && Rank(s'.worker) < Rank(s.worker)
  {
    assert s.terminating && s.started && !s.unstarted;
  }

  lemma {:induction false} WayToReturn(s: State) returns (more: seq<Action>)
    requires Inv(s) && Waits(s) && !s.starter.SetupThrew?
    ensures Possible(s, more) && After(s, more).term.Returned?
    ensures WakeWorker !in more && WakeTerminator !in more
    decreases Rank(s.worker)
  {
    var a := NextTowardsExit(s);
    ThereIsAWayOn(s);
    var rest := [];
    if !(s.exited && s.term.AtExit?) {
      StepKeepsInv(s, a);
      rest := WayToReturn(Step(s, a));
    }
    more := [a] + rest;
    assert more[1..] == rest;
  }

  lemma {:induction false} NoWayToReturn(s: State, more: seq<Action>)
    requires Inv(s) && WaitsForFailedSetup(s) && Possible(s, more)
    ensures WaitsForFailedSetup(After(s, more))
    decreases |more|
  {
    if more != [] {
      StillWaiting(s, more[0]);
      StepKeepsInv(s, more[0]);
      NoWayToReturn(Step(s, more[0]), more[1..]);
    }
  }

  /** A waiting terminate without a timeout can return, and needs no spurious wake-up for it, exactly
      when setup has not thrown. */
  lemma ReturnsExactlyUnlessSetupThrew(run: seq<State>, actions: seq<Action>, n: nat)
    requires IsRun(run, actions) && n < |run| && Waits(run[n])
    ensures (exists more :: Possible(run[n], more) && WakeWorker !in more && WakeTerminator !in more
                            && After(run[n], more).term.Returned?)
            <==> !run[n].starter.SetupThrew?
  {
    InvInEveryRun(run, actions, n);
    if run[n].starter.SetupThrew? {
      forall more | Possible(run[n], more) ensures !After(run[n], more).term.Returned? {
        NoWayToReturn(run[n], more);
      }
    } else {
      var more := WayToReturn(run[n]);
    }
  }

  /** With a time-out it can return at any moment of its wait. */
  lemma ATimedTerminateCanReturn(s: State)
    requires s.timed && (s.term.AtExit? || s.term.ExitAsleep?)
    ensures exists a :: Enabled(s, a) && Step(s, a).term.Returned?
  {
    assert Enabled(s, TimeOut);
  }

  /** One that finds the node not exited sleeps, and looks again if it is woken for nothing. */
  lemma WaitsForTheExit(s: State)
    requires s.term.AtExit? && !s.exited
    ensures Possible(s, [CheckExited]) && After(s, [CheckExited]) == s.(term := ExitAsleep)
    ensures Possible(s.(term := ExitAsleep), [WakeTerminator]) && After(s.(term := ExitAsleep), [WakeTerminator]) == s
  {
    assert [CheckExited][1..] == [] && [WakeTerminator][1..] == [];
  }

  /** One that finds the node never started returns at once, the exit flag set. */
  lemma ReturnsWhenNeverStarted(s: State)
    requires s.term.Interrupted? && !s.started
    ensures var steps := [CheckStarted, NotifyUnstarted];
            Possible(s, steps) && After(s, steps).term.Returned? && After(s, steps).exited
  {
    var steps := [CheckStarted, NotifyUnstarted];
    assert steps[1..] == [NotifyUnstarted] && [NotifyUnstarted][1..] == [];
    assert Possible(Step(s, CheckStarted), [NotifyUnstarted]);
  }

  // ----- what pause and resume do -----

  /** A worker that finds the node paused goes to sleep, and if it is woken for nothing it looks again. */
  lemma SleepsWhilePaused(s: State)
    requires s.worker.AtGate? && s.paused && !s.terminating
    ensures Possible(s, [CheckGate, FallAsleep]) && After(s, [CheckGate, FallAsleep]) == s.(worker := Asleep)
    ensures Possible(s.(worker := Asleep), [WakeWorker]) && After(s.(worker := Asleep), [WakeWorker]) == s
  {
    assert [CheckGate, FallAsleep][1..] == [FallAsleep] && [FallAsleep][1..] == [] && [WakeWorker][1..] == [];
    assert Possible(Step(s, CheckGate), [FallAsleep]);
  }

  function OnItsWay(w: Worker): nat {
    if w.PastGate? || w.Cleared? then 1 else 0
  }

  /** While a node is paused and not terminating at most one process call begins, and that one was
      already past the gate. */
  lemma PauseHoldsProcessing(run: seq<State>, actions: seq<Action>, k: nat, n: nat)
    requires IsRun(run, actions) && k <= n < |run|
    requires forall i | k <= i <= n :: run[i].paused && !run[i].terminating
    ensures Begun(run[n]) == Begun(run[k])
            || (Begun(run[n]) == Begun(run[k]) + 1 && (run[k].worker.PastGate? || run[k].worker.Cleared?))
  {
    ClosedGateHolds(run, actions, k, n);
  }

  lemma {:induction false} ClosedGateHolds(run: seq<State>, actions: seq<Action>, k: nat, n: nat)
    requires IsRun(run, actions) && k <= n < |run|
    requires forall i | k <= i <= n :: run[i].paused && !run[i].terminating
    ensures Begun(run[k]) <= Begun(run[n]) && Begun(run[n]) + OnItsWay(run[n].worker) <= Begun(run[k]) + OnItsWay(run[k].worker)
  {
    if k < n {
      ClosedGateHolds(run, actions, k, n - 1);
      assert run[n - 1].paused && !run[n - 1].terminating;
      StepAtClosedGate(run[n - 1], actions[n - 1]);
    }
  }

  lemma StepAtClosedGate(s: State, a: Action)
    requires Enabled(s, a) && s.paused && !s.terminating
    ensures Begun(s) <= Begun(Step(s, a)) && Begun(Step(s, a)) + OnItsWay(Step(s, a).worker) <= Begun(s) + OnItsWay(s.worker)
  {
    if Logs(a) {
      LoggingAtClosedGate(s, a);
    } else {
      MovingAtClosedGate(s, a);
    }
  }

  lemma LoggingAtClosedGate(s: State, a: Action)
    requires Enabled(s, a) && Logs(a)
    ensures Begun(s) <= Begun(Step(s, a)) && Begun(Step(s, a)) + OnItsWay(Step(s, a).worker) <= Begun(s) + OnItsWay(s.worker)
  {
  }

  lemma MovingAtClosedGate(s: State, a: Action)
    requires Enabled(s, a) && !Logs(a) && s.paused && !s.terminating
    ensures Step(s, a).log == s.log && OnItsWay(Step(s, a).worker) <= OnItsWay(s.worker)
  {
    if IsWorkerAction(a) {
      WorkingAtClosedGate(s, a);
    } else {
      OthersAtTheGate(s, a);
    }
  }

  lemma WorkingAtClosedGate(s: State, a: Action)
    requires Enabled(s, a) && IsWorkerAction(a) && !Logs(a) && s.paused && !s.terminating
    ensures Step(s, a).log == s.log && OnItsWay(Step(s, a).worker) <= OnItsWay(s.worker)
  {
    match a {
      case TestLoop =>
      case CheckGate =>
      case Retest =>
      case EndProcess =>
      case SetExited =>
      case NotifyExit =>
    }
  }

  lemma OthersAtTheGate(s: State, a: Action)
    requires Enabled(s, a) && !IsWorkerAction(a) && !Logs(a)
    ensures Step(s, a).log == s.log && OnItsWay(Step(s, a).worker) <= OnItsWay(s.worker)
  {
    if IsTerminatorAction(a) {
      TerminatorAtTheGate(s, a);
    }
  }

  lemma TerminatorAtTheGate(s: State, a: Action)
    requires IsTerminatorAction(a)
    ensures Step(s, a).log == s.log && OnItsWay(Step(s, a).worker) == OnItsWay(s.worker)
  {
    match a {
      case CallTerminate(_) =>
      case SetTerminating =>
      case Unpause =>
      case NotifyGate =>
      case Interrupt =>
      case CheckStarted =>
      case NotifyUnstarted =>
      case CheckExited =>
      case TimeOut =>
      case WakeTerminator =>
    }
  }

  predicate IsAtGate(w: Worker) {
    w.AtGate? || w.Drowsy? || w.Asleep?
  }

  /** A worker at the gate of a paused node that is not terminating stays there, and begins no process
      call, until a resume or a terminate stores its flag. */
  lemma {:induction false} StaysAtGate(run: seq<State>, actions: seq<Action>, k: nat, n: nat)
    requires IsRun(run, actions) && k <= n < |run|
    requires run[k].worker.AtGate? || run[k].worker.Drowsy? || run[k].worker.Asleep?
    requires run[k].paused && !run[k].terminating
    requires forall i | k <= i < n :: !actions[i].ResumeStore? && !actions[i].SetTerminating?
    ensures IsAtGate(run[n].worker) && run[n].paused && !run[n].terminating
    ensures forall i | k <= i < n :: !actions[i].BeginProcess?
  {
    if k < n {
      StaysAtGate(run, actions, k, n - 1);
      InvInEveryRun(run, actions, n - 1);
      StepStaysAtGate(run[n - 1], actions[n - 1]);
    }
  }

  lemma StepStaysAtGate(s: State, a: Action)
    requires Enabled(s, a) && FlagsMatch(s) && LogMatches(s) && IsAtGate(s.worker) && s.paused && !s.terminating
    requires !a.ResumeStore? && !a.SetTerminating?
    ensures IsAtGate(Step(s, a).worker) && Step(s, a).paused && !Step(s, a).terminating && !a.BeginProcess?
  {
  }

  /** A worker at the gate of a node that is neither paused nor terminating can begin a process call,
      and what wakes it, should it sleep, is a notification on its way. */
  lemma AResumedWorkerProcesses(run: seq<State>, actions: seq<Action>, n: nat) returns (more: seq<Action>)
    requires IsRun(run, actions) && n < |run| && IsAtGate(run[n].worker) && !run[n].paused && !run[n].terminating
    ensures Possible(run[n], more) && WakeWorker !in more
    ensures After(run[n], more).worker.Processing? && After(run[n], more).log == run[n].log + [Process]
  {
    InvInEveryRun(run, actions, n);
    var s := run[n];
    more := [CheckGate, Retest, BeginProcess];
    if s.worker.Asleep? {
      PassingTheGate(Step(s, ResumeNotify));
      assert ([ResumeNotify] + more)[1..] == more;
      more := [ResumeNotify] + more;
    } else {
      assert s.worker.AtGate?;
      PassingTheGate(s);
    }
  }

  lemma PassingTheGate(s: State)
    requires s.worker.AtGate? && !s.paused && !s.terminating
    ensures var more := [CheckGate, Retest, BeginProcess];
            Possible(s, more) && After(s, more).worker.Processing? && After(s, more).log == s.log + [Process]
  {
    var more := [CheckGate, Retest, BeginProcess];
    var s1 := Step(s, CheckGate);
    var s2 := Step(s1, Retest);
    var s3 := Step(s2, BeginProcess);
    assert more[1..] == [Retest, BeginProcess] && more[1..][1..] == [BeginProcess] && [BeginProcess][1..] == [];
    assert Possible(s3, []) && After(s3, []) == s3;
    assert Possible(s2, [BeginProcess]) && After(s2, [BeginProcess]) == s3;
    assert Possible(s1, more[1..]) && After(s1, more[1..]) == s3;
  }

  /** The notifications still to come are those of the resumes that have stored and not yet notified. */
  lemma {:induction false} NotifiesExactly(run: seq<State>, actions: seq<Action>, n: nat)
    requires IsRun(run, actions) && n < |run|
    ensures multiset(actions[..n])[ResumeStore] == multiset(actions[..n])[ResumeNotify] + run[n].notifies
  {
    if n > 0 {
      NotifiesExactly(run, actions, n - 1);
      assert actions[..n] == actions[..n - 1] + [actions[n - 1]];
      NotifyingStep(run[n - 1], actions[n - 1]);
    }
  }

  lemma NotifyingStep(s: State, a: Action)
    requires Enabled(s, a)
    ensures a == ResumeStore ==> Step(s, a).notifies == s.notifies + 1
    ensures a == ResumeNotify ==> s.notifies == Step(s, a).notifies + 1
    ensures a != ResumeStore && a != ResumeNotify ==> Step(s, a).notifies == s.notifies
  {
    if IsTerminatorAction(a) {
      TerminatorStores(s, a);
    } else if IsWorkerAction(a) {
      WorkerStores(s, a);
    }
  }

  /** A node is paused when the last store to its flag was a pause, or it was made so and there was
      none; it is terminating from the store of terminate on. */
  lemma {:induction false} PausedExactly(run: seq<State>, actions: seq<Action>, i: nat, n: nat)
    requires IsRun(run, actions) && i <= n < |run|
    requires forall j | i <= j < n :: !actions[j].Pause? && !actions[j].ResumeStore? && !actions[j].Unpause?
    ensures i == 0 ==> run[n].paused == run[0].paused
    ensures i > 0 && actions[i - 1].Pause? ==> run[n].paused
    ensures i > 0 && (actions[i - 1].ResumeStore? || actions[i - 1].Unpause?) ==> !run[n].paused
  {
    if i < n {
      PausedExactly(run, actions, i, n - 1);
      KeepsPaused(run[n - 1], actions[n - 1]);
    } else if i > 0 {
      assert run[i] == Step(run[i - 1], actions[i - 1]);
    }
  }

  lemma {:induction false} TerminatingExactly(run: seq<State>, actions: seq<Action>, n: nat)
    requires IsRun(run, actions) && n < |run|
    ensures run[n].terminating <==> SetTerminating in actions[..n]
  {
    if n > 0 {
      TerminatingExactly(run, actions, n - 1);
      StoresOfTerminating(run[n - 1], actions[n - 1]);
      LastOne(actions, n, SetTerminating);
    }
  }

  lemma LastOne(actions: seq<Action>, n: nat, a: Action)
    requires 0 < n <= |actions|
    ensures a in actions[..n] <==> a in actions[..n - 1] || actions[n - 1] == a
  {
    assert actions[..n] == actions[..n - 1] + [actions[n - 1]];
  }

  lemma KeepsPaused(s: State, a: Action)
    requires !a.Pause? && !a.ResumeStore? && !a.Unpause?
    ensures Step(s, a).paused == s.paused
  {
    if IsTerminatorAction(a) {
      TerminatorStores(s, a);
    } else if IsWorkerAction(a) {
      WorkerStores(s, a);
    }
  }

  lemma StoresOfTerminating(s: State, a: Action)
    ensures Step(s, a).terminating == (s.terminating || a.SetTerminating?)
  {
    if IsTerminatorAction(a) {
      TerminatorStores(s, a);
    } else if IsWorkerAction(a) {
      WorkerStores(s, a);
    }
  }

  lemma TerminatorStores(s: State, a: Action)
    requires IsTerminatorAction(a)
    ensures !a.Unpause? ==> Step(s, a).paused == s.paused
    ensures Step(s, a).terminating == (s.terminating || a.SetTerminating?) && Step(s, a).notifies == s.notifies
  {
    match a {
      case CallTerminate(_) =>
      case SetTerminating =>
      case Unpause =>
      case NotifyGate =>
      case Interrupt =>
      case CheckStarted =>
      case NotifyUnstarted =>
      case CheckExited =>
      case TimeOut =>
      case WakeTerminator =>
    }
  }

  lemma WorkerStores(s: State, a: Action)
    requires IsWorkerAction(a)
    ensures Step(s, a).paused == s.paused && Step(s, a).terminating == s.terminating && Step(s, a).notifies == s.notifies
  {
    match a {
      case TestLoop =>
      case CheckGate =>
      case Retest =>
      case BeginProcess =>
      case EndProcess =>
      case EndCleanup =>
      case SetExited =>
      case NotifyExit =>
    }
  }

  // ----- the loop itself -----

  /** What one read of the two flags finds. */
  datatype Flags = Flags(paused: bool, terminating: bool)

  predicate Opens(f: Flags) {
    !f.paused || f.terminating
  }

  /** The place behind the read that opens the gate, when its reads start at `i`. */
  function GateEnd(flags: seq<Flags>, i: nat): (r: nat)
    ensures r > i
    ensures r <= |flags| ==> Opens(flags[r - 1]) && forall k | i <= k < r - 1 :: !Opens(flags[k])
    decreases |flags| - i
  {
    if i >= |flags| || Opens(flags[i]) then i + 1 else GateEnd(flags, i + 1)
  }

  /** The reads from `i` on take the loop to its end: in each turn one before the gate, the gate's own,
      and one behind it. */
  predicate Ends(flags: seq<Flags>, i: nat)
    decreases |flags| - i
  {
    i < |flags| && (
      flags[i].terminating
      || var behind := GateEnd(flags, i + 1);
         behind < |flags| && (flags[behind].terminating || Ends(flags, behind + 1)))
  }

  /** How many process calls the loop makes. */
  function Calls(flags: seq<Flags>, i: nat): nat
    requires Ends(flags, i)
    decreases |flags| - i
  {
    if flags[i].terminating || flags[GateEnd(flags, i + 1)].terminating then 0
    else 1 + Calls(flags, GateEnd(flags, i + 1) + 1)
  }

  /** From the read that finds the terminating flag set, the loop needs at most two more to end, and
      no process call begins: each call took three reads before that one. */
  lemma {:induction false} EndsAfterTerminating(flags: seq<Flags>, i: nat, t: nat)
    requires i <= t && t + 3 <= |flags|
    requires forall k | 0 <= k < |flags| :: flags[k].terminating <==> k >= t
    ensures Ends(flags, i) && i + 3 * Calls(flags, i) <= t
    decreases |flags| - i
  {
    if i < t {
      GateOpensBy(flags, i + 1, t);
      if GateEnd(flags, i + 1) < t {
        EndsAfterTerminating(flags, GateEnd(flags, i + 1) + 1, t);
      }
    }
  }

  lemma {:induction false} GateOpensBy(flags: seq<Flags>, i: nat, t: nat)
    requires i <= t < |flags| && flags[t].terminating
    ensures GateEnd(flags, i) <= t + 1
    decreases t - i
  {
    if i < t {
      GateOpensBy(flags, i + 1, t);
    }
  }

  /** One turn of the loop with a process call: a test that finds the node not terminating, reads at the
      gate that find it paused and not terminating, one that finds either of them otherwise, and a test
      behind the gate that finds the node still not terminating. */
  ghost predicate IsTurn(flags: seq<Flags>, test: nat, behind: nat) {
    && test + 1 < behind < |flags|
    && !flags[test].terminating && !flags[behind].terminating
    && (forall k | test < k < behind - 1 :: flags[k].paused && !flags[k].terminating)
    && (!flags[behind - 1].paused || flags[behind - 1].terminating)
  }

  /** The last turn: its test finds the node terminating, or the test behind its gate does. */
  ghost predicate IsLastTurn(flags: seq<Flags>, test: nat, behind: nat) {
    && test < |flags|
    && (flags[test].terminating
        || (test + 1 < behind < |flags| && flags[behind].terminating
            && (forall k | test < k < behind - 1 :: flags[k].paused && !flags[k].terminating)
            && (!flags[behind - 1].paused || flags[behind - 1].terminating)))
  }

  /** Each process call takes one turn, each turn starts where the one before ended, and the loop ends
      with the first turn that finds the node terminating. */
  lemma {:induction false} CallsExactly(flags: seq<Flags>, i: nat) returns (tests: seq<nat>, behind: seq<nat>)
    requires Ends(flags, i)
    ensures |tests| == |behind| == Calls(flags, i) + 1 && tests[0] == i
    ensures forall j | 0 <= j < Calls(flags, i) :: IsTurn(flags, tests[j], behind[j]) && tests[j + 1] == behind[j] + 1
    ensures IsLastTurn(flags, tests[Calls(flags, i)], behind[Calls(flags, i)])
    decreases |flags| - i
  {
    var end := GateEnd(flags, i + 1);
    if flags[i].terminating || flags[end].terminating {
      tests, behind := [i], [end];
    } else {
      assert IsTurn(flags, i, end);
      var ts, bs := CallsExactly(flags, end + 1);
      tests, behind := [i] + ts, [end] + bs;
    }
  }

  /** A loop that finds the node paused at every read until it is terminated makes no process call. */
  lemma NoCallWhilePaused(flags: seq<Flags>, i: nat, t: nat)
    requires i <= t && t + 3 <= |flags|
    requires forall k | i <= k < |flags| :: flags[k].terminating <==> k >= t
    requires forall k | i <= k < t :: flags[k].paused
    ensures Ends(flags, i) && Calls(flags, i) == 0
  {
    if i < t {
      GateOpensBy(flags, i + 1, t);
      assert Opens(flags[GateEnd(flags, i + 1) - 1]);
    }
  }

  /** One that never finds it paused makes a call for every three reads before it is terminated. */
  lemma {:induction false} ACallForThreeReads(flags: seq<Flags>, i: nat, t: nat)
    requires i <= t && t + 3 <= |flags|
    requires forall k | i <= k < |flags| :: flags[k].terminating <==> k >= t
    requires forall k | i <= k < t :: !flags[k].paused
    ensures Ends(flags, i) && Calls(flags, i) == (t - i) / 3
    decreases |flags| - i
  {
    if i < t {
      assert Opens(flags[i + 1]) && GateEnd(flags, i + 1) == i + 2;
      if i + 2 < t {
        ACallForThreeReads(flags, i + 3, t);
      }
    }
  }

  function Processes(n: nat): (r: seq<Event>)
    ensures |r| == n
  {
    seq(n, i => Process)
  }

  function Two(s: State, a: Action, b: Action): State {
    Step(Step(s, a), b)
  }

  function Three(s: State, a: Action, b: Action, c: Action): State {
    Step(Step(Step(s, a), b), c)
  }

  /** terminate once the gate is open. */
  function Raised(s: State, withTimeout: bool): State {
    s.(term := Unpaused, timed := withTimeout, terminating := true, paused := false)
  }

  /** terminate once it knows whether to wait. */
  function Notifying(s: State): State {
    if s.started then s.(worker := Woken(s.worker), term := AtExit)
    else s.(worker := Woken(s.worker), term := MarkedExited, exited := true, unstarted := true)
  }

  lemma RaisedInThreeSteps(s: State, withTimeout: bool)
    ensures Raised(s, withTimeout) == Three(s, CallTerminate(withTimeout), SetTerminating, Unpause)
  {
  }

  lemma NotifyingInThreeSteps(s: State)
    ensures Notifying(s) == Three(s, NotifyGate, Interrupt, CheckStarted)
  {
  }

  class Node {
    var started: bool
    var paused: bool
    var terminating: bool
    var terminated: bool
    var exited: bool
    ghost var starter: Starter
    ghost var worker: Worker
    ghost var term: Terminator
    ghost var timed: bool
    ghost var unstarted: bool
    ghost var notifies: nat
    ghost var log: seq<Event>

    ghost function Model(): State
      reads this
    {
      State(started, paused, terminating, exited, starter, worker, term, timed, unstarted, notifies, log)
    }

    constructor (startPaused: bool)
      ensures Model() == Fresh(startPaused) && !terminated
    {
      started, paused, terminating, terminated, exited := false, startPaused, false, false, false;
      starter, worker, term, timed, unstarted, notifies, log := NoStart, NoThread, NotCalled, false, false, 0, [];
    }

    /** start: only the first call does anything; setup may throw. */
    method Start(setupOk: bool)
      modifies this
      ensures Model() == if old(started) then old(Model()) else Two(old(Model()), CallStart, SetupEnds(setupOk))
      ensures terminated == old(terminated)
    {
      if started { return; }
      started := true;
      starter, log := InSetup, log + [Setup];
      if setupOk {
        starter, worker := ThreadMade, LoopTest;
      } else {
        starter := SetupThrew;
      }
    }

    method PauseNode()
      modifies this
      ensures Model() == Step(old(Model()), Pause) && terminated == old(terminated)
    {
      paused := true;
    }

    /** resume: the store under the gate's mutex, then the notification. */
    method Resume()
      modifies this
      ensures Model() == Two(old(Model()), ResumeStore, ResumeNotify) && terminated == old(terminated)
    {
      paused := false;
      worker := Woken(worker);
    }

    /** The first stores of terminate, up to the one that opens the gate. */
    method RaiseFlags(withTimeout: bool)
      modifies this
      ensures terminated && Model() == Raised(old(Model()), withTimeout)
    {
      terminated := true;
      term, timed := Called, withTimeout;
      terminating := true;
      term := Flagged;
      paused := false;
      term := Unpaused;
    }

    /** The rest of terminate before its wait: notify, interrupt, and leave if never started. */
    method WakeAndCheck() returns (waits: bool)
      requires term.Unpaused?
      modifies this
      ensures terminated == old(terminated) && waits == started
      ensures Model() == Notifying(old(Model()))
    {
      worker, term := Woken(worker), Notified;
      term := Interrupted;
      if !started {
        exited, unstarted, term := true, true, MarkedExited;
        waits := false;
      } else {
        term := AtExit;
        waits := true;
      }
    }

    /** terminate up to its wait: only the first call does anything. */
    method BeginTerminate(withTimeout: bool) returns (waits: bool)
      modifies this
      ensures terminated
      ensures old(terminated) ==> !waits && Model() == old(Model())
      ensures !old(terminated) ==>
                waits == old(started)
                && Model() == Three(Three(old(Model()), CallTerminate(withTimeout), SetTerminating, Unpause),
                                    NotifyGate, Interrupt, CheckStarted)
    {
      if terminated { return false; }
      RaisedInThreeSteps(Model(), withTimeout);
      RaiseFlags(withTimeout);
      NotifyingInThreeSteps(Model());
      waits := WakeAndCheck();
    }

    /** The pause gate: waits until a read of its condition opens it. */
    method PassGate(flags: seq<Flags>, start: nat) returns (end: nat)
      requires GateEnd(flags, start) <= |flags|
      ensures end == GateEnd(flags, start)
    {
      end := start;
      while !Opens(flags[end])
        invariant end < |flags| && GateEnd(flags, start) == GateEnd(flags, end)
        decreases |flags| - end
      {
        end := end + 1;
      }
      end := end + 1;
    }

    /** runLoop_ alone, given what its successive reads of the flags find. */
    method RunLoop(flags: seq<Flags>)
      requires Ends(flags, 0)
      modifies this
      ensures exited && log == old(log) + Processes(Calls(flags, 0)) + [Cleanup]
    {
      var next := 0;
      ghost var done := 0;
      while !flags[next].terminating
        invariant Ends(flags, next) && Calls(flags, 0) == done + Calls(flags, next)
        invariant log == old(log) + Processes(done)
        decreases |flags| - next
      {
        var behind := PassGate(flags, next + 1);
        if flags[behind].terminating { break; }
        log := log + [Process];
        assert Processes(done + 1) == Processes(done) + [Process];
        next, done := behind + 1, done + 1;
      }
      log := log + [Cleanup];
      exited := true;
    }
  }
}
