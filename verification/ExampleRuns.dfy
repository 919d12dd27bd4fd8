/** Runs that show what can go wrong: a handler that outlives the session that installed it, a stop that
    fails, a build that panics, and a report whose samples are lost. */
module ExampleRuns {
  import opened Outcomes
  import opened Lifecycle
  import opened Protocol
  import opened Guarantees
  import opened Spill

  ghost function Two(main: Main, handler: Handling): map<Tid, Thread> {
    map[0 := Thread(main, NotIn), 1 := Thread(Idle, handler)]
  }

  /** Before the session: thread 0 is at `main`. */
  ghost function Before(main: Main, writer: Option<Who>): State {
    State(Two(main, NotIn), {}, writer, Previous, false, FRESH, {}, 0, [], [], NoFailure)
  }

  const RUNNING: View := FRESH.(running := true, saved := Some(Previous))

  /** During the session. */
  ghost function During(main: Main, handler: Handling, writer: Option<Who>, armed: bool, guards: set<nat>): State {
    State(Two(main, handler), {}, writer, Handler, armed, RUNNING, guards, if main.Holding? then 0 else 1, [], [], NoFailure)
  }

  lemma {:induction false} ToLazy() returns (run: Run)
    ensures Valid(run) && Last(run) == Before(Holding(Lazy, Begun), None).(readers := {0})
  {
    run := Start({0, 1});
    assert Last(run).threads == Two(Idle, NotIn);
    hide Last, Valid, ApplyHandler;
    run := Extend(run, Call(0, Lazy));
    assert Last(run).threads == Two(Waiting(Lazy), NotIn);
    run := Extend(run, Acquire(0));
    assert Last(run).threads == Two(Holding(Lazy, Begun), NotIn);
  }

  lemma {:induction false} ToBuild() returns (run: Run)
    ensures Valid(run) && Last(run) == Before(Holding(Build, Begun), Some(MainOf(0)))
  {
    run := ToLazy();
    hide Last, Valid, ApplyHandler;
    run := Extend(run, Release(0));
    assert Last(run) == Before(Waiting(Build), None);
    run := Extend(run, Acquire(0));
    assert Last(run).threads == Two(Holding(Build, Begun), NotIn);
  }

  lemma {:induction false} ToRunning() returns (run: Run)
    ensures Valid(run) && Last(run) == During(Holding(Build, Started), NotIn, Some(MainOf(0)), false, {})
  {
    run := ToBuild();
    hide Last, Valid, ApplyHandler;
    run := Extend(run, Action.Register(0, true));
    assert Last(run).threads == Two(Holding(Build, Registered), NotIn);
    run := Extend(run, SetRunning(0));
    assert Last(run).threads == Two(Holding(Build, Started), NotIn);
  }

  lemma {:induction false} ToGuard() returns (run: Run)
    ensures Valid(run) && Last(run) == During(Idle, NotIn, None, true, {0})
  {
    run := ToRunning();
    hide Last, Valid, ApplyHandler;
    run := Extend(run, Arm(0, true));
    assert Last(run) == During(Holding(Build, Armed), NotIn, Some(MainOf(0)), true, {});
    run := Extend(run, Release(0));
    assert Last(run).threads == Two(Idle, NotIn);
  }

  lemma {:induction false} ToSignal() returns (run: Run)
    ensures Valid(run) && Last(run) == During(Idle, Entered, None, true, {0})
  {
    run := ToGuard();
    hide Last, Valid, ApplyMain;
    run := Extend(run, Signal(1));
    assert Last(run).threads == Two(Idle, Entered);
  }

  lemma {:induction false} ToDrop() returns (run: Run)
    ensures Valid(run) && Last(run) == During(Waiting(Stop), Entered, None, false, {})
  {
    run := ToSignal();
    hide Last, Valid, ApplyHandler;
    run := Extend(run, DropGuard(0, 0));
    assert Last(run) == During(Disarming, Entered, None, true, {});
    run := Extend(run, Disarm(0));
    assert Last(run).threads == Two(Waiting(Stop), Entered);
  }

  lemma {:induction false} ToStop() returns (run: Run)
    ensures Valid(run)
    ensures Last(run) == During(Holding(Stop, Begun), Entered, Some(MainOf(0)), false, {}).(nextGuard := 1)
  {
    run := ToDrop();
    hide Last, Valid, ApplyHandler;
    run := Extend(run, Acquire(0));
    assert Last(run).threads == Two(Holding(Stop, Begun), Entered);
  }

  lemma {:induction false} ToReset() returns (run: Run)
    ensures Valid(run) && Last(run).threads == Two(Holding(Stop, Done), Entered)
    ensures Last(run).disposition.Ignored? && !Last(run).prof.running
    ensures Last(run).writer == Some(MainOf(0)) && Last(run).readers == {}
  {
    run := ToStop();
    hide Last, Valid, ApplyHandler;
    run := Extend(run, Action.Unregister(0, true));
    assert Last(run).threads == Two(Holding(Stop, Unregistered), Entered);
    run := Extend(run, Reset(0, true));
    assert Last(run).threads == Two(Holding(Stop, Done), Entered);
  }

  /** A signal that reaches thread 1 before thread 0 stops the profiler leaves behind a handler that may
      still record. */
  lemma {:induction false} LateHandlerHappens() returns (run: Run)
    ensures Valid(run) && Last(run).disposition.Ignored? && !Last(run).prof.running && Free(Last(run))
    ensures MayStillRecord(Last(run))
  {
    run := ToReset();
    hide Last, Valid, ApplyHandler;
    run := Extend(run, Release(0));
    assert Last(run).threads[1].handler.Entered?;
  }

  /** A stop whose `sigaction` fails leaves a running profiler without a guard. */
  lemma {:induction false} FailedStopHappens() returns (run: Run)
    ensures Valid(run) && Last(run).failure.HandlerLeft? && Last(run).prof.running && Last(run).guards == {}
  {
    run := ToStop();
    hide Last, Valid, ApplyHandler;
    run := Extend(run, Action.Unregister(0, false));
  }

  /** So does a stop that cannot make a new collector. */
  lemma {:induction false} FailedResetHappens() returns (run: Run)
    ensures Valid(run) && Last(run).failure.DataLeft? && Last(run).prof.running && Last(run).guards == {}
  {
    run := ToStop();
    hide Last, Valid, ApplyHandler;
    run := Extend(run, Action.Unregister(0, true));
    run := Extend(run, Reset(0, false));
  }

  /** And so does a build that panics after it has started the profiler. */
  lemma {:induction false} PanicHappens() returns (run: Run)
    ensures Valid(run) && Last(run).failure.HandlerLeft? && Last(run).guards == {} && Free(Last(run))
  {
    run := ToRunning();
    hide Last, Valid, ApplyHandler;
    run := Extend(run, Panic(0));
    run := Extend(run, Release(0));
  }

  lemma {:induction false} ToListing() returns (run: Run)
    ensures Valid(run)
    ensures Last(run).threads == Two(Holding(Report(0, true), Listed([], true)), NotIn)
    ensures Last(run).prof.running && Last(run).windows == []
  {
    run := ToGuard();
    hide Last, Valid, ApplyHandler;
    run := Extend(run, Call(0, Report(0, true)));
    assert Last(run).threads == Two(Waiting(Report(0, true)), NotIn);
    run := Extend(run, Acquire(0));
    assert Last(run).threads == Two(Holding(Report(0, true), Begun), NotIn);
    run := Extend(run, List(0, true));
    assert Last(run).threads == Two(Holding(Report(0, true), Listed([], true)), NotIn);
  }

  /** A report whose clear fails loses what it listed. */
  lemma {:induction false} LossHappens() returns (run: Run)
    ensures Valid(run) && !NothingLost(Last(run).windows)
  {
    run := ToListing();
    hide Last, Valid, ApplyHandler;
    run := Extend(run, ClearData(0, ClearIo(false, false), false));
    assert Last(run).windows[0].fate.Lost?;
  }
}
