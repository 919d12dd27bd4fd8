/** The profiler's protocol: threads that build, report and stop under a global lock, and a signal
    handler that may interrupt any of them at any point, the holder of that lock included. Every
    outcome of a system call is possible at every step. */
module Protocol {
  import opened MachineInts
  import opened Outcomes
  import opened Frames
  import opened Spill
  import opened Lifecycle

  type Tid = nat

  // ---- Threads ----

  /** What a thread holds the lock for. `Peek` is an unresolved report, `Report` a resolved one; both
      borrow a guard. */
  datatype Task = Lazy | Build | Peek(guard: nat) | Report(guard: nat, clear: bool) | Stop

  /** How far a thread has come while it holds the lock. */
  datatype Stage =
    | Begun
    | Registered
    | Started
    | Armed
    | Listed(samples: seq<UnresolvedFrames>, exact: bool)
    | Unregistered
    | Done

  datatype Main = Idle | Waiting(task: Task) | Holding(task: Task, stage: Stage) | Disarming

  datatype Handling = NotIn | Entered | Working | Unlocking | Leaving

  datatype Thread = Thread(main: Main, handler: Handling)

  datatype Who = MainOf(thread: Tid) | HandlerOf(thread: Tid)

  predicate Reads(task: Task) {
    task.Lazy? || task.Peek?
  }

  predicate Borrows(task: Task) {
    task.Peek? || task.Report?
  }

  /** The lock is released from here. */
  predicate Finished(task: Task, stage: Stage) {
    match task
    case Lazy => stage.Begun?
    case Build => stage.Armed? || stage.Done?
    case Peek(_) => stage.Listed? || stage.Done?
    case Report(_, clear) => (stage.Listed? && !clear) || stage.Done?
    case Stop => stage.Done?
  }

  // ---- States ----

  /** Why samples left the collector: into a report, by `stop`, or in a clear that failed. */
  datatype Fate = Reported | Discarded | Lost

  /** Samples that left the collector together. `exact` says that the collector was clean when listed. */
  datatype Window = Window(fate: Fate, samples: seq<UnresolvedFrames>, exact: bool)

  /** A session that ended badly: with the handler still installed, because `stop` could not remove it or
      `build` panicked over the timer, or with the old collector still in place. */
  datatype Failure = NoFailure | HandlerLeft | DataLeft

  /** `windows`, `accepted` and `failure` are history. */
  datatype State = State(
    threads: map<Tid, Thread>, readers: set<Tid>, writer: Option<Who>,
    disposition: Disposition, timerArmed: bool, prof: View, guards: set<nat>, nextGuard: nat,
    windows: seq<Window>, accepted: seq<UnresolvedFrames>, failure: Failure)

  ghost predicate Free(s: State) {
    s.writer.None? && s.readers == {}
  }

  // ---- Steps ----

  datatype Action =
    | Call(t: Tid, task: Task)
    | Acquire(t: Tid)
    | Refuse(t: Tid)
    | Register(t: Tid, ok: bool)
    | SetRunning(t: Tid)
    | Arm(t: Tid, armed: bool)
    | Panic(t: Tid)
    | List(t: Tid, ok: bool)
    | ClearData(t: Tid, io: ClearIo, untouched: bool)
    | DropGuard(t: Tid, guard: nat)
    | Disarm(t: Tid)
    | Unregister(t: Tid, ok: bool)
    | Reset(t: Tid, created: bool)
    | Release(t: Tid)
    | Signal(t: Tid)
    | TryLock(t: Tid, got: bool)
    | Skip(t: Tid)
    | Sample(t: Tid, u: UnresolvedFrames, stored: bool)
    | Unlock(t: Tid)
    | Return(t: Tid)

  predicate ByHandler(a: Action) {
    a.Signal? || a.TryLock? || a.Skip? || a.Sample? || a.Unlock? || a.Return?
  }

  ghost predicate HoldsAt(s: State, t: Tid, task: Task, stage: Stage)
    requires t in s.threads
  {
    s.threads[t].main == Holding(task, stage)
  }

  /** A thread that runs its handler does nothing else. */
  ghost predicate Enabled(s: State, a: Action) {
    && a.t in s.threads
    && (!ByHandler(a) ==> s.threads[a.t].handler.NotIn?)
    && var th := s.threads[a.t];
       match a
       case Call(t, task) => th.main.Idle? && (task.Lazy? || (Borrows(task) && task.guard in s.guards))
       case Acquire(t) => th.main.Waiting? && s.writer.None? && (!Reads(th.main.task) ==> s.readers == {})
       case Refuse(t) => HoldsAt(s, t, Build, Begun) && s.prof.running
       case Register(t, ok) => HoldsAt(s, t, Build, Begun) && !s.prof.running
       case SetRunning(t) => HoldsAt(s, t, Build, Registered)
       case Arm(t, armed) => HoldsAt(s, t, Build, Started)
       case Panic(t) => HoldsAt(s, t, Build, Started)
       case List(t, ok) =>
         && th.main.Holding? && Borrows(th.main.task) && th.main.stage.Begun?
         && (ok && s.prof.clean ==> s.prof.whole)
       case ClearData(t, io, untouched) =>
         th.main.Holding? && th.main.task.Report? && th.main.task.clear && th.main.stage.Listed?
       case DropGuard(t, guard) =>
         && th.main.Idle? && guard in s.guards
         && forall u :: u in s.threads && (s.threads[u].main.Waiting? || s.threads[u].main.Holding?) ==>
              Borrows(s.threads[u].main.task) ==> s.threads[u].main.task.guard != guard
       case Disarm(t) => th.main.Disarming?
       case Unregister(t, ok) => HoldsAt(s, t, Stop, Begun)
       case Reset(t, created) => HoldsAt(s, t, Stop, Unregistered)
       case Release(t) => th.main.Holding? && Finished(th.main.task, th.main.stage)
       case Signal(t) => th.handler.NotIn? && s.disposition.Handler?
       case TryLock(t, got) => th.handler.Entered? && (got ==> Free(s)) && (!got ==> !Free(s) || ReaderArriving(s))
       case Skip(t) => th.handler.Working?
       case Sample(t, u, stored) => th.handler.Working?
       case Unlock(t) => th.handler.Unlocking?
       case Return(t) => th.handler.Leaving?
  }

  /** A reader that is still trying counts itself for a moment, which can fail a `try_write`. */
  ghost predicate ReaderArriving(s: State) {
    exists u :: u in s.threads && s.threads[u].main.Waiting? && Reads(s.threads[u].main.task)
  }

  function AtStage(s: State, t: Tid, stage: Stage): State
    requires t in s.threads && s.threads[t].main.Holding?
  {
    s.(threads := s.threads[t := s.threads[t].(main := s.threads[t].main.(stage := stage))])
  }

  function InMain(s: State, t: Tid, main: Main): State
    requires t in s.threads
  {
    s.(threads := s.threads[t := s.threads[t].(main := main)])
  }

  function InHandler(s: State, t: Tid, handler: Handling): State
    requires t in s.threads
  {
    s.(threads := s.threads[t := s.threads[t].(handler := handler)])
  }

  function Released(s: State, t: Tid): State
    requires t in s.threads && s.threads[t].main.Holding?
  {
    var th := s.threads[t].main;
    var s' := if Reads(th.task) then s.(readers := s.readers - {t}) else s.(writer := None);
    if th.task.Lazy? then InMain(s', t, Waiting(Build))
    else if th.task.Build? && th.stage.Armed? then
      InMain(s', t, Idle).(guards := s.guards + {s.nextGuard}, nextGuard := s.nextGuard + 1)
    else InMain(s', t, Idle)
  }

  ghost function Apply(s: State, a: Action): State
    requires Enabled(s, a)
  {
    if ByHandler(a) then ApplyHandler(s, a) else ApplyMain(s, a)
  }

  ghost function ApplyMain(s: State, a: Action): State
    requires Enabled(s, a) && !ByHandler(a)
  {
    match a
    case Call(t, task) => InMain(s, t, Waiting(task))
    case Acquire(t) =>
      var task := s.threads[t].main.task;
      var s' := InMain(s, t, Holding(task, Begun));
      if Reads(task) then s'.(readers := s.readers + {t}) else s'.(writer := Some(MainOf(t)))
    case Refuse(t) => AtStage(s, t, Done)
    case Register(t, ok) =>
      var o := Lifecycle.Register(s.prof, s.disposition, ok);
      AtStage(s, t, if ok then Registered else Done).(prof := o.view, disposition := o.disposition)
    case SetRunning(t) => AtStage(s, t, Started).(prof := s.prof.(running := true))
    case Arm(t, armed) => AtStage(s, t, Armed).(timerArmed := armed)
    case Panic(t) => AtStage(s, t, Done).(failure := HandlerLeft)
    case List(t, ok) => AtStage(s, t, if ok then Listed(s.prof.samples, s.prof.clean) else Done)
    case ClearData(t, io, untouched) =>
      var listed := s.threads[t].main.stage;
      var o := Lifecycle.Clear(s.prof, s.disposition, io, untouched);
      var fate := if o.result.Ok? then Reported else Lost;
      AtStage(s, t, Done).(
        prof := o.view,
        windows := if s.prof.running then s.windows + [Window(fate, listed.samples, listed.exact)] else s.windows)
    case DropGuard(t, guard) => InMain(s, t, Disarming).(guards := s.guards - {guard})
    case Disarm(t) => InMain(s, t, Waiting(Stop)).(timerArmed := false)
    case Unregister(t, ok) =>
      if !s.prof.running then AtStage(s, t, Done)
      else
        var o := Lifecycle.Unregister(s.prof, s.disposition, ok);
        AtStage(s, t, if ok then Unregistered else Done).(
          prof := o.view, disposition := o.disposition, failure := if ok then s.failure else HandlerLeft)
    case Reset(t, created) =>
      var o := Lifecycle.Init(s.prof, s.disposition, created);
      AtStage(s, t, Done).(
        prof := o.view,
        windows := if created then s.windows + [Window(Discarded, s.prof.samples, s.prof.clean)] else s.windows,
        failure := if created then s.failure else DataLeft)
    case Release(t) => Released(s, t)
  }

  ghost function ApplyHandler(s: State, a: Action): State
    requires Enabled(s, a) && ByHandler(a)
  {
    match a
    case Signal(t) => InHandler(s, t, Entered)
    case TryLock(t, got) =>
      if got then InHandler(s, t, Working).(writer := Some(HandlerOf(t))) else InHandler(s, t, Leaving)
    case Skip(t) => InHandler(s, t, Unlocking)
    case Sample(t, u, stored) =>
      InHandler(s, t, Unlocking).(prof := Lifecycle.Record(s.prof, u, stored), accepted := s.accepted + [u])
    case Unlock(t) => InHandler(s, t, Leaving).(writer := None)
    case Return(t) => InHandler(s, t, NotIn)
  }

  // ---- Runs ----

  datatype Run = Start(threads: set<Tid>) | Then(before: Run, action: Action)

  ghost function Last(run: Run): State
    requires Valid(run)
    decreases run, 1
  {
    match run
    case Start(threads) =>
      State(map t | t in threads :: Thread(Idle, NotIn), {}, None, Previous, false, FRESH, {}, 0, [], [], NoFailure)
    case Then(before, a) => Apply(Last(before), a)
  }

  ghost predicate Valid(run: Run)
    decreases run, 0
  {
    run.Start? || (Valid(run.before) && Enabled(Last(run.before), run.action))
  }

  // ---- The lock ----

  ghost predicate HoldsRead(th: Thread) {
    th.main.Holding? && Reads(th.main.task)
  }

  ghost predicate HoldsWrite(th: Thread) {
    th.main.Holding? && !Reads(th.main.task)
  }

  ghost predicate HandlerHolds(th: Thread) {
    th.handler.Working? || th.handler.Unlocking?
  }

  /** The lock word says who holds the lock. */
  ghost predicate LockAgrees(s: State) {
    && (forall t :: t in s.threads ==> (t in s.readers <==> HoldsRead(s.threads[t])))
    && (forall t :: t in s.threads ==> (s.writer == Some(MainOf(t)) <==> HoldsWrite(s.threads[t])))
    && (forall t :: t in s.threads ==> (s.writer == Some(HandlerOf(t)) <==> HandlerHolds(s.threads[t])))
    && s.readers <= s.threads.Keys
    && (s.writer.Some? ==> s.readers == {} && s.writer.value.thread in s.threads)
  }

  /** Only thread `t` differs. */
  ghost predicate OnlyThread(s: State, s': State, t: Tid) {
    t in s.threads && t in s'.threads && s'.threads == s.threads[t := s'.threads[t]]
  }

  /** A thread that keeps what it holds leaves the lock in agreement. */
  lemma {:induction false} LockKept(s: State, s': State, t: Tid)
    requires LockAgrees(s) && OnlyThread(s, s', t) && s'.readers == s.readers && s'.writer == s.writer
    requires HoldsRead(s'.threads[t]) == HoldsRead(s.threads[t])
    requires HoldsWrite(s'.threads[t]) == HoldsWrite(s.threads[t])
    requires HandlerHolds(s'.threads[t]) == HandlerHolds(s.threads[t])
    ensures LockAgrees(s')
  {
  }

  lemma {:induction false} LockTaken(s: State, s': State, t: Tid)
    requires LockAgrees(s) && OnlyThread(s, s', t) && s.writer.None? && !HoldsWrite(s.threads[t]) && !HoldsRead(s.threads[t])
    requires var th, th' := s.threads[t], s'.threads[t];
             || (s'.writer.None? && s'.readers == s.readers + {t} && HoldsRead(th') && !HandlerHolds(th'))
             || (s.readers == s'.readers == {} && s'.writer == Some(MainOf(t)) && HoldsWrite(th') && !HandlerHolds(th'))
    ensures LockAgrees(s')
  {
  }

  lemma {:induction false} LockTakenByHandler(s: State, s': State, t: Tid)
    requires LockAgrees(s) && OnlyThread(s, s', t) && Free(s)
    requires s'.readers == {} && s'.writer == Some(HandlerOf(t)) && HandlerHolds(s'.threads[t])
    requires s'.threads[t].main == s.threads[t].main
    ensures LockAgrees(s')
  {
  }

  /** Whoever holds the lock releases what it holds. */
  lemma {:induction false} LockReleased(s: State, s': State, t: Tid)
    requires LockAgrees(s) && OnlyThread(s, s', t)
    requires var th, th' := s.threads[t], s'.threads[t];
             && !HoldsRead(th') && !HoldsWrite(th') && !HandlerHolds(th')
             && (HoldsRead(th) ==> s'.readers == s.readers - {t} && s'.writer == s.writer)
             && (!HoldsRead(th) ==> s'.readers == s.readers && s'.writer == None && s.writer in {Some(MainOf(t)), Some(HandlerOf(t))})
    ensures LockAgrees(s')
  {
  }

  lemma {:induction false} StepChangesThread(s: State, a: Action)
    requires Enabled(s, a)
    ensures OnlyThread(s, Apply(s, a), a.t)
  {
  }

  /** A thread whose handler holds the lock was not holding it itself. */
  lemma {:induction false} HoldsOneWay(s: State, t: Tid)
    requires LockAgrees(s) && t in s.threads
    ensures HandlerHolds(s.threads[t]) ==>
              s.writer == Some(HandlerOf(t)) && !HoldsRead(s.threads[t]) && !HoldsWrite(s.threads[t])
    ensures HoldsWrite(s.threads[t]) ==> s.writer == Some(MainOf(t)) && !HandlerHolds(s.threads[t])
    ensures HoldsRead(s.threads[t]) ==> s.writer.None? && !HandlerHolds(s.threads[t])
  {
  }

  lemma {:induction false} LockStepOfHandler(s: State, a: Action)
    requires LockAgrees(s) && Enabled(s, a) && ByHandler(a)
    ensures LockAgrees(Apply(s, a))
  {
    hide LockAgrees, ApplyMain;
    var s' := Apply(s, a);
    StepChangesThread(s, a);
    HoldsOneWay(s, a.t);
    match a
    case TryLock(t, got) => if got { LockTakenByHandler(s, s', t); } else { LockKept(s, s', t); }
    case Unlock(t) => LockReleased(s, s', t);
    case _ => LockKept(s, s', a.t);
  }

  lemma {:induction false} LockStepOfHolder(s: State, a: Action)
    requires LockAgrees(s) && Enabled(s, a) && (a.Acquire? || a.Release?)
    ensures LockAgrees(Apply(s, a))
  {
    hide LockAgrees, ApplyHandler;
    StepChangesThread(s, a);
    HoldsOneWay(s, a.t);
    if a.Acquire? {
      LockTaken(s, Apply(s, a), a.t);
    } else {
      LockReleased(s, Apply(s, a), a.t);
    }
  }

  lemma {:induction false} LockStep(s: State, a: Action)
    requires LockAgrees(s) && Enabled(s, a)
    ensures LockAgrees(Apply(s, a))
  {
    hide LockAgrees, ApplyHandler, Lifecycle.Register, Lifecycle.Unregister, Lifecycle.Init, Lifecycle.Clear;
    if ByHandler(a) {
      LockStepOfHandler(s, a);
    } else if a.Acquire? || a.Release? {
      LockStepOfHolder(s, a);
    } else {
      StepChangesThread(s, a);
      HoldsOneWay(s, a.t);
      LockKept(s, Apply(s, a), a.t);
    }
  }

  // ---- Sessions ----

  /** How far the owner of a session is, from the moment the profiler runs until it has stopped. */
  datatype Phase = Starting | TimerSet | Dropping | Stopping | HandlerGone

  /** What a thread has to do with sessions. */
  datatype Role = Bystander | Borrower(guard: nat) | Candidate | Owner(phase: Phase)

  function RoleOf(m: Main): Role {
    match m
    case Idle => Bystander
    case Disarming => Owner(Dropping)
    case Waiting(task) =>
      if Borrows(task) then Borrower(task.guard) else if task.Stop? then Owner(Stopping) else Bystander
    case Holding(task, stage) =>
      if Borrows(task) then Borrower(task.guard)
      else if task.Build? && stage.Registered? then Candidate
      else if task.Build? && stage.Started? then Owner(Starting)
      else if task.Build? && stage.Armed? then Owner(TimerSet)
      else if task.Stop? && stage.Begun? then Owner(Stopping)
      else if task.Stop? && stage.Unregistered? then Owner(HandlerGone)
      else Bystander
  }

  /** There is at most one session: it belongs to a guard, or to the thread that makes or drops that guard. */
  datatype Session = NoSession | OfGuard(guard: nat) | OfThread(thread: Tid, phase: Phase)

  ghost predicate RoleAgrees(s: State, session: Session, t: Tid, role: Role) {
    match role
    case Bystander => !session.OfThread? || session.thread != t
    case Borrower(g) => session == OfGuard(g)
    case Candidate => session.NoSession? && !s.prof.running && s.disposition.Handler? && s.writer == Some(MainOf(t))
    case Owner(phase) => session == OfThread(t, phase)
  }

  ghost predicate RolesAgree(s: State, session: Session) {
    && (forall t :: t in s.threads ==> RoleAgrees(s, session, t, RoleOf(s.threads[t].main)))
    && (session.OfThread? ==> session.thread in s.threads && RoleOf(s.threads[session.thread].main) == Owner(session.phase))
    && s.guards == if session.OfGuard? then {session.guard} else {}
  }

  ghost predicate IsCandidate(s: State) {
    && s.writer.Some? && s.writer.value.MainOf? && s.writer.value.thread in s.threads
    && RoleOf(s.threads[s.writer.value.thread].main).Candidate?
  }

  /** What holds of the handler, the timer and the profiler while a session lasts. */
  ghost predicate SessionHolds(s: State, session: Session) {
    && (!session.NoSession? ==> s.prof.running)
    && (!session.NoSession? ==>
          s.disposition == if session.OfThread? && session.phase.HandlerGone? then Ignored else Handler)
    && (s.timerArmed ==> session.OfGuard? || (session.OfThread? && (session.phase.TimerSet? || session.phase.Dropping?)))
    && (s.disposition.Handler? && !s.prof.running ==> IsCandidate(s))
    && (!s.failure.NoFailure? ==> session.NoSession? && s.prof.running)
    && (session.NoSession? && s.failure.NoFailure? ==> !s.prof.running)
    && (s.failure.HandlerLeft? ==> s.disposition.Handler?)
  }

  /** Nothing that a session depends on has changed. */
  lemma {:induction false} SessionKept(s: State, s': State, t: Tid, session: Session)
    requires RolesAgree(s, session) && SessionHolds(s, session) && OnlyThread(s, s', t)
    requires RoleOf(s'.threads[t].main) == RoleOf(s.threads[t].main)
    requires IsCandidate(s) ==> s'.writer == s.writer
    requires s'.prof.running == s.prof.running && s'.disposition == s.disposition && s'.timerArmed == s.timerArmed
    requires s'.guards == s.guards && s'.failure == s.failure
    ensures RolesAgree(s', session) && SessionHolds(s', session)
  {
  }

  ghost predicate SessionAgrees(s: State, session: Session) {
    RolesAgree(s, session) && SessionHolds(s, session)
  }

  lemma {:induction false} SessionStepOfHandler(s: State, a: Action, session: Session)
    requires LockAgrees(s) && SessionAgrees(s, session) && Enabled(s, a) && ByHandler(a)
    ensures SessionAgrees(Apply(s, a), session)
  {
    hide LockAgrees, RolesAgree, SessionHolds, ApplyMain;
    StepChangesThread(s, a);
    HoldsOneWay(s, a.t);
    SessionKept(s, Apply(s, a), a.t, session);
  }

  /** A borrower starts. */
  lemma {:induction false} SessionStepOfCall(s: State, a: Action, session: Session)
    requires SessionAgrees(s, session) && Enabled(s, a) && a.Call?
    ensures SessionAgrees(Apply(s, a), session)
  {
  }

  lemma {:induction false} SessionStepOfRegister(s: State, a: Action, session: Session)
    requires LockAgrees(s) && SessionAgrees(s, session) && Enabled(s, a) && a.Register?
    ensures SessionAgrees(Apply(s, a), session)
  {
    hide ApplyHandler, LockAgrees;
    HoldsOneWay(s, a.t);
  }

  /** The session begins: the profiler runs with its handler installed. */
  lemma {:induction false} SessionStepOfStart(s: State, a: Action, session: Session) returns (session': Session)
    requires LockAgrees(s) && SessionAgrees(s, session) && Enabled(s, a) && (a.SetRunning? || a.Arm? || a.Panic?)
    ensures SessionAgrees(Apply(s, a), session')
  {
    hide ApplyHandler, LockAgrees;
    HoldsOneWay(s, a.t);
    session' := if a.SetRunning? then OfThread(a.t, Starting) else if a.Arm? then OfThread(a.t, TimerSet) else NoSession;
  }

  /** The guard is dropped, and with it the timer disarmed. */
  lemma {:induction false} SessionStepOfDrop(s: State, a: Action, session: Session) returns (session': Session)
    requires SessionAgrees(s, session) && Enabled(s, a) && (a.DropGuard? || a.Disarm?)
    ensures SessionAgrees(Apply(s, a), session')
  {
    hide ApplyHandler;
    session' := OfThread(a.t, if a.DropGuard? then Dropping else Stopping);
  }

  /** The session ends: first the handler, then the data. */
  lemma {:induction false} SessionStepOfStop(s: State, a: Action, session: Session) returns (session': Session)
    requires LockAgrees(s) && SessionAgrees(s, session) && Enabled(s, a) && (a.Unregister? || a.Reset?)
    ensures SessionAgrees(Apply(s, a), session')
  {
    hide ApplyHandler, LockAgrees;
    HoldsOneWay(s, a.t);
    session' := if a.Unregister? && a.ok then OfThread(a.t, HandlerGone) else NoSession;
  }

  lemma {:induction false} SessionStepOfRelease(s: State, a: Action, session: Session) returns (session': Session)
    requires LockAgrees(s) && SessionAgrees(s, session) && Enabled(s, a) && a.Release?
    ensures SessionAgrees(Apply(s, a), session')
  {
    hide ApplyHandler, LockAgrees;
    HoldsOneWay(s, a.t);
    session' := if s.threads[a.t].main == Holding(Build, Armed) then OfGuard(s.nextGuard) else session;
  }

  lemma {:induction false} SessionStep(s: State, a: Action, session: Session) returns (session': Session)
    requires LockAgrees(s) && SessionAgrees(s, session) && Enabled(s, a)
    ensures SessionAgrees(Apply(s, a), session')
  {
    hide LockAgrees, RolesAgree, SessionHolds, ApplyHandler;
    session' := session;
    match a
    case Signal(_) | TryLock(_, _) | Skip(_) | Sample(_, _, _) | Unlock(_) | Return(_) => SessionStepOfHandler(s, a, session);
    case Call(_, _) => SessionStepOfCall(s, a, session);
    case Register(_, _) => SessionStepOfRegister(s, a, session);
    case SetRunning(_) | Arm(_, _) | Panic(_) => session' := SessionStepOfStart(s, a, session);
    case DropGuard(_, _) | Disarm(_) => session' := SessionStepOfDrop(s, a, session);
    case Unregister(_, _) | Reset(_, _) => session' := SessionStepOfStop(s, a, session);
    case Release(_) => session' := SessionStepOfRelease(s, a, session);
    case Acquire(_) | Refuse(_) | List(_, _) | ClearData(_, _, _) =>
      StepChangesThread(s, a);
      HoldsOneWay(s, a.t);
      SessionKept(s, Apply(s, a), a.t, session);
  }

  // ---- The ledger ----

  /** All samples of the windows, in order. */
  ghost function Gathered(windows: seq<Window>): seq<UnresolvedFrames> {
    if windows == [] then [] else Gathered(windows[..|windows| - 1]) + windows[|windows| - 1].samples
  }

  ghost predicate NothingLost(windows: seq<Window>) {
    forall w :: w in windows ==> !w.fate.Lost?
  }

  /** What a thread has listed is what the collector holds. */
  ghost predicate ListingAgrees(th: Thread, prof: View) {
    th.main.Holding? && th.main.stage.Listed? ==>
      th.main.stage.samples == prof.samples && th.main.stage.exact == prof.clean && (prof.clean ==> prof.whole)
  }

  ghost predicate ListingsAgree(s: State) {
    forall t :: t in s.threads ==> ListingAgrees(s.threads[t], s.prof)
  }

  ghost predicate CountsAgree(s: State) {
    && s.accepted == Gathered(s.windows) + s.prof.samples
    && (NothingLost(s.windows) ==> s.prof.clean && forall w :: w in s.windows && w.fate.Reported? ==> w.exact)
    && (!s.failure.DataLeft? ==> s.prof.counter == Wrap32(|s.prof.samples|))
  }

  /** The collector's contents are the same. */
  ghost predicate SameData(v: View, w: View) {
    v.samples == w.samples && v.clean == w.clean && v.whole == w.whole && v.counter == w.counter
  }

  lemma {:induction false} LedgerKept(s: State, s': State, t: Tid)
    requires ListingsAgree(s) && CountsAgree(s) && OnlyThread(s, s', t)
    requires SameData(s.prof, s'.prof) && s'.windows == s.windows && s'.accepted == s.accepted
    requires s'.failure.DataLeft? == s.failure.DataLeft?
    requires ListingAgrees(s'.threads[t], s'.prof)
    ensures ListingsAgree(s') && CountsAgree(s')
  {
  }

  /** While a thread has the lock to itself, no other thread has a listing. */
  lemma {:induction false} NoOtherListing(s: State, who: Who, t: Tid)
    requires LockAgrees(s) && s.writer == Some(who) && t in s.threads && who != MainOf(t)
    ensures !s.threads[t].main.Holding?
  {
  }

  lemma {:induction false} LedgerStepOfSample(s: State, a: Action)
    requires LockAgrees(s) && ListingsAgree(s) && CountsAgree(s) && Enabled(s, a) && a.Sample?
    ensures ListingsAgree(Apply(s, a)) && CountsAgree(Apply(s, a))
  {
    hide ApplyMain, LockAgrees;
    HoldsOneWay(s, a.t);
    Wrap32Next(|s.prof.samples|);
    forall t | t in s.threads ensures ListingAgrees(Apply(s, a).threads[t], Apply(s, a).prof) {
      NoOtherListing(s, HandlerOf(a.t), t);
    }
  }

  /** The samples of one more window have left the collector. */
  lemma {:induction false} CountsAfterTaking(s: State, s': State, w: Window)
    requires CountsAgree(s) && s'.accepted == s.accepted && s'.windows == s.windows + [w]
    requires w.samples == s.prof.samples && s'.prof.samples == [] && s'.prof.counter == 0
    requires w.fate.Lost? || (s'.prof.clean && (w.fate.Reported? ==> w.exact == s.prof.clean))
    ensures CountsAgree(s')
  {
  }

  lemma {:induction false} NoListings(s: State, s': State, t: Tid)
    requires LockAgrees(s) && OnlyThread(s, s', t) && s.writer == Some(MainOf(t))
    requires ListingAgrees(s'.threads[t], s'.prof)
    ensures ListingsAgree(s')
  {
  }

  lemma {:induction false} CountsAfterFailedReset(s: State, s': State)
    requires CountsAgree(s) && s'.accepted == s.accepted && s'.windows == s.windows && s'.failure.DataLeft?
    requires s'.prof.samples == s.prof.samples && s'.prof.clean == s.prof.clean
    ensures CountsAgree(s')
  {
  }

  lemma {:induction false} ListingOf(s: State, t: Tid)
    requires ListingsAgree(s) && t in s.threads
    ensures ListingAgrees(s.threads[t], s.prof)
  {
  }

  /** A clearing report takes from the collector exactly what it has listed; `stop` takes everything. */
  lemma {:induction false} LedgerStepOfTaking(s: State, a: Action)
    requires LockAgrees(s) && ListingsAgree(s) && CountsAgree(s) && Enabled(s, a) && (a.ClearData? || a.Reset?)
    requires s.prof.running
    ensures ListingsAgree(Apply(s, a)) && CountsAgree(Apply(s, a))
  {
    hide ApplyHandler, LockAgrees, CountsAgree, ListingsAgree;
    var s' := Apply(s, a);
    HoldsOneWay(s, a.t);
    StepChangesThread(s, a);
    ListingOf(s, a.t);
    NoListings(s, s', a.t);
    if a.ClearData? || a.created {
      CountsAfterTaking(s, s', s'.windows[|s.windows|]);
    } else {
      CountsAfterFailedReset(s, s');
    }
  }

  /** Whoever borrows, makes or drops a guard finds the profiler running, and no earlier `stop` has failed. */
  lemma {:induction false} SessionRuns(s: State, session: Session, t: Tid)
    requires SessionAgrees(s, session) && t in s.threads
    requires RoleOf(s.threads[t].main).Borrower? || RoleOf(s.threads[t].main).Owner?
    ensures s.prof.running && s.failure.NoFailure?
  {
  }

  lemma {:induction false} LedgerStepOfHandler(s: State, a: Action)
    requires ListingsAgree(s) && CountsAgree(s) && Enabled(s, a) && ByHandler(a) && !a.Sample?
    ensures ListingsAgree(Apply(s, a)) && CountsAgree(Apply(s, a))
  {
  }

  lemma {:induction false} LedgerStep(s: State, a: Action, session: Session)
    requires LockAgrees(s) && ListingsAgree(s) && CountsAgree(s) && SessionAgrees(s, session) && Enabled(s, a)
    ensures ListingsAgree(Apply(s, a)) && CountsAgree(Apply(s, a))
  {
    hide LockAgrees, CountsAgree, ListingsAgree, RolesAgree, SessionHolds, ApplyHandler;
    if a.Sample? {
      LedgerStepOfSample(s, a);
    } else if ByHandler(a) {
      LedgerStepOfHandler(s, a);
    } else {
      if a.ClearData? || a.Reset? || a.Unregister? || a.Panic? {
        SessionRuns(s, session, a.t);
      }
      if a.ClearData? || a.Reset? {
        LedgerStepOfTaking(s, a);
      } else {
        StepChangesThread(s, a);
        ListingOf(s, a.t);
        LedgerKept(s, Apply(s, a), a.t);
      }
    }
  }

  // ---- Stages ----

  /** The stages that a task goes through. */
  predicate StageFits(m: Main) {
    match m
    case Holding(Lazy, stage) => stage.Begun?
    case Holding(Build, stage) => stage.Begun? || stage.Registered? || stage.Started? || stage.Armed? || stage.Done?
    case Holding(Stop, stage) => stage.Begun? || stage.Unregistered? || stage.Done?
    case Holding(_, stage) => stage.Begun? || stage.Listed? || stage.Done?
    case _ => true
  }

  ghost predicate StagesFit(s: State) {
    forall t :: t in s.threads ==> StageFits(s.threads[t].main)
  }

  lemma {:induction false} StageStep(s: State, a: Action)
    requires StagesFit(s) && Enabled(s, a)
    ensures StagesFit(Apply(s, a))
  {
    StepChangesThread(s, a);
    var s' := Apply(s, a);
    assert StageFits(s.threads[a.t].main);
    assert StageFits(s'.threads[a.t].main);
  }

  // ---- Every reachable state ----

  lemma {:induction false} Reachable(run: Run) returns (session: Session)
    requires Valid(run)
    ensures LockAgrees(Last(run)) && SessionAgrees(Last(run), session)
    ensures ListingsAgree(Last(run)) && CountsAgree(Last(run)) && StagesFit(Last(run))
  {
    match run
    case Start(_) =>
      session := NoSession;
    case Then(before, a) =>
      hide LockAgrees, SessionAgrees, ListingsAgree, CountsAgree, StagesFit, Apply, Enabled;
      session := Reachable(before);
      LedgerStep(Last(before), a, session);
      LockStep(Last(before), a);
      StageStep(Last(before), a);
      session := SessionStep(Last(before), a, session);
  }
}
