/** When the profiler can be used again: exactly as long as no session has ended badly. */
module Recovery {
  import opened Outcomes
  import opened Lifecycle
  import opened Protocol
  import opened Guarantees

  // ---- Failures are calls ----

  ghost predicate NothingFails(run: Run) {
    run.Start? || (NothingFails(run.before) && !Fails(run.action))
  }

  lemma {:induction false} FailureStep(s: State, a: Action, session: Session)
    requires Enabled(s, a) && SessionAgrees(s, session)
    ensures Apply(s, a).failure.NoFailure? <==> s.failure.NoFailure? && !Fails(a)
  {
    hide SessionAgrees;
    if a.Unregister? {
      SessionRuns(s, session, a.t);
    }
  }

  /** The recorded failure is there exactly if a build panicked, or a stop could not remove the handler or
      replace the collector. */
  lemma {:induction false} FailureIff(run: Run)
    requires Valid(run)
    ensures Last(run).failure.NoFailure? <==> NothingFails(run)
  {
    hide Apply, Enabled;
    if run.Then? {
      FailureIff(run.before);
      var session := Reachable(run.before);
      FailureStep(Last(run.before), run.action, session);
    }
  }

  /** Nobody has, makes or drops a guard. */
  ghost predicate NoGuardAround(s: State) {
    s.guards == {} && forall t :: t in s.threads ==> !RoleOf(s.threads[t].main).Owner?
  }

  /** With no guard around, the profiler counts as running exactly if some session ended badly. */
  lemma {:induction false} RunningIffFailed(run: Run)
    requires Valid(run) && NoGuardAround(Last(run))
    ensures Last(run).prof.running <==> !NothingFails(run)
  {
    FailureIff(run);
    var session := Reachable(run);
  }

  // ---- Calming down ----

  /** How many steps of its own a thread is from being idle, at most. */
  function StepsLeft(m: Main): nat {
    match m
    case Idle => 0
    case Disarming => 12
    case Waiting(Lazy) => 20
    case Waiting(Build) => 18
    case Waiting(Stop) => 11
    case Waiting(_) => 5
    case Holding(Lazy, _) => 19
    case Holding(Build, Begun) => 17
    case Holding(Stop, Begun) => 10
    case Holding(_, Begun) => 4
    case Holding(_, Registered) => 16
    case Holding(_, Started) => 15
    case Holding(_, Armed) => 14
    case Holding(_, Unregistered) => 9
    case Holding(_, Listed(_, _)) => 3
    case Holding(_, Done) => 1
  }

  function Weight(th: Thread): nat {
    StepsLeft(th.main) + Rank(th.handler)
  }

  lemma {:induction false} HandlerStepLightens(s: State, a: Action)
    requires Enabled(s, a) && ByHandler(a) && !a.Signal?
    ensures a.t in Apply(s, a).threads && Weight(Apply(s, a).threads[a.t]) < Weight(s.threads[a.t])
  {
    hide ApplyMain, StepsLeft;
  }

  lemma {:induction false} MainStepLightens(s: State, a: Action)
    requires Enabled(s, a) && StageFits(s.threads[a.t].main) && !ByHandler(a) && !a.Call? && !a.DropGuard?
    ensures a.t in Apply(s, a).threads && Weight(Apply(s, a).threads[a.t]) < Weight(s.threads[a.t])
  {
    hide ApplyHandler, Lifecycle.Register, Lifecycle.Unregister, Lifecycle.Init, Lifecycle.Clear;
  }

  lemma {:induction false} StepLightens(s: State, a: Action)
    requires Enabled(s, a) && StagesFit(s) && !a.Call? && !a.Signal? && !a.DropGuard?
    ensures OnlyThread(s, Apply(s, a), a.t) && Weight(Apply(s, a).threads[a.t]) < Weight(s.threads[a.t])
  {
    hide Apply, Weight;
    StepChangesThread(s, a);
    if ByHandler(a) {
      HandlerStepLightens(s, a);
    } else {
      MainStepLightens(s, a);
    }
  }

  ghost function TotalWeight(threads: map<Tid, Thread>, order: seq<Tid>): nat
    requires forall t :: t in order ==> t in threads
  {
    if order == [] then 0 else TotalWeight(threads, order[..|order| - 1]) + Weight(threads[order[|order| - 1]])
  }

  lemma {:induction false} TotalLightens(threads: map<Tid, Thread>, order: seq<Tid>, t: Tid, th: Thread)
    requires (forall u :: u in order ==> u in threads) && t in threads && Weight(th) < Weight(threads[t])
    ensures TotalWeight(threads[t := th], order) <= TotalWeight(threads, order)
    ensures t in order ==> TotalWeight(threads[t := th], order) < TotalWeight(threads, order)
  {
    if order != [] {
      TotalLightens(threads, order[..|order| - 1], t, th);
    }
  }

  ghost predicate Calm(s: State) {
    forall t :: t in s.threads ==> s.threads[t] == Thread(Idle, NotIn)
  }

  lemma {:induction false} SomeOrder(ts: set<Tid>) returns (order: seq<Tid>)
    ensures forall t :: t in order <==> t in ts
  {
    order := [];
    if ts != {} {
      var t :| t in ts;
      var rest := SomeOrder(ts - {t});
      order := rest + [t];
    }
  }

  /** From every reachable state everything that was begun can be brought to its end without a failure. */
  lemma {:induction false} CalmsDown(run: Run, order: seq<Tid>) returns (later: Run)
    requires Valid(run) && forall t :: t in order <==> t in Last(run).threads
    ensures Valid(later) && Continues(run, later) && Calm(Last(later))
    ensures Last(later).threads.Keys == Last(run).threads.Keys
    ensures NothingFails(run) ==> NothingFails(later)
    decreases TotalWeight(Last(run).threads, order)
  {
    hide Apply, Enabled, Weight, Fails;
    if Calm(Last(run)) {
      later := run;
    } else {
      var s := Last(run);
      var t :| t in s.threads && s.threads[t] != Thread(Idle, NotIn);
      var next := CalmingStep(run, t);
      var a := next.action;
      TotalLightens(s.threads, order, a.t, Last(next).threads[a.t]);
      later := CalmsDown(next, order);
      ContinuesTransitive(run, next, later);
    }
  }

  lemma {:induction false} CalmingStep(run: Run, t: Tid) returns (next: Run)
    requires Valid(run) && t in Last(run).threads && Last(run).threads[t] != Thread(Idle, NotIn)
    ensures next.Then? && next.before == run && Valid(next) && !Fails(next.action)
    ensures OnlyThread(Last(run), Last(next), next.action.t)
    ensures Weight(Last(next).threads[next.action.t]) < Weight(Last(run).threads[next.action.t])
  {
    hide Apply, Enabled;
    var a := Progress(run, t);
    var _ := Reachable(run);
    StepLightens(Last(run), a);
    next := Extend(run, a);
  }

  lemma {:induction false} ContinuesTransitive(a: Run, b: Run, c: Run)
    requires Continues(a, b) && Continues(b, c)
    ensures Continues(a, c)
  {
    if b != c {
      ContinuesTransitive(a, b, c.before);
    }
  }

  // ---- Building again ----

  /** Thread `t` is at `main`; everything else is as in `base`, where nobody holds the lock. */
  ghost predicate Building(s: State, base: State, t: Tid, main: Main, writer: Option<Who>) {
    && t in base.threads && s.threads == base.threads[t := Thread(main, NotIn)]
    && s.readers == {} && s.writer == writer && s.prof.samples == base.prof.samples
  }

  lemma {:induction false} BeginsBuild(run: Run, t: Tid) returns (later: Run)
    requires Valid(run) && Free(Last(run)) && t in Last(run).threads && Last(run).threads[t] == Thread(Idle, NotIn)
    ensures Valid(later) && Continues(run, later)
    ensures Building(Last(later), Last(run), t, Waiting(Build), None)
    ensures Last(later).prof.running == Last(run).prof.running
  {
    hide Last, Valid, ApplyHandler;
    var base := Last(run);
    var called := Extend(run, Call(t, Lazy));
    assert Continues(run, called);
    assert Building(Last(called), base, t, Waiting(Lazy), None);
    var held := Extend(called, Acquire(t));
    assert Continues(run, held);
    assert Last(held).threads == base.threads[t := Thread(Holding(Lazy, Begun), NotIn)];
    later := Extend(held, Release(t));
    assert Last(later).threads == base.threads[t := Thread(Waiting(Build), NotIn)];
  }

  lemma {:induction false} Starts(run: Run, base: State, t: Tid) returns (later: Run)
    requires Valid(run) && Building(Last(run), base, t, Waiting(Build), None) && !Last(run).prof.running
    ensures Valid(later) && Continues(run, later)
    ensures Building(Last(later), base, t, Holding(Build, Registered), Some(MainOf(t)))
  {
    hide Last, Valid, ApplyHandler;
    var held := Extend(run, Acquire(t));
    assert Building(Last(held), base, t, Holding(Build, Begun), Some(MainOf(t)));
    later := Extend(held, Action.Register(t, true));
    assert Last(later).threads == base.threads[t := Thread(Holding(Build, Registered), NotIn)];
    assert Continues(run, held);
  }

  lemma {:induction false} ArmsTimer(run: Run, base: State, t: Tid) returns (later: Run)
    requires Valid(run) && Building(Last(run), base, t, Holding(Build, Registered), Some(MainOf(t)))
    ensures Valid(later) && Continues(run, later)
    ensures Building(Last(later), base, t, Holding(Build, Armed), Some(MainOf(t)))
  {
    hide Last, Valid, ApplyHandler;
    var started := Extend(run, SetRunning(t));
    assert Building(Last(started), base, t, Holding(Build, Started), Some(MainOf(t)));
    assert Continues(run, started);
    later := Extend(started, Arm(t, true));
  }

  lemma {:induction false} HandsOutGuard(run: Run, base: State, t: Tid) returns (later: Run)
    requires Valid(run) && Building(Last(run), base, t, Holding(Build, Armed), Some(MainOf(t)))
    ensures Valid(later) && Continues(run, later) && Last(later).guards != {}
    ensures Last(later).prof.samples == base.prof.samples
  {
    hide Last, Valid, ApplyHandler;
    later := Extend(run, Release(t));
  }

  /** An idle thread that finds the lock free and the profiler stopped can make a guard; what the
      collector holds, it still holds then. */
  lemma {:induction false} Rebuilds(run: Run, t: Tid) returns (later: Run)
    requires Valid(run) && Free(Last(run)) && t in Last(run).threads && Last(run).threads[t] == Thread(Idle, NotIn)
    requires !Last(run).prof.running
    ensures Valid(later) && Continues(run, later) && Last(later).guards != {}
    ensures Last(later).prof.samples == Last(run).prof.samples
  {
    hide Last, Valid, Building;
    var begun := BeginsBuild(run, t);
    var started := Starts(begun, Last(run), t);
    var armed := ArmsTimer(started, Last(run), t);
    later := HandsOutGuard(armed, Last(run), t);
    ContinuesTransitive(run, begun, started);
    ContinuesTransitive(run, started, armed);
    ContinuesTransitive(run, armed, later);
  }

  lemma {:induction false} CalmIsFree(s: State)
    requires LockAgrees(s) && Calm(s)
    ensures Free(s) && forall t :: t in s.threads ==> !RoleOf(s.threads[t].main).Owner?
  {
    assert forall t :: t in s.threads ==>
        t !in s.readers && s.writer != Some(MainOf(t)) && s.writer != Some(HandlerOf(t));
    match s.writer
    case None =>
    case Some(MainOf(_)) => assert false;
    case Some(HandlerOf(_)) => assert false;
  }

  /** From every reachable state, however busy: a guard can be live again exactly if no build has panicked
      and no stop has failed. */
  lemma {:induction false} UsableIff(run: Run)
    requires Valid(run) && Last(run).threads != map[]
    ensures (exists later :: Valid(later) && Continues(run, later) && Last(later).guards != {}) <==> NothingFails(run)
  {
    FailureIff(run);
    if NothingFails(run) {
      var later := BecomesUsable(run);
    } else {
      forall later | Valid(later) && Continues(run, later) ensures Last(later).guards == {} {
        FailureIsFinal(run, later);
      }
    }
  }

  lemma {:induction false} BecomesUsable(run: Run) returns (later: Run)
    requires Valid(run) && Last(run).threads != map[] && NothingFails(run)
    ensures Valid(later) && Continues(run, later) && Last(later).guards != {}
  {
    hide Last, Valid, Calm;
    var order := SomeOrder(Last(run).threads.Keys);
    var calm := CalmsDown(run, order);
    if Last(calm).guards != {} {
      later := calm;
    } else {
      var _ := Reachable(calm);
      CalmIsFree(Last(calm));
      RunningIffFailed(calm);
      var t := SomeThread(Last(calm));
      later := Rebuilds(calm, t);
      ContinuesTransitive(run, calm, later);
    }
  }

  lemma {:induction false} SomeThread(s: State) returns (t: Tid)
    requires s.threads.Keys != {} && Calm(s)
    ensures t in s.threads && s.threads[t] == Thread(Idle, NotIn)
  {
    t :| t in s.threads;
  }

  // ---- What a stopped profiler holds ----

  /** From `run` to `later`, no guard is live before the end. */
  ghost predicate NoGuardUntil(run: Run, later: Run)
    requires Valid(later)
  {
    run == later || (later.Then? && NoGuardUntil(run, later.before) && Last(later.before).guards == {})
  }

  /** No thread is dropping a guard. */
  ghost predicate NobodyDrops(s: State) {
    forall t :: t in s.threads ==>
      var role := RoleOf(s.threads[t].main);
      role.Owner? ==> role.phase.Starting? || role.phase.TimerSet?
  }

  lemma {:induction false} HoldingStepOfHandler(s: State, a: Action)
    requires Enabled(s, a) && NobodyDrops(s) && ByHandler(a)
    ensures NobodyDrops(Apply(s, a)) && s.prof.samples <= Apply(s, a).prof.samples
  {
    hide ApplyMain;
  }

  /** While no guard is live and none is being dropped, nothing takes samples from the collector. */
  lemma {:induction false} HoldingStepOfMain(s: State, a: Action)
    requires Enabled(s, a) && !ByHandler(a) && s.guards == {} && !RoleOf(s.threads[a.t].main).Borrower?
    requires var role := RoleOf(s.threads[a.t].main); role.Owner? ==> role.phase.Starting? || role.phase.TimerSet?
    ensures var role := RoleOf(Apply(s, a).threads[a.t].main); role.Owner? ==> role.phase.Starting? || role.phase.TimerSet?
    ensures Apply(s, a).prof.samples == s.prof.samples
  {
    hide ApplyHandler;
  }

  lemma {:induction false} HoldingStep(s: State, a: Action, session: Session)
    requires Enabled(s, a) && SessionAgrees(s, session) && s.guards == {} && NobodyDrops(s)
    ensures NobodyDrops(Apply(s, a)) && s.prof.samples <= Apply(s, a).prof.samples
  {
    if ByHandler(a) {
      hide ApplyMain, ApplyHandler, Enabled;
      HoldingStepOfHandler(s, a);
    } else {
      assert RoleAgrees(s, session, a.t, RoleOf(s.threads[a.t].main));
      hide ApplyMain, ApplyHandler, SessionHolds, Enabled;
      StepChangesThread(s, a);
      HoldingStepOfMain(s, a);
    }
  }

  lemma {:induction false} HeldUntilGuard(run: Run, later: Run)
    requires Valid(later) && Valid(run) && NoGuardUntil(run, later) && NobodyDrops(Last(run))
    ensures NobodyDrops(Last(later)) && Last(run).prof.samples <= Last(later).prof.samples
  {
    hide Apply, Enabled, NobodyDrops;
    if run != later {
      HeldUntilGuard(run, later.before);
      var session := Reachable(later.before);
      HoldingStep(Last(later.before), later.action, session);
    }
  }

  lemma {:induction false} NoGuardBetween(run: Run, mid: Run, later: Run)
    requires Valid(later) && NoGuardUntil(run, later) && Continues(run, mid) && Continues(mid, later)
    ensures Valid(mid) && NoGuardUntil(run, mid) && NoGuardUntil(mid, later)
  {
    hide Apply, Enabled;
    ContinuesIsLonger(run, mid);
    ContinuesIsLonger(mid, later);
    if mid != later {
      NoGuardBetween(run, mid, later.before);
    }
  }

  function Length(run: Run): nat {
    if run.Start? then 0 else 1 + Length(run.before)
  }

  lemma {:induction false} ContinuesIsLonger(run: Run, later: Run)
    requires Continues(run, later)
    ensures Length(run) <= Length(later) && (Length(run) == Length(later) ==> run == later)
  {
    if run != later {
      ContinuesIsLonger(run, later.before);
    }
  }

  lemma {:induction false} StoppedIsNotDropping(s: State, session: Session)
    requires LockAgrees(s) && SessionAgrees(s, session) && !s.disposition.Handler? && Free(s)
    ensures NobodyDrops(s) && s.guards == {}
  {
    forall t | t in s.threads ensures !RoleOf(s.threads[t].main).Owner? {
      HoldsOneWay(s, t);
      assert RoleAgrees(s, session, t, RoleOf(s.threads[t].main));
    }
  }

  /** After a stop, whatever the collector holds at any later moment, late samples included, it still
      holds when the next guard goes live. */
  lemma {:induction false} CarriedToNextGuard(run: Run, mid: Run, later: Run)
    requires Valid(run) && Valid(later) && !Last(run).disposition.Handler? && Free(Last(run))
    requires Continues(run, mid) && Continues(mid, later) && NoGuardUntil(run, later)
    ensures Valid(mid) && Last(mid).prof.samples <= Last(later).prof.samples
  {
    hide NobodyDrops;
    var session := Reachable(run);
    StoppedIsNotDropping(Last(run), session);
    NoGuardBetween(run, mid, later);
    HeldUntilGuard(run, mid);
    HeldUntilGuard(mid, later);
  }
}
