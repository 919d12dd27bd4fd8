/** What the protocol guarantees in every run: nothing is lost or counted twice, the lock excludes, the
    handler never waits, and sessions begin and end in order. */
module Guarantees {
  import opened MachineInts
  import opened Outcomes
  import opened Tallies
  import opened CounterRuns
  import opened Frames
  import opened Profiler
  import opened Reports
  import opened Spill
  import opened Lifecycle
  import opened Protocol

  // ---- Conservation ----

  /** How many samples of class `k` there are. */
  ghost function CountOf(samples: seq<UnresolvedFrames>, k: StackKey): int {
    Total(Units(samples), SampleKey, k)
  }

  ghost function WindowTotals(windows: seq<Window>, fate: Fate, k: StackKey): int {
    if windows == [] then 0
    else
      var last := windows[|windows| - 1];
      WindowTotals(windows[..|windows| - 1], fate, k) + if last.fate == fate then CountOf(last.samples, k) else 0
  }

  lemma {:induction false} UnitsConcat(a: seq<UnresolvedFrames>, b: seq<UnresolvedFrames>)
    ensures Units(a + b) == Units(a) + Units(b)
  {
  }

  lemma {:induction false} UnitTotalsConcat<L>(
    a: seq<UnresolvedFrames>, b: seq<UnresolvedFrames>, coarse: UnresolvedFrames -> L, l: L)
    ensures Total(Units(a + b), coarse, l) == Total(Units(a), coarse, l) + Total(Units(b), coarse, l)
  {
    UnitsConcat(a, b);
    TotalConcat(Units(a), Units(b), coarse, l);
  }

  lemma {:induction false} GatheredTotals(windows: seq<Window>, k: StackKey)
    ensures CountOf(Gathered(windows), k)
            == WindowTotals(windows, Reported, k) + WindowTotals(windows, Discarded, k) + WindowTotals(windows, Lost, k)
  {
    if windows != [] {
      var front, last := windows[..|windows| - 1], windows[|windows| - 1];
      GatheredTotals(front, k);
      UnitTotalsConcat(Gathered(front), last.samples, SampleKey, k);
    }
  }

  /** The windows partition, in order, all samples ever accepted but those that the collector still
      holds; so for every class of samples the counts add up. */
  lemma {:induction false} Conservation(run: Run, k: StackKey)
    requires Valid(run)
    ensures var s := Last(run);
            && s.accepted == Gathered(s.windows) + s.prof.samples
            && CountOf(s.accepted, k)
               == WindowTotals(s.windows, Reported, k) + WindowTotals(s.windows, Discarded, k)
                  + WindowTotals(s.windows, Lost, k) + CountOf(s.prof.samples, k)
  {
    var _ := Reachable(run);
    var s := Last(run);
    UnitTotalsConcat(Gathered(s.windows), s.prof.samples, SampleKey, k);
    GatheredTotals(s.windows, k);
  }

  ghost predicate ClearsSucceed(run: Run) {
    run.Start? || (ClearsSucceed(run.before) && (run.action.ClearData? ==> run.action.io.truncated && run.action.io.rewound))
  }

  /** No sample is lost exactly if every clear succeeds; and then every report that was delivered listed
      an exact collector. */
  lemma {:induction false} NothingIsLost(run: Run)
    requires Valid(run)
    ensures var s := Last(run);
            && (NothingLost(s.windows) <==> ClearsSucceed(run))
            && (ClearsSucceed(run) ==> s.prof.clean && forall w :: w in s.windows && w.fate.Reported? ==> w.exact)
  {
    LostIffFailedClear(run);
    var _ := Reachable(run);
  }

  lemma {:induction false} LostIffFailedClear(run: Run)
    requires Valid(run)
    ensures NothingLost(Last(run).windows) <==> ClearsSucceed(run)
  {
    hide Apply, Enabled;
    if run.Then? {
      LostIffFailedClear(run.before);
      var session := Reachable(run.before);
      LossStep(Last(run.before), run.action, session);
    }
  }

  lemma {:induction false} LossAppend(windows: seq<Window>, w: Window)
    ensures NothingLost(windows + [w]) <==> NothingLost(windows) && !w.fate.Lost?
  {
    assert w in windows + [w] && forall v :: v in windows ==> v in windows + [w];
  }

  lemma {:induction false} LossStep(s: State, a: Action, session: Session)
    requires Enabled(s, a) && SessionAgrees(s, session)
    ensures NothingLost(Apply(s, a).windows)
            <==> NothingLost(s.windows) && (a.ClearData? ==> a.io.truncated && a.io.rewound)
  {
    hide SessionAgrees, NothingLost;
    var windows := Apply(s, a).windows;
    if a.ClearData? {
      SessionRuns(s, session, a.t);
    }
    if windows != s.windows {
      LossAppend(s.windows, windows[|s.windows|]);
    }
  }

  /** What a clearing report listed, and what it made of it. */
  datatype Delivery = Delivery(listing: seq<Entry<UnresolvedFrames>>, env: Resolver, post: PostProcessor)

  /** How often the clearing reports show `l`. */
  ghost function ReportedTotal<L>(windows: seq<Window>, deliveries: seq<Delivery>, view: Frames -> L, l: L): int
    requires |deliveries| == |windows|
  {
    if windows == [] then 0
    else
      var n := |windows| - 1;
      var d := deliveries[n];
      ReportedTotal(windows[..n], deliveries[..n], view, l)
      + if windows[n].fate.Reported? then Total(ResolvedRows(d.listing, d.env, d.post), view, l) else 0
  }

  /** How often `l` occurs among the samples that `stop` discarded. */
  ghost function DiscardedTotal<L>(windows: seq<Window>, coarse: UnresolvedFrames -> L, l: L): int {
    if windows == [] then 0
    else
      var last := windows[|windows| - 1];
      DiscardedTotal(windows[..|windows| - 1], coarse, l)
      + if last.fate.Discarded? then Total(Units(last.samples), coarse, l) else 0
  }

  /** The report listed what an exact collector lists, and shows `view` of each stack as `coarse`. */
  ghost predicate Delivers<L>(
    ops: Keying<UnresolvedFrames, StackKey>, d: Delivery, samples: seq<UnresolvedFrames>,
    view: Frames -> L, coarse: UnresolvedFrames -> L)
  {
    ListsSamples(ops, d.listing, samples) && SeesStack(view, Processing(d.env, d.post), coarse)
  }

  lemma {:induction false} DeliveryCounts<L>(
    ops: Keying<UnresolvedFrames, StackKey>, d: Delivery, samples: seq<UnresolvedFrames>,
    view: Frames -> L, coarse: UnresolvedFrames -> L, l: L)
    requires ops.key == SampleKey && |samples| <= ISIZE_MAX && Delivers(ops, d, samples, view, coarse)
    ensures Total(ResolvedRows(d.listing, d.env, d.post), view, l) == Total(Units(samples), coarse, l)
  {
    ListsTally(ops, d.listing, samples);
    ResolvedCounts(d.listing, samples, d.env, d.post, view, coarse, l);
  }

  lemma {:induction false} WindowsAddUp<L>(
    ops: Keying<UnresolvedFrames, StackKey>, windows: seq<Window>, deliveries: seq<Delivery>,
    view: Frames -> L, coarse: UnresolvedFrames -> L, l: L)
    requires ops.key == SampleKey && NothingLost(windows) && |deliveries| == |windows|
    requires |Gathered(windows)| <= ISIZE_MAX
    requires forall i :: 0 <= i < |windows| && windows[i].fate.Reported? ==>
              Delivers(ops, deliveries[i], windows[i].samples, view, coarse)
    ensures Total(Units(Gathered(windows)), coarse, l)
            == ReportedTotal(windows, deliveries, view, l) + DiscardedTotal(windows, coarse, l)
  {
    hide Delivers;
    if windows != [] {
      var n := |windows| - 1;
      assert windows[n] in windows;
      WindowsAddUp(ops, windows[..n], deliveries[..n], view, coarse, l);
      UnitTotalsConcat(Gathered(windows[..n]), windows[n].samples, coarse, l);
      if windows[n].fate.Reported? {
        DeliveryCounts(ops, deliveries[n], windows[n].samples, view, coarse, l);
      }
    }
  }

  /** If every clear succeeds, then for whatever the reports show of the stacks, such as their thread, what
      the clearing reports count, what `stop` discarded and what the collector holds add up to what was
      accepted: none is lost and none counted twice. Of the reports it is only used that an exact
      collector lists what it lists. */
  lemma {:induction false} ReportsAddUp<L>(
    run: Run, ops: Keying<UnresolvedFrames, StackKey>, deliveries: seq<Delivery>,
    view: Frames -> L, coarse: UnresolvedFrames -> L, l: L)
    requires Valid(run) && ClearsSucceed(run) && |deliveries| == |Last(run).windows|
    requires ops.key == SampleKey && |Last(run).accepted| <= ISIZE_MAX
    requires forall i :: 0 <= i < |deliveries| && Last(run).windows[i].fate.Reported? && Last(run).windows[i].exact ==>
              Delivers(ops, deliveries[i], Last(run).windows[i].samples, view, coarse)
    ensures var s := Last(run);
            Total(Units(s.accepted), coarse, l)
            == ReportedTotal(s.windows, deliveries, view, l) + DiscardedTotal(s.windows, coarse, l)
               + Total(Units(s.prof.samples), coarse, l)
  {
    hide Delivers;
    var _ := Reachable(run);
    NothingIsLost(run);
    assert forall i :: 0 <= i < |deliveries| ==> Last(run).windows[i] in Last(run).windows;
    WindowsAddUp(ops, Last(run).windows, deliveries, view, coarse, l);
    UnitTotalsConcat(Gathered(Last(run).windows), Last(run).prof.samples, coarse, l);
  }

  /** In particular the reports' grand totals add up to the number of samples accepted. */
  lemma {:induction false} GrandTotalsAddUp(run: Run, ops: Keying<UnresolvedFrames, StackKey>, deliveries: seq<Delivery>)
    requires Valid(run) && ClearsSucceed(run) && |deliveries| == |Last(run).windows|
    requires ops.key == SampleKey && |Last(run).accepted| <= ISIZE_MAX
    requires forall i :: 0 <= i < |deliveries| && Last(run).windows[i].fate.Reported? && Last(run).windows[i].exact ==>
              ListsSamples(ops, deliveries[i].listing, Last(run).windows[i].samples)
    ensures var s := Last(run);
            |s.accepted| == ReportedTotal(s.windows, deliveries, Anything<Frames>, ())
                            + DiscardedTotal(s.windows, Anything<UnresolvedFrames>, ()) + |s.prof.samples|
  {
    hide ListsSamples;
    ReportsAddUp(run, ops, deliveries, Anything<Frames>, Anything<UnresolvedFrames>, ());
    GrandOfUnits(Last(run).accepted);
    GrandOfUnits(Last(run).prof.samples);
  }

  /** Unless a `stop` failed to replace the collector, the sample counter counts what the collector holds. */
  lemma {:induction false} CounterCounts(run: Run)
    requires Valid(run)
    ensures var s := Last(run);
            && (!s.failure.DataLeft? ==> s.prof.counter == Wrap32(|s.prof.samples|))
            && (!s.failure.DataLeft? && |s.prof.samples| < 0x8000_0000 ==> s.prof.counter == |s.prof.samples|)
  {
    var _ := Reachable(run);
  }

  /** A thread's listing stays what the collector holds for as long as it keeps the lock. */
  lemma {:induction false} ListingsStay(run: Run, t: Tid)
    requires Valid(run) && t in Last(run).threads
    requires Last(run).threads[t].main.Holding? && Last(run).threads[t].main.stage.Listed?
    ensures Last(run).threads[t].main.stage.samples == Last(run).prof.samples
  {
    var _ := Reachable(run);
    ListingOf(Last(run), t);
  }

  // ---- The lock ----

  ghost predicate HasLock(s: State, who: Who) {
    && who.thread in s.threads
    && if who.MainOf? then s.threads[who.thread].main.Holding? else HandlerHolds(s.threads[who.thread])
  }

  ghost predicate HasLockAlone(s: State, who: Who)
    requires HasLock(s, who)
  {
    who.MainOf? ==> !Reads(s.threads[who.thread].main.task)
  }

  /** A writer is never together with another holder, not even in the thread it interrupted. */
  lemma {:induction false} Exclusion(run: Run, a: Who, b: Who)
    requires Valid(run) && HasLock(Last(run), a) && HasLock(Last(run), b) && HasLockAlone(Last(run), a)
    ensures a == b
  {
    var _ := Reachable(run);
    HoldsOneWay(Last(run), a.thread);
    HoldsOneWay(Last(run), b.thread);
  }

  ghost function ActorOf(a: Action): Who {
    if ByHandler(a) then HandlerOf(a.t) else MainOf(a.t)
  }

  lemma {:induction false} MainNeedsTheLock(s: State, a: Action)
    requires Enabled(s, a) && !ByHandler(a)
    requires ApplyMain(s, a).prof != s.prof || ApplyMain(s, a).disposition != s.disposition
    ensures HasLock(s, MainOf(a.t)) && HasLockAlone(s, MainOf(a.t))
  {
    hide Lifecycle.Register, Lifecycle.Unregister, Lifecycle.Init, Lifecycle.Clear;
  }

  lemma {:induction false} HandlerNeedsTheLock(s: State, a: Action)
    requires Enabled(s, a) && ByHandler(a)
    requires ApplyHandler(s, a).prof != s.prof || ApplyHandler(s, a).disposition != s.disposition
    ensures HasLock(s, HandlerOf(a.t))
  {
    hide Lifecycle.Record;
  }

  /** The profiler and its signal action change only at the hands of a sole holder. */
  lemma {:induction false} UpdatesNeedTheLock(run: Run, a: Action)
    requires Valid(run) && Enabled(Last(run), a)
    requires Apply(Last(run), a).prof != Last(run).prof || Apply(Last(run), a).disposition != Last(run).disposition
    ensures HasLock(Last(run), ActorOf(a)) && HasLockAlone(Last(run), ActorOf(a))
  {
    hide Enabled, ApplyMain, ApplyHandler, HasLock;
    if ByHandler(a) {
      HandlerNeedsTheLock(Last(run), a);
    } else {
      MainNeedsTheLock(Last(run), a);
    }
  }

  /** A clearing report that has listed does not let go of the lock before it has cleared. */
  lemma {:induction false} ClearingReportsClear(s: State, t: Tid)
    requires t in s.threads && s.threads[t].main.Holding? && s.threads[t].main.task.Report?
    requires s.threads[t].main.task.clear && s.threads[t].main.stage.Listed? && s.threads[t].handler.NotIn?
    ensures !Enabled(s, Release(t)) && forall io, untouched :: Enabled(s, ClearData(t, io, untouched))
  {
  }

  /** A handler that finds the lock free, with no reader on its way, gets it; one that finds it taken leaves. */
  lemma {:induction false} LockIsTried(s: State, t: Tid)
    requires t in s.threads && s.threads[t].handler.Entered?
    requires forall u :: u in s.threads && s.threads[u].main.Waiting? ==>
               !s.threads[u].main.task.Lazy? && !s.threads[u].main.task.Peek?
    ensures Enabled(s, TryLock(t, true)) <==> s.writer.None? && s.readers == {}
    ensures Enabled(s, TryLock(t, false)) <==> !(s.writer.None? && s.readers == {})
  {
  }

  // ---- The handler ----

  function Rank(h: Handling): nat {
    match h
    case NotIn => 0
    case Leaving => 1
    case Unlocking => 2
    case Working => 3
    case Entered => 4
  }

  ghost predicate StepsHandler(a: Action, t: Tid) {
    ByHandler(a) && !a.Signal? && a.t == t
  }

  /** A thread inside the handler can always take its next step, whoever holds the lock. */
  lemma {:induction false} HandlerNeverWaits(run: Run, t: Tid) returns (a: Action)
    requires Valid(run) && t in Last(run).threads && !Last(run).threads[t].handler.NotIn?
    ensures Enabled(Last(run), a) && StepsHandler(a, t)
  {
    a := NextOfHandler(Last(run), t);
  }

  lemma {:induction false} NextOfHandler(s: State, t: Tid) returns (a: Action)
    requires t in s.threads && !s.threads[t].handler.NotIn?
    ensures Enabled(s, a) && StepsHandler(a, t)
  {
    match s.threads[t].handler
    case Entered =>
      var got: bool :| got <==> Free(s);
      a := TryLock(t, got);
    case Working => a := Skip(t);
    case Unlocking => a := Unlock(t);
    case Leaving => a := Return(t);
  }

  ghost function HandlerSteps(run: Run, t: Tid): nat {
    if run.Start? then 0 else HandlerSteps(run.before, t) + if StepsHandler(run.action, t) then 1 else 0
  }

  ghost function Signals(run: Run, t: Tid): nat {
    if run.Start? then 0 else Signals(run.before, t) + if run.action == Signal(t) then 1 else 0
  }

  /** Every signal costs the thread at most four steps of its own, whatever happens in between. */
  lemma {:induction false} HandlerIsBounded(run: Run, t: Tid)
    requires Valid(run) && t in Last(run).threads
    ensures HandlerSteps(run, t) + Rank(Last(run).threads[t].handler) <= 4 * Signals(run, t)
  {
    hide Apply, Enabled;
    if run.Then? {
      StepChangesThread(Last(run.before), run.action);
      HandlerIsBounded(run.before, t);
      HandlerRank(Last(run.before), run.action, t);
    }
  }

  lemma {:induction false} HandlerRank(s: State, a: Action, t: Tid)
    requires Enabled(s, a) && t in s.threads
    ensures var s' := Apply(s, a);
            && t in s'.threads
            && (StepsHandler(a, t) ==> Rank(s'.threads[t].handler) < Rank(s.threads[t].handler))
            && (a == Signal(t) ==> Rank(s'.threads[t].handler) == 4)
            && (!StepsHandler(a, t) && a != Signal(t) ==> s'.threads[t].handler == s.threads[t].handler)
  {
    StepChangesThread(s, a);
    if ByHandler(a) {
      hide ApplyMain;
    } else {
      hide ApplyHandler, Lifecycle.Register, Lifecycle.Unregister, Lifecycle.Init, Lifecycle.Clear, Lifecycle.Record;
    }
  }

  // ---- Sessions ----

  /** At most one guard is live; while it is, the profiler runs with its handler installed. */
  lemma {:induction false} OneGuard(run: Run)
    requires Valid(run)
    ensures var s := Last(run);
            && (forall g, h :: g in s.guards && h in s.guards ==> g == h)
            && (s.guards != {} ==> s.prof.running && s.disposition.Handler? && s.failure.NoFailure?)
  {
    var _ := Reachable(run);
  }

  /** While nobody holds the lock, an installed handler means that the profiler is running. */
  lemma {:induction false} InstalledMeansRunning(run: Run)
    requires Valid(run) && Last(run).writer.None? && Last(run).disposition.Handler?
    ensures Last(run).prof.running
  {
    var _ := Reachable(run);
  }

  /** The timer never ticks without a handler: it is armed after the handler is installed and disarmed
      before the handler is removed. */
  lemma {:induction false} TimerNeedsHandler(run: Run)
    requires Valid(run) && Last(run).timerArmed
    ensures Last(run).disposition.Handler? && Last(run).prof.running
  {
    var _ := Reachable(run);
  }

  /** Reports never find the profiler stopped. */
  lemma {:induction false} ReportsFindItRunning(run: Run, t: Tid)
    requires Valid(run) && t in Last(run).threads && RoleOf(Last(run).threads[t].main).Borrower?
    ensures Last(run).prof.running && Last(run).guards == {RoleOf(Last(run).threads[t].main).guard}
  {
    var session := Reachable(run);
    assert RoleAgrees(Last(run), session, t, RoleOf(Last(run).threads[t].main));
  }

  /** `later` continues `run`. */
  ghost predicate Continues(run: Run, later: Run) {
    run == later || (later.Then? && Continues(run, later.before))
  }

  /** Once it has been replaced, the previous SIGPROF action never comes back. */
  lemma {:induction false} NeverPreviousAgain(run: Run, later: Run)
    requires Valid(later) && Continues(run, later) && Valid(run) && !Last(run).disposition.Previous?
    ensures !Last(later).disposition.Previous?
  {
    hide Apply, Enabled;
    if run != later {
      NeverPreviousAgain(run, later.before);
      HistoryStep(Last(later.before), later.action);
    }
  }

  lemma {:induction false} HistoryStep(s: State, a: Action)
    requires Enabled(s, a)
    ensures !s.disposition.Previous? ==> !Apply(s, a).disposition.Previous?
    ensures !s.failure.NoFailure? ==> !Apply(s, a).failure.NoFailure?
  {
  }

  /** After a `stop` that failed, or a `build` that panicked, the profiler counts as running forever, and
      no guard is ever live again. */
  lemma {:induction false} FailureIsFinal(run: Run, later: Run)
    requires Valid(later) && Continues(run, later) && Valid(run) && !Last(run).failure.NoFailure?
    ensures !Last(later).failure.NoFailure? && Last(later).prof.running && Last(later).guards == {}
  {
    hide Apply, Enabled;
    if run != later {
      FailureIsFinal(run, later.before);
      HistoryStep(Last(later.before), later.action);
    }
    var _ := Reachable(later);
  }

  /** While it holds the lock, the steps of a building thread come to what `Start` does at once. */
  lemma {:induction false} BuildStepsCompose(s: State, t: Tid, ok: bool)
    requires Enabled(s, Action.Register(t, ok))
    ensures var o := Lifecycle.Start(s.prof, s.disposition, ok);
            var s' := Apply(s, Action.Register(t, ok));
            && (ok ==> Enabled(s', SetRunning(t)))
            && var s'' := if ok then Apply(s', SetRunning(t)) else s';
               s''.prof == o.view && s''.disposition == o.disposition && (ok <==> o.result.Ok?)
  {
    hide ApplyHandler;
  }

  lemma {:induction false} RefusalIsStart(s: State, t: Tid, ok: bool)
    requires Enabled(s, Refuse(t))
    ensures var o := Lifecycle.Start(s.prof, s.disposition, ok);
            var s' := Apply(s, Refuse(t));
            s'.prof == o.view && s'.disposition == o.disposition && o.result == Err(Error.Running)
  {
    hide ApplyHandler;
  }

  /** And those of a stopping thread to what `Stop` does. */
  lemma {:induction false} StopStepsCompose(s: State, t: Tid, ok: bool, created: bool)
    requires Enabled(s, Action.Unregister(t, ok))
    ensures var o := Lifecycle.Stop(s.prof, s.disposition, ok, created);
            var s' := Apply(s, Action.Unregister(t, ok));
            var more := s.prof.running && ok;
            && (more ==> Enabled(s', Reset(t, created)))
            && var s'' := if more then Apply(s', Reset(t, created)) else s';
               s''.prof == o.view && s''.disposition == o.disposition
  {
    hide ApplyHandler;
  }

  // ---- Progress ----

  /** A step that leaves the profiler running without a session. */
  predicate Fails(a: Action) {
    match a
    case Panic(_) => true
    case Unregister(_, ok) => !ok
    case Reset(_, created) => !created
    case _ => false
  }

  /** A thread that holds the lock, or whose handler runs, can take a step. */
  lemma {:induction false} HolderSteps(s: State, t: Tid) returns (a: Action)
    requires StagesFit(s) && t in s.threads && (!s.threads[t].handler.NotIn? || s.threads[t].main.Holding?)
    ensures Enabled(s, a) && a.t == t && !a.Call? && !a.Signal? && !a.DropGuard? && !Fails(a)
  {
    if !s.threads[t].handler.NotIn? {
      a := NextOfHandler(s, t);
    } else {
      assert StageFits(s.threads[t].main);
      a := match s.threads[t].main
        case Holding(Lazy, _) => Release(t)
        case Holding(Build, Begun) => if s.prof.running then Refuse(t) else Action.Register(t, true)
        case Holding(Build, Registered) => SetRunning(t)
        case Holding(Build, Started) => Arm(t, true)
        case Holding(Stop, Begun) => Action.Unregister(t, true)
        case Holding(Stop, Unregistered) => Reset(t, true)
        case Holding(Peek(_), Begun) => List(t, false)
        case Holding(Report(_, _), Begun) => List(t, false)
        case Holding(Report(_, true), Listed(_, _)) => ClearData(t, ClearIo(true, true), true)
        case Holding(_, _) => Release(t);
    }
  }

  /** There is no deadlock: whenever some thread has begun something, some thread can go on with what it
      has begun, without anything failing. */
  lemma {:induction false} Progress(run: Run, t: Tid) returns (a: Action)
    requires Valid(run) && t in Last(run).threads
    requires !Last(run).threads[t].main.Idle? || !Last(run).threads[t].handler.NotIn?
    ensures Enabled(Last(run), a) && !a.Call? && !a.Signal? && !a.DropGuard? && !Fails(a)
  {
    hide Apply;
    var _ := Reachable(run);
    var s := Last(run);
    if !s.threads[t].handler.NotIn? || s.threads[t].main.Holding? {
      a := HolderSteps(s, t);
    } else if s.threads[t].main.Disarming? {
      a := Disarm(t);
    } else if s.writer.Some? {
      a := HolderSteps(s, s.writer.value.thread);
    } else if s.readers != {} {
      var u :| u in s.readers;
      a := HolderSteps(s, u);
    } else {
      a := Acquire(t);
    }
  }

  // ---- Samples after stop ----

  /** A handler has been entered that may still record a sample. */
  ghost predicate MayStillRecord(s: State) {
    exists t :: t in s.threads && (s.threads[t].handler.Entered? || s.threads[t].handler.Working?)
  }

  /** `later` continues `run`, and nothing installs the handler in between. */
  ghost predicate ContinuesStopped(run: Run, later: Run) {
    run == later || (later.Then? && !later.action.Register? && ContinuesStopped(run, later.before))
  }

  lemma {:induction false} SettledStep(s: State, a: Action)
    requires Enabled(s, a) && !a.Register? && !s.disposition.Handler? && !MayStillRecord(s)
    ensures var s' := Apply(s, a);
            s'.accepted == s.accepted && !s'.disposition.Handler? && !MayStillRecord(s')
  {
    StepChangesThread(s, a);
    assert !s.threads[a.t].handler.Entered? && !s.threads[a.t].handler.Working?;
  }

  lemma {:induction false} SettledStays(run: Run, later: Run)
    requires Valid(run) && Valid(later) && ContinuesStopped(run, later)
    requires !Last(run).disposition.Handler? && !MayStillRecord(Last(run))
    ensures Last(later).accepted == Last(run).accepted
    ensures !Last(later).disposition.Handler? && !MayStillRecord(Last(later))
  {
    hide Apply, Enabled, MayStillRecord;
    if run != later {
      SettledStays(run, later.before);
      SettledStep(Last(later.before), later.action);
    }
  }

  /** `stop` does not wait for handlers: with the handler gone and the lock free, a sample can still be
      recorded exactly if some handler was entered earlier and has not yet tried the lock. */
  lemma {:induction false} LateSamples(run: Run)
    requires Valid(run) && !Last(run).disposition.Handler? && Free(Last(run))
    ensures (exists later :: Valid(later) && ContinuesStopped(run, later) && Last(later).accepted != Last(run).accepted)
            <==> MayStillRecord(Last(run))
  {
    if MayStillRecord(Last(run)) {
      var _ := Reachable(run);
      var t :| t in Last(run).threads && (Last(run).threads[t].handler.Entered? || Last(run).threads[t].handler.Working?);
      HoldsOneWay(Last(run), t);
      var later := RecordLate(run, t);
    } else {
      forall later | Valid(later) && ContinuesStopped(run, later) ensures Last(later).accepted == Last(run).accepted {
        SettledStays(run, later);
      }
    }
  }

  /** One more step. */
  lemma {:induction false} Extend(run: Run, a: Action) returns (later: Run)
    requires Valid(run) && Enabled(Last(run), a)
    ensures later == Then(run, a) && Valid(later) && Last(later) == Apply(Last(run), a)
  {
    later := Then(run, a);
  }

  lemma {:induction false} RecordLate(run: Run, t: Tid) returns (later: Run)
    requires Valid(run) && Free(Last(run)) && t in Last(run).threads && Last(run).threads[t].handler.Entered?
    ensures Valid(later) && ContinuesStopped(run, later) && Last(later).accepted == Last(run).accepted + [BLANK]
  {
    hide Last, Valid, ApplyMain;
    var mid := Extend(run, TryLock(t, true));
    later := Extend(mid, Sample(t, BLANK, true));
    assert ContinuesStopped(run, mid);
  }
}
