/** The guard: building one starts the profiler and its timer, dropping it stops both. */
module Guard {
  import opened Outcomes
  import opened Bytes
  import opened Collector
  import opened Profiler
  import opened Timer
  import opened Reports
  import Lifecycle

  class ProfilerGuard {
    const profiler: Result<Profiler>
    var timer: Option<Timer>

    constructor (profiler: Result<Profiler>, timer: Timer)
      ensures this.profiler == profiler && this.timer == Some(timer)
    {
      this.profiler, this.timer := profiler, Some(timer);
    }

    /** A builder of reports stamped with the guard's timing. */
    method Report(instant: nat) returns (b: ReportBuilder)
      requires timer.Some? ==> timer.value.startInstant <= instant
      ensures fresh(b) && b.profiler == profiler && b.framesPostProcessor == None
      ensures b.timing == if timer.None? then ReportTiming(1, 0, 0)
                          else ReportTiming(timer.value.frequency, timer.value.startTime, instant - timer.value.startInstant)
    {
      var timing := DEFAULT_TIMING;
      if timer.Some? {
        timing := timer.value.Timing(instant);
      }
      b := new ReportBuilder(profiler, timing);
    }

    /** Disarms the timer first; an error from stopping the profiler is only logged. */
    method Drop(table: SignalTable, process: ProfilingTimer, sigaction: bool, created: bool)
      requires profiler.Ok? ==> profiler.value.Valid() && {this, table, process} !! profiler.value.data.Repr
      modifies this, table, process, if profiler.Ok? then {profiler.value} else {}
      ensures timer == None
      ensures process.value == if old(timer).Some? then ZERO else old(process.value)
      ensures profiler.Err? ==> table.disposition == old(table.disposition)
      ensures profiler.Ok? ==>
                var p := profiler.value;
                var o := Lifecycle.Stop(old(p.View()), old(table.disposition), sigaction, created);
                p.Valid() && p.View() == o.view && table.disposition == o.disposition
    {
      hide Collector.Valid, Faithful;
      if timer.Some? {
        timer.value.Drop(process);
      }
      timer := None;
      if profiler.Ok? {
        var _ := profiler.value.Stop(table, sigaction, created);
      }
    }
  }

  /** A call that returns, or unwinds without a value. */
  datatype Ended<+T> = Returned(value: T) | Panicked

  /** Replaces the blocklist even if the profiler turns out to be running already; arms the timer only
      once the handler is installed. Frequency zero panics at that point: the lock is released on
      unwinding, and handler and profiler stay as they are, with no guard to ever stop them. */
  method Build(
    profiler: Result<Profiler>, segments: seq<(Word, Word)>, frequency: int,
    table: SignalTable, process: ProfilingTimer, sigaction: bool, now: nat, instant: nat)
    returns (e: Ended<Result<ProfilerGuard>>)
    requires profiler.Ok? ==> profiler.value.Valid() && {table, process} !! profiler.value.data.Repr
    modifies table, process, if profiler.Ok? then {profiler.value} else {}
    ensures profiler.Err? ==> e == Returned(Err(CreatingError)) && table.disposition == old(table.disposition)
    ensures profiler.Ok? ==>
              var p := profiler.value;
              var o := Lifecycle.Start(old(p.View()), old(table.disposition), sigaction);
              && p.Valid() && p.View() == o.view && p.blocklistSegments == segments
              && table.disposition == o.disposition
              && (e.Panicked? <==> o.result.Ok? && frequency == 0)
              && (e.Returned? ==> (e.value.Ok? <==> o.result.Ok?) && (e.value.Err? ==> e.value.error == o.result.error))
    ensures e.Panicked? || e.value.Err? ==> process.value == old(process.value)
    ensures e.Panicked? || e.value.Ok? ==>
              profiler.value.View().running && table.disposition == Lifecycle.Handler
    ensures e.Returned? && e.value.Ok? ==>
              var g := e.value.value;
              && fresh(g) && g.profiler == profiler && g.timer.Some?
              && g.timer.value.frequency == frequency && g.timer.value.startTime == now
              && (!old(process.Armed()) ==> (process.Armed() <==> 1 <= frequency <= 1_000_000))
  {
    hide Collector.Valid, Faithful;
    if profiler.Err? {
      return Returned(Err(CreatingError));
    }
    var p := profiler.value;
    p.blocklistSegments := segments;
    var started := p.Start(table, sigaction);
    if started.Err? {
      return Returned(Err(started.error));
    }
    if frequency == 0 {
      return Panicked;
    }
    var timer := new Timer(frequency, process, now, instant);
    var guard := new ProfilerGuard(profiler, timer);
    return Returned(Ok(guard));
  }
}
