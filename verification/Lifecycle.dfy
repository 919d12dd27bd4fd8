/** What each profiler operation does to the profiler's state and to the SIGPROF disposition. */
module Lifecycle {
  import opened MachineInts
  import opened Outcomes
  import opened Frames
  import opened Spill

  /** What the process does on SIGPROF: whatever it did before the profiler, sample, or nothing. */
  datatype Disposition = Previous | Handler | Ignored

  /** `samples` are those recorded since the last reset. The collector is exact while its last clear
      left an empty file (`clean`) and no spill has failed since (`whole`). */
  datatype View = View(
    samples: seq<UnresolvedFrames>, clean: bool, whole: bool, counter: int, running: bool, saved: Option<Disposition>)

  const FRESH: View := View([], true, true, 0, false, None)

  datatype Outcome = Outcome(view: View, disposition: Disposition, result: Result<()>)

  function Register(v: View, d: Disposition, sigaction: bool): Outcome {
    if sigaction then Outcome(v.(saved := Some(d)), Handler, Ok(())) else Outcome(v, d, Err(NixError))
  }

  function Start(v: View, d: Disposition, sigaction: bool): Outcome {
    if v.running then Outcome(v, d, Err(Running))
    else
      var o := Register(v, d, sigaction);
      if o.result.Err? then o else o.(view := o.view.(running := true))
  }

  /** Never restores the previous action: SIGPROF is ignored from here on. */
  function Unregister(v: View, d: Disposition, sigaction: bool): Outcome {
    var v' := v.(saved := None);
    if sigaction then Outcome(v', Ignored, Ok(())) else Outcome(v', d, Err(NixError))
  }

  /** A new collector; if it cannot be created the old samples stay and the profiler stays running. */
  function Init(v: View, d: Disposition, created: bool): Outcome {
    if created then Outcome(FRESH.(saved := v.saved), d, Ok(()))
    else Outcome(v.(counter := 0), d, Err(IoError))
  }

  function Stop(v: View, d: Disposition, sigaction: bool, created: bool): Outcome {
    if !v.running then Outcome(v, d, Err(NotRunning))
    else
      var o := Unregister(v, d, sigaction);
      if o.result.Err? then o else Init(o.view, o.disposition, created)
  }

  /** Samples are discarded even if truncating the spill file fails. That makes the collector inexact
      unless the file ends up empty and rewound all the same, because nothing had been spilled. */
  function Clear(v: View, d: Disposition, io: ClearIo, untouched: bool): Outcome {
    if !v.running then Outcome(v, d, Err(NotRunning))
    else
      var ok := io.truncated && io.rewound;
      Outcome(v.(samples := [], clean := ok || untouched, whole := true, counter := 0), d, if ok then Ok(()) else Err(IoError))
  }

  /** A failed spill is not reported to anyone, but makes the collector inexact. */
  function Record(v: View, u: UnresolvedFrames, stored: bool): View {
    v.(samples := v.samples + [u], counter := Wrap32(v.counter + 1), whole := v.whole && stored)
  }

  // ---- A session from end to end ----

  /** What can happen to a running profiler. */
  datatype Event =
    | Recorded(u: UnresolvedFrames, stored: bool)
    | Cleared(io: ClearIo, untouched: bool)
    | StartedAgain(sigaction: bool)

  function After(v: View, d: Disposition, events: seq<Event>): Outcome {
    if events == [] then Outcome(v, d, Ok(()))
    else
      var o := After(v, d, events[..|events| - 1]);
      match events[|events| - 1]
      case Recorded(u, stored) => o.(view := Record(o.view, u, stored))
      case Cleared(io, untouched) => Clear(o.view, o.disposition, io, untouched)
      case StartedAgain(sigaction) => Start(o.view, o.disposition, sigaction)
  }

  lemma {:induction false} KeepsRunning(v: View, d: Disposition, events: seq<Event>)
    requires v.running
    ensures After(v, d, events).view.running && After(v, d, events).disposition == d
  {
    if events != [] {
      KeepsRunning(v, d, events[..|events| - 1]);
    }
  }

  /** Whatever happens between a start and a stop, the stop succeeds exactly if both its calls do. Then
      nothing of the session is left but that SIGPROF is ignored, whatever the start found; the profiler
      can be started again then, and only then. */
  lemma {:induction false} SessionLeavesNothing(
    v: View, d: Disposition, events: seq<Event>, sigaction: bool, created: bool)
    requires !v.running
    ensures var started := Start(v, d, true);
            var o := After(started.view, started.disposition, events);
            var stopped := Stop(o.view, o.disposition, sigaction, created);
            && (stopped.result.Ok? <==> sigaction && created)
            && (stopped.result.Ok? <==> stopped.view == FRESH && stopped.disposition == Ignored)
            && (stopped.result.Ok? <==> Start(stopped.view, stopped.disposition, true).result.Ok?)
            && (stopped.result.Err? ==> stopped.view.samples == o.view.samples)
  {
    var started := Start(v, d, true);
    KeepsRunning(started.view, started.disposition, events);
  }
}
