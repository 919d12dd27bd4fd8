/** The profiler object: its methods, in place, against `Lifecycle`. */
module Profiler {
  import opened MachineInts
  import opened Outcomes
  import opened Tallies
  import opened Bytes
  import opened Spill
  import opened Frames
  import opened CounterRuns
  import opened Collector
  import Lifecycle

  /** Each sample counts once. */
  ghost function Units<T>(samples: seq<T>): (log: seq<Entry<T>>)
    ensures |log| == |samples|
    ensures forall i :: 0 <= i < |samples| ==> log[i] == Entry(samples[i], 1)
  {
    if samples == [] then [] else Units(samples[..|samples| - 1]) + [Entry(samples[|samples| - 1], 1)]
  }

  lemma {:induction false} UnitsAppend<T>(samples: seq<T>, u: T)
    ensures Units(samples + [u]) == Units(samples) + [Entry(u, 1)]
  {
  }

  lemma {:induction false} GrandOfUnits<T>(samples: seq<T>)
    ensures NonNegative(Units(samples)) && Grand(Units(samples)) == |samples|
  {
    if samples != [] {
      GrandOfUnits(samples[..|samples| - 1]);
    }
  }

  /** The process-wide signal table, as far as SIGPROF goes. */
  class SignalTable {
    var disposition: Lifecycle.Disposition

    constructor ()
      ensures disposition == Lifecycle.Previous
    {
      disposition := Lifecycle.Previous;
    }
  }

  function Ops(hasher: seq<Word> -> nat): Keying<UnresolvedFrames, StackKey> {
    Keying<UnresolvedFrames, StackKey>.Keying(SampleKey, (k: StackKey) => hasher(KeyFeed(k)))
  }

  /** Samples are hashed by what the hasher makes of their symbol addresses, in frame order, and their
      thread id, so that is what decides their bucket. */
  lemma {:induction false} BucketOfSample(hasher: seq<Word> -> nat, u: UnresolvedFrames, ws: seq<Word>)
    requires |ws| == |u.frames| + 1 && ws[|u.frames|] == u.threadId
    requires forall i :: 0 <= i < |u.frames| ==> ws[i] == u.frames[i].symbolAddress
    ensures Ops(hasher).Home(Ops(hasher).key(u)) == hasher(ws) % BUCKETS
  {
    KeyFeedWords(u);
    assert KeyFeed(SampleKey(u)) == ws;
  }

  /** The address lies strictly inside a blocklisted segment. */
  predicate Blocklisted(segments: seq<(Word, Word)>, addr: Word) {
    exists s :: s in segments && s.0 < addr < s.1
  }

  class Profiler {
    const hasher: seq<Word> -> nat
    const codec: Codec<Entry<UnresolvedFrames>>
    var data: Collector<UnresolvedFrames, StackKey>
    var sampleCounter: int
    var oldSigaction: Option<Lifecycle.Disposition>
    var running: bool
    var blocklistSegments: seq<(Word, Word)>

    /** Every sample recorded since the collector was last cleared or replaced. */
    ghost var samples: seq<UnresolvedFrames>

    ghost predicate Valid()
      reads this, data, data.Repr
    {
      && this !in data.Repr
      && data in data.Repr
      && data.Valid()
      && data.counter.ops == Ops(hasher)
      && data.tempArray.codec == codec
      && data.log == Units(samples)
      && Faithful(codec)
    }

    ghost function View(): Lifecycle.View
      reads this, data, data.tempArray
    {
      Lifecycle.View(samples, data.tempArray.clean, data.tempArray.whole, sampleCounter, running, oldSigaction)
    }

    constructor (hasher: seq<Word> -> nat, codec: Codec<Entry<UnresolvedFrames>>)
      requires Faithful(codec)
      ensures Valid() && fresh(data.Repr) && View() == Lifecycle.FRESH
      ensures this.hasher == hasher && this.codec == codec
    {
      var c := new Collector(Ops(hasher), codec, BLANK);
      this.hasher, this.codec, data := hasher, codec, c;
      sampleCounter, oldSigaction, running, blocklistSegments, samples := 0, None, false, [], [];
    }

    method IsBlocklisted(addr: Word) returns (blocked: bool)
      ensures blocked <==> Blocklisted(blocklistSegments, addr)
      ensures blocked <==> exists s :: s in blocklistSegments && s.0 < addr && addr < s.1
    {
      for i := 0 to |blocklistSegments|
        invariant forall s :: s in blocklistSegments[..i] ==> !(s.0 < addr < s.1)
      {
        if blocklistSegments[i].0 < addr && addr < blocklistSegments[i].1 {
          return true;
        }
      }
      assert blocklistSegments[..|blocklistSegments|] == blocklistSegments;
      return false;
    }

    method RegisterSignalHandler(table: SignalTable, sigaction: bool) returns (r: Result<()>)
      requires Valid() && table !in data.Repr
      modifies this`oldSigaction, table
      ensures Valid()
      ensures Lifecycle.Outcome(View(), table.disposition, r)
              == Lifecycle.Register(old(View()), old(table.disposition), sigaction)
      ensures r == if sigaction then Ok(()) else Err(NixError)
      ensures oldSigaction == if sigaction then Some(old(table.disposition)) else old(oldSigaction)
      ensures table.disposition == if sigaction then Lifecycle.Handler else old(table.disposition)
    {
      if !sigaction {
        return Err(NixError);
      }
      var oldAction := table.disposition;
      table.disposition := Lifecycle.Handler;
      oldSigaction := Some(oldAction);
      return Ok(());
    }

    method UnregisterSignalHandler(table: SignalTable, sigaction: bool) returns (r: Result<()>)
      requires Valid() && table !in data.Repr
      modifies this`oldSigaction, table
      ensures Valid()
      ensures Lifecycle.Outcome(View(), table.disposition, r)
              == Lifecycle.Unregister(old(View()), old(table.disposition), sigaction)
      ensures r == (if sigaction then Ok(()) else Err(NixError)) && oldSigaction == None
      ensures table.disposition == if sigaction then Lifecycle.Ignored else old(table.disposition)
    {
      oldSigaction := None;
      if !sigaction {
        return Err(NixError);
      }
      table.disposition := Lifecycle.Ignored;
      return Ok(());
    }

    method Start(table: SignalTable, sigaction: bool) returns (r: Result<()>)
      requires Valid() && table !in data.Repr
      modifies this`oldSigaction, this`running, table
      ensures Valid()
      ensures Lifecycle.Outcome(View(), table.disposition, r)
              == Lifecycle.Start(old(View()), old(table.disposition), sigaction)
      ensures old(running) ==> r == Err(Running) && running && table.disposition == old(table.disposition)
      ensures !old(running) ==>
                r == (if sigaction then Ok(()) else Err(NixError)) && running == sigaction
                && table.disposition == if sigaction then Lifecycle.Handler else old(table.disposition)
    {
      if running {
        return Err(Running);
      }
      r := RegisterSignalHandler(table, sigaction);
      if r.Err? {
        return;
      }
      running := true;
    }

    method Init(created: bool) returns (r: Result<()>)
      requires Valid()
      modifies this
      ensures Valid() && (data == old(data) || fresh(data.Repr))
      ensures forall d :: Lifecycle.Outcome(View(), d, r) == Lifecycle.Init(old(View()), d, created)
      ensures sampleCounter == 0 && oldSigaction == old(oldSigaction) && blocklistSegments == old(blocklistSegments)
      ensures created ==> r == Ok(()) && samples == [] && !running && data.Exact()
      ensures !created ==> r == Err(IoError) && samples == old(samples) && running == old(running) && data == old(data)
    {
      hide Collector.Valid, Bytes.Faithful;
      sampleCounter := 0;
      if !created {
        return Err(IoError);
      }
      var c := new Collector(Ops(hasher), codec, BLANK);
      data := c;
      samples := [];
      running := false;
      return Ok(());
    }

    method Clear(io: ClearIo) returns (r: Result<()>)
      requires Valid()
      modifies this, data.Repr
      ensures Valid() && data == old(data)
      ensures forall d :: Lifecycle.Outcome(View(), d, r)
                          == Lifecycle.Clear(old(View()), d, io, data.tempArray.Untouched())
      ensures running == old(running) && oldSigaction == old(oldSigaction) && blocklistSegments == old(blocklistSegments)
      ensures !running ==> r == Err(NotRunning) && samples == old(samples) && sampleCounter == old(sampleCounter)
      ensures running ==> samples == [] && sampleCounter == 0
      ensures running ==> r == if io.truncated && io.rewound then Ok(()) else Err(IoError)
    {
      if !running {
        return Err(NotRunning);
      }
      sampleCounter := 0;
      samples := [];
      r := data.Clear(io);
    }

    method Stop(table: SignalTable, sigaction: bool, created: bool) returns (r: Result<()>)
      requires Valid() && table !in data.Repr
      modifies this, table
      ensures Valid() && (data == old(data) || fresh(data.Repr))
      ensures Lifecycle.Outcome(View(), table.disposition, r)
              == Lifecycle.Stop(old(View()), old(table.disposition), sigaction, created)
      ensures !old(running) ==>
                r == Err(NotRunning) && !running && samples == old(samples) && table.disposition == old(table.disposition)
      ensures old(running) ==>
                && r == (if !sigaction then Err(NixError) else if !created then Err(IoError) else Ok(()))
                && oldSigaction == None && running == r.Err? && samples == (if r.Ok? then [] else old(samples))
                && sampleCounter == (if sigaction then 0 else old(sampleCounter))
                && table.disposition == if sigaction then Lifecycle.Ignored else old(table.disposition)
    {
      if !running {
        return Err(NotRunning);
      }
      r := UnregisterSignalHandler(table, sigaction);
      if r.Err? {
        return;
      }
      r := Init(created);
    }

    /** Records a sample; whether its spill was stored is not reported. */
    method Sample(frames: seq<Frame>, threadName: seq<Byte>, threadId: Word, timestamp: Word, accepted: nat)
      requires Valid() && |frames| <= MAX_DEPTH && |threadName| <= MAX_THREAD_NAME
      modifies this, data.Repr
      ensures Valid() && data == old(data)
      ensures View() == Lifecycle.Record(old(View()), NewUnresolved(frames, threadName, threadId, timestamp), data.tempArray.whole)
      ensures Room(BUFFER_LENGTH, codec.size) <= accepted ==> data.tempArray.whole == old(data.tempArray.whole)
      ensures |samples| == old(|samples|) + 1 && samples[..old(|samples|)] == old(samples)
      ensures sampleCounter == Wrap32(old(sampleCounter) + 1)
      ensures var u := samples[old(|samples|)];
              && u.frames == frames && u.threadId == threadId && u.sampleTimestamp == timestamp
              && u.threadNameLength == |threadName| && u.threadName[..u.threadNameLength] == threadName
              && forall j :: |threadName| <= j < MAX_THREAD_NAME ==> u.threadName[j] == 0
    {
      hide Collector.Valid, Bytes.Faithful;
      var u := NewUnresolved(frames, threadName, threadId, timestamp);
      sampleCounter := Wrap32(sampleCounter + 1);
      UnitsAppend(samples, u);
      samples := samples + [u];
      var _ := data.Add(u, 1, accepted);
    }
  }
}
