/** The body of the SIGPROF handler, once it holds the profiler's lock. */
module Handler {
  import opened Outcomes
  import opened Bytes
  import opened CStrings
  import opened Spill
  import opened Frames
  import opened Profiler
  import opened Walker
  import opened Collector
  import Lifecycle

  /** The interrupted code's program counter and frame pointer. */
  datatype Context = Context(pc: Word, framePointer: Word)

  /** What the handler learns from its surroundings. `symbolAddress` maps an ip to its enclosing function;
      `name` is the buffer that the thread's name was written to, `beyond` the memory after it. */
  datatype Surroundings = Surroundings(
    mem: Memory, probe: nat -> bool, symbolAddress: Word -> Word, name: seq<Byte>, beyond: seq<Byte>,
    threadId: Word, timestamp: Word)
  {
    /** There is a terminator somewhere, in the buffer or after it. */
    predicate NameEnds() {
      |name| == MAX_THREAD_NAME && CString(name + beyond, 0).Some?
    }

    /** The name as a C string. */
    function ThreadName(): seq<Byte>
      requires NameEnds()
    {
      CString(name + beyond, 0).value
    }

    /** The name can be stored in a sample. */
    predicate NameFits()
      requires NameEnds()
    {
      |ThreadName()| <= MAX_THREAD_NAME
    }
  }

  /** A name fits exactly if its terminator is in the buffer or right behind it. */
  lemma {:induction false} NameFitsIff(s: Surroundings)
    requires s.NameEnds()
    ensures s.NameFits() <==> 0 in s.name || s.beyond[0] == 0
    ensures 0 in s.name ==> CString(s.name, 0) == Some(s.ThreadName())
  {
    CStringAppend(s.name, s.beyond, 0);
    if 0 !in s.name {
      assert |s.ThreadName()| == MAX_THREAD_NAME + |CString(s.beyond, 0).value|;
      assert s.beyond[0] == 0 ==> CString(s.beyond, 0) == Some([]);
    }
  }

  function WorldOf(s: Surroundings, segments: seq<(Word, Word)>): World {
    World(s.mem, s.probe, (ip: Word) => Blocklisted(segments, ip))
  }

  function FramesOf(ips: seq<Word>, symbolAddress: Word -> Word): (frames: seq<Frame>)
    ensures |frames| == |ips|
    ensures forall i :: 0 <= i < |ips| ==> frames[i] == Frame(ips[i], symbolAddress(ips[i]))
  {
    if ips == [] then []
    else FramesOf(ips[..|ips| - 1], symbolAddress) + [Frame(ips[|ips| - 1], symbolAddress(ips[|ips| - 1]))]
  }

  /** The sample holds these ips with their enclosing functions, the thread's name and id, and the time. */
  ghost predicate Records(u: UnresolvedFrames, s: Surroundings, ips: seq<Word>)
    requires s.NameEnds() && s.NameFits()
  {
    && |u.frames| == |ips|
    && (forall i :: 0 <= i < |ips| ==> u.frames[i].ip == ips[i] && u.frames[i].symbolAddress == s.symbolAddress(ips[i]))
    && u.threadId == s.threadId && u.sampleTimestamp == s.timestamp
    && u.threadNameLength == |s.ThreadName()| && u.threadName[..u.threadNameLength] == s.ThreadName()
    && forall j :: |s.ThreadName()| <= j < MAX_THREAD_NAME ==> u.threadName[j] == 0
  }

  /** `u` records the stack of the interrupted code: the maximal prefix of its frame chain, or nothing
      when the signal came without a context. */
  ghost predicate Captures(u: UnresolvedFrames, s: Surroundings, segments: seq<(Word, Word)>, ucontext: Option<Context>)
    requires s.NameEnds() && s.NameFits()
  {
    exists ips: seq<Word> ::
      && Records(u, s, ips)
      && if ucontext.Some? then MaximalPrefix(WorldOf(s, segments), ucontext.value.framePointer, ips) else ips == []
  }

  /** What a handler walks over: this memory, these probes, and code in these segments left out. */
  ghost predicate Surrounds(s: Surroundings, segments: seq<(Word, Word)>, w: World) {
    && w.mem == s.mem && w.probe == s.probe
    && forall ip: Word :: w.blocked(ip) <==> exists seg :: seg in segments && seg.0 < ip && ip < seg.1
  }

  /** Whatever stack is in the interrupted code's memory, a sample records its return addresses, in order,
      down to MAX_DEPTH or the first one in a blocklisted segment. */
  ghost predicate RecordsStack(
    u: UnresolvedFrames, s: Surroundings, segments: seq<(Word, Word)>, start: Word)
    requires s.NameEnds() && s.NameFits()
  {
    forall w, links :: Surrounds(s, segments, w) && StackInMemory(w, start, links) ==>
      Records(u, s, Returns(links, MAX_DEPTH))
  }

  /** What is recorded once these ips have been collected. */
  lemma {:induction false} Captured(
    u: UnresolvedFrames, s: Surroundings, segments: seq<(Word, Word)>, ucontext: Option<Context>, ips: seq<Word>)
    requires s.NameEnds() && s.NameFits() && Records(u, s, ips)
    requires if ucontext.Some? then MaximalPrefix(WorldOf(s, segments), ucontext.value.framePointer, ips) else ips == []
    ensures Captures(u, s, segments, ucontext)
    ensures if ucontext.Some? then RecordsStack(u, s, segments, ucontext.value.framePointer) else Records(u, s, [])
  {
    hide Records, MaximalPrefix;
    if ucontext.Some? {
      CapturesStack(u, s, segments, ucontext);
    }
  }

  lemma {:induction false} CapturesStack(
    u: UnresolvedFrames, s: Surroundings, segments: seq<(Word, Word)>, ucontext: Option<Context>)
    requires s.NameEnds() && s.NameFits() && ucontext.Some? && Captures(u, s, segments, ucontext)
    ensures RecordsStack(u, s, segments, ucontext.value.framePointer)
  {
    hide Records, MaximalPrefix, StackInMemory;
    var start := ucontext.value.framePointer;
    var ips: seq<Word> :| Records(u, s, ips) && MaximalPrefix(WorldOf(s, segments), start, ips);
    forall w, links | Surrounds(s, segments, w) && StackInMemory(w, start, links)
      ensures Records(u, s, Returns(links, MAX_DEPTH))
    {
      SameWorld(WorldOf(s, segments), w, start, ips);
      CollectsStack(w, start, links, ips);
    }
  }

  lemma {:induction false} SameWorld(v: World, w: World, start: Word, ips: seq<Word>)
    requires v.mem == w.mem && v.probe == w.probe && forall ip: Word :: v.blocked(ip) == w.blocked(ip)
    requires MaximalPrefix(v, start, ips)
    ensures MaximalPrefix(w, start, ips)
  {
    assert forall i: nat :: IpAt(v, start, i) == IpAt(w, start, i);
    assert forall i: nat :: Collectable(v, start, i) == Collectable(w, start, i);
  }

  /** There is only one sample a signal can record. */
  lemma {:induction false} CapturesOnce(
    u: UnresolvedFrames, v: UnresolvedFrames, s: Surroundings, segments: seq<(Word, Word)>, ucontext: Option<Context>)
    requires s.NameEnds() && s.NameFits()
    requires Captures(u, s, segments, ucontext) && Captures(v, s, segments, ucontext)
    ensures u == v
  {
    hide MaximalPrefix, Records;
    var a: seq<Word> :| Records(u, s, a)
      && if ucontext.Some? then MaximalPrefix(WorldOf(s, segments), ucontext.value.framePointer, a) else a == [];
    var b: seq<Word> :| Records(v, s, b)
      && if ucontext.Some? then MaximalPrefix(WorldOf(s, segments), ucontext.value.framePointer, b) else b == [];
    if ucontext.Some? {
      MaximalPrefixUnique(WorldOf(s, segments), ucontext.value.framePointer, a, b);
    }
    RecordsOnce(u, v, s, a);
  }

  lemma {:induction false} RecordsOnce(u: UnresolvedFrames, v: UnresolvedFrames, s: Surroundings, ips: seq<Word>)
    requires s.NameEnds() && s.NameFits() && Records(u, s, ips) && Records(v, s, ips)
    ensures u == v
  {
    assert u.frames == v.frames;
    var n := u.threadNameLength;
    assert u.threadName == u.threadName[..n] + u.threadName[n..] && v.threadName == v.threadName[..n] + v.threadName[n..];
    assert u.threadName[n..] == v.threadName[n..];
  }

  /** Walks the interrupted code's stack, if there is a context. */
  method Walk(s: Surroundings, segments: seq<(Word, Word)>, ucontext: Option<Context>)
    returns (ips: seq<Word>, calls: nat)
    ensures |ips| <= MAX_DEPTH && calls <= MAX_DEPTH + 1
    ensures if ucontext.Some? then MaximalPrefix(WorldOf(s, segments), ucontext.value.framePointer, ips) else ips == []
  {
    var w := WorldOf(s, segments);
    var cb := new SamplingCallback(w.blocked);
    calls := 0;
    if ucontext.Some? {
      calls := Trace(w, ucontext.value.framePointer, cb);
    }
    ips := cb.bt;
  }

  /** Records exactly one sample, with the stack of the interrupted code, unless that code is blocklisted,
      and calls back for at most one frame more than the deepest stack has. It panics, recording nothing,
      exactly if the name it reads is longer than a sample can hold. */
  method PerfSignalHandler(profiler: Result<Profiler>, ucontext: Option<Context>, s: Surroundings, accepted: nat)
    returns (calls: nat, panicked: bool)
    requires profiler.Ok? ==> profiler.value.Valid()
    requires s.NameEnds()
    modifies if profiler.Ok? then {profiler.value} + profiler.value.data.Repr else {}
    ensures calls <= MAX_DEPTH + 1 && (profiler.Err? ==> !panicked)
    ensures profiler.Ok? ==> profiler.value.Valid() && profiler.value.data == old(profiler.value.data)
    ensures profiler.Ok? ==>
              var p := profiler.value;
              var v := old(p.View());
              var blocked := ucontext.Some?
                && exists seg :: seg in old(p.blocklistSegments) && seg.0 < ucontext.value.pc && ucontext.value.pc < seg.1;
              && (panicked <==> !blocked && !s.NameFits())
              && if blocked || panicked then p.View() == v else
                && |p.samples| == |v.samples| + 1
                && p.View() == Lifecycle.Record(v, p.samples[|v.samples|], p.View().whole)
                && (v.whole && Room(BUFFER_LENGTH, p.codec.size) <= accepted ==> p.View().whole)
                && var u := p.samples[|v.samples|];
                   && Captures(u, s, old(p.blocklistSegments), ucontext)
                   && if ucontext.Some? then
                        RecordsStack(u, s, old(p.blocklistSegments), ucontext.value.framePointer)
                      else Records(u, s, [])
  {
    hide Collector.Valid, Faithful, MaximalPrefix, RecordsStack, Captures;
    calls, panicked := 0, false;
    if profiler.Err? {
      return;
    }
    var p := profiler.value;
    var segments := p.blocklistSegments;
    if ucontext.Some? {
      var blocked := p.IsBlocklisted(ucontext.value.pc);
      if blocked {
        return;
      }
    }
    var ips;
    ips, calls := Walk(s, segments, ucontext);
    if |s.ThreadName()| > MAX_THREAD_NAME {
      panicked := true;
      return;
    }
    var bt := FramesOf(ips, s.symbolAddress);
    p.Sample(bt, s.ThreadName(), s.threadId, s.timestamp, accepted);
    Captured(p.samples[|p.samples| - 1], s, segments, ucontext, ips);
  }
}
