/** The address validator: every call reads from, then writes to, one shared non-blocking pipe. */
module Validator {
  import opened Bytes
  import opened Walker

  /** A read takes at most one probe's worth of bytes; an empty pipe is not an error. */
  function AfterRead(bytes: nat): nat {
    if bytes < CHECK_LENGTH then 0 else bytes - CHECK_LENGTH
  }

  /** A probe is written whole or not at all. */
  predicate Accepts(bytes: nat, capacity: nat, readable: bool) {
    readable && bytes + CHECK_LENGTH <= capacity
  }

  function AfterWrite(bytes: nat, capacity: nat, readable: bool): nat {
    if Accepts(bytes, capacity, readable) then bytes + CHECK_LENGTH else bytes
  }

  // ---- One call ----

  datatype Sys = Done(n: nat) | EINTR | EAGAIN | Failed

  /** The shared pipe, closed until it is first needed. A call may be interrupted a number of times
      before it goes through. */
  class Pipe {
    const capacity: nat
    var isOpen: bool
    var bytes: nat
    var readInterrupts: nat
    var writeInterrupts: nat

    constructor (capacity: nat, readInterrupts: nat, writeInterrupts: nat)
      ensures this.capacity == capacity && !isOpen && bytes == 0
      ensures this.readInterrupts == readInterrupts && this.writeInterrupts == writeInterrupts
    {
      this.capacity, isOpen, bytes := capacity, false, 0;
      this.readInterrupts, this.writeInterrupts := readInterrupts, writeInterrupts;
    }

    method Read() returns (r: Sys)
      modifies this`bytes, this`readInterrupts
      ensures !isOpen ==> r == Failed && bytes == old(bytes) && readInterrupts == old(readInterrupts)
      ensures isOpen && old(readInterrupts) > 0 ==>
                r == EINTR && readInterrupts == old(readInterrupts) - 1 && bytes == old(bytes)
      ensures isOpen && old(readInterrupts) == 0 ==>
                && readInterrupts == 0 && bytes == (if old(bytes) < 16 then 0 else old(bytes) - 16)
                && r == if old(bytes) == 0 then EAGAIN else Done(old(bytes) - bytes)
    {
      if !isOpen {
        return Failed;
      }
      if readInterrupts > 0 {
        readInterrupts := readInterrupts - 1;
        return EINTR;
      }
      if bytes == 0 {
        return EAGAIN;
      }
      var n := if bytes < CHECK_LENGTH then bytes else CHECK_LENGTH;
      bytes := bytes - n;
      return Done(n);
    }

    /** `open_pipe`: whatever was there is closed; the new pipe is empty. */
    method Open(created: bool)
      modifies this`isOpen, this`bytes
      ensures isOpen == created && bytes == 0
    {
      isOpen, bytes := created, 0;
    }

    method Write(mem: Memory, addr: nat) returns (r: Sys)
      requires isOpen
      modifies this`bytes, this`writeInterrupts
      ensures old(writeInterrupts) > 0 ==>
                r == EINTR && writeInterrupts == old(writeInterrupts) - 1 && bytes == old(bytes)
      ensures old(writeInterrupts) == 0 ==>
                var fits := old(bytes) + 16 <= capacity && forall a :: addr <= a < addr + 16 ==> a in mem;
                && writeInterrupts == 0 && r != EINTR
                && bytes == old(bytes) + (if fits then 16 else 0)
                && (r.Done? <==> fits) && (r.Done? ==> r.n == 16)
    {
      if writeInterrupts > 0 {
        writeInterrupts := writeInterrupts - 1;
        return EINTR;
      }
      if bytes + CHECK_LENGTH > capacity {
        return EAGAIN;
      }
      for a := addr to addr + CHECK_LENGTH
        invariant Mapped(mem, addr, a - addr)
      {
        if a !in mem {
          return Failed;
        }
      }
      bytes := bytes + CHECK_LENGTH;
      return Done(CHECK_LENGTH);
    }
  }

  /** The first loop: takes what it can from the pipe, and says whether the pipe is usable. */
  method Drain(pipe: Pipe) returns (validRead: bool)
    modifies pipe`bytes, pipe`readInterrupts
    ensures validRead == pipe.isOpen
    ensures pipe.bytes == if pipe.isOpen then AfterRead(old(pipe.bytes)) else old(pipe.bytes)
  {
    var read := pipe.Read();
    while read == EINTR
      invariant !pipe.isOpen ==> read == Failed && pipe.bytes == old(pipe.bytes)
      invariant pipe.isOpen ==> pipe.bytes == if read == EINTR then old(pipe.bytes) else AfterRead(old(pipe.bytes))
      invariant pipe.isOpen ==> read == EINTR || read == EAGAIN || (read.Done? && read.n > 0)
      decreases pipe.readInterrupts, read == EINTR
    {
      read := pipe.Read();
    }
    return read == EAGAIN || (read.Done? && read.n > 0);
  }

  /** The second loop: probes the address. */
  method Probe(pipe: Pipe, mem: Memory, addr: nat) returns (valid: bool)
    requires pipe.isOpen && addr != 0
    modifies pipe`bytes, pipe`writeInterrupts
    ensures valid <==> Accepts(old(pipe.bytes), pipe.capacity, Readable(mem, addr))
    ensures pipe.bytes == AfterWrite(old(pipe.bytes), pipe.capacity, Readable(mem, addr))
  {
    ghost var room := pipe.bytes;
    var written := pipe.Write(mem, addr);
    while written == EINTR
      invariant written == EINTR ==> pipe.bytes == room
      invariant written != EINTR ==>
                  && pipe.bytes == AfterWrite(room, pipe.capacity, Readable(mem, addr))
                  && (written.Done? <==> Accepts(room, pipe.capacity, Readable(mem, addr)))
                  && (written.Done? ==> written.n == CHECK_LENGTH)
      decreases pipe.writeInterrupts, written == EINTR
    {
      written := pipe.Write(mem, addr);
    }
    return written.Done? && written.n > 0;
  }

  /** Undisturbed by other calls, an address is valid exactly if it is readable, the pipe was or could be
      opened, and the pipe, once read, has room for a probe; interruptions change nothing. */
  method Validate(pipe: Pipe, mem: Memory, addr: nat, created: bool) returns (valid: bool)
    modifies pipe
    ensures var room := if old(pipe.isOpen) then AfterRead(old(pipe.bytes)) else 0;
            && (valid <==> addr != 0 && pipe.isOpen && Accepts(room, pipe.capacity, Readable(mem, addr)))
            && (addr != 0 && pipe.isOpen ==> pipe.bytes == AfterWrite(room, pipe.capacity, Readable(mem, addr)))
    ensures pipe.isOpen <==> old(pipe.isOpen) || (addr != 0 && created)
    ensures addr == 0 ==> pipe.bytes == old(pipe.bytes)
  {
    if addr == 0 {
      return false;
    }
    var validRead := Drain(pipe);
    if !validRead {
      pipe.Open(created);
      if !created {
        return false;
      }
    }
    valid := Probe(pipe, mem, addr);
  }

  // ---- A walk that has the pipe to itself ----

  /** The bytes in the pipe when the walk comes to frame `i`, if `before` were there at its start. */
  ghost function BytesAt(w: World, start: Word, capacity: nat, before: nat, i: nat): nat {
    if i == 0 then before
    else
      AfterWrite(AfterRead(BytesAt(w, start, capacity, before, i - 1)), capacity,
                 Readable(w.mem, FrameAt(w.mem, start, i - 1)))
  }

  /** The walk's probes are answered as `Validate` answers them when nobody else uses the pipe. */
  ghost predicate Alone(w: World, start: Word, capacity: nat, before: nat) {
    forall i: nat ::
      w.probe(i) <==> Accepts(AfterRead(BytesAt(w, start, capacity, before, i)), capacity,
                              Readable(w.mem, FrameAt(w.mem, start, i)))
  }

  lemma {:induction false} StaysDrained(w: World, start: Word, capacity: nat, before: nat, i: nat)
    requires before <= CHECK_LENGTH
    ensures AfterRead(BytesAt(w, start, capacity, before, i)) == 0
  {
    if i > 0 {
      StaysDrained(w, start, capacity, before, i - 1);
    }
  }

  /** Alone on a pipe that holds at most one probe, a walk over a readable frame never has a readable
      frame rejected exactly if the pipe has room for a probe. */
  lemma {:induction false} LoneWalkIff(w: World, start: Word, capacity: nat, before: nat)
    requires Alone(w, start, capacity, before) && before <= CHECK_LENGTH && Readable(w.mem, start)
    ensures (forall i: nat :: Readable(w.mem, FrameAt(w.mem, start, i)) ==> w.probe(i)) <==> CHECK_LENGTH <= capacity
  {
    StaysDrained(w, start, capacity, before, 0);
    assert FrameAt(w.mem, start, 0) == start;
    assert w.probe(0) <==> Accepts(0, capacity, true);
    forall i: nat | Readable(w.mem, FrameAt(w.mem, start, i)) && CHECK_LENGTH <= capacity ensures w.probe(i) {
      StaysDrained(w, start, capacity, before, i);
    }
  }

  /** So what it collects depends on memory and blocklist only. */
  lemma {:induction false} LoneWalkCollects(w: World, start: Word, capacity: nat, before: nat, ips: seq<Word>)
    requires Alone(w, start, capacity, before) && before <= CHECK_LENGTH <= capacity
    ensures MaximalPrefix(w, start, ips) <==> MaximalPrefix(w.(probe := (_: nat) => true), start, ips)
  {
    var open := w.(probe := (_: nat) => true);
    forall i: nat ensures Collectable(w, start, i) <==> Collectable(open, start, i) {
      StaysDrained(w, start, capacity, before, i);
      assert w.probe(i) <==> Readable(w.mem, FrameAt(w.mem, start, i));
    }
    assert forall i: nat :: IpAt(w, start, i) == IpAt(open, start, i);
  }

  /** And it never ends by itself exactly if it comes to a frame record that points to itself. */
  lemma {:induction false} LoneWalkEndlessIff(w: World, start: Word, capacity: nat, before: nat)
    requires Alone(w, start, capacity, before) && before <= CHECK_LENGTH <= capacity
    ensures (forall i: nat :: Steppable(w, start, i)) <==> exists k: nat :: ReachesSelfLoop(w, start, k)
  {
    forall i: nat | Readable(w.mem, FrameAt(w.mem, start, i)) ensures w.probe(i) {
      StaysDrained(w, start, capacity, before, i);
    }
    EndlessIffSelfLoop(w, start);
  }

  // ---- Many calls at once ----

  /** Calls that have yet to read, and calls that have read but not yet written. */
  datatype State = State(bytes: nat, reading: set<nat>, between: set<nat>)

  datatype Step = Begin(call: nat) | Read(call: nat) | Write(call: nat, readable: bool) | Retry(call: nat)

  datatype Run = Start | Then(before: Run, step: Step)

  ghost predicate Enabled(n: nat, s: State, step: Step) {
    match step
    case Begin(c) => c !in s.reading + s.between && |s.reading| + |s.between| < n
    case Read(c) => c in s.reading
    case Write(c, _) => c in s.between
    case Retry(c) => c in s.reading + s.between
  }

  ghost function Apply(capacity: nat, s: State, step: Step): State {
    match step
    case Begin(c) => s.(reading := s.reading + {c})
    case Read(c) => State(AfterRead(s.bytes), s.reading - {c}, s.between + {c})
    case Write(c, readable) => State(AfterWrite(s.bytes, capacity, readable), s.reading, s.between - {c})
    case Retry(_) => s
  }

  ghost function Last(capacity: nat, run: Run): State {
    match run
    case Start => State(0, {}, {})
    case Then(before, step) => Apply(capacity, Last(capacity, before), step)
  }

  /** An interleaving of at most `n` concurrent calls. */
  ghost predicate ValidRun(n: nat, capacity: nat, run: Run) {
    run.Start? || (ValidRun(n, capacity, run.before) && Enabled(n, Last(capacity, run.before), run.step))
  }

  /** In every interleaving the bytes in the pipe leave room for each call between its read and its write. */
  lemma {:induction false} OccupancyBound(n: nat, capacity: nat, run: Run)
    requires ValidRun(n, capacity, run)
    ensures var s := Last(capacity, run);
            && s.reading !! s.between
            && |s.reading| + |s.between| <= n
            && s.bytes + CHECK_LENGTH * |s.between| <= CHECK_LENGTH * n
  {
    match run
    case Start =>
    case Then(before, step) =>
      OccupancyBound(n, capacity, before);
      var s := Last(capacity, before);
      match step {
        case Begin(c) =>
        case Read(c) =>
          assert |s.reading| == |s.reading - {c}| + 1;
        case Write(c, _) =>
          assert |s.between| == |s.between - {c}| + 1;
        case Retry(_) =>
      }
  }

  /** No call of any interleaving ever finds the pipe too full to probe a readable address. */
  ghost predicate NeverRejects(n: nat, capacity: nat) {
    forall run, c :: ValidRun(n, capacity, run) && c in Last(capacity, run).between
                     ==> Accepts(Last(capacity, run).bytes, capacity, true)
  }

  /** The calls numbered `lo` up to `hi`. */
  ghost predicate IsInterval(s: set<nat>, lo: nat, hi: nat) {
    forall c: nat :: c in s <==> lo <= c < hi
  }

  lemma {:induction false} IntervalSize(s: set<nat>, hi: nat)
    requires IsInterval(s, 0, hi)
    ensures |s| == hi
  {
    if hi == 0 {
      assert s == {};
    } else {
      IntervalSize(s - {hi - 1}, hi - 1);
    }
  }

  lemma {:induction false} IntervalGrows(s: set<nat>, hi: nat)
    requires IsInterval(s, 0, hi)
    ensures hi !in s && IsInterval(s + {hi}, 0, hi + 1)
  {
  }

  lemma {:induction false} IntervalShrinks(s: set<nat>, lo: nat, hi: nat)
    requires IsInterval(s, lo, hi) && lo < hi
    ensures lo in s && IsInterval(s - {lo}, lo + 1, hi)
  {
  }

  /** One more step. */
  lemma {:induction false} Extend(n: nat, capacity: nat, run: Run, step: Step)
    requires ValidRun(n, capacity, run) && Enabled(n, Last(capacity, run), step)
    ensures ValidRun(n, capacity, Then(run, step))
    ensures Last(capacity, Then(run, step)) == Apply(capacity, Last(capacity, run), step)
  {
  }

  lemma {:induction false} BeginNext(n: nat, capacity: nat, s: State, c: nat)
    requires c < n && IsInterval(s.reading, 0, c) && s.between == {}
    ensures Enabled(n, s, Begin(c))
    ensures var s' := Apply(capacity, s, Begin(c));
            s'.bytes == s.bytes && s'.between == {} && IsInterval(s'.reading, 0, c + 1)
  {
    IntervalSize(s.reading, c);
    IntervalGrows(s.reading, c);
  }

  lemma {:induction false} ReadNext(n: nat, capacity: nat, s: State, c: nat)
    requires c < n && s.bytes == 0 && IsInterval(s.reading, c, n) && IsInterval(s.between, 0, c)
    ensures Enabled(n, s, Read(c))
    ensures var s' := Apply(capacity, s, Read(c));
            s'.bytes == 0 && IsInterval(s'.reading, c + 1, n) && IsInterval(s'.between, 0, c + 1)
  {
    IntervalShrinks(s.reading, c, n);
    IntervalGrows(s.between, c);
  }

  lemma {:induction false} WriteNext(n: nat, capacity: nat, s: State, c: nat)
    requires c < n && CHECK_LENGTH * (c + 1) <= capacity && s.bytes == CHECK_LENGTH * c && IsInterval(s.between, c, n)
    ensures Enabled(n, s, Write(c, true))
    ensures var s' := Apply(capacity, s, Write(c, true));
            s'.bytes == CHECK_LENGTH * (c + 1) && IsInterval(s'.between, c + 1, n)
  {
    IntervalShrinks(s.between, c, n);
  }

  lemma {:induction false} NoneBegun(n: nat, capacity: nat)
    ensures ValidRun(n, capacity, Start) && Last(capacity, Start) == State(0, {}, {}) && IsInterval({}, 0, 0)
  {
  }

  lemma {:induction false} AllBegun(s: State, n: nat)
    requires IsInterval(s.reading, 0, n) && s.between == {}
    ensures IsInterval(s.between, 0, 0)
  {
  }

  /** `k` calls begin. */
  lemma {:induction false} Begun(n: nat, capacity: nat, k: nat) returns (run: Run)
    requires k <= n
    ensures ValidRun(n, capacity, run)
    ensures var s := Last(capacity, run); s.bytes == 0 && IsInterval(s.reading, 0, k) && s.between == {}
  {
    hide Apply, Enabled, Last, ValidRun, IsInterval;
    if k == 0 {
      NoneBegun(n, capacity);
      run := Start;
    } else {
      var before := Begun(n, capacity, k - 1);
      BeginNext(n, capacity, Last(capacity, before), k - 1);
      Extend(n, capacity, before, Begin(k - 1));
      run := Then(before, Begin(k - 1));
    }
  }

  /** Of `n` calls that have begun, `r` read the empty pipe. */
  lemma {:induction false} HaveRead(n: nat, capacity: nat, r: nat) returns (run: Run)
    requires r <= n
    ensures ValidRun(n, capacity, run)
    ensures var s := Last(capacity, run); s.bytes == 0 && IsInterval(s.reading, r, n) && IsInterval(s.between, 0, r)
  {
    hide Apply, Enabled, Last, ValidRun, IsInterval;
    if r == 0 {
      run := Begun(n, capacity, n);
      AllBegun(Last(capacity, run), n);
    } else {
      var before := HaveRead(n, capacity, r - 1);
      ReadNext(n, capacity, Last(capacity, before), r - 1);
      Extend(n, capacity, before, Read(r - 1));
      run := Then(before, Read(r - 1));
    }
  }

  /** Of `n` calls that have read, `m` write readable addresses. */
  lemma {:induction false} HaveWritten(n: nat, capacity: nat, m: nat) returns (run: Run)
    requires m <= n && CHECK_LENGTH * m <= capacity
    ensures ValidRun(n, capacity, run)
    ensures var s := Last(capacity, run); s.bytes == CHECK_LENGTH * m && IsInterval(s.between, m, n)
  {
    if m == 0 {
      run := HaveRead(n, capacity, n);
    } else {
      hide Apply, Enabled, Last, ValidRun, IsInterval;
      var before := HaveWritten(n, capacity, m - 1);
      WriteNext(n, capacity, Last(capacity, before), m - 1);
      Extend(n, capacity, before, Write(m - 1, true));
      run := Then(before, Write(m - 1, true));
    }
  }

  /** The bound is tight: full-pipe rejections are impossible exactly when the capacity covers one
      probe for every concurrent call. */
  lemma {:induction false} NeverRejectsIff(n: nat, capacity: nat)
    ensures NeverRejects(n, capacity) <==> CHECK_LENGTH * n <= capacity
  {
    if CHECK_LENGTH * n <= capacity {
      forall run, c | ValidRun(n, capacity, run) && c in Last(capacity, run).between
        ensures Accepts(Last(capacity, run).bytes, capacity, true)
      {
        OccupancyBound(n, capacity, run);
        var s := Last(capacity, run);
        assert |s.between| == |s.between - {c}| + 1;
      }
    } else {
      var m := capacity / CHECK_LENGTH;
      var run := HaveWritten(n, capacity, m);
      assert m in Last(capacity, run).between;
      assert !Accepts(Last(capacity, run).bytes, capacity, true);
    }
  }
}
