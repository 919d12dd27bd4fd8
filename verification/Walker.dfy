/** The frame-pointer walker over arbitrary memory, driven by the depth-limited sampling callback. */
module Walker {
  import opened Bytes
  import opened Frames

  const CHECK_LENGTH: nat := 16

  /** Mapped memory, byte by byte. */
  type Memory = map<nat, Byte>

  predicate Mapped(mem: Memory, addr: nat, n: nat) {
    forall a :: addr <= a < addr + n ==> a in mem
  }

  /** The bytes that `validate` probes at `addr` are all mapped, and `addr` is not null. */
  predicate Readable(mem: Memory, addr: nat) {
    addr != 0 && Mapped(mem, addr, CHECK_LENGTH)
  }

  function Load(mem: Memory, addr: nat, n: nat): (bs: seq<Byte>)
    requires Mapped(mem, addr, n)
    ensures |bs| == n
  {
    if n == 0 then [] else Load(mem, addr, n - 1) + [mem[addr + n - 1]]
  }

  function ReadWord(mem: Memory, addr: nat): Word
    requires Mapped(mem, addr, 8)
  {
    FromLittleEndianBound(Load(mem, addr, 8));
    WordFitsEightBytes();
    FromLittleEndian(Load(mem, addr, 8))
  }

  /** The saved frame pointer of the frame record at `addr`. */
  function NextPointer(mem: Memory, addr: nat): Word
    requires Readable(mem, addr)
  {
    ReadWord(mem, addr)
  }

  /** The return address of the frame record at `addr`. */
  function ReturnAddress(mem: Memory, addr: nat): Word
    requires Readable(mem, addr)
  {
    ReadWord(mem, addr + 8)
  }

  // ---- The chain a walk should follow ----

  /** What a walk depends on: memory, which probes the pipe lets through, and blocklisted code. */
  datatype World = World(mem: Memory, probe: nat -> bool, blocked: Word -> bool)

  /** The address of frame `i`: the chain of saved frame pointers, for as long as it can be read. */
  ghost function FrameAt(mem: Memory, start: Word, i: nat): Word {
    if i == 0 then start
    else
      var p := FrameAt(mem, start, i - 1);
      if Readable(mem, p) then NextPointer(mem, p) else 0
  }

  /** The walker may pass frame `i`: it does not lie below its predecessor, its probe succeeds, and it is readable. */
  ghost predicate Steppable(w: World, start: Word, i: nat) {
    var a := FrameAt(w.mem, start, i);
    && (i > 0 ==> FrameAt(w.mem, start, i - 1) <= a)
    && w.probe(i)
    && Readable(w.mem, a)
  }

  ghost predicate Collectable(w: World, start: Word, i: nat) {
    Steppable(w, start, i) && !w.blocked(IpAt(w, start, i))
  }

  ghost function IpAt(w: World, start: Word, i: nat): Word {
    var a := FrameAt(w.mem, start, i);
    if Readable(w.mem, a) then ReturnAddress(w.mem, a) else 0
  }

  /** `ips` are the return addresses of the longest collectable prefix of the chain, cut at MAX_DEPTH. */
  ghost predicate MaximalPrefix(w: World, start: Word, ips: seq<Word>) {
    && |ips| <= MAX_DEPTH
    && (forall i :: 0 <= i < |ips| ==> Collectable(w, start, i) && ips[i] == IpAt(w, start, i))
    && (|ips| == MAX_DEPTH || !Collectable(w, start, |ips|))
  }

  /** There is only one such prefix. */
  lemma {:induction false} MaximalPrefixUnique(w: World, start: Word, a: seq<Word>, b: seq<Word>)
    requires MaximalPrefix(w, start, a) && MaximalPrefix(w, start, b)
    ensures a == b
  {
  }

  /** The frames collected never go down the stack. */
  lemma {:induction false} PrefixAscends(w: World, start: Word, ips: seq<Word>, i: nat, j: nat)
    requires MaximalPrefix(w, start, ips) && i <= j < |ips|
    ensures FrameAt(w.mem, start, i) <= FrameAt(w.mem, start, j)
  {
    if i < j {
      PrefixAscends(w, start, ips, i, j - 1);
      assert Collectable(w, start, j);
    }
  }

  // ---- Stacks laid out in memory ----

  /** These bytes are in memory at `addr`. */
  ghost predicate Holds(mem: Memory, addr: nat, bytes: seq<Byte>) {
    forall j :: 0 <= j < |bytes| ==> HoldsByte(mem, addr + j, bytes[j])
  }

  ghost predicate HoldsByte(mem: Memory, addr: nat, b: Byte) {
    addr in mem && mem[addr] == b
  }

  /** A frame record is in memory: the saved frame pointer, then the return address. */
  ghost predicate HoldsRecord(mem: Memory, addr: nat, next: Word, ret: Word) {
    Holds(mem, addr, LittleEndian(next, 8) + LittleEndian(ret, 8))
  }

  /** A frame of a stack, as the code that built the stack wrote it. */
  datatype Link = Link(addr: Word, next: Word, ret: Word)

  /** Frame `i` of the stack that begins at `start`: where its predecessor points, not below it, and
      with nothing that would stop a walk. */
  ghost predicate Linked(w: World, start: Word, links: seq<Link>, i: nat)
    requires i < |links|
  {
    var l := links[i];
    && l.addr == (if i == 0 then start else links[i - 1].next)
    && l.addr != 0 && (i > 0 ==> links[i - 1].addr <= l.addr)
    && HoldsRecord(w.mem, l.addr, l.next, l.ret)
    && w.probe(i) && !w.blocked(l.ret)
  }

  /** There is nothing to collect at `a` after these frames: it is null, partly unmapped, or below the last frame,
      its probe is rejected, or its code is blocklisted. */
  ghost predicate Stops(w: World, links: seq<Link>, a: Word) {
    || a == 0
    || (exists b :: a <= b < a + 16 && b !in w.mem)
    || (links != [] && a < links[|links| - 1].addr)
    || !w.probe(|links|)
    || exists next: Word, ret: Word :: HoldsRecord(w.mem, a, next, ret) && w.blocked(ret)
  }

  ghost predicate StackInMemory(w: World, start: Word, links: seq<Link>) {
    && (forall i :: 0 <= i < |links| ==> Linked(w, start, links, i))
    && Stops(w, links, if links == [] then start else links[|links| - 1].next)
  }

  /** The return addresses of the first frames, at most `n`. */
  ghost function Returns(links: seq<Link>, n: nat): (rets: seq<Word>)
    ensures |rets| == if |links| < n then |links| else n
    ensures forall i :: 0 <= i < |rets| ==> rets[i] == links[i].ret
  {
    seq(if |links| < n then |links| else n, i requires 0 <= i < |links| => links[i].ret)
  }

  lemma {:induction false} LoadHeld(mem: Memory, addr: nat, bytes: seq<Byte>, n: nat)
    requires Holds(mem, addr, bytes) && n <= |bytes|
    ensures Mapped(mem, addr, n) && Load(mem, addr, n) == bytes[..n]
  {
    forall a | addr <= a < addr + n ensures a in mem {
      assert HoldsByte(mem, addr + (a - addr), bytes[a - addr]);
    }
    if n > 0 {
      LoadHeld(mem, addr, bytes, n - 1);
      assert HoldsByte(mem, addr + (n - 1), bytes[n - 1]);
    }
  }

  lemma {:induction false} ReadHeld(mem: Memory, addr: nat, x: Word)
    requires Holds(mem, addr, LittleEndian(x, 8))
    ensures Mapped(mem, addr, 8) && ReadWord(mem, addr) == x
  {
    LoadHeld(mem, addr, LittleEndian(x, 8), 8);
    WordFitsEightBytes();
    LittleEndianRoundTrip(x, 8);
    assert LittleEndian(x, 8)[..8] == LittleEndian(x, 8);
  }

  lemma {:induction false} ReadRecord(mem: Memory, addr: nat, next: Word, ret: Word)
    requires HoldsRecord(mem, addr, next, ret) && addr != 0
    ensures Readable(mem, addr) && NextPointer(mem, addr) == next && ReturnAddress(mem, addr) == ret
  {
    var a, b := LittleEndian(next, 8), LittleEndian(ret, 8);
    LoadHeld(mem, addr, a + b, 16);
    forall j | 0 <= j < 8 ensures HoldsByte(mem, addr + j, a[j]) {
      assert (a + b)[j] == a[j];
    }
    forall j | 0 <= j < 8 ensures HoldsByte(mem, addr + 8 + j, b[j]) {
      assert (a + b)[8 + j] == b[j] && HoldsByte(mem, addr + (8 + j), (a + b)[8 + j]);
    }
    ReadHeld(mem, addr, next);
    ReadHeld(mem, addr + 8, ret);
  }

  lemma {:induction false} FollowsLinks(w: World, start: Word, links: seq<Link>, i: nat)
    requires i < |links| && forall j :: 0 <= j <= i ==> Linked(w, start, links, j)
    ensures FrameAt(w.mem, start, i) == links[i].addr && FrameAt(w.mem, start, i + 1) == links[i].next
    ensures Collectable(w, start, i) && IpAt(w, start, i) == links[i].ret
  {
    hide NextPointer, ReturnAddress, Mapped, HoldsRecord;
    assert Linked(w, start, links, i);
    ReadRecord(w.mem, links[i].addr, links[i].next, links[i].ret);
    if i > 0 {
      FollowsLinks(w, start, links, i - 1);
    }
  }

  lemma {:induction false} StopsThere(w: World, start: Word, links: seq<Link>)
    requires StackInMemory(w, start, links)
    ensures !Collectable(w, start, |links|)
  {
    hide NextPointer, ReturnAddress, HoldsRecord;
    var n := |links|;
    if n > 0 {
      FollowsLinks(w, start, links, n - 1);
    }
    var a := FrameAt(w.mem, start, n);
    if next: Word, ret: Word :| HoldsRecord(w.mem, a, next, ret) && w.blocked(ret) {
      if a != 0 {
        ReadRecord(w.mem, a, next, ret);
      }
    }
  }

  /** Whatever stack is in memory, the walk collects its return addresses, in order, down to MAX_DEPTH. */
  lemma {:induction false} CollectsStack(w: World, start: Word, links: seq<Link>, ips: seq<Word>)
    requires StackInMemory(w, start, links) && MaximalPrefix(w, start, ips)
    ensures ips == Returns(links, MAX_DEPTH)
  {
    hide Collectable, Linked, Stops;
    StopsThere(w, start, links);
    var rets := Returns(links, MAX_DEPTH);
    forall i | 0 <= i < |rets| ensures Collectable(w, start, i) && rets[i] == IpAt(w, start, i) {
      FollowsLinks(w, start, links, i);
    }
    MaximalPrefixUnique(w, start, ips, rets);
  }

  // ---- What the walker's own tests can end ----

  /** The walk reaches frame `k`, and the record there points to itself. */
  ghost predicate ReachesSelfLoop(w: World, start: Word, k: nat) {
    && (forall i: nat :: i <= k ==> Steppable(w, start, i))
    && FrameAt(w.mem, start, k + 1) == FrameAt(w.mem, start, k)
  }

  lemma {:induction false} LoopsFrom(w: World, start: Word, k: nat, i: nat)
    requires ReachesSelfLoop(w, start, k)
    requires forall j: nat :: Readable(w.mem, FrameAt(w.mem, start, j)) ==> w.probe(j)
    ensures Steppable(w, start, i)
    ensures k <= i ==> FrameAt(w.mem, start, i + 1) == FrameAt(w.mem, start, i) == FrameAt(w.mem, start, k)
  {
    if k < i {
      LoopsFrom(w, start, k, i - 1);
    }
  }

  /** A chain that never goes down and never stands still climbs at least one byte a frame. */
  lemma {:induction false} Climbs(w: World, start: Word, i: nat)
    requires forall j: nat :: Steppable(w, start, j) && !ReachesSelfLoop(w, start, j)
    ensures i <= FrameAt(w.mem, start, i)
  {
    if i > 0 {
      Climbs(w, start, i - 1);
      assert Steppable(w, start, i) && !ReachesSelfLoop(w, start, i - 1);
    }
  }

  /** Where no readable frame is rejected, the walker's own tests pass forever exactly if the walk comes to a frame record that points to
      itself; longer cycles and ever-rising chains they do end. */
  lemma {:induction false} EndlessIffSelfLoop(w: World, start: Word)
    requires forall j: nat :: Readable(w.mem, FrameAt(w.mem, start, j)) ==> w.probe(j)
    ensures (forall i: nat :: Steppable(w, start, i)) <==> exists k: nat :: ReachesSelfLoop(w, start, k)
  {
    if k: nat :| ReachesSelfLoop(w, start, k) {
      forall i: nat ensures Steppable(w, start, i) {
        LoopsFrom(w, start, k, i);
      }
    } else if forall i: nat :: Steppable(w, start, i) {
      Climbs(w, start, 0x1_0000_0000_0000_0000);
      assert false;
    }
  }

  /** A frame record at address 1 that points to itself. */
  const SELF_LOOP: Memory := map a: nat | 1 <= a < 17 :: if a == 1 then 1 else 0

  lemma {:induction false} SelfLoopLoads(n: nat)
    requires 0 < n <= 8
    ensures Mapped(SELF_LOOP, 1, n) && Load(SELF_LOOP, 1, n) == LittleEndian(1, n)
  {
    if n == 1 {
      assert Load(SELF_LOOP, 1, 0) == [] && LittleEndian(0, 0) == [];
    } else {
      SelfLoopLoads(n - 1);
      OneInBytes(n - 1);
      OneInBytes(n);
    }
  }

  lemma {:induction false} OneInBytes(n: nat)
    requires 0 < n
    ensures LittleEndian(1, n) == [1] + seq(n - 1, _ => 0)
  {
    ZeroInBytes(n - 1);
  }

  lemma {:induction false} ZeroInBytes(n: nat)
    ensures LittleEndian(0, n) == seq(n, _ => 0)
  {
    if n > 0 {
      ZeroInBytes(n - 1);
    }
  }

  /** Over that memory the walker's own tests never end the walk. */
  lemma {:induction false} EndlessWalk(w: World)
    requires w.mem == SELF_LOOP
    requires forall j: nat :: Readable(w.mem, FrameAt(w.mem, 1, j)) ==> w.probe(j)
    ensures forall i: nat :: Steppable(w, 1, i)
  {
    SelfLoopLoads(8);
    WordFitsEightBytes();
    LittleEndianRoundTrip(1, 8);
    assert NextPointer(SELF_LOOP, 1) == 1;
    assert FrameAt(w.mem, 1, 0) == 1 && FrameAt(w.mem, 1, 1) == 1;
    assert ReachesSelfLoop(w, 1, 0);
    EndlessIffSelfLoop(w, 1);
  }

  // ---- The loop and its callback ----

  /** The closure that `perf_signal_handler` passes to `trace`. */
  class SamplingCallback {
    const blocked: Word -> bool
    var bt: seq<Word>
    var index: nat

    ghost predicate Valid()
      reads this
    {
      index == |bt| <= MAX_DEPTH
    }

    constructor (blocked: Word -> bool)
      ensures Valid() && bt == [] && this.blocked == blocked
    {
      this.blocked, bt, index := blocked, [], 0;
    }

    method Call(ip: Word) returns (more: bool)
      requires Valid()
      modifies this
      ensures Valid()
      ensures more <==> !blocked(ip) && old(|bt|) < MAX_DEPTH
      ensures bt == if more then old(bt) + [ip] else old(bt)
    {
      if blocked(ip) {
        return false;
      }
      if index < MAX_DEPTH {
        bt := bt + [ip];
        index := index + 1;
        return true;
      }
      return false;
    }
  }

  /** Over any memory the walk ends, calls back at most MAX_DEPTH + 1 times, reads only addresses it
      has just validated, and collects exactly the maximal prefix of the chain. */
  method Trace(w: World, start: Word, cb: SamplingCallback) returns (calls: nat)
    requires cb.Valid() && cb.bt == [] && cb.blocked == w.blocked
    modifies cb
    ensures cb.Valid() && MaximalPrefix(w, start, cb.bt)
    ensures forall links :: StackInMemory(w, start, links) ==> cb.bt == Returns(links, MAX_DEPTH)
    ensures |cb.bt| <= calls <= |cb.bt| + 1
  {
    hide NextPointer, ReturnAddress, Mapped, StackInMemory;
    var framePointer: Word, lastFramePointer: Word := start, 0;
    calls := 0;
    while true
      invariant cb.Valid() && calls == |cb.bt|
      invariant framePointer == FrameAt(w.mem, start, calls)
      invariant lastFramePointer == if calls == 0 then 0 else FrameAt(w.mem, start, calls - 1)
      invariant forall i :: 0 <= i < calls ==> Collectable(w, start, i) && cb.bt[i] == IpAt(w, start, i)
      decreases MAX_DEPTH - |cb.bt|
    {
      if lastFramePointer != 0 && framePointer < lastFramePointer {
        break;
      }
      if !(Readable(w.mem, framePointer) && w.probe(calls)) {
        break;
      }
      lastFramePointer := framePointer;
      var ip := ReturnAddress(w.mem, framePointer);
      calls := calls + 1;
      var more := cb.Call(ip);
      if !more {
        break;
      }
      framePointer := NextPointer(w.mem, framePointer);
    }
    forall links | StackInMemory(w, start, links) ensures cb.bt == Returns(links, MAX_DEPTH) {
      CollectsStack(w, start, links, cb.bt);
    }
  }
}
