/** The sample collector: the counter in front, the spill file behind, and the claim that together
    they either agree with a plain map from class to total or report an error. */
module Collector {
  import opened MachineInts
  import opened Outcomes
  import opened Tallies
  import opened Bytes
  import opened Spill
  import opened Counter
  import opened CounterRuns

  /** Each resident entry, then each evicted one, once: the evicted entries still in the buffer come
      before the `n` that were flushed. */
  ghost function Listed<T>(r: Replayed<T>, n: nat): seq<Entry<T>>
    requires n <= |r.evicted|
  {
    Flatten(r.slots) + (r.evicted[n..] + r.evicted[..n])
  }

  /** The listing sums, class by class, to what was added, up to a multiple of 2^64. */
  lemma {:induction false} ListingConserves<T, K>(ops: Keying<T, K>, log: seq<Entry<T>>, n: nat, k: K)
    requires n <= |Replay(ops, log).evicted|
    ensures Total(Listed(Replay(ops, log), n), ops.key, k) == Total(log, ops.key, k) + Spans(Carries(ops, log, k))
  {
    var r := Replay(ops, log);
    assert r.evicted == r.evicted[..n] + r.evicted[n..];
    TotalConcat(Flatten(r.slots), r.evicted[n..] + r.evicted[..n], ops.key, k);
    TotalConcat(r.evicted[n..], r.evicted[..n], ops.key, k);
    TotalConcat(r.evicted[..n], r.evicted[n..], ops.key, k);
    ReplayConserves(ops, log, k);
  }

  /** With counts that are not negative and a true total that fits, the sum is the true total and
      nothing negative is listed. */
  lemma {:induction false} ListingExact<T, K>(ops: Keying<T, K>, log: seq<Entry<T>>, n: nat, k: K)
    requires n <= |Replay(ops, log).evicted|
    requires NonNegative(log) && Total(log, ops.key, k) <= ISIZE_MAX
    ensures Total(Listed(Replay(ops, log), n), ops.key, k) == Total(log, ops.key, k)
    ensures forall e :: e in Listed(Replay(ops, log), n) && ops.key(e.item) == k ==> 0 <= e.count
  {
    var r := Replay(ops, log);
    ListingConserves(ops, log, n, k);
    ReplayConserves(ops, log, k);
    ReplayExact(ops, log, k);
    forall e | e in Listed(r, n) && ops.key(e.item) == k ensures 0 <= e.count {
      if e in Flatten(r.slots) {
        FoundAtHome(r.slots, ops, e, BUCKETS);
        assert r.slots[..BUCKETS] == r.slots;
      }
    }
  }

  lemma {:induction false} FoundAtHome<T, K>(slots: seq<seq<Entry<T>>>, ops: Keying<T, K>, e: Entry<T>, n: nat)
    requires Placed(slots, ops) && n <= BUCKETS
    ensures e in Flatten(slots[..n]) ==> e in slots[ops.Home(ops.key(e.item))]
  {
    if n > 0 {
      FlattenNext(slots, n - 1);
      FoundAtHome(slots, ops, e, n - 1);
      if e in slots[n - 1] {
        var i :| 0 <= i < |slots[n - 1]| && slots[n - 1][i] == e;
        assert ops.Home(ops.key(slots[n - 1][i].item)) == n - 1;
      }
    }
  }

  class Collector<T(!new), K(==)> {
    const counter: HashCounter<T, K>
    const tempArray: TempFdArray<Entry<T>>

    ghost const Repr: set<object>

    /** Every add since the last clear. */
    ghost var log: seq<Entry<T>>

    ghost predicate Valid()
      reads this, Repr
    {
      && Repr == {this, counter, tempArray, tempArray.buffer} + counter.Repr
      && counter.Valid()
      && tempArray.Valid()
      && this !in counter.Repr && tempArray !in counter.Repr && tempArray.buffer !in counter.Repr
      && counter.resident == Replay(counter.ops, log).slots
      && (Exact() ==> tempArray.pushed == Replay(counter.ops, log).evicted)
    }

    /** No spill has failed since the last clear, and that clear left an empty file. */
    ghost predicate Exact()
      reads tempArray
    {
      tempArray.clean && tempArray.whole
    }

    /** Everything added since the last clear, as `try_iter` lists it. */
    ghost function Listing(): seq<Entry<T>>
      requires Valid() && Exact()
      reads this, Repr
    {
      Listed(Replay(counter.ops, log), |tempArray.flushed|)
    }

    constructor (ops: Keying<T, K>, codec: Codec<Entry<T>>, default: T)
      requires Faithful(codec)
      ensures Valid() && fresh(Repr)
      ensures counter.ops == ops && tempArray.codec == codec && log == [] && Exact()
    {
      var c := new HashCounter(ops, default);
      var t := new TempFdArray(codec, Entry(default, 0));
      assert c.Valid() && c.resident == EmptySlots();
      counter, tempArray, log := c, t, [];
      Repr := {this, c, t, t.buffer} + c.Repr;
    }

    method Clear(io: ClearIo) returns (r: Result<()>)
      requires Valid()
      modifies Repr
      ensures Valid() && log == []
      ensures r == if io.truncated && io.rewound then Ok(()) else Err(IoError)
      ensures tempArray.whole && (tempArray.clean <==> tempArray.Untouched()) && (r.Ok? ==> tempArray.clean)
    {
      counter.Clear();
      log := [];
      r := tempArray.Clear(io);
    }

    /** Pushes what the counter evicted, if anything. */
    method Spill(evict: Option<Entry<T>>, accepted: nat) returns (r: Result<()>)
      requires tempArray.Valid()
      modifies tempArray, tempArray.buffer
      ensures tempArray.Valid() && tempArray.clean == old(tempArray.clean)
      ensures tempArray.whole <==> old(tempArray.whole) && r.Ok?
      ensures r.Ok? ==> tempArray.pushed == old(tempArray.pushed) + Optional(evict)
      ensures Room(BUFFER_LENGTH, tempArray.codec.size) <= accepted ==> r.Ok?
    {
      r := Ok(());
      if evict.Some? {
        r := tempArray.Push(evict.value, accepted);
      }
    }

    /** An add always reaches the counter; only the spill of what it evicts can fail, and once it has,
        the collector stays inexact until it is cleared. */
    method Add(item: T, count: Isize, accepted: nat) returns (r: Result<()>)
      requires Valid()
      modifies Repr
      ensures Valid() && log == old(log) + [Entry(item, count)]
      ensures tempArray.clean == old(tempArray.clean)
      ensures tempArray.whole <==> old(tempArray.whole) && r.Ok?
      ensures Room(BUFFER_LENGTH, tempArray.codec.size) <= accepted ==> r.Ok?
    {
      hide Replay, Store;
      var evict := counter.Add(item, count);
      ReplayStored(counter.ops, log, Entry(item, count), Stored(counter.resident, evict));
      log := log + [Entry(item, count)];
      r := Spill(evict, accepted);
    }

    /** While the file is clean, listing succeeds exactly if no spill has failed and the reads
        succeed, and then lists everything added since the last clear. */
    method TryIter(io: ReadIo) returns (r: Result<seq<Entry<T>>>)
      requires Valid()
      ensures r.Err? ==> r.error == IoError
      ensures var size := Room(|tempArray.flushed|, tempArray.codec.size);
              && (r.Ok? <==> io.Succeeds() && size <= |tempArray.file|)
              && (r.Ok? ==>
                    r.value == Flatten(counter.resident) + (tempArray.buffer[..tempArray.bufferIndex]
                               + Spilled(tempArray.codec, tempArray.file[..size], |tempArray.flushed|)))
      ensures tempArray.clean ==> (r.Ok? <==> tempArray.whole && io.Succeeds())
      ensures tempArray.clean && r.Ok? ==> r.value == Listing()
    {
      var entries := counter.Iter();
      var spilled := tempArray.TryIter(io);
      if spilled.Err? {
        return Err(IoError);
      }
      var rest := spilled.value.Drain();
      ghost var evicted, n := Replay(counter.ops, log).evicted, |tempArray.flushed|;
      assert tempArray.clean ==> evicted[..n] == tempArray.flushed && evicted[n..] == tempArray.buffer[..tempArray.bufferIndex];
      return Ok(entries + rest);
    }
  }
}
