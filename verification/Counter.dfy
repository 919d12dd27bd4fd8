/** The in-place buckets and the counter over them, proved against `CounterRuns`. */
module Counter {
  import opened MachineInts
  import opened Outcomes
  import opened Tallies
  import opened CounterRuns

  class Bucket<T, K(==)> {
    const key: T -> K
    const entries: array<Entry<T>>
    var length: nat

    ghost predicate Valid()
      reads this, entries
    {
      && entries.Length == BUCKETS_ASSOCIATIVITY
      && length <= BUCKETS_ASSOCIATIVITY
    }

    /** The slots in use; those from `length` on are stale. */
    ghost function Live(): (es: seq<Entry<T>>)
      requires Valid()
      reads this, entries
    {
      entries[..length]
    }

    constructor (key: T -> K, default: T)
      ensures Valid() && fresh(entries)
      ensures this.key == key && Live() == []
    {
      this.key := key;
      entries := new Entry<T>[BUCKETS_ASSOCIATIVITY](_ => Entry(default, 0));
      length := 0;
    }

    method Clear()
      requires Valid()
      modifies this
      ensures Valid() && Live() == []
    {
      length := 0;
    }

    /** Adds `count` to every live entry equal to `item`; no more than one is. */
    method Bump(item: T, count: Isize) returns (done: bool)
      requires Valid() && Distinct(Live(), key)
      modifies entries
      ensures Valid()
      ensures var was := old(Live());
              var slot := Slot(was, key, key(item));
              && (done <==> slot < |was|)
              && Live() == if done then was[slot := Entry(was[slot].item, Wrap(was[slot].count + count))] else was
    {
      ghost var was := Live();
      ghost var slot := Slot(was, key, key(item));
      done := false;
      for i := 0 to length
        invariant done <==> slot < i
        invariant forall j :: 0 <= j < length ==>
                    entries[j] == if j == slot && j < i then Entry(was[j].item, Wrap(was[j].count + count)) else was[j]
      {
        if key(entries[i].item) == key(item) {
          entries[i] := Entry(entries[i].item, Wrap(entries[i].count + count));
          done := true;
        }
      }
    }

    /** The slot to evict from a full bucket. */
    method LeastCounted() returns (minIndex: nat)
      requires Valid() && 0 < length
      ensures minIndex == MinIndex(Live())
    {
      minIndex := 0;
      var minCount := entries[0].count;
      for index := 0 to length
        invariant minIndex < length && minCount == entries[minIndex].count
        invariant minIndex < index || minIndex == 0
        invariant forall j :: 0 <= j < index ==> minCount <= entries[j].count
        invariant forall j :: 0 <= j < minIndex ==> minCount < entries[j].count
      {
        var c := entries[index].count;
        if c < minCount {
          minIndex := index;
          minCount := c;
        }
      }
    }

    method Add(item: T, count: Isize) returns (evicted: Option<Entry<T>>)
      requires Valid() && Distinct(Live(), key)
      modifies this, entries
      ensures Valid()
      ensures Added(Live(), evicted) == CounterRuns.Add(old(Live()), key, item, count)
    {
      var done := Bump(item, count);
      if done {
        evicted := None;
      } else if length < BUCKETS_ASSOCIATIVITY {
        entries[length] := Entry(item, count);
        length := length + 1;
        evicted := None;
        assert entries[..length] == old(Live()) + [Entry(item, count)];
      } else {
        var m := LeastCounted();
        evicted := Some(entries[m]);
        entries[m] := Entry(item, count);
        assert entries[..length] == old(Live())[m := Entry(item, count)];
      }
    }
  }

  class BucketIterator<T, K(==)> {
    const bucket: Bucket<T, K>
    var index: nat

    ghost predicate Valid()
      reads this, bucket, bucket.entries
    {
      bucket.Valid() && index <= bucket.length
    }

    ghost function Remaining(): seq<Entry<T>>
      requires Valid()
      reads this, bucket, bucket.entries
    {
      bucket.Live()[index..]
    }

    constructor (bucket: Bucket<T, K>)
      requires bucket.Valid()
      ensures Valid() && this.bucket == bucket && Remaining() == bucket.Live()
    {
      this.bucket := bucket;
      index := 0;
    }

    method Next() returns (e: Option<Entry<T>>)
      requires Valid()
      modifies this
      ensures Valid()
      ensures old(Remaining()) == [] ==> e.None? && Remaining() == []
      ensures old(Remaining()) != [] ==> e == Some(old(Remaining())[0]) && Remaining() == old(Remaining())[1..]
    {
      if index < bucket.length {
        index := index + 1;
        e := Some(bucket.entries[index - 1]);
      } else {
        e := None;
      }
    }

    method Drain() returns (es: seq<Entry<T>>)
      requires Valid()
      modifies this
      ensures Valid() && Remaining() == []
      ensures es == old(Remaining())
    {
      es := [];
      var e := Next();
      while e.Some?
        invariant Valid()
        invariant old(Remaining()) == es + Optional(e) + Remaining()
        invariant e.None? ==> Remaining() == []
        decreases |Remaining()|, e.Some?
      {
        es := es + [e.value];
        e := Next();
      }
    }
  }

  class HashCounter<T, K(==)> {
    const ops: Keying<T, K>
    const buckets: seq<Bucket<T, K>>
    ghost const Repr: set<object>

    /** The live slots, bucket by bucket. */
    ghost var resident: seq<seq<Entry<T>>>

    ghost predicate Valid()
      reads this, Repr
    {
      && this !in Repr
      && |buckets| == |resident| == BUCKETS
      && (forall b :: 0 <= b < BUCKETS ==> buckets[b] in Repr && buckets[b].entries in Repr)
      && (forall b :: 0 <= b < BUCKETS ==>
            buckets[b].key == ops.key && buckets[b].Valid() && buckets[b].Live() == resident[b])
      && (forall b, c :: 0 <= b < c < BUCKETS ==>
            buckets[b] != buckets[c] && buckets[b].entries != buckets[c].entries)
    }

    constructor (ops: Keying<T, K>, default: T)
      ensures Valid() && this.ops == ops && fresh(Repr)
      ensures resident == EmptySlots()
    {
      var bs: seq<Bucket<T, K>> := [];
      ghost var repr: set<object> := {};
      for n := 0 to BUCKETS
        invariant |bs| == n && fresh(repr)
        invariant forall b :: 0 <= b < n ==>
                    bs[b] in repr && bs[b].entries in repr && bs[b].key == ops.key && bs[b].Valid() && bs[b].Live() == []
        invariant forall b, c :: 0 <= b < c < n ==> bs[b] != bs[c] && bs[b].entries != bs[c].entries
        invariant forall o :: o in repr ==> o is Bucket<T, K> || o is array<Entry<T>>
      {
        var bucket := new Bucket(ops.key, default);
        bs := bs + [bucket];
        repr := repr + {bucket, bucket.entries};
      }
      this.ops := ops;
      buckets := bs;
      Repr := repr;
      resident := EmptySlots();
    }

    method Clear()
      requires Valid()
      modifies this, Repr
      ensures Valid() && resident == EmptySlots()
    {
      for b := 0 to |buckets|
        invariant forall c :: 0 <= c < |buckets| ==> buckets[c].Valid()
        invariant forall c :: 0 <= c < b ==> buckets[c].Live() == []
      {
        buckets[b].Clear();
      }
      resident := EmptySlots();
    }

    method Add(item: T, count: Isize) returns (evicted: Option<Entry<T>>)
      requires Valid() && Placed(resident, ops)
      modifies this, Repr
      ensures Valid()
      ensures Stored(resident, evicted) == Store(ops, old(resident), Entry(item, count))
    {
      var hashValue := ops.hash(ops.key(item));
      var b := hashValue % BUCKETS;
      ghost var stored := Store(ops, resident, Entry(item, count));
      assert Distinct(buckets[b].Live(), ops.key);
      evicted := buckets[b].Add(item, count);
      resident := stored.slots;
      forall c | 0 <= c < BUCKETS
        ensures buckets[c].Valid() && buckets[c].Live() == resident[c]
      {
        if c != b {
          assert buckets[c] != buckets[b] && buckets[c].entries != buckets[b].entries;
        }
      }
    }

    method DrainBucket(b: nat) returns (es: seq<Entry<T>>)
      requires Valid() && b < BUCKETS
      ensures es == resident[b]
    {
      var it := new BucketIterator(buckets[b]);
      es := it.Drain();
    }

    /** Chains the buckets' iterators and drains the chain. */
    method Iter() returns (es: seq<Entry<T>>)
      requires Valid()
      ensures es == Flatten(resident)
    {
      es := [];
      for b := 0 to |buckets|
        invariant es == Flatten(resident[..b])
      {
        var drained := DrainBucket(b);
        es := es + drained;
        FlattenNext(resident, b);
      }
      assert resident[..|buckets|] == resident;
    }
  }
}
