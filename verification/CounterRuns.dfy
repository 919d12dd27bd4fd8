/** What the set-associative counter computes: what one `add` does to a bucket, what a whole run of
    adds leaves resident and what it evicts. */
module CounterRuns {
  import opened MachineInts
  import opened Outcomes
  import opened Tallies

  const BUCKETS: Positive
  const BUCKETS_ASSOCIATIVITY: Positive

  /** How items are compared and hashed: two items are equal exactly when they have the same key,
      and the hash looks at the key only. */
  datatype Keying<!T, !K> = Keying(key: T -> K, hash: K -> nat) {
    function Home(k: K): (b: nat)
      ensures b < BUCKETS
    {
      hash(k) % BUCKETS
    }
  }

  // ---- One bucket ----

  datatype Added<T> = Added(live: seq<Entry<T>>, evicted: Option<Entry<T>>)

  ghost function Optional<T>(e: Option<Entry<T>>): seq<Entry<T>> {
    if e.Some? then [e.value] else []
  }

  /** The slot holding class `k`, or `|es|`. */
  ghost function Slot<T, K>(es: seq<Entry<T>>, key: T -> K, k: K): (i: nat)
    ensures i <= |es|
    ensures i < |es| ==> key(es[i].item) == k
    ensures i == |es| ==> forall j :: 0 <= j < |es| ==> key(es[j].item) != k
  {
    if j: nat :| j < |es| && key(es[j].item) == k then j else |es|
  }

  ghost predicate FirstLeast<T>(es: seq<Entry<T>>, m: nat) {
    && m < |es|
    && (forall j :: 0 <= j < |es| ==> es[m].count <= es[j].count)
    && (forall j :: 0 <= j < m ==> es[m].count < es[j].count)
  }

  lemma {:induction false} SomeFirstLeast<T>(es: seq<Entry<T>>) returns (m: nat)
    requires es != []
    ensures FirstLeast(es, m)
  {
    var n := |es| - 1;
    if n == 0 {
      m := 0;
    } else {
      m := SomeFirstLeast(es[..n]);
      if es[n].count < es[m].count {
        m := n;
      }
    }
  }

  /** The slot a full bucket evicts: the first with the least count. */
  ghost function MinIndex<T>(es: seq<Entry<T>>): (m: nat)
    requires es != []
    ensures FirstLeast(es, m)
  {
    assert exists m: nat :: FirstLeast(es, m) by {
      var m := SomeFirstLeast(es);
    }
    var m: nat :| FirstLeast(es, m);
    m
  }

  /** What `Bucket::add` makes of a bucket with live entries `es`. */
  ghost function Add<T, K>(es: seq<Entry<T>>, key: T -> K, item: T, count: Isize): (a: Added<T>)
    requires |es| <= BUCKETS_ASSOCIATIVITY
    ensures |es| <= |a.live| <= BUCKETS_ASSOCIATIVITY
  {
    var i := Slot(es, key, key(item));
    if i < |es| then Added(es[i := Entry(es[i].item, Wrap(es[i].count + count))], None)
    else if |es| < BUCKETS_ASSOCIATIVITY then Added(es + [Entry(item, count)], None)
    else
      var m := MinIndex(es);
      Added(es[m := Entry(item, count)], Some(es[m]))
  }

  /** An add keeps the classes of a bucket distinct, and brings in no class but the item's. */
  lemma {:induction false} AddKeepsDistinct<T, K>(es: seq<Entry<T>>, key: T -> K, item: T, count: Isize, a: Added<T>)
    requires |es| <= BUCKETS_ASSOCIATIVITY && Distinct(es, key)
    requires a == Add(es, key, item, count)
    ensures Distinct(a.live, key)
    ensures forall j :: 0 <= j < |a.live| ==>
              key(a.live[j].item) == key(item) || (j < |es| && key(a.live[j].item) == key(es[j].item))
  {
  }

  /** How often 2^64 is lost or gained because the matched slot overflows: never, if the sum fits. */
  ghost function Carry<T, K>(es: seq<Entry<T>>, key: T -> K, item: T, count: Isize, k: K): (c: int)
    ensures -1 <= c <= 1
    ensures (forall e :: e in es && key(e.item) == key(item) ==> ISIZE_MIN <= e.count + count <= ISIZE_MAX) ==> c == 0
  {
    var i := Slot(es, key, key(item));
    if i < |es| && key(item) == k then
      assert es[i] in es;
      Laps(es[i].count + count)
    else 0
  }

  lemma {:induction false} MatchConserves<T, K>(es: seq<Entry<T>>, key: T -> K, item: T, count: Isize, i: nat, k: K)
    requires i == Slot(es, key, key(item)) < |es|
    ensures Total(es[i := Entry(es[i].item, Wrap(es[i].count + count))], key, k)
            == Total(es, key, k) + Share(Entry(item, count), key, k) + Spans(Carry(es, key, item, count, k))
  {
    TotalUpdate(es, i, Entry(es[i].item, Wrap(es[i].count + count)), key, k);
  }

  lemma {:induction false} SwapConserves<T, K>(es: seq<Entry<T>>, key: T -> K, e: Entry<T>, m: nat, k: K)
    requires m < |es|
    ensures Total(es[m := e], key, k) + Total([es[m]], key, k) == Total(es, key, k) + Share(e, key, k)
  {
    TotalUpdate(es, m, e, key, k);
    assert [es[m]] == [] + [es[m]];
    TotalAppend([], es[m], key, k);
  }

  /** Resident count plus evicted count is conserved by an add, for every class, up to the carry. */
  lemma {:induction false} AddConserves<T, K>(es: seq<Entry<T>>, key: T -> K, item: T, count: Isize, a: Added<T>, k: K)
    requires |es| <= BUCKETS_ASSOCIATIVITY && a == Add(es, key, item, count)
    ensures Total(a.live, key, k) + Total(Optional(a.evicted), key, k)
            == Total(es, key, k) + Share(Entry(item, count), key, k) + Spans(Carry(es, key, item, count, k))
  {
    var i := Slot(es, key, key(item));
    if i < |es| {
      MatchConserves(es, key, item, count, i, k);
    } else if |es| < BUCKETS_ASSOCIATIVITY {
      TotalAppend(es, Entry(item, count), key, k);
    } else {
      SwapConserves(es, key, Entry(item, count), MinIndex(es), k);
    }
  }

  /** The victim has the least count of the full bucket, is not in the class being added, and every
      other resident keeps its slot; the newcomer starts with its own count. In particular a stack
      seen twice is never evicted while a stack seen once is resident. */
  lemma {:induction false} EvictsLeastCounted<T, K>(es: seq<Entry<T>>, key: T -> K, item: T, count: Isize)
    requires |es| <= BUCKETS_ASSOCIATIVITY
    ensures var a := Add(es, key, item, count);
            && (a.evicted.Some? <==>
                |es| == BUCKETS_ASSOCIATIVITY && forall e :: e in es ==> key(e.item) != key(item))
            && (a.evicted.Some? ==>
                && a.evicted.value in es
                && (forall e :: e in es ==> a.evicted.value.count <= e.count)
                && exists m :: 0 <= m < |es| && es[m] == a.evicted.value && a.live == es[m := Entry(item, count)])
    ensures var a := Add(es, key, item, count);
            a.evicted.Some? && 2 <= a.evicted.value.count ==> forall e :: e in es ==> e.count != 1
  {
  }

  /** The three cases of an add, told by the entries alone: an entry of the item's class keeps its item
      and its slot and grows; a new class goes behind the others while there is room. */
  lemma {:induction false} AddCases<T, K>(es: seq<Entry<T>>, key: T -> K, item: T, count: Isize)
    requires |es| <= BUCKETS_ASSOCIATIVITY && Distinct(es, key)
    ensures forall i :: 0 <= i < |es| && key(es[i].item) == key(item) ==>
              Add(es, key, item, count) == Added(es[i := Entry(es[i].item, Wrap(es[i].count + count))], None)
    ensures (forall e :: e in es ==> key(e.item) != key(item)) && |es| < BUCKETS_ASSOCIATIVITY ==>
              Add(es, key, item, count) == Added(es + [Entry(item, count)], None)
  {
    var i := Slot(es, key, key(item));
    if i < |es| {
      assert es[i] in es;
    }
  }

  // ---- All buckets, over a whole run of adds ----

  datatype Replayed<T> = Replayed(slots: seq<seq<Entry<T>>>, evicted: seq<Entry<T>>)

  /** Every bucket is within its associativity, holds no class twice, and holds only classes at home there. */
  ghost predicate Placed<T, K>(slots: seq<seq<Entry<T>>>, ops: Keying<T, K>) {
    && |slots| == BUCKETS
    && (forall b :: 0 <= b < BUCKETS ==> |slots[b]| <= BUCKETS_ASSOCIATIVITY && Distinct(slots[b], ops.key))
    && (forall b, i :: 0 <= b < BUCKETS && 0 <= i < |slots[b]| ==> ops.Home(ops.key(slots[b][i].item)) == b)
  }

  ghost function EmptySlots<T>(): (slots: seq<seq<Entry<T>>>)
    ensures |slots| == BUCKETS && forall b :: 0 <= b < BUCKETS ==> slots[b] == []
  {
    seq(BUCKETS, _ => [])
  }

  /** The state of the counter, and everything it has evicted, after the adds in `log`. */
  ghost function Replay<T, K>(ops: Keying<T, K>, log: seq<Entry<T>>): (r: Replayed<T>)
    ensures Placed(r.slots, ops)
  {
    if log == [] then Replayed(EmptySlots(), [])
    else
      var r := Replay(ops, log[..|log| - 1]);
      Extend(ops, r, log[|log| - 1])
  }

  datatype Stored<T> = Stored(slots: seq<seq<Entry<T>>>, evicted: Option<Entry<T>>)

  /** What `HashCounter::add` makes of the buckets. */
  ghost function Store<T, K>(ops: Keying<T, K>, slots: seq<seq<Entry<T>>>, e: Entry<T>): (s: Stored<T>)
    requires Placed(slots, ops)
    ensures Placed(s.slots, ops)
  {
    var b := ops.Home(ops.key(e.item));
    var a := Add(slots[b], ops.key, e.item, e.count);
    AddKeepsDistinct(slots[b], ops.key, e.item, e.count, a);
    Stored(slots[b := a.live], a.evicted)
  }

  /** One more add to a run. */
  ghost function Extend<T, K>(ops: Keying<T, K>, r: Replayed<T>, e: Entry<T>): (r': Replayed<T>)
    requires Placed(r.slots, ops)
    ensures Placed(r'.slots, ops)
  {
    var s := Store(ops, r.slots, e);
    Replayed(s.slots, r.evicted + Optional(s.evicted))
  }

  /** One stored add extends the run by what it evicted. */
  lemma {:induction false} ReplayStored<T, K>(ops: Keying<T, K>, log: seq<Entry<T>>, e: Entry<T>, s: Stored<T>)
    requires s == Store(ops, Replay(ops, log).slots, e)
    ensures Replay(ops, log + [e]) == Replayed(s.slots, Replay(ops, log).evicted + Optional(s.evicted))
  {
    assert (log + [e])[..|log|] == log;
  }

  ghost function Flatten<T>(slots: seq<seq<Entry<T>>>): seq<Entry<T>> {
    if slots == [] then [] else Flatten(slots[..|slots| - 1]) + slots[|slots| - 1]
  }

  lemma {:induction false} FlattenNext<T>(slots: seq<seq<Entry<T>>>, b: nat)
    requires b < |slots|
    ensures Flatten(slots[..b + 1]) == Flatten(slots[..b]) + slots[b]
  {
    assert slots[..b + 1][..b] == slots[..b];
  }

  lemma {:induction false} AbsentElsewhere<T, K>(slots: seq<seq<Entry<T>>>, ops: Keying<T, K>, b: nat, k: K)
    requires Placed(slots, ops) && b < BUCKETS && b != ops.Home(k)
    ensures Total(slots[b], ops.key, k) == 0
  {
    TotalOfAbsent(slots[b], ops.key, k);
  }

  lemma {:induction false} TotalOfBuckets<T, K>(slots: seq<seq<Entry<T>>>, key: T -> K, k: K, n: nat)
    requires n < |slots|
    ensures Total(Flatten(slots[..n + 1]), key, k) == Total(Flatten(slots[..n]), key, k) + Total(slots[n], key, k)
  {
    FlattenNext(slots, n);
    TotalConcat(Flatten(slots[..n]), slots[n], key, k);
  }

  /** A class is resident in its home bucket only. */
  lemma {:induction false} TotalAtHome<T, K>(slots: seq<seq<Entry<T>>>, ops: Keying<T, K>, k: K, n: nat)
    requires Placed(slots, ops) && n <= BUCKETS
    ensures Total(Flatten(slots[..n]), ops.key, k)
            == if ops.Home(k) < n then Total(slots[ops.Home(k)], ops.key, k) else 0
  {
    hide Keying.Home;
    if n > 0 {
      TotalAtHome(slots, ops, k, n - 1);
      TotalOfBuckets(slots, ops.key, k, n - 1);
      if ops.Home(k) != n - 1 {
        AbsentElsewhere(slots, ops, n - 1, k);
      }
    }
  }

  /** The count the counter still answers for: what is resident plus what it has evicted. */
  ghost function Kept<T, K>(ops: Keying<T, K>, r: Replayed<T>, k: K): int {
    Total(Flatten(r.slots), ops.key, k) + Total(r.evicted, ops.key, k)
  }

  lemma {:induction false} KeptAtHome<T, K>(ops: Keying<T, K>, r: Replayed<T>, k: K)
    requires Placed(r.slots, ops)
    ensures Kept(ops, r, k) == Total(r.slots[ops.Home(k)], ops.key, k) + Total(r.evicted, ops.key, k)
  {
    TotalAtHome(r.slots, ops, k, BUCKETS);
    assert r.slots[..BUCKETS] == r.slots;
  }

  /** One add grows what is kept by its own count, up to the carry of its bucket. */
  lemma {:induction false} KeptStep<T, K>(ops: Keying<T, K>, r: Replayed<T>, e: Entry<T>, k: K)
    requires Placed(r.slots, ops)
    ensures Kept(ops, Extend(ops, r, e), k)
            == Kept(ops, r, k) + Share(e, ops.key, k)
               + Spans(Carry(r.slots[ops.Home(ops.key(e.item))], ops.key, e.item, e.count, k))
  {
    var b := ops.Home(ops.key(e.item));
    var r' := Extend(ops, r, e);
    var a := Add(r.slots[b], ops.key, e.item, e.count);
    assert e == Entry(e.item, e.count);
    KeptAtHome(ops, r, k);
    KeptAtHome(ops, r', k);
    AddConserves(r.slots[b], ops.key, e.item, e.count, a, k);
    TotalConcat(r.evicted, Optional(a.evicted), ops.key, k);
    if ops.Home(k) != b {
      AbsentElsewhere(r.slots, ops, b, k);
      AbsentElsewhere(r'.slots, ops, b, k);
    }
  }

  /** The carries of a whole run. */
  ghost function Carries<T, K>(ops: Keying<T, K>, log: seq<Entry<T>>, k: K): int {
    if log == [] then 0
    else
      var front, e := log[..|log| - 1], log[|log| - 1];
      Carries(ops, front, k) + Carry(Replay(ops, front).slots[ops.Home(ops.key(e.item))], ops.key, e.item, e.count, k)
  }

  /** Over any run, whatever is added, evicted or overflowed, what is kept equals what was added, up
      to a multiple of 2^64. */
  lemma {:induction false} ReplayConserves<T, K>(ops: Keying<T, K>, log: seq<Entry<T>>, k: K)
    ensures Kept(ops, Replay(ops, log), k) == Total(log, ops.key, k) + Spans(Carries(ops, log, k))
  {
    if log == [] {
      KeptAtHome(ops, Replay(ops, log), k);
    } else {
      var front, e := log[..|log| - 1], log[|log| - 1];
      ReplayConserves(ops, front, k);
      KeptStep(ops, Replay(ops, front), e, k);
    }
  }

  /** No count of class `k` is negative, resident or evicted. */
  ghost predicate NonNegativeAt<T, K>(ops: Keying<T, K>, r: Replayed<T>, k: K)
    requires Placed(r.slots, ops)
  {
    && (forall e :: e in r.slots[ops.Home(k)] && ops.key(e.item) == k ==> 0 <= e.count)
    && (forall e :: e in r.evicted && ops.key(e.item) == k ==> 0 <= e.count)
  }

  /** Without negative counts no resident exceeds what is kept for its class. */
  lemma {:induction false} ResidentBounded<T, K>(ops: Keying<T, K>, r: Replayed<T>, k: K)
    requires Placed(r.slots, ops) && NonNegativeAt(ops, r, k)
    ensures forall e :: e in r.slots[ops.Home(k)] && ops.key(e.item) == k ==> e.count <= Kept(ops, r, k)
  {
    KeptAtHome(ops, r, k);
    assert forall i :: 0 <= i < |r.slots[ops.Home(k)]| ==> r.slots[ops.Home(k)][i] in r.slots[ops.Home(k)];
    assert forall i :: 0 <= i < |r.evicted| ==> r.evicted[i] in r.evicted;
    TotalBounds(r.slots[ops.Home(k)], ops.key, k);
    TotalBounds(r.evicted, ops.key, k);
  }

  /** An add that fits is kept exactly. */
  lemma {:induction false} ExtendExact<T, K>(ops: Keying<T, K>, r: Replayed<T>, e: Entry<T>, k: K)
    requires Placed(r.slots, ops) && NonNegativeAt(ops, r, k)
    requires 0 <= e.count && Kept(ops, r, k) + Share(e, ops.key, k) <= ISIZE_MAX
    ensures Kept(ops, Extend(ops, r, e), k) == Kept(ops, r, k) + Share(e, ops.key, k)
    ensures NonNegativeAt(ops, Extend(ops, r, e), k)
  {
    hide Kept, Extend;
    ResidentBounded(ops, r, k);
    KeptStep(ops, r, e, k);
    ExtendKeepsNonNegative(ops, r, e, k);
  }

  lemma {:induction false} NothingKept<T, K>(ops: Keying<T, K>, k: K)
    ensures Kept(ops, Replay(ops, []), k) == 0 && NonNegativeAt(ops, Replay(ops, []), k)
  {
    KeptAtHome(ops, Replay(ops, []), k);
  }

  /** With counts that are not negative and a true total that fits an isize, nothing ever overflows:
      what is kept for the class is exactly what was added, and none of it is negative. */
  lemma {:induction false} ReplayExact<T, K>(ops: Keying<T, K>, log: seq<Entry<T>>, k: K)
    requires NonNegative(log) && Total(log, ops.key, k) <= ISIZE_MAX
    ensures Kept(ops, Replay(ops, log), k) == Total(log, ops.key, k)
    ensures NonNegativeAt(ops, Replay(ops, log), k)
  {
    hide Kept, NonNegativeAt, Extend, Placed;
    if log == [] {
      NothingKept(ops, k);
    } else {
      var front, e := log[..|log| - 1], log[|log| - 1];
      ReplayExact(ops, front, k);
      ExtendExact(ops, Replay(ops, front), e, k);
    }
  }

  lemma {:induction false} ExtendKeepsNonNegative<T, K>(ops: Keying<T, K>, r: Replayed<T>, e: Entry<T>, k: K)
    requires Placed(r.slots, ops) && NonNegativeAt(ops, r, k) && 0 <= e.count
    requires ops.key(e.item) == k ==>
               forall f :: f in r.slots[ops.Home(k)] && ops.key(f.item) == k ==> f.count + e.count <= ISIZE_MAX
    ensures NonNegativeAt(ops, Extend(ops, r, e), k)
  {
  }

  // ---- Who is where, and who must leave ----

  /** Every resident is in the bucket that its hash says. */
  lemma {:induction false} ResidentsFollowHash<T, K(!new)>(ops: Keying<T, K>, log: seq<Entry<T>>, b: nat, e: Entry<T>)
    requires b < BUCKETS && e in Replay(ops, log).slots[b]
    ensures ops.hash(ops.key(e.item)) % BUCKETS == b
  {
    var slots := Replay(ops, log).slots;
    var i :| 0 <= i < |slots[b]| && slots[b][i] == e;
    assert ops.Home(ops.key(slots[b][i].item)) == b;
  }

  ghost predicate Occurs<T, K(!new)>(es: seq<Entry<T>>, key: T -> K, k: K) {
    exists i :: 0 <= i < |es| && key(es[i].item) == k
  }

  ghost predicate OccursInLog<T, K(!new)>(ops: Keying<T, K>, log: seq<Entry<T>>, k: K, b: nat) {
    Occurs(log, ops.key, k) && ops.hash(k) % BUCKETS == b
  }

  /** These classes were added and share bucket `b`. */
  ghost predicate ShareBucket<T, K(!new)>(ops: Keying<T, K>, log: seq<Entry<T>>, b: nat, ks: set<K>) {
    forall k :: k in ks ==> OccursInLog(ops, log, k, b)
  }

  /** No more classes of the run hash to a bucket than there is room for. */
  ghost predicate Uncrowded<T, K(!new)>(ops: Keying<T, K>, log: seq<Entry<T>>) {
    forall b: nat, ks: set<K> :: ShareBucket(ops, log, b, ks) ==> |ks| <= BUCKETS_ASSOCIATIVITY
  }

  ghost function Keys<T, K(!new)>(es: seq<Entry<T>>, key: T -> K): (ks: set<K>)
    ensures forall k :: k in ks <==> Occurs(es, key, k)
  {
    if es == [] then {}
    else
      OccursAppend(es[..|es| - 1], es[|es| - 1], key);
      assert es[..|es| - 1] + [es[|es| - 1]] == es;
      Keys(es[..|es| - 1], key) + {key(es[|es| - 1].item)}
  }

  lemma {:induction false} OccursAppend<T, K(!new)>(es: seq<Entry<T>>, e: Entry<T>, key: T -> K)
    ensures forall k :: Occurs(es + [e], key, k) <==> Occurs(es, key, k) || key(e.item) == k
  {
    forall k ensures Occurs(es + [e], key, k) <==> Occurs(es, key, k) || key(e.item) == k {
      if Occurs(es, key, k) {
        var i :| 0 <= i < |es| && key(es[i].item) == k;
        assert (es + [e])[i] == es[i];
      }
      if key(e.item) == k {
        assert (es + [e])[|es|] == e;
      }
    }
  }

  lemma {:induction false} KeysOfDistinct<T, K(!new)>(es: seq<Entry<T>>, key: T -> K)
    requires Distinct(es, key)
    ensures |Keys(es, key)| == |es|
  {
    if es != [] {
      var front, last := es[..|es| - 1], es[|es| - 1];
      KeysOfDistinct(front, key);
      assert !Occurs(front, key, key(last.item));
    }
  }

  /** An add leaves the classes of its bucket, and adds its own, exactly as long as it evicts nothing. */
  lemma {:induction false} OccursAfterAdd<T, K(!new)>(es: seq<Entry<T>>, key: T -> K, item: T, count: Isize, k: K)
    requires |es| <= BUCKETS_ASSOCIATIVITY
    ensures var a := Add(es, key, item, count);
            && (a.evicted.None? ==> (Occurs(a.live, key, k) <==> Occurs(es, key, k) || k == key(item)))
            && (Occurs(a.live, key, k) ==> Occurs(es, key, k) || k == key(item))
  {
    var a := Add(es, key, item, count);
    if Occurs(a.live, key, k) {
      var j :| 0 <= j < |a.live| && key(a.live[j].item) == k;
      assert j < |es| ==> key(es[j].item) == k || k == key(item);
    }
    if a.evicted.None? && Occurs(es, key, k) {
      var j :| 0 <= j < |es| && key(es[j].item) == k;
      assert key(a.live[j].item) == k;
    }
    if a.evicted.None? && k == key(item) {
      var i := Slot(es, key, k);
      assert key(a.live[i].item) == k;
    }
  }

  /** What is resident was added; and while nothing was evicted, all that was added is resident. */
  lemma {:induction false} ResidentsOccur<T, K(!new)>(ops: Keying<T, K>, log: seq<Entry<T>>, k: K, b: nat)
    requires b < BUCKETS
    ensures Occurs(Replay(ops, log).slots[b], ops.key, k) ==> OccursInLog(ops, log, k, b)
    ensures Replay(ops, log).evicted == [] && OccursInLog(ops, log, k, b) ==> Occurs(Replay(ops, log).slots[b], ops.key, k)
  {
    if log != [] {
      var front, e := log[..|log| - 1], log[|log| - 1];
      ResidentsOccur(ops, front, k, b);
      var r := Replay(ops, front);
      OccursAppend(front, e, ops.key);
      assert front + [e] == log;
      OccursAfterAdd(r.slots[ops.Home(ops.key(e.item))], ops.key, e.item, e.count, k);
    }
  }

  lemma {:induction false} Crowds<T, K(!new)>(ops: Keying<T, K>, log: seq<Entry<T>>, e: Entry<T>)
    requires Uncrowded(ops, log + [e])
    ensures Uncrowded(ops, log)
    ensures Extend(ops, Replay(ops, log), e).evicted == Replay(ops, log).evicted
  {
    OccursAppend(log, e, ops.key);
    forall b: nat, ks: set<K> | ShareBucket(ops, log, b, ks) ensures |ks| <= BUCKETS_ASSOCIATIVITY {
      assert ShareBucket(ops, log + [e], b, ks);
    }
    var k := ops.key(e.item);
    var b := ops.Home(k);
    var es := Replay(ops, log).slots[b];
    var a := Add(es, ops.key, e.item, e.count);
    if a.evicted.Some? {
      EvictsLeastCounted(es, ops.key, e.item, e.count);
      KeysOfDistinct(es, ops.key);
      var ks := Keys(es, ops.key) + {k};
      assert k !in Keys(es, ops.key);
      forall j | j in ks ensures OccursInLog(ops, log + [e], j, b) {
        ResidentsOccur(ops, log, j, b);
      }
      assert ShareBucket(ops, log + [e], b, ks);
      assert false;
    }
  }

  /** Nothing is ever evicted exactly if no bucket is ever asked to hold more classes than it has slots. */
  lemma {:induction false} EvictsIffCrowded<T, K(!new)>(ops: Keying<T, K>, log: seq<Entry<T>>)
    ensures Replay(ops, log).evicted == [] <==> Uncrowded(ops, log)
  {
    if Uncrowded(ops, log) {
      EvictsNothing(ops, log);
    }
    if Replay(ops, log).evicted == [] {
      forall b: nat, ks: set<K> | ShareBucket(ops, log, b, ks) ensures |ks| <= BUCKETS_ASSOCIATIVITY {
        FitsInBucket(ops, log, b, ks);
      }
    }
  }

  lemma {:induction false} EvictsNothing<T, K(!new)>(ops: Keying<T, K>, log: seq<Entry<T>>)
    requires Uncrowded(ops, log)
    ensures Replay(ops, log).evicted == []
  {
    if log != [] {
      var front, e := log[..|log| - 1], log[|log| - 1];
      assert front + [e] == log;
      Crowds(ops, front, e);
      EvictsNothing(ops, front);
    }
  }

  lemma {:induction false} FitsInBucket<T, K(!new)>(ops: Keying<T, K>, log: seq<Entry<T>>, b: nat, ks: set<K>)
    requires Replay(ops, log).evicted == [] && ShareBucket(ops, log, b, ks)
    ensures |ks| <= BUCKETS_ASSOCIATIVITY
  {
    if k :| k in ks {
      assert OccursInLog(ops, log, k, b);
      var es := Replay(ops, log).slots[b];
      KeysOfDistinct(es, ops.key);
      forall j | j in ks ensures j in Keys(es, ops.key) {
        ResidentsOccur(ops, log, j, b);
      }
      SubsetSize(ks, Keys(es, ops.key));
    }
  }

  lemma {:induction false} SubsetSize<K>(a: set<K>, b: set<K>)
    requires a <= b
    ensures |a| <= |b|
  {
    if k :| k in a {
      SubsetSize(a - {k}, b - {k});
    }
  }
}
