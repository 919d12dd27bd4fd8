/** The hash map that a report accumulates into: one row per class, keeping the item inserted first. */
module ReportMaps {
  import opened MachineInts
  import opened Tallies
  import opened CounterRuns

  /** One more counted item: its class's row grows, or a row is inserted. */
  ghost function Counted<T, K>(rows: seq<Entry<T>>, key: T -> K, e: Entry<T>): seq<Entry<T>> {
    var i := Slot(rows, key, key(e.item));
    if i < |rows| then rows[i := Entry(rows[i].item, Wrap(rows[i].count + e.count))] else rows + [e]
  }

  ghost function Aggregate<T, K>(es: seq<Entry<T>>, key: T -> K): seq<Entry<T>> {
    if es == [] then [] else Counted(Aggregate(es[..|es| - 1], key), key, es[|es| - 1])
  }

  ghost predicate Seen<T, K>(rows: seq<Entry<T>>, key: T -> K, k: K) {
    Slot(rows, key, k) < |rows|
  }

  lemma {:induction false} CountedKeepsDistinct<T, K>(rows: seq<Entry<T>>, key: T -> K, e: Entry<T>, rows': seq<Entry<T>>)
    requires Distinct(rows, key) && rows' == Counted(rows, key, e)
    ensures Distinct(rows', key)
  {
  }

  lemma {:induction false} CountedSeen<T, K>(rows: seq<Entry<T>>, key: T -> K, e: Entry<T>, rows': seq<Entry<T>>, k: K)
    requires rows' == Counted(rows, key, e)
    ensures Seen(rows', key, k) <==> Seen(rows, key, k) || k == key(e.item)
  {
    var j := Slot(rows, key, k);
    if j < |rows| {
      assert key(rows'[j].item) == k;
    }
    if k == key(e.item) && j == |rows| {
      assert rows'[j] == e;
    }
    var j' := Slot(rows', key, k);
    if j' < |rows| {
      assert key(rows[j'].item) == k;
    }
  }

  lemma {:induction false} AggregateDistinct<T, K>(es: seq<Entry<T>>, key: T -> K)
    ensures Distinct(Aggregate(es, key), key)
  {
    if es != [] {
      var front, last := es[..|es| - 1], es[|es| - 1];
      AggregateDistinct(front, key);
      CountedKeepsDistinct(Aggregate(front, key), key, last, Aggregate(es, key));
    }
  }

  /** A class has a row exactly if it occurs. */
  lemma {:induction false} AggregateSeen<T, K>(es: seq<Entry<T>>, key: T -> K, k: K)
    ensures Seen(Aggregate(es, key), key, k) <==> Seen(es, key, k)
  {
    if es != [] {
      var front, last := es[..|es| - 1], es[|es| - 1];
      AggregateSeen(front, key, k);
      CountedSeen(Aggregate(front, key), key, last, Aggregate(es, key), k);
      var j, i := Slot(es, key, k), Slot(front, key, k);
      assert i < |front| ==> key(es[i].item) == k;
      assert j < |front| ==> key(front[j].item) == k;
    }
  }

  /** The item is the first of its class. */
  ghost predicate FirstOfClass<T, K>(es: seq<Entry<T>>, key: T -> K, item: T) {
    exists p :: 0 <= p < |es| && es[p].item == item && forall q :: 0 <= q < p ==> key(es[q].item) != key(item)
  }

  /** A row shows the item of its class that was counted first. */
  lemma {:induction false} RowsKeepFirst<T, K>(es: seq<Entry<T>>, key: T -> K, i: nat)
    requires i < |Aggregate(es, key)|
    ensures FirstOfClass(es, key, Aggregate(es, key)[i].item)
  {
    var front, last := es[..|es| - 1], es[|es| - 1];
    var item := Aggregate(es, key)[i].item;
    if i < |Aggregate(front, key)| {
      RowsKeepFirst(front, key, i);
      var p :| 0 <= p < |front| && front[p].item == item && forall q :: 0 <= q < p ==> key(front[q].item) != key(item);
      assert es[p].item == item && forall q :: 0 <= q < p ==> es[q] == front[q];
    } else {
      AggregateSeen(front, key, key(item));
      assert es[|es| - 1].item == item;
      assert forall q :: 0 <= q < |front| ==> es[q] == front[q];
    }
  }

  /** The row of a class holds the class's true total, wrapped. */
  lemma {:induction false} AggregateTotals<T, K>(es: seq<Entry<T>>, key: T -> K, k: K)
    ensures Total(Aggregate(es, key), key, k) == Wrap(Total(es, key, k))
  {
    if es != [] {
      var front, last := es[..|es| - 1], es[|es| - 1];
      AggregateTotals(front, key, k);
      AggregateDistinct(front, key);
      AggregateSeen(front, key, k);
      if !Seen(front, key, k) {
        TotalOfAbsent(front, key, k);
      }
      CountedTotals(Aggregate(front, key), key, last, k, Total(front, key, k), Aggregate(es, key));
    }
  }

  lemma {:induction false} CountedTotals<T, K>(rows: seq<Entry<T>>, key: T -> K, e: Entry<T>, k: K, t: int, rows': seq<Entry<T>>)
    requires Distinct(rows, key) && rows' == Counted(rows, key, e)
    requires Total(rows, key, k) == Wrap(t) && (!Seen(rows, key, k) ==> t == 0)
    ensures Total(rows', key, k) == Wrap(t + Share(e, key, k))
  {
    if Seen(rows, key, key(e.item)) {
      GrownRow(rows, key, e, k, t);
    } else {
      TotalAppend(rows, e, key, k);
      TotalOfAbsent(rows, key, key(e.item));
    }
  }

  lemma {:induction false} GrownRow<T, K>(rows: seq<Entry<T>>, key: T -> K, e: Entry<T>, k: K, t: int)
    requires Distinct(rows, key) && Seen(rows, key, key(e.item)) && Total(rows, key, k) == Wrap(t)
    ensures var i := Slot(rows, key, key(e.item));
            Total(rows[i := Entry(rows[i].item, Wrap(rows[i].count + e.count))], key, k) == Wrap(t + Share(e, key, k))
  {
    var i := Slot(rows, key, key(e.item));
    TotalUpdate(rows, i, Entry(rows[i].item, Wrap(rows[i].count + e.count)), key, k);
    TotalOfDistinct(rows, i, key);
    WrapAdd(t, e.count);
  }

  /** While the grand total fits, a report is exact for every class, and for every coarser one. */
  lemma {:induction false} AggregateExact<T(!new), K(!new), L>(es: seq<Entry<T>>, key: T -> K, coarse: T -> L, l: L)
    requires NonNegative(es) && Grand(es) <= ISIZE_MAX && Coarsens(key, coarse)
    ensures forall k :: Total(Aggregate(es, key), key, k) == Total(es, key, k)
    ensures Total(Aggregate(es, key), coarse, l) == Total(es, coarse, l)
  {
    forall k ensures Total(Aggregate(es, key), key, k) == Total(es, key, k) {
      AggregateTotals(es, key, k);
      TotalBelowGrand(es, key, k);
    }
    CoarseTotalsAgree(Aggregate(es, key), es, key, coarse, l);
  }

  /** A `HashMap` from items to counts; `get_mut` and `insert` compare items by key. */
  class ReportMap<T, K(==)> {
    const key: T -> K
    var rows: seq<Entry<T>>

    constructor (key: T -> K)
      ensures this.key == key && rows == []
    {
      this.key := key;
      rows := [];
    }

    method Find(k: K) returns (i: nat)
      requires Distinct(rows, key)
      ensures i == Slot(rows, key, k)
    {
      i := 0;
      while i < |rows| && key(rows[i].item) != k
        invariant i <= |rows|
        invariant forall j :: 0 <= j < i ==> key(rows[j].item) != k
      {
        i := i + 1;
      }
    }

    method Count(item: T, count: Isize)
      requires Distinct(rows, key)
      modifies this
      ensures rows == Counted(old(rows), key, Entry(item, count)) && Distinct(rows, key)
    {
      CountedKeepsDistinct(rows, key, Entry(item, count), Counted(rows, key, Entry(item, count)));
      var i := Find(key(item));
      if i < |rows| {
        rows := rows[i := Entry(rows[i].item, Wrap(rows[i].count + count))];
      } else {
        rows := rows + [Entry(item, count)];
      }
    }
  }
}
