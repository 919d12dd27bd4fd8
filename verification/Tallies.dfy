/** Counted items and the totals they add up to. A total is the one abstract value every collector,
    spill file and report of the profiler is measured by. */
module Tallies {
  import opened MachineInts

  datatype Entry<+T> = Entry(item: T, count: Isize)

  /** What one entry adds to the total of class `k`. */
  ghost function Share<T, K>(e: Entry<T>, key: T -> K, k: K): int {
    if key(e.item) == k then e.count else 0
  }

  /** The sum of the counts of all entries whose item is in class `k`. */
  ghost function Total<T, K>(es: seq<Entry<T>>, key: T -> K, k: K): int {
    if es == [] then 0
    else Total(es[..|es| - 1], key, k) + Share(es[|es| - 1], key, k)
  }

  ghost predicate NonNegative<T>(es: seq<Entry<T>>) {
    forall i :: 0 <= i < |es| ==> 0 <= es[i].count
  }

  /** No two entries are in the same class. */
  ghost predicate Distinct<T, K>(es: seq<Entry<T>>, key: T -> K) {
    forall i, j :: 0 <= i < j < |es| ==> key(es[i].item) != key(es[j].item)
  }

  lemma {:induction false} TotalConcat<T, K>(a: seq<Entry<T>>, b: seq<Entry<T>>, key: T -> K, k: K)
    ensures Total(a + b, key, k) == Total(a, key, k) + Total(b, key, k)
  {
    if b == [] {
      assert a + b == a;
    } else {
      TotalConcat(a, b[..|b| - 1], key, k);
      assert (a + b)[..|a + b| - 1] == a + b[..|b| - 1];
    }
  }

  lemma {:induction false} TotalAppend<T, K>(es: seq<Entry<T>>, e: Entry<T>, key: T -> K, k: K)
    ensures Total(es + [e], key, k) == Total(es, key, k) + Share(e, key, k)
  {
  }

  lemma {:induction false} TotalUpdate<T, K>(es: seq<Entry<T>>, i: nat, e: Entry<T>, key: T -> K, k: K)
    requires i < |es|
    ensures Total(es[i := e], key, k) == Total(es, key, k) - Share(es[i], key, k) + Share(e, key, k)
  {
    var a, b := es[..i], es[i + 1..];
    assert es == (a + [es[i]]) + b && es[i := e] == (a + [e]) + b;
    TotalConcat(a + [es[i]], b, key, k);
    TotalConcat(a + [e], b, key, k);
    TotalAppend(a, es[i], key, k);
    TotalAppend(a, e, key, k);
  }

  lemma {:induction false} TotalOfAbsent<T, K>(es: seq<Entry<T>>, key: T -> K, k: K)
    requires forall i :: 0 <= i < |es| ==> key(es[i].item) != k
    ensures Total(es, key, k) == 0
  {
    if es != [] {
      TotalOfAbsent(es[..|es| - 1], key, k);
    }
  }

  /** Among distinct entries a total is one entry's count. */
  lemma {:induction false} TotalOfDistinct<T, K>(es: seq<Entry<T>>, i: nat, key: T -> K)
    requires Distinct(es, key) && i < |es|
    ensures Total(es, key, key(es[i].item)) == es[i].count
  {
    var k := key(es[i].item);
    var a, b := es[..i], es[i + 1..];
    assert es == (a + [es[i]]) + b;
    TotalConcat(a + [es[i]], b, key, k);
    TotalAppend(a, es[i], key, k);
    forall j | 0 <= j < |b| ensures key(b[j].item) != k {
      assert b[j] == es[i + 1 + j];
    }
    TotalOfAbsent(a, key, k);
    TotalOfAbsent(b, key, k);
  }

  /** With no negative count in class `k`, a total bounds every count it is made of. */
  lemma {:induction false} TotalBounds<T, K>(es: seq<Entry<T>>, key: T -> K, k: K)
    requires forall i :: 0 <= i < |es| && key(es[i].item) == k ==> 0 <= es[i].count
    ensures 0 <= Total(es, key, k)
    ensures forall i :: 0 <= i < |es| && key(es[i].item) == k ==> es[i].count <= Total(es, key, k)
  {
    if es != [] {
      TotalBounds(es[..|es| - 1], key, k);
    }
  }

  // ---- Coarser classes ----

  /** `coarse` never separates what `key` puts together. */
  ghost predicate Coarsens<T(!new), K, L>(key: T -> K, coarse: T -> L) {
    forall x: T, y: T :: key(x) == key(y) ==> coarse(x) == coarse(y)
  }

  ghost function Without<T, K>(es: seq<Entry<T>>, key: T -> K, k: K): (rest: seq<Entry<T>>)
    ensures |rest| <= |es|
    ensures (exists i :: 0 <= i < |es| && key(es[i].item) == k) ==> |rest| < |es|
  {
    if es == [] then []
    else
      var front, last := es[..|es| - 1], es[|es| - 1];
      Without(front, key, k) + if key(last.item) == k then [] else [last]
  }

  lemma {:induction false} WithoutTotals<T, K>(es: seq<Entry<T>>, key: T -> K, k: K, j: K)
    ensures Total(Without(es, key, k), key, j) == if j == k then 0 else Total(es, key, j)
  {
    if es != [] {
      var front, last := es[..|es| - 1], es[|es| - 1];
      WithoutTotals(front, key, k, j);
      if key(last.item) != k {
        TotalAppend(Without(front, key, k), last, key, j);
      } else {
        assert Without(es, key, k) == Without(front, key, k);
      }
    }
  }

  lemma {:induction false} WithoutCoarseTotals<T(!new), K, L>(es: seq<Entry<T>>, key: T -> K, x: T, coarse: T -> L, l: L)
    requires Coarsens(key, coarse)
    ensures Total(Without(es, key, key(x)), coarse, l)
            == Total(es, coarse, l) - if coarse(x) == l then Total(es, key, key(x)) else 0
  {
    if es != [] {
      var front, last := es[..|es| - 1], es[|es| - 1];
      WithoutCoarseTotals(front, key, x, coarse, l);
      if key(last.item) != key(x) {
        TotalAppend(Without(front, key, key(x)), last, coarse, l);
      } else {
        assert Without(es, key, key(x)) == Without(front, key, key(x));
        assert coarse(last.item) == coarse(x);
      }
    }
  }

  /** Agreement class by class implies agreement on all coarser classes, and so on grand totals. */
  lemma {:induction false} CoarseTotalsAgree<T(!new), K(!new), L>(a: seq<Entry<T>>, b: seq<Entry<T>>, key: T -> K, coarse: T -> L, l: L)
    requires Coarsens(key, coarse)
    requires forall k :: Total(a, key, k) == Total(b, key, k)
    ensures Total(a, coarse, l) == Total(b, coarse, l)
    decreases |a| + |b|
  {
    if a + b != [] {
      var x := (a + b)[0].item;
      var a', b' := Without(a, key, key(x)), Without(b, key, key(x));
      forall k ensures Total(a', key, k) == Total(b', key, k) {
        WithoutTotals(a, key, key(x), k);
        WithoutTotals(b, key, key(x), k);
      }
      CoarseTotalsAgree(a', b', key, coarse, l);
      WithoutCoarseTotals(a, key, x, coarse, l);
      WithoutCoarseTotals(b, key, x, coarse, l);
    }
  }

  /** The class of everything. */
  ghost function Anything<T>(x: T): () {
    ()
  }

  /** The sum of all counts. */
  ghost function Grand<T>(es: seq<Entry<T>>): int {
    Total(es, Anything<T>, ())
  }

  lemma {:induction false} TotalBelowGrand<T, K>(es: seq<Entry<T>>, key: T -> K, k: K)
    requires NonNegative(es)
    ensures 0 <= Total(es, key, k) <= Grand(es)
  {
    if es != [] {
      TotalBelowGrand(es[..|es| - 1], key, k);
    }
  }

  // ---- Filters and images ----

  /** The entries that a report counts. */
  ghost function Reportable<T>(es: seq<Entry<T>>): (ps: seq<Entry<T>>)
    ensures forall i :: 0 <= i < |ps| ==> 0 < ps[i].count && ps[i] in es
  {
    if es == [] then []
    else
      var front, last := es[..|es| - 1], es[|es| - 1];
      Reportable(front) + if 0 < last.count then [last] else []
  }

  lemma {:induction false} ReportableTotals<T, K>(es: seq<Entry<T>>, key: T -> K, k: K)
    requires forall e :: e in es && key(e.item) == k ==> 0 <= e.count
    ensures Total(Reportable(es), key, k) == Total(es, key, k)
  {
    if es != [] {
      var front, last := es[..|es| - 1], es[|es| - 1];
      assert last in es;
      ReportableTotals(front, key, k);
      if 0 < last.count {
        TotalAppend(Reportable(front), last, key, k);
      } else {
        assert Reportable(es) == Reportable(front);
      }
    }
  }

  ghost function Image<T, U>(es: seq<Entry<T>>, f: T -> U): (image: seq<Entry<U>>)
    ensures |image| == |es|
    ensures forall i :: 0 <= i < |es| ==> image[i] == Entry(f(es[i].item), es[i].count)
  {
    if es == [] then []
    else Image(es[..|es| - 1], f) + [Entry(f(es[|es| - 1].item), es[|es| - 1].count)]
  }

  lemma {:induction false} ImageTotals<T, U, K>(es: seq<Entry<T>>, f: T -> U, key: U -> K, base: T -> K, k: K)
    requires forall e :: e in es ==> key(f(e.item)) == base(e.item)
    ensures Total(Image(es, f), key, k) == Total(es, base, k)
  {
    if es != [] {
      var front, last := es[..|es| - 1], es[|es| - 1];
      assert last in es;
      ImageTotals(front, f, key, base, k);
      TotalAppend(Image(front, f), Entry(f(last.item), last.count), key, k);
    }
  }
}
