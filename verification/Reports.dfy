/** The report builders: what a listing of the collector turns into, and what the report then says
    about the samples that were recorded. */
module Reports {
  import opened MachineInts
  import opened Outcomes
  import opened Tallies
  import opened Bytes
  import opened CounterRuns
  import opened Collector
  import opened Spill
  import opened Frames
  import opened Profiler
  import opened ReportMaps
  import opened Timer
  import Lifecycle

  datatype UnresolvedReport = UnresolvedReport(data: seq<Entry<UnresolvedFrames>>, timing: ReportTiming)

  datatype Report = Report(data: seq<Entry<Frames>>, timing: ReportTiming)

  type PostProcessor = Option<Frames -> Frames>

  /** Resolving followed by the post-processor, if any. */
  ghost function Processing(env: Resolver, post: PostProcessor): UnresolvedFrames -> Frames {
    (u: UnresolvedFrames) => if post.Some? then post.value(ResolveSpec(env, u)) else ResolveSpec(env, u)
  }

  /** The rows of an unresolved report on these entries. */
  ghost function UnresolvedRows(listing: seq<Entry<UnresolvedFrames>>): seq<Entry<UnresolvedFrames>> {
    Aggregate(Reportable(listing), SampleKey)
  }

  /** The rows of a resolved report on these entries. */
  ghost function ResolvedRows(listing: seq<Entry<UnresolvedFrames>>, env: Resolver, post: PostProcessor): seq<Entry<Frames>> {
    Aggregate(Image(Reportable(listing), Processing(env, post)), KeyOfFrames)
  }

  // ---- What the collector lists ----

  /** Class by class, the positive entries add up to the number of samples. */
  ghost predicate Tallied(listing: seq<Entry<UnresolvedFrames>>, samples: seq<UnresolvedFrames>) {
    && |samples| <= ISIZE_MAX
    && forall k :: Total(Reportable(listing), SampleKey, k) == Total(Units(samples), SampleKey, k)
  }

  /** The listing is what an exact collector lists after recording these samples, however many of its
      evicted entries it has flushed. */
  ghost predicate ListsSamples(
    ops: Keying<UnresolvedFrames, StackKey>, listing: seq<Entry<UnresolvedFrames>>, samples: seq<UnresolvedFrames>)
  {
    exists n: nat :: n <= |Replay(ops, Units(samples)).evicted| && listing == Listed(Replay(ops, Units(samples)), n)
  }

  /** A listing of the collector tallies the samples recorded. */
  lemma {:induction false} ListingTallies(ops: Keying<UnresolvedFrames, StackKey>, samples: seq<UnresolvedFrames>, n: nat)
    requires ops.key == SampleKey && n <= |Replay(ops, Units(samples)).evicted| && |samples| <= ISIZE_MAX
    ensures Tallied(Listed(Replay(ops, Units(samples)), n), samples)
  {
    var listing := Listed(Replay(ops, Units(samples)), n);
    forall k ensures Total(Reportable(listing), ops.key, k) == Total(Units(samples), ops.key, k) {
      GrandOfUnits(samples);
      TotalBelowGrand(Units(samples), ops.key, k);
      ListingExact(ops, Units(samples), n, k);
      ReportableTotals(listing, ops.key, k);
    }
  }

  lemma {:induction false} TalliedIsComplete(listing: seq<Entry<UnresolvedFrames>>, samples: seq<UnresolvedFrames>)
    requires Tallied(listing, samples)
    ensures NonNegative(Reportable(listing)) && Grand(Reportable(listing)) == |samples|
  {
    CoarseTotalsAgree(Reportable(listing), Units(samples), SampleKey, Anything<UnresolvedFrames>, ());
    GrandOfUnits(samples);
  }

  // ---- The unresolved report ----

  /** Every class has one row, counting exactly the samples of that class; the rows sum to the number of samples. */
  ghost predicate CountsSamples(rows: seq<Entry<UnresolvedFrames>>, samples: seq<UnresolvedFrames>) {
    && Distinct(rows, SampleKey)
    && (forall k :: Total(rows, SampleKey, k) == Total(Units(samples), SampleKey, k))
    && (forall i :: 0 <= i < |rows| ==> 0 < rows[i].count == Total(Units(samples), SampleKey, SampleKey(rows[i].item)))
    && Grand(rows) == |samples|
  }

  lemma {:induction false} UnresolvedIsExact(listing: seq<Entry<UnresolvedFrames>>, samples: seq<UnresolvedFrames>)
    requires Tallied(listing, samples)
    ensures CountsSamples(UnresolvedRows(listing), samples)
  {
    var listed := Reportable(listing);
    var rows := Aggregate(listed, SampleKey);
    TalliedIsComplete(listing, samples);
    AggregateExact(listed, SampleKey, Anything<UnresolvedFrames>, ());
    AggregateDistinct(listed, SampleKey);
    forall i | 0 <= i < |rows|
      ensures 0 < rows[i].count == Total(Units(samples), SampleKey, SampleKey(rows[i].item))
    {
      TotalOfDistinct(rows, i, SampleKey);
      RowIsPositive(listed, i);
    }
  }

  lemma {:induction false} RowIsPositive(listed: seq<Entry<UnresolvedFrames>>, i: nat)
    requires forall e :: e in listed ==> 0 < e.count
    requires i < |Aggregate(listed, SampleKey)|
    ensures 0 < Total(listed, SampleKey, SampleKey(Aggregate(listed, SampleKey)[i].item))
  {
    var k := SampleKey(Aggregate(listed, SampleKey)[i].item);
    AggregateSeen(listed, SampleKey, k);
    TotalBounds(listed, SampleKey, k);
    assert listed[Slot(listed, SampleKey, k)] in listed;
  }

  // ---- The resolved report ----

  /** `f` is what the post-processor makes of the resolved stack, or the resolved stack if there is none. */
  ghost predicate Becomes(env: Resolver, post: PostProcessor, u: UnresolvedFrames, f: Frames) {
    match post
    case Some(change) => f == change(ResolveSpec(env, u))
    case None => f == ResolveSpec(env, u)
  }

  /** Each row counts the listed entries whose resolved and post-processed stack is counted under its
      class, and shows one of them. */
  ghost predicate PushesForward(
    rows: seq<Entry<Frames>>, listing: seq<Entry<UnresolvedFrames>>, env: Resolver, post: PostProcessor)
  {
    && (forall base: UnresolvedFrames -> FramesKey, k ::
          (forall u, f :: Becomes(env, post, u, f) ==> base(u) == KeyOfFrames(f)) ==>
            Total(rows, KeyOfFrames, k) == Total(Reportable(listing), base, k))
    && forall i :: 0 <= i < |rows| ==> Shows(env, post, Reportable(listing), rows[i].item)
  }

  ghost predicate Shows(env: Resolver, post: PostProcessor, listed: seq<Entry<UnresolvedFrames>>, f: Frames) {
    exists e :: e in listed && Becomes(env, post, e.item, f)
  }

  lemma {:induction false} ResolvedIsPushForward(
    listing: seq<Entry<UnresolvedFrames>>, samples: seq<UnresolvedFrames>, env: Resolver, post: PostProcessor)
    requires Tallied(listing, samples)
    ensures PushesForward(ResolvedRows(listing, env, post), listing, env, post)
  {
    var rows := ResolvedRows(listing, env, post);
    forall base: UnresolvedFrames -> FramesKey, k
      | forall u, f :: Becomes(env, post, u, f) ==> base(u) == KeyOfFrames(f)
      ensures Total(rows, KeyOfFrames, k) == Total(Reportable(listing), base, k)
    {
      RowTotals(listing, samples, env, post, base, k);
    }
    forall i | 0 <= i < |rows| ensures Shows(env, post, Reportable(listing), rows[i].item) {
      RowShows(listing, env, post, i);
    }
  }

  lemma {:induction false} RowTotals(
    listing: seq<Entry<UnresolvedFrames>>, samples: seq<UnresolvedFrames>, env: Resolver, post: PostProcessor,
    base: UnresolvedFrames -> FramesKey, k: FramesKey)
    requires Tallied(listing, samples)
    requires forall u, f :: Becomes(env, post, u, f) ==> base(u) == KeyOfFrames(f)
    ensures Total(ResolvedRows(listing, env, post), KeyOfFrames, k) == Total(Reportable(listing), base, k)
  {
    ResolvedIsComplete(listing, samples, env, post, Anything<Frames>, ());
    forall u: UnresolvedFrames ensures KeyOfFrames(Processing(env, post)(u)) == base(u) {
      assert Becomes(env, post, u, Processing(env, post)(u));
    }
    ImageTotals(Reportable(listing), Processing(env, post), KeyOfFrames, base, k);
  }

  lemma {:induction false} RowShows(listing: seq<Entry<UnresolvedFrames>>, env: Resolver, post: PostProcessor, i: nat)
    requires i < |ResolvedRows(listing, env, post)|
    ensures Shows(env, post, Reportable(listing), ResolvedRows(listing, env, post)[i].item)
  {
    var listed := Reportable(listing);
    var image := Image(listed, Processing(env, post));
    var item := Aggregate(image, KeyOfFrames)[i].item;
    RowsKeepFirst(image, KeyOfFrames, i);
    var p :| 0 <= p < |image| && image[p].item == item;
    assert listed[p] in listed && Becomes(env, post, listed[p].item, item);
  }

  lemma {:induction false} ResolvedIsComplete<L>(
    listing: seq<Entry<UnresolvedFrames>>, samples: seq<UnresolvedFrames>, env: Resolver, post: PostProcessor,
    view: Frames -> L, l: L)
    requires Tallied(listing, samples) && Coarsens(KeyOfFrames, view)
    ensures var image := Image(Reportable(listing), Processing(env, post));
            && (forall k :: Total(ResolvedRows(listing, env, post), KeyOfFrames, k) == Total(image, KeyOfFrames, k))
            && Total(ResolvedRows(listing, env, post), view, l) == Total(image, view, l)
  {
    TalliedIsComplete(listing, samples);
    ImageTotals(Reportable(listing), Processing(env, post), Anything<Frames>, Anything<UnresolvedFrames>, ());
    AggregateExact(Image(Reportable(listing), Processing(env, post)), KeyOfFrames, view, l);
  }

  /** `view` of a processed backtrace depends on the stack that the backtrace was recorded as, only. */
  ghost predicate SeesStack<L>(view: Frames -> L, process: UnresolvedFrames -> Frames, coarse: UnresolvedFrames -> L) {
    && Coarsens(KeyOfFrames, view)
    && Coarsens(SampleKey, coarse)
    && forall u :: view(process(u)) == coarse(u)
  }

  /** Whatever a report shows of the recorded stacks, it shows as often as it was sampled. */
  lemma {:induction false} ResolvedCounts<L>(
    listing: seq<Entry<UnresolvedFrames>>, samples: seq<UnresolvedFrames>, env: Resolver, post: PostProcessor,
    view: Frames -> L, coarse: UnresolvedFrames -> L, l: L)
    requires Tallied(listing, samples) && SeesStack(view, Processing(env, post), coarse)
    ensures Total(ResolvedRows(listing, env, post), view, l) == Total(Units(samples), coarse, l)
  {
    ResolvedIsComplete(listing, samples, env, post, view, l);
    ImageTotals(Reportable(listing), Processing(env, post), view, coarse, l);
    CoarseTotalsAgree(Reportable(listing), Units(samples), SampleKey, coarse, l);
  }

  /** The samples are all counted, whatever the post-processor does. */
  lemma {:induction false} ResolvedGrandTotal(
    listing: seq<Entry<UnresolvedFrames>>, samples: seq<UnresolvedFrames>, env: Resolver, post: PostProcessor)
    requires Tallied(listing, samples)
    ensures Grand(ResolvedRows(listing, env, post)) == |samples|
  {
    ResolvedCounts(listing, samples, env, post, Anything<Frames>, Anything<UnresolvedFrames>, ());
    GrandOfUnits(samples);
  }

  lemma {:induction false} ListsTally(
    ops: Keying<UnresolvedFrames, StackKey>, listing: seq<Entry<UnresolvedFrames>>, samples: seq<UnresolvedFrames>)
    requires ops.key == SampleKey && |samples| <= ISIZE_MAX && ListsSamples(ops, listing, samples)
    ensures Tallied(listing, samples)
  {
    var n: nat :| n <= |Replay(ops, Units(samples)).evicted| && listing == Listed(Replay(ops, Units(samples)), n);
    ListingTallies(ops, samples, n);
  }

  /** Without a post-processor the resolved report gives every thread the total that the unresolved one gives it. */
  lemma {:induction false} ThreadTotalsAgree(
    listing: seq<Entry<UnresolvedFrames>>, samples: seq<UnresolvedFrames>, env: Resolver, thread: nat,
    ofFrames: Frames -> nat, ofSample: UnresolvedFrames -> nat)
    requires Tallied(listing, samples)
    requires (forall f: Frames :: ofFrames(f) == f.threadId) && forall u: UnresolvedFrames :: ofSample(u) == u.threadId
    ensures Total(ResolvedRows(listing, env, None), ofFrames, thread)
            == Total(UnresolvedRows(listing), ofSample, thread)
            == Total(Units(samples), ofSample, thread)
  {
    ThreadIsSeen(env, ofFrames, ofSample);
    ResolvedCounts(listing, samples, env, None, ofFrames, ofSample, thread);
    UnresolvedIsExact(listing, samples);
    CoarseTotalsAgree(UnresolvedRows(listing), Units(samples), SampleKey, ofSample, thread);
  }

  lemma {:induction false} ThreadIsSeen(env: Resolver, ofFrames: Frames -> nat, ofSample: UnresolvedFrames -> nat)
    requires (forall f: Frames :: ofFrames(f) == f.threadId) && forall u: UnresolvedFrames :: ofSample(u) == u.threadId
    ensures SeesStack(ofFrames, Processing(env, None), ofSample)
  {
    forall f: Frames, g: Frames | KeyOfFrames(f) == KeyOfFrames(g) ensures ofFrames(f) == ofFrames(g) {
      assert KeyOfFrames(f).threadId == KeyOfFrames(g).threadId;
    }
    forall u: UnresolvedFrames, v: UnresolvedFrames | SampleKey(u) == SampleKey(v) ensures ofSample(u) == ofSample(v) {
      assert SampleKey(u).threadId == SampleKey(v).threadId;
    }
    forall u: UnresolvedFrames ensures ofFrames(Processing(env, None)(u)) == ofSample(u) {
      assert Processing(env, None)(u) == ResolveSpec(env, u);
    }
  }

  // ---- The builder ----

  lemma {:induction false} ListingOfProfiler(p: Profiler)
    requires p.Valid() && p.data.Exact() && |p.samples| <= ISIZE_MAX
    ensures Tallied(p.data.Listing(), p.samples)
  {
    ListingTallies(Ops(p.hasher), p.samples, |p.data.tempArray.flushed|);
  }

  class ReportBuilder {
    var framesPostProcessor: PostProcessor
    const profiler: Result<Profiler>
    const timing: ReportTiming

    constructor (profiler: Result<Profiler>, timing: ReportTiming)
      ensures framesPostProcessor == None && this.profiler == profiler && this.timing == timing
    {
      framesPostProcessor, this.profiler, this.timing := None, profiler, timing;
    }

    method SetFramesPostProcessor(f: Frames -> Frames)
      modifies this
      ensures framesPostProcessor == Some(f)
    {
      framesPostProcessor := Some(f);
    }

    /** Counts the positive entries. */
    method Gather(entries: seq<Entry<UnresolvedFrames>>) returns (rows: seq<Entry<UnresolvedFrames>>)
      ensures rows == UnresolvedRows(entries)
    {
      var hashMap := new ReportMap(SampleKey);
      for i := 0 to |entries|
        invariant fresh(hashMap) && hashMap.key == SampleKey && Distinct(hashMap.rows, SampleKey)
        invariant hashMap.rows == Aggregate(Reportable(entries[..i]), SampleKey)
      {
        ReportableNext(entries, i);
        if entries[i].count > 0 {
          hashMap.Count(entries[i].item, entries[i].count);
        }
      }
      assert entries[..|entries|] == entries;
      return hashMap.rows;
    }

    method BuildUnresolved(io: ReadIo) returns (r: Result<UnresolvedReport>)
      requires profiler.Ok? ==> profiler.value.Valid()
      ensures profiler.Err? ==> r == Err(CreatingError)
      ensures profiler.Ok? && r.Err? ==> r.error == IoError
      ensures profiler.Ok? && profiler.value.View().clean ==> (r.Ok? <==> profiler.value.View().whole && io.Succeeds())
      ensures r.Ok? && profiler.value.View().clean ==>
                r.value == UnresolvedReport(UnresolvedRows(profiler.value.data.Listing()), timing)
      ensures r.Ok? && profiler.value.View().clean && |profiler.value.samples| <= ISIZE_MAX ==>
                CountsSamples(r.value.data, profiler.value.samples)
    {
      hide Collector.Valid, Faithful, UnresolvedRows, CountsSamples, Collector.Listing;
      if profiler.Err? {
        return Err(CreatingError);
      }
      var entries := profiler.value.data.TryIter(io);
      if entries.Err? {
        return Err(entries.error);
      }
      var rows := Gather(entries.value);
      ghost var p := profiler.value;
      if p.View().clean && |p.samples| <= ISIZE_MAX {
        ListingOfProfiler(p);
        UnresolvedIsExact(entries.value, p.samples);
      }
      return Ok(UnresolvedReport(rows, timing));
    }

    method Process(env: Resolver, item: UnresolvedFrames) returns (key: Frames)
      ensures key == Processing(env, framesPostProcessor)(item)
      ensures match framesPostProcessor
              case Some(change) => key == change(ResolveSpec(env, item))
              case None => key == ResolveSpec(env, item)
    {
      key := Resolve(env, item);
      if framesPostProcessor.Some? {
        key := framesPostProcessor.value(key);
      }
    }

    method CountEntry(env: Resolver, hashMap: ReportMap<Frames, FramesKey>, entry: Entry<UnresolvedFrames>)
      requires hashMap.key == KeyOfFrames && Distinct(hashMap.rows, KeyOfFrames)
      modifies hashMap
      ensures Distinct(hashMap.rows, KeyOfFrames)
      ensures hashMap.rows
              == if 0 < entry.count then
                   Counted(old(hashMap.rows), KeyOfFrames,
                           Entry(Processing(env, framesPostProcessor)(entry.item), entry.count))
                 else old(hashMap.rows)
    {
      hide Processing, ResolveSpec, Counted;
      if entry.count > 0 {
        var key := Process(env, entry.item);
        hashMap.Count(key, entry.count);
      }
    }

    /** Resolves, processes and counts the positive entries. */
    method Fold(env: Resolver, entries: seq<Entry<UnresolvedFrames>>) returns (rows: seq<Entry<Frames>>)
      ensures rows == ResolvedRows(entries, env, framesPostProcessor)
    {
      ResolvedRowsOfNothing(env, framesPostProcessor);
      hide ResolvedRows, Processing, Counted;
      var hashMap := new ReportMap(KeyOfFrames);
      for i := 0 to |entries|
        invariant fresh(hashMap) && hashMap.key == KeyOfFrames && Distinct(hashMap.rows, KeyOfFrames)
        invariant hashMap.rows == ResolvedRows(entries[..i], env, framesPostProcessor)
      {
        ResolvedRowsNext(entries, i, env, framesPostProcessor);
        CountEntry(env, hashMap, entries[i]);
      }
      assert entries[..|entries|] == entries;
      return hashMap.rows;
    }

    method ResolveListing(env: Resolver, io: ReadIo) returns (rows: Result<seq<Entry<Frames>>>)
      requires profiler.Ok? && profiler.value.Valid()
      ensures rows.Err? ==> rows.error == IoError
      ensures var v := profiler.value.View();
              v.clean ==>
                && (rows.Ok? <==> v.whole && io.Succeeds())
                && (rows.Ok? ==> rows.value == ResolvedRows(profiler.value.data.Listing(), env, framesPostProcessor))
                && (rows.Ok? && |v.samples| <= ISIZE_MAX ==>
                      && Grand(rows.value) == |v.samples|
                      && PushesForward(rows.value, profiler.value.data.Listing(), env, framesPostProcessor))
    {
      hide Collector.Valid, Faithful, ResolvedRows, Grand, Collector.Listing, PushesForward;
      var entries := profiler.value.data.TryIter(io);
      if entries.Err? {
        return Err(entries.error);
      }
      var folded := Fold(env, entries.value);
      ghost var p := profiler.value;
      if p.View().clean && |p.samples| <= ISIZE_MAX {
        ListingOfProfiler(p);
        ResolvedGrandTotal(entries.value, p.samples, env, framesPostProcessor);
        ResolvedIsPushForward(entries.value, p.samples, env, framesPostProcessor);
      }
      return Ok(folded);
    }

    method ClearIf(clear: bool, io: ClearIo) returns (r: Result<()>)
      requires profiler.Ok? && profiler.value.Valid()
      modifies if profiler.Ok? then {profiler.value} + profiler.value.data.Repr else {}
      ensures profiler.value.Valid() && profiler.value.data == old(profiler.value.data)
      ensures var o :=
                Lifecycle.Clear(old(profiler.value.View()), Lifecycle.Ignored, io, profiler.value.data.tempArray.Untouched());
              && r == (if clear then o.result else Ok(()))
              && profiler.value.View() == if clear then o.view else old(profiler.value.View())
    {
      r := Ok(());
      if clear {
        r := profiler.value.Clear(io);
        assert Lifecycle.Outcome(profiler.value.View(), Lifecycle.Ignored, r)
               == Lifecycle.Clear(old(profiler.value.View()), Lifecycle.Ignored, io,
                                  profiler.value.data.tempArray.Untouched());
      }
    }

    /** Clears, if at all, only after the listing has succeeded; a report whose clearing fails is lost
        together with its samples. */
    method BuildAndClear(env: Resolver, clear: bool, readIo: ReadIo, clearIo: ClearIo) returns (r: Result<Report>)
      requires profiler.Ok? ==> profiler.value.Valid() && this !in profiler.value.data.Repr
      modifies if profiler.Ok? then {profiler.value} + profiler.value.data.Repr else {}
      ensures profiler.Err? ==> r == Err(CreatingError)
      ensures profiler.Ok? ==> profiler.value.Valid() && profiler.value.data == old(profiler.value.data)
      ensures profiler.Ok? ==>
                var v, v' := old(profiler.value.View()), profiler.value.View();
                var cleared := Lifecycle.Clear(v, Lifecycle.Ignored, clearIo, profiler.value.data.tempArray.Untouched());
                && (v' == v || (clear && v' == cleared.view))
                && (r.Ok? && clear ==> cleared.result.Ok? && v' == cleared.view)
                && (r.Err? ==> r.error in {IoError, NotRunning})
      ensures profiler.Ok? && old(profiler.value.View().clean) ==>
                var p := profiler.value;
                var v := old(p.View());
                var cleared := Lifecycle.Clear(v, Lifecycle.Ignored, clearIo, profiler.value.data.tempArray.Untouched());
                && (r.Ok? <==> v.whole && readIo.Succeeds() && (clear ==> cleared.result.Ok?))
                && p.View() == (if clear && v.whole && readIo.Succeeds() then cleared.view else v)
                && (r.Ok? ==>
                      r.value == Report(ResolvedRows(old(p.data.Listing()), env, framesPostProcessor), timing))
                && (r.Ok? && |v.samples| <= ISIZE_MAX ==>
                      && Grand(r.value.data) == |v.samples|
                      && PushesForward(r.value.data, old(p.data.Listing()), env, framesPostProcessor))
    {
      hide Collector.Valid, Faithful, ResolvedRows, Grand, Collector.Listing, PushesForward;
      if profiler.Err? {
        return Err(CreatingError);
      }
      var rows := ResolveListing(env, readIo);
      if rows.Err? {
        return Err(rows.error);
      }
      var cleared := ClearIf(clear, clearIo);
      if cleared.Err? {
        return Err(cleared.error);
      }
      return Ok(Report(rows.value, timing));
    }
  }

  lemma {:induction false} ResolvedRowsOfNothing(env: Resolver, post: PostProcessor)
    ensures ResolvedRows([], env, post) == []
  {
  }

  lemma {:induction false} ResolvedRowsNext(
    listing: seq<Entry<UnresolvedFrames>>, i: nat, env: Resolver, post: PostProcessor)
    requires i < |listing|
    ensures ResolvedRows(listing[..i + 1], env, post)
            == if 0 < listing[i].count then
                 Counted(ResolvedRows(listing[..i], env, post), KeyOfFrames,
                         Entry(Processing(env, post)(listing[i].item), listing[i].count))
               else ResolvedRows(listing[..i], env, post)
  {
    ReportableNext(listing, i);
    var a, b := Reportable(listing[..i]), Reportable(listing[..i + 1]);
    if 0 < listing[i].count {
      assert b[..|b| - 1] == a && b[|b| - 1] == listing[i];
      var image := Image(b, Processing(env, post));
      assert image[..|image| - 1] == Image(a, Processing(env, post));
    }
  }

  lemma {:induction false} ReportableNext<T>(es: seq<Entry<T>>, i: nat)
    requires i < |es|
    ensures Reportable(es[..i + 1]) == if 0 < es[i].count then Reportable(es[..i]) + [es[i]] else Reportable(es[..i])
  {
    assert es[..i + 1][..i] == es[..i];
  }
}
