/** `Report::pprof`: turning rows into an indexed profile with interned strings and functions. */
module Pprof {
  import opened MachineInts
  import opened Decimal
  import opened Tallies
  import opened Frames
  import opened Timer
  import opened Profile

  const SAMPLES := "samples"
  const COUNT := "count"
  const CPU := "cpu"
  const NANOSECONDS := "nanoseconds"
  const THREAD := "thread"

  // ---- Symbols in frame order ----

  function Flattened(frames: seq<seq<Symbol>>): seq<Symbol> {
    if frames == [] then [] else Flattened(frames[..|frames| - 1]) + frames[|frames| - 1]
  }

  function NamesOf(text: Text, symbols: seq<Symbol>): (names: seq<string>)
    ensures |names| == |symbols|
    ensures forall i :: 0 <= i < |symbols| ==> names[i] == Name(text, symbols[i])
  {
    if symbols == [] then [] else NamesOf(text, symbols[..|symbols| - 1]) + [Name(text, symbols[|symbols| - 1])]
  }

  ghost function AllSymbols(rows: seq<Entry<Frames>>): seq<Symbol> {
    if rows == [] then [] else AllSymbols(rows[..|rows| - 1]) + Flattened(rows[|rows| - 1].item.frames)
  }

  // ---- The string table ----

  ghost function SymbolStrings(text: Text, s: Symbol): set<string> {
    {Name(text, s), SysName(text, s), Filename(text, s)}
  }

  ghost function StringsOf(text: Text, symbols: seq<Symbol>): set<string> {
    if symbols == [] then {}
    else StringsOf(text, symbols[..|symbols| - 1]) + SymbolStrings(text, symbols[|symbols| - 1])
  }

  ghost function RowStrings(text: Text, f: Frames): set<string> {
    {ThreadNameOrId(f)} + StringsOf(text, Flattened(f.frames))
  }

  ghost function AllStrings(text: Text, rows: seq<Entry<Frames>>): set<string> {
    if rows == [] then {} else AllStrings(text, rows[..|rows| - 1]) + RowStrings(text, rows[|rows| - 1].item)
  }

  ghost function Needed(text: Text, rows: seq<Entry<Frames>>): set<string> {
    AllStrings(text, rows) + {SAMPLES, COUNT, CPU, NANOSECONDS, THREAD}
  }

  lemma {:induction false} StringsOfConcat(text: Text, a: seq<Symbol>, b: seq<Symbol>)
    ensures StringsOf(text, a + b) == StringsOf(text, a) + StringsOf(text, b)
  {
    if b == [] {
      assert a + b == a;
    } else {
      StringsOfConcat(text, a, b[..|b| - 1]);
      assert (a + b)[..|a + b| - 1] == a + b[..|b| - 1];
    }
  }

  lemma {:induction false} StringsOfEach(text: Text, symbols: seq<Symbol>, i: nat)
    requires i < |symbols|
    ensures SymbolStrings(text, symbols[i]) <= StringsOf(text, symbols)
  {
    if i < |symbols| - 1 {
      StringsOfEach(text, symbols[..|symbols| - 1], i);
    }
  }

  lemma {:induction false} StringsOfRow(text: Text, rows: seq<Entry<Frames>>, i: nat)
    requires i < |rows|
    ensures RowStrings(text, rows[i].item) <= AllStrings(text, rows)
  {
    if i < |rows| - 1 {
      StringsOfRow(text, rows[..|rows| - 1], i);
    }
  }

  lemma {:induction false} FlattenedNext(frames: seq<seq<Symbol>>, i: nat)
    requires i < |frames|
    ensures Flattened(frames[..i + 1]) == Flattened(frames[..i]) + frames[i]
  {
    assert frames[..i + 1][..i] == frames[..i];
  }

  method DedupFrames(text: Text, frames: seq<seq<Symbol>>, seen: set<string>) returns (dedupStr: set<string>)
    ensures dedupStr == seen + StringsOf(text, Flattened(frames))
  {
    dedupStr := seen;
    for i := 0 to |frames|
      invariant dedupStr == seen + StringsOf(text, Flattened(frames[..i]))
    {
      for j := 0 to |frames[i]|
        invariant dedupStr == seen + StringsOf(text, Flattened(frames[..i])) + StringsOf(text, frames[i][..j])
      {
        var symbol := frames[i][j];
        assert frames[i][..j + 1][..j] == frames[i][..j];
        dedupStr := dedupStr + {Name(text, symbol)};
        dedupStr := dedupStr + {SysName(text, symbol)};
        dedupStr := dedupStr + {Filename(text, symbol)};
      }
      assert frames[i][..|frames[i]|] == frames[i];
      FlattenedNext(frames, i);
      StringsOfConcat(text, Flattened(frames[..i]), frames[i]);
    }
    assert frames[..|frames|] == frames;
  }

  method DedupStrings(text: Text, rows: seq<Entry<Frames>>) returns (dedupStr: set<string>)
    ensures dedupStr == Needed(text, rows)
  {
    dedupStr := {};
    for i := 0 to |rows|
      invariant dedupStr == AllStrings(text, rows[..i])
    {
      assert rows[..i + 1][..i] == rows[..i];
      dedupStr := dedupStr + {ThreadNameOrId(rows[i].item)};
      dedupStr := DedupFrames(text, rows[i].item.frames, dedupStr);
    }
    assert rows[..|rows|] == rows;
    dedupStr := dedupStr + {SAMPLES} + {COUNT} + {CPU} + {NANOSECONDS} + {THREAD};
  }

  /** The empty string, then every needed string once, in whatever order the set yields them. */
  ghost predicate TableOf(strTbl: seq<string>, needed: set<string>) {
    && |strTbl| == 1 + |needed| && strTbl[0] == ""
    && (forall s :: s in strTbl[1..] <==> s in needed)
    && (forall i, j :: 1 <= i < j < |strTbl| ==> strTbl[i] != strTbl[j])
  }

  method StringTable(dedupStr: set<string>) returns (strTbl: seq<string>)
    ensures TableOf(strTbl, dedupStr)
  {
    strTbl := [""];
    var rest := dedupStr;
    while rest != {}
      invariant rest <= dedupStr && TableOf(strTbl, dedupStr - rest)
      decreases rest
    {
      hide TableOf;
      var s :| s in rest;
      TableNext(strTbl, s, dedupStr - rest);
      assert dedupStr - rest + {s} == dedupStr - (rest - {s});
      strTbl := strTbl + [s];
      rest := rest - {s};
    }
    assert dedupStr - rest == dedupStr;
  }

  lemma {:induction false} TableNext(strTbl: seq<string>, s: string, needed: set<string>)
    requires TableOf(strTbl, needed) && s !in needed
    ensures TableOf(strTbl + [s], needed + {s})
  {
    assert (strTbl + [s])[1..] == strTbl[1..] + [s];
    forall i, j | 1 <= i < j < |strTbl + [s]| ensures (strTbl + [s])[i] != (strTbl + [s])[j] {
      assert strTbl[i] == strTbl[1..][i - 1];
    }
  }

  /** Looking a string up gives one of its places in the table: the last one, should it occur twice. */
  ghost predicate Indexes(strings: map<string, nat>, strTbl: seq<string>) {
    && (forall s :: s in strTbl ==> s in strings)
    && (forall s :: s in strings ==> strings[s] < |strTbl| && strTbl[strings[s]] == s)
  }

  method IndexStrings(strTbl: seq<string>) returns (strings: map<string, nat>)
    ensures Indexes(strings, strTbl)
  {
    strings := map[];
    for index := 0 to |strTbl|
      invariant Indexes(strings, strTbl[..index])
    {
      strings := strings[strTbl[index] := index];
    }
    assert strTbl[..|strTbl|] == strTbl;
  }

  // ---- The function and location tables ----

  /** The first symbol of every name, in order. */
  ghost function FirstNamed(text: Text, symbols: seq<Symbol>): seq<Symbol> {
    if symbols == [] then []
    else
      var firsts, last := FirstNamed(text, symbols[..|symbols| - 1]), symbols[|symbols| - 1];
      if HasName(text, firsts, Name(text, last)) then firsts else firsts + [last]
  }

  ghost predicate HasName(text: Text, symbols: seq<Symbol>, name: string) {
    exists i :: 0 <= i < |symbols| && Name(text, symbols[i]) == name
  }

  lemma {:induction false} HasNameAppend(text: Text, symbols: seq<Symbol>, s: Symbol, name: string)
    ensures HasName(text, symbols + [s], name) <==> HasName(text, symbols, name) || Name(text, s) == name
  {
    if Name(text, s) == name {
      assert Name(text, (symbols + [s])[|symbols|]) == name;
    }
    if HasName(text, symbols, name) {
      var i :| 0 <= i < |symbols| && Name(text, symbols[i]) == name;
      assert Name(text, (symbols + [s])[i]) == name;
    }
  }

  /** `FirstNamed` is as its name says: one symbol for each name that occurs, no other, and nothing
      before it has that name. */
  lemma {:induction false} FirstNamedMeaning(text: Text, symbols: seq<Symbol>, name: string)
    ensures HasName(text, FirstNamed(text, symbols), name) <==> HasName(text, symbols, name)
    ensures forall i, j :: 0 <= i < j < |FirstNamed(text, symbols)| ==>
              Name(text, FirstNamed(text, symbols)[i]) != Name(text, FirstNamed(text, symbols)[j])
    ensures forall i :: 0 <= i < |FirstNamed(text, symbols)| ==> IsFirst(text, symbols, FirstNamed(text, symbols)[i])
  {
    if symbols != [] {
      var front, last := symbols[..|symbols| - 1], symbols[|symbols| - 1];
      FirstNamedMeaning(text, front, name);
      FirstNamedMeaning(text, front, Name(text, last));
      var firsts := FirstNamed(text, front);
      HasNameAppend(text, front, last, name);
      HasNameAppend(text, firsts, last, name);
      assert symbols == front + [last];
      forall i | 0 <= i < |firsts| ensures IsFirst(text, symbols, firsts[i]) {
        var p :| FirstAt(text, front, firsts[i], p);
        assert FirstAt(text, symbols, firsts[i], p);
      }
      if !HasName(text, firsts, Name(text, last)) {
        assert FirstAt(text, symbols, last, |front|);
      }
    }
  }

  ghost predicate FirstAt(text: Text, symbols: seq<Symbol>, s: Symbol, p: nat) {
    && p < |symbols| && symbols[p] == s
    && forall q :: 0 <= q < p ==> Name(text, symbols[q]) != Name(text, s)
  }

  ghost predicate IsFirst(text: Text, symbols: seq<Symbol>, s: Symbol) {
    exists p: nat :: FirstAt(text, symbols, s, p)
  }

  lemma {:induction false} FirstNamedGrows(text: Text, a: seq<Symbol>, b: seq<Symbol>)
    ensures FirstNamed(text, a) <= FirstNamed(text, a + b)
  {
    if b == [] {
      assert a + b == a;
    } else {
      FirstNamedGrows(text, a, b[..|b| - 1]);
      assert (a + b)[..|a + b| - 1] == a + b[..|b| - 1];
    }
  }

  datatype Tables = Tables(functions: map<string, nat>, fnTbl: seq<Function>, locTbl: seq<Location>)

  /** The table entry shows the symbol's two names and its file. */
  ghost predicate FunctionShows(text: Text, strTbl: seq<string>, f: Function, s: Symbol) {
    && f.name < |strTbl| && strTbl[f.name] == Name(text, s)
    && f.systemName < |strTbl| && strTbl[f.systemName] == SysName(text, s)
    && f.filename < |strTbl| && strTbl[f.filename] == Filename(text, s)
  }

  /** The tables hold exactly these symbols, in order, with ids from 1, and find each by its name. */
  ghost predicate Tabulate(text: Text, strTbl: seq<string>, t: Tables, firsts: seq<Symbol>) {
    && |t.fnTbl| == |t.locTbl| == |firsts|
    && (forall j :: 0 <= j < |firsts| ==>
          && t.fnTbl[j].id == j + 1 && FunctionShows(text, strTbl, t.fnTbl[j], firsts[j])
          && t.locTbl[j] == Location(j + 1, [Line(j + 1, Lineno(firsts[j]))])
          && Name(text, firsts[j]) in t.functions && t.functions[Name(text, firsts[j])] == j + 1)
    && (forall n :: n in t.functions ==> HasName(text, firsts, n))
  }

  /** Location `id` stands for a function of the symbol's name. */
  ghost predicate Locates(text: Text, firsts: seq<Symbol>, id: nat, s: Symbol) {
    1 <= id <= |firsts| && Name(text, firsts[id - 1]) == Name(text, s)
  }

  ghost predicate LocatesAll(text: Text, firsts: seq<Symbol>, ids: seq<nat>, symbols: seq<Symbol>) {
    && |ids| == |symbols|
    && forall i :: 0 <= i < |ids| ==> Locates(text, firsts, ids[i], symbols[i])
  }

  lemma {:induction false} LocatesAllGrows(text: Text, a: seq<Symbol>, b: seq<Symbol>, ids: seq<nat>, symbols: seq<Symbol>)
    requires LocatesAll(text, FirstNamed(text, a), ids, symbols)
    ensures LocatesAll(text, FirstNamed(text, a + b), ids, symbols)
  {
    FirstNamedGrows(text, a, b);
  }

  /** One symbol of one frame: its location, found or made. */
  method Intern(text: Text, ghost strTbl: seq<string>, strings: map<string, nat>, t: Tables, ghost before: seq<Symbol>, symbol: Symbol)
    returns (t': Tables, id: nat)
    requires Tabulate(text, strTbl, t, FirstNamed(text, before))
    requires Indexes(strings, strTbl) && SymbolStrings(text, symbol) <= strings.Keys
    ensures Tabulate(text, strTbl, t', FirstNamed(text, before + [symbol]))
    ensures Locates(text, FirstNamed(text, before + [symbol]), id, symbol)
  {
    ghost var firsts := FirstNamed(text, before);
    assert (before + [symbol])[..|before|] == before;
    var name := Name(text, symbol);
    if name in t.functions {
      return t, t.functions[name];
    }
    assert !HasName(text, firsts, name);
    assert name in SymbolStrings(text, symbol);
    id := |t.fnTbl| + 1;
    var f := Function(id, strings[name], strings[SysName(text, symbol)], strings[Filename(text, symbol)]);
    var loc := Location(id, [Line(id, Lineno(symbol))]);
    t' := Tables(t.functions[name := id], t.fnTbl + [f], t.locTbl + [loc]);
    assert FirstNamed(text, before + [symbol]) == firsts + [symbol];
    TabulateNext(text, strTbl, t, firsts, f, symbol);
  }

  lemma {:induction false} TabulateNext(
    text: Text, strTbl: seq<string>, t: Tables, firsts: seq<Symbol>, f: Function, symbol: Symbol)
    requires Tabulate(text, strTbl, t, firsts) && !HasName(text, firsts, Name(text, symbol))
    requires f.id == |firsts| + 1 && FunctionShows(text, strTbl, f, symbol)
    ensures Tabulate(text, strTbl,
                     Tables(t.functions[Name(text, symbol) := f.id], t.fnTbl + [f],
                            t.locTbl + [Location(f.id, [Line(f.id, Lineno(symbol))])]),
                     firsts + [symbol])
  {
    var name := Name(text, symbol);
    var functions := t.functions[name := f.id];
    forall n | n in functions ensures HasName(text, firsts + [symbol], n) {
      HasNameAppend(text, firsts, symbol, n);
    }
  }

  // ---- Samples ----

  /** All symbols of one row, in frame order. */
  method InternStack(
    text: Text, ghost strTbl: seq<string>, strings: map<string, nat>, t: Tables, ghost before: seq<Symbol>, frames: seq<seq<Symbol>>)
    returns (t': Tables, locs: seq<nat>)
    requires Tabulate(text, strTbl, t, FirstNamed(text, before))
    requires Indexes(strings, strTbl) && StringsOf(text, Flattened(frames)) <= strings.Keys
    ensures Tabulate(text, strTbl, t', FirstNamed(text, before + Flattened(frames)))
    ensures LocatesAll(text, FirstNamed(text, before + Flattened(frames)), locs, Flattened(frames))
  {
    hide Tabulate, Indexes, FirstNamed, SymbolStrings, Locates, Name;
    t', locs := t, [];
    ghost var done: seq<Symbol> := [];
    assert before + done == before;
    for i := 0 to |frames|
      invariant done == Flattened(frames[..i])
      invariant Tabulate(text, strTbl, t', FirstNamed(text, before + done))
      invariant LocatesAll(text, FirstNamed(text, before + done), locs, done)
    {
      for j := 0 to |frames[i]|
        invariant done == Flattened(frames[..i]) + frames[i][..j]
        invariant Tabulate(text, strTbl, t', FirstNamed(text, before + done))
        invariant LocatesAll(text, FirstNamed(text, before + done), locs, done)
      {
        var symbol, id := frames[i][j], 0;
        SymbolsHaveStrings(text, frames, i, j);
        t', id := Intern(text, strTbl, strings, t', before + done, symbol);
        LocatesAllGrows(text, before + done, [symbol], locs, done);
        assert before + done + [symbol] == before + (done + [symbol]);
        locs := locs + [id];
        done := done + [symbol];
      }
      FlattenedNext(frames, i);
    }
    assert frames[..|frames|] == frames;
  }

  lemma {:induction false} SymbolsHaveStrings(text: Text, frames: seq<seq<Symbol>>, i: nat, j: nat)
    requires i < |frames| && j < |frames[i]|
    ensures SymbolStrings(text, frames[i][j]) <= StringsOf(text, Flattened(frames))
  {
    if i == |frames| - 1 {
      StringsOfEach(text, frames[i], j);
      StringsOfConcat(text, Flattened(frames[..i]), frames[i]);
    } else {
      SymbolsHaveStrings(text, frames[..|frames| - 1], i, j);
      StringsOfConcat(text, Flattened(frames[..|frames| - 1]), frames[|frames| - 1]);
    }
  }

  /** Rust's panics in the profile's divisions: by zero, and of the least i64 by minus one. */
  predicate Divides(frequency: int, counts: seq<Entry<Frames>>) {
    && frequency != 0
    && (frequency == -1 ==> forall row :: row in counts ==> Wrap(row.count * 1_000_000_000) != ISIZE_MIN)
  }

  /** The second value of a sample: its CPU time in nanoseconds. */
  function TimeValue(count: Isize, frequency: int): (t: Isize)
    requires frequency != 0 && (frequency == -1 ==> Wrap(count * 1_000_000_000) != ISIZE_MIN)
  {
    TruncDivFits(Wrap(count * 1_000_000_000), frequency);
    TruncDiv(Wrap(count * 1_000_000_000), frequency)
  }

  lemma {:induction false} TruncDivFits(n: Isize, d: int)
    requires d != 0 && (d == -1 ==> n != ISIZE_MIN)
    ensures ISIZE_MIN <= TruncDiv(n, d) <= ISIZE_MAX
  {
  }

  /** The sample shows the row's stack, thread, count and time. */
  ghost predicate SampleShows(
    text: Text, strTbl: seq<string>, firsts: seq<Symbol>, s: Sample, row: Entry<Frames>, frequency: int)
    requires Divides(frequency, [row])
  {
    && LocatesAll(text, firsts, s.locationId, Flattened(row.item.frames))
    && s.value == [row.count, TimeValue(row.count, frequency)]
    && |s.labels| == 1
    && s.labels[0].key < |strTbl| && strTbl[s.labels[0].key] == THREAD
    && s.labels[0].str < |strTbl| && strTbl[s.labels[0].str] == ThreadNameOrId(row.item)
  }

  method WriteSample(
    text: Text, ghost strTbl: seq<string>, strings: map<string, nat>, t: Tables, ghost before: seq<Symbol>, row: Entry<Frames>, frequency: int)
    returns (t': Tables, sample: Sample)
    requires Tabulate(text, strTbl, t, FirstNamed(text, before))
    requires Indexes(strings, strTbl) && RowStrings(text, row.item) + {THREAD} <= strings.Keys && Divides(frequency, [row])
    ensures var after := FirstNamed(text, before + Flattened(row.item.frames));
            Tabulate(text, strTbl, t', after) && SampleShows(text, strTbl, after, sample, row, frequency)
  {
    hide Tabulate, FirstNamed, LocatesAll, TimeValue, StringsOf;
    var locs;
    t', locs := InternStack(text, strTbl, strings, t, before, row.item.frames);
    assert THREAD in strings && ThreadNameOrId(row.item) in strings;
    var threadName := Label(strings[THREAD], strings[ThreadNameOrId(row.item)]);
    sample := Sample(locs, [row.count, TimeValue(row.count, frequency)], [threadName]);
  }

  lemma {:induction false} SampleShowsGrows(
    text: Text, strTbl: seq<string>, a: seq<Symbol>, b: seq<Symbol>, s: Sample, row: Entry<Frames>, frequency: int)
    requires Divides(frequency, [row]) && SampleShows(text, strTbl, FirstNamed(text, a), s, row, frequency)
    ensures SampleShows(text, strTbl, FirstNamed(text, a + b), s, row, frequency)
  {
    LocatesAllGrows(text, a, b, s.locationId, Flattened(row.item.frames));
  }

  method WriteSamples(text: Text, ghost strTbl: seq<string>, strings: map<string, nat>, rows: seq<Entry<Frames>>, frequency: int)
    returns (t: Tables, samples: seq<Sample>)
    requires Indexes(strings, strTbl) && Needed(text, rows) <= strings.Keys && Divides(frequency, rows)
    ensures Tabulate(text, strTbl, t, FirstNamed(text, AllSymbols(rows)))
    ensures |samples| == |rows|
    ensures forall i :: 0 <= i < |rows| ==>
              SampleShows(text, strTbl, FirstNamed(text, AllSymbols(rows)), samples[i], rows[i], frequency)
  {
    hide Tabulate, FirstNamed, SampleShows, Indexes, AllStrings, RowStrings;
    t, samples := Tables(map[], [], []), [];
    NothingTabulated(text, strTbl);
    for i := 0 to |rows|
      invariant Tabulate(text, strTbl, t, FirstNamed(text, AllSymbols(rows[..i])))
      invariant |samples| == i
      invariant forall k :: 0 <= k < i ==>
                  SampleShows(text, strTbl, FirstNamed(text, AllSymbols(rows[..i])), samples[k], rows[k], frequency)
    {
      ghost var before := AllSymbols(rows[..i]);
      assert rows[..i + 1][..i] == rows[..i];
      StringsOfRow(text, rows, i);
      var sample;
      t, sample := WriteSample(text, strTbl, strings, t, before, rows[i], frequency);
      forall k | 0 <= k < i
        ensures SampleShows(text, strTbl, FirstNamed(text, AllSymbols(rows[..i + 1])), samples[k], rows[k], frequency)
      {
        SampleShowsGrows(text, strTbl, before, Flattened(rows[i].item.frames), samples[k], rows[k], frequency);
      }
      samples := samples + [sample];
    }
    assert rows[..|rows|] == rows;
  }

  lemma {:induction false} NothingTabulated(text: Text, strTbl: seq<string>)
    ensures Tabulate(text, strTbl, Tables(map[], [], []), FirstNamed(text, AllSymbols([])))
  {
  }

  // ---- The profile ----

  /** What a reader of the profile recovers: the report's rows in the order they were visited, and for
      every function name the system name, file and line of the first symbol that has it. */
  ghost predicate Encodes(p: Profile, text: Text, rows: seq<Entry<Frames>>, timing: ReportTiming)
    requires Divides(timing.frequency, rows)
  {
    && p.WellFormed()
    && TableOf(p.stringTable, Needed(text, rows))
    && |p.samples| == |rows|
    && (forall i :: 0 <= i < |rows| ==> SampleEncodes(p, p.samples[i], text, rows[i], timing.frequency))
    && |p.functions| == |FirstNamed(text, AllSymbols(rows))|
    && (forall j :: 0 <= j < |p.functions| ==>
          FunctionEncodes(p, j, text, FirstNamed(text, AllSymbols(rows))[j]))
    && |p.sampleType| == 2
    && p.TypeAt(p.sampleType[0]) == (SAMPLES, COUNT)
    && p.TypeAt(p.sampleType[1]) == p.TypeAt(p.periodType) == (CPU, NANOSECONDS)
    && p.period == TruncDiv(1_000_000_000, timing.frequency)
    && p.timeNanos == Wrap(timing.startTime) && p.durationNanos == Wrap(timing.duration)
  }

  ghost predicate SampleEncodes(p: Profile, s: Sample, text: Text, row: Entry<Frames>, frequency: int)
    requires p.WellFormed() && s in p.samples && Divides(frequency, [row])
  {
    && p.Stack(s) == NamesOf(text, Flattened(row.item.frames))
    && p.Labels(s) == [(THREAD, ThreadNameOrId(row.item))]
    && s.value == [row.count, TimeValue(row.count, frequency)]
  }

  ghost predicate FunctionEncodes(p: Profile, j: nat, text: Text, s: Symbol)
    requires p.WellFormed() && j < |p.functions|
  {
    && FunctionShows(text, p.stringTable, p.functions[j], s)
    && p.locations[j].line == [Line(j + 1, Lineno(s))]
  }

  // ---- What a reader makes of it, field by field ----

  /** Following the location and its only line leads to a function called what the symbol's bytes demangle to. */
  ghost predicate NameReads(p: Profile, text: Text, id: nat, s: Symbol) {
    && 1 <= id <= |p.locations| && p.locations[id - 1].id == id && |p.locations[id - 1].line| == 1
    && var fid := p.locations[id - 1].line[0].functionId;
       && 1 <= fid <= |p.functions| && p.functions[fid - 1].id == fid
       && p.functions[fid - 1].name < |p.stringTable|
       && match s.name
          case Some(raw) => p.stringTable[p.functions[fid - 1].name] == text.demangle(text.lossy(raw))
          case None =>
            p.stringTable[p.functions[fid - 1].name] == text.demangle(text.lossy([85, 110, 107, 110, 111, 119, 110]))
  }

  /** The sample shows the row: its stack in frame order, its thread and its count. */
  ghost predicate SampleReads(p: Profile, text: Text, s: Sample, row: Entry<Frames>) {
    var symbols := Flattened(row.item.frames);
    && |s.locationId| == |symbols| && (forall k :: 0 <= k < |symbols| ==> NameReads(p, text, s.locationId[k], symbols[k]))
    && |s.value| == 2 && s.value[0] == row.count
    && |s.labels| == 1 && s.labels[0].key < |p.stringTable| && s.labels[0].str < |p.stringTable|
    && p.stringTable[s.labels[0].key] == "thread"
    && p.stringTable[s.labels[0].str] == if row.item.threadName != "" then row.item.threadName else Numeral(row.item.threadId)
  }

  /** Function and location `j` show the symbol's bytes undemangled, its file and its line. */
  ghost predicate DetailsRead(p: Profile, text: Text, j: nat, s: Symbol)
    requires j < |p.functions| && j < |p.locations|
  {
    var f, l := p.functions[j], p.locations[j];
    && f.systemName < |p.stringTable| && f.filename < |p.stringTable| && |l.line| == 1
    && (match s.name
        case Some(raw) => p.stringTable[f.systemName] == text.lossy(raw)
        case None => p.stringTable[f.systemName] == text.lossy([85, 110, 107, 110, 111, 119, 110]))
    && (match s.filename
        case Some(file) => p.stringTable[f.filename] == text.lossy(file)
        case None => p.stringTable[f.filename] == "Unknown")
    && match s.lineno
       case Some(n) => l.line[0].line == n
       case None => l.line[0].line == 0
  }

  /** Function `j` shows the first symbol of its name. */
  ghost predicate FunctionReads(p: Profile, text: Text, symbols: seq<Symbol>, j: nat)
    requires j < |p.functions| && j < |p.locations|
  {
    && p.functions[j].name < |p.stringTable|
    && exists q: nat :: FirstShown(p, text, symbols, j, q)
  }

  ghost predicate FirstShown(p: Profile, text: Text, symbols: seq<Symbol>, j: nat, q: nat)
    requires j < |p.functions| && j < |p.locations| && p.functions[j].name < |p.stringTable|
  {
    var name := p.stringTable[p.functions[j].name];
    && q < |symbols| && DetailsRead(p, text, j, symbols[q]) && IsShownAs(text, symbols[q], [name])
    && forall r :: 0 <= r < q ==> !IsShownAs(text, symbols[r], [name])
  }

  ghost predicate TypeReads(p: Profile, t: ValueType, ty: string, unit: string) {
    t.ty < |p.stringTable| && t.unit < |p.stringTable| && p.stringTable[t.ty] == ty && p.stringTable[t.unit] == unit
  }

  ghost predicate Reads(p: Profile, text: Text, rows: seq<Entry<Frames>>) {
    && |p.samples| == |rows| && (forall i :: 0 <= i < |rows| ==> SampleReads(p, text, p.samples[i], rows[i]))
    && |p.locations| == |p.functions|
    && (forall j :: 0 <= j < |p.functions| ==> FunctionReads(p, text, AllSymbols(rows), j))
    && |p.sampleType| == 2 && TypeReads(p, p.sampleType[0], "samples", "count")
    && TypeReads(p, p.sampleType[1], "cpu", "nanoseconds") && TypeReads(p, p.periodType, "cpu", "nanoseconds")
  }

  lemma {:induction false} ShownAsName(text: Text, s: Symbol, name: string)
    ensures IsShownAs(text, s, [name]) <==> Name(text, s) == name
  {
  }

  lemma {:induction false} NameIsRead(p: Profile, text: Text, id: nat, s: Symbol)
    requires p.WellFormed() && 1 <= id <= |p.locations| && p.NameAt(id) == Name(text, s)
    ensures NameReads(p, text, id, s)
  {
    assert p.LocationOk(id - 1);
    assert p.FunctionOk(p.locations[id - 1].line[0].functionId - 1);
  }

  lemma {:induction false} SampleIsRead(p: Profile, text: Text, s: Sample, row: Entry<Frames>, frequency: int)
    requires p.WellFormed() && s in p.samples && Divides(frequency, [row])
    requires SampleEncodes(p, s, text, row, frequency)
    ensures SampleReads(p, text, s, row)
  {
    hide TimeValue, Name, Profile.TablesOk, Profile.TypesOk, NameReads;
    var symbols := Flattened(row.item.frames);
    assert p.SampleOk(s);
    assert |p.Stack(s)| == |NamesOf(text, symbols)|;
    forall k | 0 <= k < |symbols| ensures NameReads(p, text, s.locationId[k], symbols[k]) {
      assert p.Stack(s)[k] == NamesOf(text, symbols)[k];
      NameIsRead(p, text, s.locationId[k], symbols[k]);
    }
    assert p.Labels(s)[0] == (THREAD, ThreadNameOrId(row.item));
    assert s.labels[0] in s.labels;
  }

  lemma {:induction false} FunctionIsRead(p: Profile, text: Text, symbols: seq<Symbol>, j: nat)
    requires p.WellFormed() && j < |p.functions| && j < |FirstNamed(text, symbols)|
    requires FunctionEncodes(p, j, text, FirstNamed(text, symbols)[j])
    ensures FunctionReads(p, text, symbols, j)
  {
    hide Name, Profile.WellFormed, FirstNamed;
    var s := FirstNamed(text, symbols)[j];
    FirstNamedMeaning(text, symbols, "");
    var q: nat :| FirstAt(text, symbols, s, q);
    DetailsAreRead(p, text, j, s);
    var name := p.stringTable[p.functions[j].name];
    ShownAsName(text, s, name);
    forall r | 0 <= r < q ensures !IsShownAs(text, symbols[r], [name]) {
      ShownAsName(text, symbols[r], name);
    }
    assert FirstShown(p, text, symbols, j, q);
  }

  lemma {:induction false} DetailsAreRead(p: Profile, text: Text, j: nat, s: Symbol)
    requires p.WellFormed() && j < |p.functions| && FunctionEncodes(p, j, text, s)
    ensures j < |p.locations| && DetailsRead(p, text, j, s)
  {
    assert p.LocationOk(j) && p.FunctionOk(j);
  }

  /** What is encoded is what is read. */
  lemma {:induction false} EncodedIsRead(p: Profile, text: Text, rows: seq<Entry<Frames>>, timing: ReportTiming)
    requires Divides(timing.frequency, rows) && Encodes(p, text, rows, timing)
    ensures Reads(p, text, rows)
  {
    hide SampleEncodes, SampleReads, FunctionReads, FunctionEncodes, FirstNamed, AllSymbols, TableOf, Profile.SampleOk;
    forall i | 0 <= i < |rows| ensures SampleReads(p, text, p.samples[i], rows[i]) {
      SampleIsRead(p, text, p.samples[i], rows[i], timing.frequency);
    }
    forall j | 0 <= j < |p.functions| ensures FunctionReads(p, text, AllSymbols(rows), j) {
      FunctionIsRead(p, text, AllSymbols(rows), j);
    }
    assert p.sampleType[0] in p.sampleType && p.sampleType[1] in p.sampleType;
  }

  /** The string table has the strings of the labels and symbols and those of the value types, and no others. */
  lemma {:induction false} NeededMeaning(text: Text, rows: seq<Entry<Frames>>, str: string)
    ensures str in Needed(text, rows)
            <==> || str in {"samples", "count", "cpu", "nanoseconds", "thread"}
                 || (exists row :: row in rows && str == ThreadNameOrId(row.item))
                 || exists s :: s in AllSymbols(rows) && str in {Name(text, s), SysName(text, s), Filename(text, s)}
  {
    RowStringsMeaning(text, rows, str);
  }

  lemma {:induction false} RowStringsMeaning(text: Text, rows: seq<Entry<Frames>>, str: string)
    ensures str in AllStrings(text, rows)
            <==> || (exists row :: row in rows && str == ThreadNameOrId(row.item))
                 || exists s :: s in AllSymbols(rows) && str in {Name(text, s), SysName(text, s), Filename(text, s)}
  {
    hide Name, SysName, Filename;
    if rows != [] {
      var front, last := rows[..|rows| - 1], rows[|rows| - 1];
      RowStringsMeaning(text, front, str);
      StringsOfMeaning(text, Flattened(last.item.frames), str);
      assert last in rows && forall row :: row in front ==> row in rows;
    }
  }

  lemma {:induction false} StringsOfMeaning(text: Text, symbols: seq<Symbol>, str: string)
    ensures str in StringsOf(text, symbols)
            <==> exists s :: s in symbols && str in {Name(text, s), SysName(text, s), Filename(text, s)}
  {
    hide Name, SysName, Filename;
    if symbols != [] {
      StringsOfMeaning(text, symbols[..|symbols| - 1], str);
      assert symbols[|symbols| - 1] in symbols;
    }
  }

  method WriteProfile(text: Text, rows: seq<Entry<Frames>>, timing: ReportTiming) returns (p: Profile)
    requires Divides(timing.frequency, rows)
    ensures Encodes(p, text, rows, timing) && Reads(p, text, rows)
  {
    hide Reads, Tabulate, FirstNamed, SampleShows, SampleEncodes, FunctionEncodes, TimeValue, TruncDiv, Wrap, Name, AllStrings,
      AllSymbols, Profile.TablesOk, Profile.SampleOk, TableOf;
    var dedupStr := DedupStrings(text, rows);
    var strTbl := StringTable(dedupStr);
    TableHas(strTbl, dedupStr);
    var strings := IndexStrings(strTbl);
    var t, samples := WriteSamples(text, strTbl, strings, rows, timing.frequency);
    var samplesValue := ValueType(strings[SAMPLES], strings[COUNT]);
    var timeValue := ValueType(strings[CPU], strings[NANOSECONDS]);
    TruncDivFits(1_000_000_000, timing.frequency);
    p := Profile([samplesValue, timeValue], samples, t.locTbl, t.fnTbl, strTbl,
                 Wrap(timing.startTime), Wrap(timing.duration), timeValue, TruncDiv(1_000_000_000, timing.frequency));
    TablesWritten(p, t, text, rows, timing.frequency);
    EncodedIsRead(p, text, rows, timing);
  }

  /** Well-formed tables that a reader resolves to the symbols and rows they were written for. */
  lemma {:induction false} TablesWritten(p: Profile, t: Tables, text: Text, rows: seq<Entry<Frames>>, frequency: int)
    requires Divides(frequency, rows)
    requires p.TypesOk() && p.functions == t.fnTbl && p.locations == t.locTbl && |p.samples| == |rows| && |p.sampleType| == 2
    requires Tabulate(text, p.stringTable, t, FirstNamed(text, AllSymbols(rows)))
    requires forall i :: 0 <= i < |rows| ==>
              SampleShows(text, p.stringTable, FirstNamed(text, AllSymbols(rows)), p.samples[i], rows[i], frequency)
    ensures p.WellFormed()
    ensures forall i :: 0 <= i < |rows| ==> SampleEncodes(p, p.samples[i], text, rows[i], frequency)
    ensures |p.functions| == |FirstNamed(text, AllSymbols(rows))|
    ensures forall j :: 0 <= j < |p.functions| ==>
              FunctionEncodes(p, j, text, FirstNamed(text, AllSymbols(rows))[j])
  {
    hide Tabulate, FirstNamed, SampleShows, SampleEncodes, FunctionEncodes, Name, Profile.TablesOk, Profile.SampleOk;
    var firsts := FirstNamed(text, AllSymbols(rows));
    FirstNamedMeaning(text, AllSymbols(rows), "");
    TablesAreOk(p, t, text, firsts);
    forall i | 0 <= i < |rows| ensures p.SampleOk(p.samples[i]) {
      SampleIsOk(p, p.samples[i], text, firsts, rows[i], frequency);
    }
    FunctionsEncoded(p, t, text, firsts);
    forall i | 0 <= i < |rows| ensures SampleEncodes(p, p.samples[i], text, rows[i], frequency) {
      ShownIsEncoded(p, t, p.samples[i], text, firsts, rows[i], frequency);
    }
  }

  lemma {:induction false} TablesAreOk(p: Profile, t: Tables, text: Text, firsts: seq<Symbol>)
    requires p.functions == t.fnTbl && p.locations == t.locTbl
    requires Tabulate(text, p.stringTable, t, firsts)
    requires forall i, j :: 0 <= i < j < |firsts| ==> Name(text, firsts[i]) != Name(text, firsts[j])
    ensures p.TablesOk() && |firsts| == |p.locations|
  {
  }

  lemma {:induction false} SampleIsOk(
    p: Profile, s: Sample, text: Text, firsts: seq<Symbol>, row: Entry<Frames>, frequency: int)
    requires Divides(frequency, [row]) && |firsts| == |p.locations| && |p.sampleType| == 2
    requires SampleShows(text, p.stringTable, firsts, s, row, frequency)
    ensures p.SampleOk(s)
  {
  }

  lemma {:induction false} ShownIsEncoded(
    p: Profile, t: Tables, s: Sample, text: Text, firsts: seq<Symbol>, row: Entry<Frames>, frequency: int)
    requires Divides(frequency, [row]) && p.WellFormed() && s in p.samples
    requires p.functions == t.fnTbl && p.locations == t.locTbl
    requires Tabulate(text, p.stringTable, t, firsts)
    requires SampleShows(text, p.stringTable, firsts, s, row, frequency)
    ensures SampleEncodes(p, s, text, row, frequency)
  {
    hide TimeValue, Name, Profile.WellFormed;
    var symbols := Flattened(row.item.frames);
    forall i | 0 <= i < |s.locationId| ensures p.Stack(s)[i] == NamesOf(text, symbols)[i] {
      LocationNames(p, t, text, firsts, s.locationId[i], symbols[i]);
    }
  }

  lemma {:induction false} LocationNames(p: Profile, t: Tables, text: Text, firsts: seq<Symbol>, id: nat, symbol: Symbol)
    requires p.WellFormed() && p.functions == t.fnTbl && p.locations == t.locTbl
    requires Tabulate(text, p.stringTable, t, firsts) && Locates(text, firsts, id, symbol)
    ensures p.NameAt(id) == Name(text, symbol)
  {
  }

  lemma {:induction false} FunctionsEncoded(p: Profile, t: Tables, text: Text, firsts: seq<Symbol>)
    requires p.WellFormed() && p.functions == t.fnTbl && p.locations == t.locTbl
    requires Tabulate(text, p.stringTable, t, firsts)
    ensures |p.functions| == |firsts|
    ensures forall j :: 0 <= j < |p.functions| ==> FunctionEncodes(p, j, text, firsts[j])
  {
  }

  lemma {:induction false} TableHas(strTbl: seq<string>, needed: set<string>)
    requires TableOf(strTbl, needed)
    ensures |strTbl| > 0 && strTbl[0] == "" && forall s :: s in needed ==> s in strTbl
  {
  }

  // ---- Values ----

  /** The sum over all samples of one of their values. */
  ghost function SumOfValues(samples: seq<Sample>, which: nat): int
    requires forall s :: s in samples ==> which < |s.value|
  {
    if samples == [] then 0
    else SumOfValues(samples[..|samples| - 1], which) + samples[|samples| - 1].value[which]
  }

  /** The samples' counts sum to the report's total. */
  lemma {:induction false} CountsAddUp(p: Profile, text: Text, rows: seq<Entry<Frames>>, timing: ReportTiming)
    requires Divides(timing.frequency, rows) && Encodes(p, text, rows, timing)
    ensures forall s :: s in p.samples ==> |s.value| == 2
    ensures SumOfValues(p.samples, 0) == Grand(rows)
  {
    forall s | s in p.samples ensures |s.value| == 2 {
      assert p.SampleOk(s);
    }
    forall i | 0 <= i < |rows| ensures p.samples[i].value[0] == rows[i].count {
      assert SampleEncodes(p, p.samples[i], text, rows[i], timing.frequency);
    }
    SumOfCounts(p.samples, rows);
  }

  lemma {:induction false} SumOfCounts(samples: seq<Sample>, rows: seq<Entry<Frames>>)
    requires |samples| == |rows| && forall s :: s in samples ==> |s.value| == 2
    requires forall i :: 0 <= i < |rows| ==> samples[i].value[0] == rows[i].count
    ensures SumOfValues(samples, 0) == Grand(rows)
  {
    if rows != [] {
      SumOfCounts(samples[..|samples| - 1], rows[..|rows| - 1]);
    }
  }

  function Counts(rows: seq<Entry<Frames>>): (counts: seq<nat>)
    requires forall i :: 0 <= i < |rows| ==> rows[i].count >= 0
    ensures |counts| == |rows| && forall i :: 0 <= i < |rows| ==> counts[i] == rows[i].count
  {
    if rows == [] then [] else Counts(rows[..|rows| - 1]) + [rows[|rows| - 1].count]
  }

  /** Without overflow, a sample's time lies within one nanosecond per count of its count times the
      profile's period, and all times sum to the total's time less at most a nanosecond per sample. */
  lemma {:induction false} TimesFollowCounts(p: Profile, text: Text, rows: seq<Entry<Frames>>, timing: ReportTiming)
    requires Divides(timing.frequency, rows) && Encodes(p, text, rows, timing) && timing.frequency > 0
    requires forall i :: 0 <= i < |rows| ==> CountFits(rows[i])
    ensures forall s :: s in p.samples ==> |s.value| == 2
    ensures forall i :: 0 <= i < |rows| ==> TimeFollows(p.samples[i].value[1], rows[i].count, p.period)
    ensures Grand(rows) >= 0
    ensures rows != [] ==> SumOfValues(p.samples, 1) <= CpuTime(Grand(rows), timing.frequency)
                                                     < SumOfValues(p.samples, 1) + |rows|
  {
    hide CpuTime, TimeValue, TruncDiv, Name, TableOf, FunctionEncodes, Profile.TablesOk, Profile.TypesOk;
    CountsAddUp(p, text, rows, timing);
    forall i | 0 <= i < |rows|
      ensures p.samples[i].value[1] == TimeValue(rows[i].count, timing.frequency)
    {
      assert SampleEncodes(p, p.samples[i], text, rows[i], timing.frequency);
    }
    TimesOfSamples(p.samples, rows, timing.frequency, p.period);
  }

  ghost predicate CountFits(row: Entry<Frames>) {
    0 < row.count && row.count * 1_000_000_000 <= ISIZE_MAX
  }

  /** The time lies within one nanosecond per count of the count times the period. */
  ghost predicate TimeFollows(time: int, count: int, period: int) {
    count * period <= time < count * (period + 1)
  }

  lemma {:induction false} TimesOfSamples(samples: seq<Sample>, rows: seq<Entry<Frames>>, frequency: nat, period: int)
    requires frequency > 0 && period == TruncDiv(1_000_000_000, frequency)
    requires |samples| == |rows| && forall s :: s in samples ==> |s.value| == 2
    requires forall i :: 0 <= i < |rows| ==> CountFits(rows[i]) && samples[i].value[1] == TimeValue(rows[i].count, frequency)
    ensures forall i :: 0 <= i < |rows| ==> TimeFollows(samples[i].value[1], rows[i].count, period)
    ensures Grand(rows) >= 0
    ensures rows != [] ==> SumOfValues(samples, 1) <= CpuTime(Grand(rows), frequency) < SumOfValues(samples, 1) + |rows|
  {
    hide CpuTime, TimeValue, TruncDiv, TimeFollows;
    forall i | 0 <= i < |rows|
      ensures samples[i].value[1] == CpuTime(rows[i].count, frequency)
      ensures TimeFollows(samples[i].value[1], rows[i].count, period)
    {
      TimeWithinPeriods(rows[i].count, frequency);
    }
    SumOfTimesIs(samples, rows, frequency);
    TimesAddUp(Counts(rows), frequency);
  }

  lemma {:induction false} TimeWithinPeriods(count: Isize, frequency: nat)
    requires 0 < count && count * 1_000_000_000 <= ISIZE_MAX && frequency > 0
    ensures var period := TruncDiv(1_000_000_000, frequency);
            && TimeValue(count, frequency) == CpuTime(count, frequency)
            && TimeFollows(TimeValue(count, frequency), count, period)
  {
    TimeMatchesPeriod(count, frequency);
  }

  lemma {:induction false} SumOfTimesIs(samples: seq<Sample>, rows: seq<Entry<Frames>>, frequency: nat)
    requires frequency > 0 && |samples| == |rows| && forall s :: s in samples ==> |s.value| == 2
    requires forall i :: 0 <= i < |rows| ==>
              rows[i].count >= 0 && samples[i].value[1] == CpuTime(rows[i].count, frequency)
    ensures SumOfValues(samples, 1) == SumOfTimes(Counts(rows), frequency)
    ensures Sum(Counts(rows)) == Grand(rows)
  {
    hide CpuTime;
    if rows != [] {
      SumOfTimesIs(samples[..|samples| - 1], rows[..|rows| - 1], frequency);
      assert Counts(rows)[..|rows| - 1] == Counts(rows[..|rows| - 1]);
    }
  }
}
