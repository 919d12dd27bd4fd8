/** Backtraces before and after symbolisation: their equality, their hash, and the resolving loop. */
module Frames {
  import opened Outcomes
  import opened Bytes
  import opened Decimal

  const MAX_THREAD_NAME: nat := 16

  /** The deepest stack a sample holds; its frame vector stays inline up to this length. */
  type Depth = n: nat | 0 < n <= 0xFFFF witness 1
  const MAX_DEPTH: Depth

  // ---- Unresolved ----

  datatype Frame = Frame(ip: Word, symbolAddress: Word)

  datatype SampleRecord = SampleRecord(
    frames: seq<Frame>, threadName: seq<Byte>, threadNameLength: nat, threadId: Word, sampleTimestamp: Word)

  predicate Inline(u: SampleRecord) {
    |u.frames| <= MAX_DEPTH && |u.threadName| == MAX_THREAD_NAME && u.threadNameLength <= MAX_THREAD_NAME
  }

  const BLANK: SampleRecord := SampleRecord([], seq(16, _ => 0), 0, 0, 0)

  type UnresolvedFrames = u: SampleRecord | Inline(u) witness BLANK

  /** A sample copies the thread name into a fixed buffer and pads it with zeros. */
  function NewUnresolved(frames: seq<Frame>, tn: seq<Byte>, threadId: Word, timestamp: Word): (u: UnresolvedFrames)
    requires |frames| <= MAX_DEPTH && |tn| <= MAX_THREAD_NAME
    ensures u.frames == frames && u.threadId == threadId && u.sampleTimestamp == timestamp
    ensures u.threadNameLength == |tn| && u.threadName[..u.threadNameLength] == tn
    ensures forall j :: |tn| <= j < MAX_THREAD_NAME ==> u.threadName[j] == 0
  {
    SampleRecord(frames, tn + seq(MAX_THREAD_NAME - |tn|, _ => 0), |tn|, threadId, timestamp)
  }

  /** The custom equality of samples. */
  predicate SameSample(u: UnresolvedFrames, v: UnresolvedFrames) {
    if u.threadId != v.threadId || |u.frames| != |v.frames| then false
    else forall i :: 0 <= i < |u.frames| ==> u.frames[i].symbolAddress == v.frames[i].symbolAddress
  }

  /** The words fed to the hasher. */
  function HashFeed(u: UnresolvedFrames): seq<Word> {
    Addresses(u.frames) + [u.threadId]
  }

  function Addresses(frames: seq<Frame>): (a: seq<Word>)
    ensures |a| == |frames|
    ensures forall i :: 0 <= i < |frames| ==> a[i] == frames[i].symbolAddress
  {
    if frames == [] then [] else Addresses(frames[..|frames| - 1]) + [frames[|frames| - 1].symbolAddress]
  }

  /** What samples are counted by. */
  datatype StackKey = StackKey(threadId: Word, addresses: seq<Word>)

  function SampleKey(u: UnresolvedFrames): StackKey {
    StackKey(u.threadId, Addresses(u.frames))
  }

  /** The words fed to the hasher are a function of the key. */
  function KeyFeed(k: StackKey): seq<Word> {
    k.addresses + [k.threadId]
  }

  /** The custom equality is equality of keys, so it is an equivalence; the hash feed is shared by
      equal samples, and by no others. */
  lemma {:induction false} SameSampleIsSameKey(u: UnresolvedFrames, v: UnresolvedFrames)
    ensures SameSample(u, v)
            <==> u.threadId == v.threadId && |u.frames| == |v.frames|
                 && forall i :: 0 <= i < |u.frames| ==> u.frames[i].symbolAddress == v.frames[i].symbolAddress
    ensures SameSample(u, v) <==> SampleKey(u) == SampleKey(v)
    ensures SameSample(u, v) <==> HashFeed(u) == HashFeed(v)
    ensures HashFeed(u) == KeyFeed(SampleKey(u))
  {
    var a, b := Addresses(u.frames), Addresses(v.frames);
    if SameSample(u, v) {
      assert a == b;
    }
    if HashFeed(u) == HashFeed(v) {
      assert |HashFeed(u)| == |a| + 1 && |HashFeed(v)| == |b| + 1;
      assert a == HashFeed(u)[..|a|] && b == HashFeed(v)[..|b|];
      assert HashFeed(u)[|a|] == u.threadId && HashFeed(v)[|b|] == v.threadId;
    }
    if a == b {
      assert forall i :: 0 <= i < |a| ==> a[i] == b[i];
    }
  }

  /** The hasher is fed the symbol addresses, in frame order, and then the thread id. */
  lemma {:induction false} KeyFeedWords(u: UnresolvedFrames)
    ensures var ws := KeyFeed(SampleKey(u));
            && |ws| == |u.frames| + 1 && ws[|u.frames|] == u.threadId
            && forall i :: 0 <= i < |u.frames| ==> ws[i] == u.frames[i].symbolAddress
  {
    assert |Addresses(u.frames)| == |u.frames|;
  }

  // ---- Resolved ----

  datatype Symbol = Symbol(name: Option<seq<Byte>>, addr: Option<nat>, lineno: Option<nat>, filename: Option<seq<Byte>>)

  /** Text conversions taken from other crates: lossy UTF-8 decoding and demangling. */
  datatype Text = Text(lossy: seq<Byte> -> string, demangle: string -> string)

  const UNKNOWN: seq<Byte> := [85, 110, 107, 110, 111, 119, 110]

  function RawName(s: Symbol): seq<Byte> {
    if s.name.Some? then s.name.value else UNKNOWN
  }

  function Name(text: Text, s: Symbol): string {
    text.demangle(text.lossy(RawName(s)))
  }

  function SysName(text: Text, s: Symbol): string {
    text.lossy(RawName(s))
  }

  function Filename(text: Text, s: Symbol): string {
    if s.filename.Some? then text.lossy(s.filename.value) else "Unknown"
  }

  function Lineno(s: Symbol): nat {
    if s.lineno.Some? then s.lineno.value else 0
  }

  datatype Frames = Frames(frames: seq<seq<Symbol>>, threadName: string, threadId: nat, sampleTimestamp: nat)

  function ThreadNameOrId(f: Frames): (shown: string)
    ensures f.threadName != "" ==> shown == f.threadName
    ensures f.threadName == "" ==> shown == Numeral(f.threadId)
  {
    if f.threadName != "" then f.threadName else Numeral(f.threadId)
  }

  /** What resolved backtraces are counted by: symbols are compared by raw name only. */
  datatype FramesKey = FramesKey(names: seq<seq<seq<Byte>>>, threadName: string, threadId: nat, sampleTimestamp: nat)

  function RawNames(symbols: seq<Symbol>): (names: seq<seq<Byte>>)
    ensures |names| == |symbols|
    ensures forall i :: 0 <= i < |symbols| ==> names[i] == RawName(symbols[i])
  {
    if symbols == [] then [] else RawNames(symbols[..|symbols| - 1]) + [RawName(symbols[|symbols| - 1])]
  }

  function FrameNames(frames: seq<seq<Symbol>>): (names: seq<seq<seq<Byte>>>)
    ensures |names| == |frames|
    ensures forall i :: 0 <= i < |frames| ==> names[i] == RawNames(frames[i])
  {
    if frames == [] then [] else FrameNames(frames[..|frames| - 1]) + [RawNames(frames[|frames| - 1])]
  }

  function KeyOfFrames(f: Frames): FramesKey {
    FramesKey(FrameNames(f.frames), f.threadName, f.threadId, f.sampleTimestamp)
  }

  /** The derived equality of resolved backtraces, over symbols equal by raw name. */
  predicate SameFrames(f: Frames, g: Frames) {
    && |f.frames| == |g.frames|
    && (forall i :: 0 <= i < |f.frames| ==>
          && |f.frames[i]| == |g.frames[i]|
          && forall j :: 0 <= j < |f.frames[i]| ==> RawName(f.frames[i][j]) == RawName(g.frames[i][j]))
    && f.threadName == g.threadName && f.threadId == g.threadId && f.sampleTimestamp == g.sampleTimestamp
  }

  lemma {:induction false} SameFramesIsSameKey(f: Frames, g: Frames)
    ensures SameFrames(f, g) <==> KeyOfFrames(f) == KeyOfFrames(g)
    ensures SameFrames(f, g)
            <==> && f.threadName == g.threadName && f.threadId == g.threadId && f.sampleTimestamp == g.sampleTimestamp
                 && |f.frames| == |g.frames|
                 && forall i :: 0 <= i < |f.frames| ==>
                      && |f.frames[i]| == |g.frames[i]|
                      && forall j :: 0 <= j < |f.frames[i]| ==> RawName(f.frames[i][j]) == RawName(g.frames[i][j])
  {
    var a, b := FrameNames(f.frames), FrameNames(g.frames);
    if SameFrames(f, g) {
      forall i | 0 <= i < |a| ensures a[i] == b[i] {
        assert a[i] == RawNames(f.frames[i]) && b[i] == RawNames(g.frames[i]);
      }
    }
    if a == b {
      forall i | 0 <= i < |f.frames|
        ensures |f.frames[i]| == |g.frames[i]|
        ensures forall j :: 0 <= j < |f.frames[i]| ==> RawName(f.frames[i][j]) == RawName(g.frames[i][j])
      {
        assert a[i] == b[i];
        assert RawNames(f.frames[i]) == RawNames(g.frames[i]);
      }
    }
  }

  /** So backtraces whose symbols have different names are told apart. */
  lemma {:induction false} KeysTellNamesApart(f: Frames, g: Frames, i: nat, j: nat)
    requires i < |f.frames| && i < |g.frames| && j < |f.frames[i]| && j < |g.frames[i]|
    requires f.frames[i][j].name.Some? && g.frames[i][j].name.Some? && f.frames[i][j].name != g.frames[i][j].name
    ensures KeyOfFrames(f) != KeyOfFrames(g)
  {
    SameFramesIsSameKey(f, g);
  }

  /** A symbol without a name is compared as if it were called "Unknown". */
  lemma {:induction false} NamelessIsUnknown(s: Symbol)
    requires s.name == None
    ensures RawName(s) == [85, 110, 107, 110, 111, 119, 110]
  {
  }

  // ---- Resolving ----

  /** Symbol lookup: the perf map first, the unwinder's symbols otherwise. */
  datatype Resolver = Resolver(perfmap: nat -> Option<Symbol>, symbols: Frame -> seq<Symbol>, text: Text)

  function Lookup(env: Resolver, frame: Frame): seq<Symbol> {
    var p := env.perfmap(frame.ip);
    if p.Some? then [p.value] else env.symbols(frame)
  }

  predicate NamesHandler(env: Resolver, s: Symbol) {
    Name(env.text, s) == "perf_signal_handler" || Name(env.text, s) == "_perf_signal_handler"
  }

  predicate IsHandlerFrame(env: Resolver, frame: Frame) {
    exists s :: s in Lookup(env, frame) && NamesHandler(env, s)
  }

  /** Frame `i` is dropped because it follows a handler frame that was itself looked at. */
  predicate Skipped(env: Resolver, us: seq<Frame>, i: nat)
    requires i <= |us|
  {
    i > 0 && !Skipped(env, us, i - 1) && IsHandlerFrame(env, us[i - 1])
  }

  predicate Kept(env: Resolver, us: seq<Frame>, i: nat)
    requires i < |us|
  {
    !Skipped(env, us, i) && !IsHandlerFrame(env, us[i]) && Lookup(env, us[i]) != []
  }

  /** The symbols of the kept ones among the first `n` frames, in order. */
  ghost function Resolved(env: Resolver, us: seq<Frame>, n: nat): seq<seq<Symbol>>
    requires n <= |us|
  {
    if n == 0 then []
    else Resolved(env, us, n - 1) + if Kept(env, us, n - 1) then [Lookup(env, us[n - 1])] else []
  }

  ghost function ResolveSpec(env: Resolver, u: UnresolvedFrames): Frames {
    Frames(Resolved(env, u.frames, |u.frames|),
           env.text.lossy(u.threadName[..u.threadNameLength]),
           u.threadId, u.sampleTimestamp)
  }

  method AnyNamesHandler(env: Resolver, symbols: seq<Symbol>) returns (any: bool)
    ensures any <==> exists s :: s in symbols && NamesHandler(env, s)
  {
    any := false;
    for i := 0 to |symbols|
      invariant any <==> exists s :: s in symbols[..i] && NamesHandler(env, s)
    {
      assert symbols[..i + 1] == symbols[..i] + [symbols[i]];
      if NamesHandler(env, symbols[i]) {
        any := true;
      }
    }
    assert symbols[..|symbols|] == symbols;
  }

  /** `From<UnresolvedFrames>`: drops each handler frame with the frame after it, and frames without symbols. */
  method Resolve(env: Resolver, u: UnresolvedFrames) returns (f: Frames)
    ensures f == ResolveSpec(env, u)
    ensures f.threadName == env.text.lossy(u.threadName[..u.threadNameLength])
    ensures f.threadId == u.threadId && f.sampleTimestamp == u.sampleTimestamp
  {
    var us := u.frames;
    var fs := [];
    var next := 0;
    while next < |us|
      invariant next <= |us| ==> !Skipped(env, us, next) && fs == Resolved(env, us, next)
      invariant |us| < next ==> fs == Resolved(env, us, |us|)
    {
      var frame := us[next];
      next := next + 1;
      var symbols := Lookup(env, frame);
      var any := AnyNamesHandler(env, symbols);
      if any {
        next := next + 1;
        continue;
      }
      if symbols != [] {
        fs := fs + [symbols];
      }
    }
    f := Frames(fs, env.text.lossy(u.threadName[..u.threadNameLength]), u.threadId, u.sampleTimestamp);
  }

  /** No symbol of the signal handler survives, and no frame is empty. */
  lemma {:induction false} ResolvedIsClean(env: Resolver, us: seq<Frame>, n: nat)
    requires n <= |us|
    ensures forall symbols :: symbols in Resolved(env, us, n) ==>
              symbols != [] && forall s :: s in symbols ==> !NamesHandler(env, s)
  {
    if n > 0 {
      ResolvedIsClean(env, us, n - 1);
    }
  }

  /** The symbols of those frames from `m` up to `n` that have any. */
  ghost function NonEmpty(env: Resolver, us: seq<Frame>, m: nat, n: nat): seq<seq<Symbol>>
    requires n <= |us|
  {
    if n <= m then []
    else NonEmpty(env, us, m, n - 1) + if Lookup(env, us[n - 1]) != [] then [Lookup(env, us[n - 1])] else []
  }

  /** Without a handler frame, exactly the frames with symbols survive. */
  lemma {:induction false} ResolvedWithoutHandler(env: Resolver, us: seq<Frame>, m: nat, n: nat)
    requires m <= n <= |us| && !Skipped(env, us, m)
    requires forall i :: m <= i < n ==> !IsHandlerFrame(env, us[i])
    ensures Resolved(env, us, n) == Resolved(env, us, m) + NonEmpty(env, us, m, n)
    ensures !Skipped(env, us, n)
  {
    if m < n {
      ResolvedWithoutHandler(env, us, m, n - 1);
    }
  }

  lemma {:induction false} ResolvedPastHandler(env: Resolver, us: seq<Frame>, h: nat)
    requires h < |us| && IsHandlerFrame(env, us[h]) && !Skipped(env, us, h)
    ensures Resolved(env, us, h + 1) == Resolved(env, us, h)
    ensures h + 2 <= |us| ==> Resolved(env, us, h + 2) == Resolved(env, us, h) && !Skipped(env, us, h + 2)
  {
  }

  /** With one handler frame at `h`, the stack of the interrupted code is what lies two frames above
      it, preceded by whatever was below the handler. */
  lemma {:induction false} ResolvedAroundHandler(env: Resolver, us: seq<Frame>, h: nat)
    requires h < |us| && IsHandlerFrame(env, us[h])
    requires forall i :: 0 <= i < h || h + 2 <= i < |us| ==> !IsHandlerFrame(env, us[i])
    ensures Resolved(env, us, |us|) == NonEmpty(env, us, 0, h) + NonEmpty(env, us, h + 2, |us|)
  {
    ResolvedWithoutHandler(env, us, 0, h);
    ResolvedPastHandler(env, us, h);
    if h + 2 <= |us| {
      ResolvedWithoutHandler(env, us, h + 2, |us|);
    } else {
      assert |us| == h + 1;
    }
  }

  // ---- Resolving, told by the symbols alone ----

  /** Frame by frame: a marked frame goes with the one after it, an empty one goes alone. */
  ghost function Pruned(stack: seq<seq<Symbol>>, marks: seq<bool>): seq<seq<Symbol>>
    requires |stack| == |marks|
  {
    if stack == [] then []
    else if marks[0] then if |stack| == 1 then [] else Pruned(stack[2..], marks[2..])
    else (if stack[0] == [] then [] else [stack[0]]) + Pruned(stack[1..], marks[1..])
  }

  /** Some symbol goes by one of the handler's two names; a symbol without a name is called "Unknown". */
  ghost predicate ShowHandler(text: Text, symbols: seq<Symbol>) {
    exists s :: s in symbols && IsShownAs(text, s, ["perf_signal_handler", "_perf_signal_handler"])
  }

  ghost predicate IsShownAs(text: Text, s: Symbol, names: seq<string>) {
    match s.name
    case Some(raw) => text.demangle(text.lossy(raw)) in names
    case None => text.demangle(text.lossy([85, 110, 107, 110, 111, 119, 110])) in names
  }

  /** `stack` holds the symbols of the frames: the perf map's if it has one, else all that the unwinder
      finds, inlined functions included. `marks` are set at frames that name the signal handler. */
  ghost predicate Symbolizes(env: Resolver, us: seq<Frame>, stack: seq<seq<Symbol>>, marks: seq<bool>) {
    && |stack| == |marks| == |us|
    && (forall i :: 0 <= i < |us| ==>
          match env.perfmap(us[i].ip)
          case Some(s) => stack[i] == [s]
          case None => stack[i] == env.symbols(us[i]))
    && forall i :: 0 <= i < |us| ==> marks[i] == ShowHandler(env.text, stack[i])
  }

  lemma {:induction false} SymbolizesAt(env: Resolver, us: seq<Frame>, stack: seq<seq<Symbol>>, marks: seq<bool>, i: nat)
    requires Symbolizes(env, us, stack, marks) && i < |us|
    ensures stack[i] == Lookup(env, us[i]) && (marks[i] <==> IsHandlerFrame(env, us[i]))
  {
    assert stack[i] == Lookup(env, us[i]);
    forall s: Symbol ensures NamesHandler(env, s) <==>
        IsShownAs(env.text, s, ["perf_signal_handler", "_perf_signal_handler"]) {
    }
  }

  lemma {:induction false} ResolvesFrom(
    env: Resolver, us: seq<Frame>, stack: seq<seq<Symbol>>, marks: seq<bool>, m: nat)
    requires Symbolizes(env, us, stack, marks) && |stack| == |marks| == |us| && m <= |us| && !Skipped(env, us, m)
    ensures Resolved(env, us, |us|) == Resolved(env, us, m) + Pruned(stack[m..], marks[m..])
    decreases |us| - m
  {
    hide Symbolizes, Lookup, IsHandlerFrame;
    if m < |us| {
      SymbolizesAt(env, us, stack, marks, m);
      if !marks[m] {
        assert stack[m..][1..] == stack[m + 1..] && marks[m..][1..] == marks[m + 1..];
        ResolvesFrom(env, us, stack, marks, m + 1);
      } else {
        ResolvedPastHandler(env, us, m);
        if m + 2 <= |us| {
          assert stack[m..][2..] == stack[m + 2..] && marks[m..][2..] == marks[m + 2..];
          ResolvesFrom(env, us, stack, marks, m + 2);
        }
      }
    }
  }

  /** A resolved stack is the looked-up one without its handler frames, the frames after them, and the
      frames without symbols. */
  lemma {:induction false} ResolvesStack(env: Resolver, u: UnresolvedFrames, stack: seq<seq<Symbol>>, marks: seq<bool>)
    requires Symbolizes(env, u.frames, stack, marks)
    ensures ResolveSpec(env, u).frames == Pruned(stack, marks)
  {
    ResolvesFrom(env, u.frames, stack, marks, 0);
    assert stack[0..] == stack && marks[0..] == marks;
  }
}
