/** The folded lines that a flamegraph is drawn from, and how they are read back. */
module Folded {
  import opened MachineInts
  import opened Outcomes
  import opened Decimal
  import opened Tallies
  import opened Frames
  import opened Timer
  import opened Profile
  import opened Pprof

  function Reversed<T>(s: seq<T>): (r: seq<T>)
    ensures |r| == |s|
    ensures forall i :: 0 <= i < |s| ==> r[i] == s[|s| - 1 - i]
  {
    if s == [] then [] else Reversed(s[1..]) + [s[0]]
  }

  /** The pieces of a line: the thread, then the stack from the outermost frame inwards. */
  function Pieces(text: Text, f: Frames): (pieces: seq<string>)
    ensures pieces != []
  {
    [ThreadNameOrId(f)] + Reversed(NamesOf(text, Flattened(f.frames)))
  }

  function Join(pieces: seq<string>): string
    requires pieces != []
  {
    if |pieces| == 1 then pieces[0] else Join(pieces[..|pieces| - 1]) + ";" + pieces[|pieces| - 1]
  }

  function FoldedLine(text: Text, row: Entry<Frames>): string {
    Join(Pieces(text, row.item)) + " " + SignedNumeral(row.count)
  }

  // ---- Writing ----

  /** Each piece followed by its separator. */
  ghost function Terminated(pieces: seq<string>): string {
    if pieces == [] then "" else Terminated(pieces[..|pieces| - 1]) + pieces[|pieces| - 1] + ";"
  }

  lemma {:induction false} TerminatedIsJoined(pieces: seq<string>)
    requires pieces != []
    ensures Terminated(pieces) == Join(pieces) + ";"
  {
    if |pieces| > 1 {
      TerminatedIsJoined(pieces[..|pieces| - 1]);
    } else {
      assert pieces[..0] == [];
    }
  }

  lemma {:induction false} FlattenedFirst(frames: seq<seq<Symbol>>)
    requires frames != []
    ensures Flattened(frames) == frames[0] + Flattened(frames[1..])
  {
    if |frames| > 1 {
      FlattenedFirst(frames[..|frames| - 1]);
      assert frames[..|frames| - 1][1..] == frames[1..][..|frames| - 2];
    }
  }

  /** Putting a symbol before the others puts its name after theirs. */
  lemma {:induction false} ReversedNamesNext(text: Text, s: Symbol, symbols: seq<Symbol>)
    ensures Reversed(NamesOf(text, [s] + symbols)) == Reversed(NamesOf(text, symbols)) + [Name(text, s)]
  {
    assert NamesOf(text, [s] + symbols) == [Name(text, s)] + NamesOf(text, symbols);
  }

  lemma {:induction false} TerminatedNext(pieces: seq<string>, piece: string)
    ensures Terminated(pieces + [piece]) == Terminated(pieces) + piece + ";"
  {
  }

  method WriteLine(text: Text, key: Frames, value: Isize) returns (line: string)
    ensures line == FoldedLine(text, Entry(key, value))
  {
    hide Reversed, NamesOf, Flattened, Terminated, Name, ThreadNameOrId;
    line := ThreadNameOrId(key);
    line := line + ";";
    ghost var thread, done: seq<Symbol> := [ThreadNameOrId(key)], [];
    TerminatedNext([], ThreadNameOrId(key));
    NothingWritten(text);
    assert [] + [ThreadNameOrId(key)] == thread && thread + [] == thread;
    assert key.frames[|key.frames|..] == [];
    for i := |key.frames| downto 0
      invariant done == Flattened(key.frames[i..])
      invariant line == Terminated(thread + Reversed(NamesOf(text, done)))
    {
      var frame := key.frames[i];
      assert key.frames[i..][1..] == key.frames[i + 1..];
      FlattenedFirst(key.frames[i..]);
      for j := |frame| downto 0
        invariant done == frame[j..] + Flattened(key.frames[i + 1..])
        invariant line == Terminated(thread + Reversed(NamesOf(text, done)))
      {
        ghost var names := thread + Reversed(NamesOf(text, done));
        ReversedNamesNext(text, frame[j], done);
        TerminatedNext(names, Name(text, frame[j]));
        assert names + [Name(text, frame[j])] == thread + Reversed(NamesOf(text, [frame[j]] + done));
        line := line + Name(text, frame[j]) + ";";
        done := [frame[j]] + done;
      }
    }
    assert key.frames[0..] == key.frames;
    TerminatedIsJoined(Pieces(text, key));
    line := line[..|line| - 1];
    line := line + " " + SignedNumeral(value);
  }

  lemma {:induction false} NothingWritten(text: Text)
    ensures Flattened([]) == [] && Reversed(NamesOf(text, [])) == [] && Terminated([]) == ""
  {
  }

  method WriteLines(text: Text, rows: seq<Entry<Frames>>) returns (lines: seq<string>)
    ensures |lines| == |rows|
    ensures forall i :: 0 <= i < |rows| ==> lines[i] == FoldedLine(text, rows[i])
  {
    hide FoldedLine;
    lines := [];
    for i := 0 to |rows|
      invariant |lines| == i
      invariant forall k :: 0 <= k < i ==> lines[k] == FoldedLine(text, rows[k])
    {
      var line := WriteLine(text, rows[i].item, rows[i].count);
      lines := lines + [line];
    }
  }

  // ---- Reading ----

  datatype Folding = Folding(pieces: seq<string>, count: Option<int>)

  function LastSpace(s: string): (i: int)
    ensures -1 <= i < |s|
    ensures i >= 0 ==> s[i] == ' '
    ensures forall j :: i < j < |s| ==> s[j] != ' '
  {
    if s == [] then -1 else if s[|s| - 1] == ' ' then |s| - 1 else LastSpace(s[..|s| - 1])
  }

  function Split(s: string): (pieces: seq<string>)
    ensures pieces != []
  {
    if s == [] then [""]
    else
      var pieces, last := Split(s[..|s| - 1]), s[|s| - 1];
      if last == ';' then pieces + [""] else pieces[..|pieces| - 1] + [pieces[|pieces| - 1] + [last]]
  }

  /** Splits at the last space, then the stack at every semicolon. */
  function ReadLine(line: string): Option<Folding> {
    var i := LastSpace(line);
    if i < 0 then None else Some(Folding(Split(line[..i]), ParseSigned(line[i + 1..])))
  }

  lemma {:induction false} SplitMeaning(s: string)
    ensures forall p :: p in Split(s) ==> ';' !in p
    ensures Join(Split(s)) == s
  {
    if s != [] {
      var pieces, last := Split(s[..|s| - 1]), s[|s| - 1];
      SplitMeaning(s[..|s| - 1]);
      assert pieces[|pieces| - 1] in pieces;
      if last == ';' {
        assert (pieces + [""])[..|pieces|] == pieces;
      } else {
        var front, p := pieces[..|pieces| - 1], pieces[|pieces| - 1];
        assert (front + [p + [last]])[..|pieces| - 1] == front;
      }
    }
  }

  lemma {:induction false} SplitAppend(s: string, p: string)
    requires ';' !in p
    ensures Split(s + ";" + p) == Split(s) + [p]
  {
    if p == [] {
      assert (s + ";" + p)[..|s|] == s;
    } else {
      var q := p[..|p| - 1];
      SplitAppend(s, q);
      assert (s + ";" + p)[..|s + ";" + p| - 1] == s + ";" + q;
      assert p == q + [p[|p| - 1]];
      assert p[|p| - 1] in p;
    }
  }

  lemma {:induction false} SplitOfPiece(p: string)
    requires ';' !in p
    ensures Split(p) == [p]
  {
    if p != [] {
      var q, c := p[..|p| - 1], p[|p| - 1];
      SplitOfPiece(q);
      assert c in p;
      assert p == q + [c];
      assert Split(p) == [q][..0] + [q + [c]];
    }
  }

  lemma {:induction false} SplitOfJoin(pieces: seq<string>)
    requires pieces != [] && forall p :: p in pieces ==> ';' !in p
    ensures Split(Join(pieces)) == pieces
  {
    if |pieces| == 1 {
      SplitOfPiece(pieces[0]);
    } else {
      SplitOfJoin(pieces[..|pieces| - 1]);
      SplitAppend(Join(pieces[..|pieces| - 1]), pieces[|pieces| - 1]);
    }
  }

  lemma {:induction false} LastSpaceBeforeCount(s: string, digits: string)
    requires ' ' !in digits
    ensures LastSpace(s + " " + digits) == |s|
  {
    if digits == [] {
    } else {
      var front := digits[..|digits| - 1];
      LastSpaceBeforeCount(s, front);
      assert (s + " " + digits)[..|s + " " + digits| - 1] == s + " " + front;
      assert digits[|digits| - 1] in digits;
    }
  }

  /** Every line reads back to some pieces and the count; the pieces are the thread and the reversed
      stack exactly if no thread or symbol name contains a semicolon. */
  lemma {:induction false} LineRoundTrip(text: Text, row: Entry<Frames>)
    ensures var r := ReadLine(FoldedLine(text, row));
            && r.Some? && r.value.count == Some(row.count)
            && (r.value.pieces == Pieces(text, row.item)
                <==> ';' !in ThreadNameOrId(row.item)
                     && forall s :: s in Flattened(row.item.frames) ==> ';' !in Name(text, s))
  {
    var pieces, digits := Pieces(text, row.item), SignedNumeral(row.count);
    var line := Join(pieces) + " " + digits;
    LastSpaceBeforeCount(Join(pieces), digits);
    SignedRoundTrip(row.count);
    assert line[..|Join(pieces)|] == Join(pieces) && line[|Join(pieces)| + 1..] == digits;
    PiecesAreClean(text, row.item);
    SplitMeaning(Join(pieces));
    if forall p :: p in pieces ==> ';' !in p {
      SplitOfJoin(pieces);
    }
  }

  lemma {:induction false} PiecesAreClean(text: Text, f: Frames)
    ensures (forall p :: p in Pieces(text, f) ==> ';' !in p)
            <==> ';' !in ThreadNameOrId(f) && forall s :: s in Flattened(f.frames) ==> ';' !in Name(text, s)
  {
    var symbols, pieces := Flattened(f.frames), Pieces(text, f);
    var n := |symbols|;
    assert pieces[0] == ThreadNameOrId(f);
    assert forall i :: 0 <= i < n ==> pieces[n - i] == Name(text, symbols[i]);
    if forall p :: p in pieces ==> ';' !in p {
      forall s | s in symbols ensures ';' !in Name(text, s) {
        var i :| 0 <= i < n && symbols[i] == s;
        assert pieces[n - i] in pieces;
      }
      assert pieces[0] in pieces;
    }
    if ';' !in ThreadNameOrId(f) && forall s :: s in symbols ==> ';' !in Name(text, s) {
      forall p | p in pieces ensures ';' !in p {
        var k :| 0 <= k < |pieces| && pieces[k] == p;
        if k > 0 {
          assert pieces[k] == Name(text, symbols[n - k]);
        }
      }
    }
  }

  /** The line of a row and the profile's sample of the same row tell the same: thread, count, and the
      same stack in opposite directions. */
  lemma {:induction false} LineMatchesSample(p: Profile, text: Text, rows: seq<Entry<Frames>>, timing: ReportTiming, i: nat)
    requires Divides(timing.frequency, rows) && Encodes(p, text, rows, timing) && i < |rows|
    requires ';' !in ThreadNameOrId(rows[i].item)
    requires forall s :: s in Flattened(rows[i].item.frames) ==> ';' !in Name(text, s)
    ensures var s := p.samples[i];
            && |p.Labels(s)| == 1 && |s.value| == 2
            && ReadLine(FoldedLine(text, rows[i]))
               == Some(Folding([p.Labels(s)[0].1] + Reversed(p.Stack(s)), Some(s.value[0])))
  {
    LineRoundTrip(text, rows[i]);
    assert SampleEncodes(p, p.samples[i], text, rows[i], timing.frequency);
  }
}
