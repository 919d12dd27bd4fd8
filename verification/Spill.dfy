/** The append buffer that spills whole blocks of raw records to a temporary file and reads them
    back. The operating system's answers are parameters, so every failure is covered. */
module Spill {
  import opened MachineInts
  import opened Outcomes
  import opened Bytes

  const BUFFER_LENGTH: Positive

  /** Outcomes of the three system calls behind `try_iter`. */
  datatype ReadIo = ReadIo(reopened: bool, filled: bool, sought: bool) {
    predicate Succeeds() {
      reopened && filled && sought
    }
  }

  /** Outcomes of `set_len` and `seek` behind `clear`. */
  datatype ClearIo = ClearIo(truncated: bool, rewound: bool)

  /** The file after `data` is written at `cursor`; a gap beyond the old end reads as zeros. */
  function WriteAt(file: seq<Byte>, cursor: nat, data: seq<Byte>): seq<Byte> {
    var padded := if |file| < cursor then file + seq(cursor - |file|, _ => 0) else file;
    padded[..cursor] + data + if cursor + |data| <= |padded| then padded[cursor + |data|..] else []
  }

  /** Byte by byte: the data at the cursor, the old file around it, zeros in a gap. */
  lemma {:induction false} WrittenByte(file: seq<Byte>, cursor: nat, data: seq<Byte>, p: nat)
    requires p < |WriteAt(file, cursor, data)|
    ensures WriteAt(file, cursor, data)[p]
            == if cursor <= p < cursor + |data| then data[p - cursor] else if p < |file| then file[p] else 0
    ensures |WriteAt(file, cursor, data)|
            == if |file| <= cursor + |data| then cursor + |data| else |file|
  {
  }

  class TempFdArray<T(!new)> {
    const codec: Codec<T>
    const buffer: array<T>
    var bufferIndex: nat
    var flushN: nat
    var file: seq<Byte>
    var cursor: nat

    /** Everything pushed since the last clear, and the part of it handed to `flush_buffer`. */
    ghost var pushed: seq<T>
    ghost var flushed: seq<T>
    /** Every flush since the last clear wrote its whole block. */
    ghost var whole: bool
    /** Nothing was left in the file, and nothing is left out of it, when the last clear ended. */
    ghost var clean: bool

    ghost predicate Valid()
      reads this, buffer
    {
      && Faithful(codec)
      && buffer.Length == BUFFER_LENGTH
      && bufferIndex <= BUFFER_LENGTH
      && pushed == flushed + buffer[..bufferIndex]
      && |flushed| == Room(flushN, BUFFER_LENGTH)
      && (clean ==> FileMatches())
    }

    /** A file without gaps: either the image of all flushed blocks, or strictly shorter than it. */
    ghost predicate FileMatches()
      reads this
    {
      && cursor == |file|
      && if whole then file == EncodeAll(codec, flushed) else |file| < Room(|flushed|, codec.size)
    }

    /** The file is empty and will be written from its start. */
    ghost predicate Untouched()
      reads this
    {
      file == [] && cursor == 0
    }

    constructor (codec: Codec<T>, default: T)
      requires Faithful(codec)
      ensures Valid() && fresh(buffer) && this.codec == codec
      ensures pushed == [] && whole && clean
    {
      this.codec := codec;
      buffer := new T[BUFFER_LENGTH](_ => default);
      bufferIndex, flushN, file, cursor := 0, 0, [], 0;
      pushed, flushed, whole, clean := [], [], true, true;
    }

    /** The counters are reset before the file is touched, so a failure leaves them out of step with the
        file, unless there was nothing in it. */
    method Clear(io: ClearIo) returns (r: Result<()>)
      requires Valid()
      modifies this
      ensures Valid() && pushed == [] && whole
      ensures r == if io.truncated && io.rewound then Ok(()) else Err(IoError)
      ensures clean <==> Untouched()
      ensures clean <==> r.Ok? || (old(cursor) == 0 && (io.truncated || old(file) == []))
      ensures file == (if io.truncated then [] else old(file)) && cursor == if r.Ok? then 0 else old(cursor)
    {
      bufferIndex, flushN := 0, 0;
      pushed, flushed, whole, clean := [], [], true, Untouched();
      if !io.truncated {
        return Err(IoError);
      }
      file := [];
      clean := Untouched();
      if !io.rewound {
        return Err(IoError);
      }
      cursor := 0;
      clean := true;
      return Ok(());
    }

    /** Writes the buffer as raw bytes; the system takes `accepted` bytes before it fails, if at all. */
    method FlushBuffer(accepted: nat) returns (r: Result<()>)
      requires Valid() && bufferIndex == BUFFER_LENGTH
      modifies this
      ensures Valid() && bufferIndex == 0 && clean == old(clean)
      ensures r == if Room(BUFFER_LENGTH, codec.size) <= accepted then Ok(()) else Err(IoError)
      ensures whole <==> old(whole) && r.Ok?
      ensures pushed == old(pushed) && flushN == old(flushN) + 1
      ensures var image := EncodeAll(codec, buffer[..]);
              var n := if accepted < |image| then accepted else |image|;
              file == WriteAt(old(file), old(cursor), image[..n]) && cursor == old(cursor) + n
    {
      hide EncodeAll, WriteAt, Faithful;
      var buf := RawBuffer();
      var n := if accepted < |buf| then accepted else |buf|;
      if clean {
        AppendedImage(codec, file, flushed, buffer[..], n);
      }
      bufferIndex := 0;
      flushN := flushN + 1;
      flushed := flushed + buffer[..];
      file := WriteAt(file, cursor, buf[..n]);
      cursor := cursor + n;
      whole := whole && n == |buf|;
      r := if n < |buf| then Err(IoError) else Ok(());
    }

    /** The raw bytes of the buffer. */
    method RawBuffer() returns (buf: seq<Byte>)
      requires Valid()
      ensures buf == EncodeAll(codec, buffer[..])
      ensures |buf| == Room(BUFFER_LENGTH, codec.size)
    {
      buf := [];
      for i := 0 to buffer.Length
        invariant buf == EncodeAll(codec, buffer[..i])
      {
        assert buffer[..i + 1][..i] == buffer[..i];
        buf := buf + codec.enc(buffer[i]);
      }
      assert buffer[..buffer.Length] == buffer[..];
      EncodeAllLength(codec, buffer[..]);
    }

    method Push(entry: T, accepted: nat) returns (r: Result<()>)
      requires Valid()
      modifies this, buffer
      ensures Valid() && clean == old(clean)
      ensures r == if old(bufferIndex) < BUFFER_LENGTH || Room(BUFFER_LENGTH, codec.size) <= accepted then Ok(()) else Err(IoError)
      ensures whole <==> old(whole) && r.Ok?
      ensures pushed == if r.Ok? then old(pushed) + [entry] else old(pushed)
      ensures r.Ok? ==> 1 <= bufferIndex && |pushed| == Room(flushN, BUFFER_LENGTH) + bufferIndex
    {
      if bufferIndex >= BUFFER_LENGTH {
        r := FlushBuffer(accepted);
        if r.Err? {
          return;
        }
      }
      buffer[bufferIndex] := entry;
      bufferIndex := bufferIndex + 1;
      pushed := pushed + [entry];
      assert buffer[..bufferIndex] == buffer[..bufferIndex - 1] + [entry];
      r := Ok(());
    }

    /** The bytes that all flushed blocks take. */
    method FlushedSize() returns (size: nat)
      requires Valid()
      ensures size == Room(|flushed|, codec.size)
    {
      RoomIsProduct(flushN, BUFFER_LENGTH);
      RoomIsProduct(|flushed|, codec.size);
      size := BUFFER_LENGTH * flushN * codec.size;
    }

    /** Reads every flushed block back. While the file is clean this succeeds only if every flush
        did, and then gives the buffered entries and all flushed ones, each once. */
    method TryIter(io: ReadIo) returns (r: Result<TempFdArrayIterator<T>>)
      requires Valid()
      ensures r.Ok? ==> fresh(r.value) && r.value.Valid()
      ensures r.Err? ==> r.error == IoError
      ensures r.Ok? <==> io.reopened && io.filled && io.sought && Room(|flushed|, codec.size) <= |file|
      ensures r.Ok? ==>
                r.value.Remaining() == buffer[..bufferIndex] + Spilled(codec, file[..Room(|flushed|, codec.size)], |flushed|)
      ensures clean ==> (r.Ok? <==> whole && io.Succeeds())
      ensures clean && r.Ok? ==> r.value.Remaining() == buffer[..bufferIndex] + flushed
    {
      var size := FlushedSize();
      EncodeAllLength(codec, flushed);
      if !io.reopened {
        return Err(IoError);
      }
      if !io.filled || |file| < size {
        return Err(IoError);
      }
      var fileVec := file[..size];
      if !io.sought {
        return Err(IoError);
      }
      var it := new TempFdArrayIterator(codec, buffer[..bufferIndex], fileVec);
      FittingUnique(|fileVec|, codec.size, |flushed|);
      if clean {
        assert fileVec == EncodeAll(codec, flushed);
        SpilledIsFlushed(codec, flushed);
        assert it.Records() == flushed;
      }
      return Ok(it);
    }
  }

  /** What appending the first `n` bytes of a block's image does to a file that is the image of
      `before`, or falls short of it. */
  lemma {:induction false} AppendedImage<T(!new)>(codec: Codec<T>, file: seq<Byte>, before: seq<T>, block: seq<T>, n: nat)
    requires Faithful(codec) && n <= |EncodeAll(codec, block)|
    ensures var image := EncodeAll(codec, block);
            var written := WriteAt(file, |file|, image[..n]);
            && |written| == |file| + n
            && (file == EncodeAll(codec, before) ==>
                  if n == |image| then written == EncodeAll(codec, before + block)
                  else |written| < Room(|before + block|, codec.size))
            && (|file| < Room(|before|, codec.size) ==> |written| < Room(|before + block|, codec.size))
  {
    var image := EncodeAll(codec, block);
    EncodeAllConcat(codec, before, block);
    EncodeAllLength(codec, before);
    EncodeAllLength(codec, block);
    EncodeAllLength(codec, before + block);
    assert image[..|image|] == image;
    assert WriteAt(file, |file|, image[..n]) == file + image[..n];
  }

  /** The first `n` records of a byte vector. */
  ghost function Spilled<T>(codec: Codec<T>, bytes: seq<Byte>, n: nat): (xs: seq<T>)
    requires Room(n, codec.size) <= |bytes|
    ensures |xs| == n
  {
    if n == 0 then [] else Spilled(codec, bytes, n - 1) + [DecodeAt(codec, bytes, n - 1)]
  }

  lemma {:induction false} SpilledAt<T>(codec: Codec<T>, bytes: seq<Byte>, n: nat, i: nat)
    requires Room(n, codec.size) <= |bytes| && i < n
    ensures Room(i + 1, codec.size) <= |bytes| && Spilled(codec, bytes, n)[i] == DecodeAt(codec, bytes, i)
  {
    if i < n - 1 {
      SpilledAt(codec, bytes, n - 1, i);
    }
  }

  lemma {:induction false} SpilledIsFlushed<T(!new)>(codec: Codec<T>, xs: seq<T>)
    requires Faithful(codec)
    ensures |EncodeAll(codec, xs)| == Room(|xs|, codec.size)
    ensures Spilled(codec, EncodeAll(codec, xs), |xs|) == xs
  {
    var bytes := EncodeAll(codec, xs);
    EncodeAllLength(codec, xs);
    forall i | 0 <= i < |xs| ensures Spilled(codec, bytes, |xs|)[i] == xs[i] {
      SpilledAt(codec, bytes, |xs|, i);
      EncodeAllRoundTrip(codec, xs, i);
    }
  }

  // ---- What a failed clear costs ----

  lemma {:induction false} WrittenLength(file: seq<Byte>, cursor: nat, data: seq<Byte>)
    ensures cursor + |data| <= |WriteAt(file, cursor, data)|
  {
  }

  /** What the first block reads back as when it is written whole to this file at this cursor. */
  ghost function ReadBack<T(!new)>(codec: Codec<T>, file: seq<Byte>, cursor: nat, block: seq<T>): seq<T>
    requires Faithful(codec)
  {
    var image := EncodeAll(codec, block);
    EncodeAllLength(codec, block);
    WrittenLength(file, cursor, image);
    Spilled(codec, WriteAt(file, cursor, image)[..|image|], |block|)
  }

  ghost predicate ReadsBack<T(!new)>(codec: Codec<T>, file: seq<Byte>, cursor: nat, n: nat)
    requires Faithful(codec)
  {
    forall block: seq<T> :: |block| == n ==> ReadBack(codec, file, cursor, block) == block
  }

  /** Behind the image of `earlier` a block reads back as what `earlier` began with. */
  lemma {:induction false} StaleBlock<T(!new)>(codec: Codec<T>, earlier: seq<T>, block: seq<T>)
    requires Faithful(codec) && |block| <= |earlier|
    ensures var file := EncodeAll(codec, earlier);
            ReadBack(codec, file, |file|, block) == earlier[..|block|]
  {
    var image, n := EncodeAll(codec, earlier), Room(|block|, codec.size);
    var head, tail := earlier[..|block|], earlier[|block|..];
    assert earlier == head + tail;
    EncodeAllConcat(codec, head, tail);
    EncodeAllLength(codec, head);
    EncodeAllLength(codec, block);
    var file := WriteAt(image, |image|, EncodeAll(codec, block));
    assert file[..n] == EncodeAll(codec, head);
    SpilledIsFlushed(codec, head);
  }

  /** With a whole record's room in front of the cursor, in old bytes or in a gap of zeros, the first
      record does not depend on the block. */
  lemma {:induction false} FirstRecordIsFixed<T(!new)>(
    codec: Codec<T>, file: seq<Byte>, cursor: nat, a: seq<T>, b: seq<T>)
    requires Faithful(codec) && codec.size <= cursor && |a| == |b| > 0
    ensures ReadBack(codec, file, cursor, a)[0] == ReadBack(codec, file, cursor, b)[0]
  {
    var x, y := EncodeAll(codec, a), EncodeAll(codec, b);
    EncodeAllLength(codec, a);
    EncodeAllLength(codec, b);
    WrittenLength(file, cursor, x);
    WrittenLength(file, cursor, y);
    RoomMonotonic(1, |a|, codec.size);
    assert Room(1, codec.size) == Room(0, codec.size) + codec.size == codec.size;
    var v, w := WriteAt(file, cursor, x)[..|x|], WriteAt(file, cursor, y)[..|y|];
    assert v[..codec.size] == w[..codec.size];
    SpilledAt(codec, v, |a|, 0);
    SpilledAt(codec, w, |b|, 0);
  }

  /** Blocks read back exactly if they are written from the start of the file. */
  lemma {:induction false} ReadsBackIff<T(!new)>(codec: Codec<T>, file: seq<Byte>, cursor: nat, n: nat, x: T, y: T)
    requires Faithful(codec) && 0 < n && x != y && (cursor == 0 || codec.size <= cursor)
    ensures ReadsBack(codec, file, cursor, n) <==> cursor == 0
  {
    if cursor == 0 {
      forall block: seq<T> | |block| == n ensures ReadBack(codec, file, cursor, block) == block {
        var image := EncodeAll(codec, block);
        SpilledIsFlushed(codec, block);
        assert WriteAt(file, 0, image)[..|image|] == image;
      }
    } else {
      var a, b := seq(n, _ => x), seq(n, _ => y);
      FirstRecordIsFixed(codec, file, cursor, a, b);
      assert a[0] != b[0];
    }
  }

  /** A clear keeps blocks readable exactly if it succeeds or there was nothing to clear: whatever was
      flushed before, and whichever of its two calls failed. */
  lemma {:induction false} ReadableAfterClearIff<T(!new)>(codec: Codec<T>, earlier: seq<T>, io: ClearIo, n: nat, x: T, y: T)
    requires Faithful(codec) && 0 < n && x != y
    ensures var image := EncodeAll(codec, earlier);
            var file := if io.truncated then [] else image;
            var cursor := if io.truncated && io.rewound then 0 else |image|;
            ReadsBack(codec, file, cursor, n) <==> (io.truncated && io.rewound) || earlier == []
  {
    var image := EncodeAll(codec, earlier);
    EncodeAllLength(codec, earlier);
    if earlier != [] {
      RoomMonotonic(1, |earlier|, codec.size);
      assert Room(1, codec.size) == Room(0, codec.size) + codec.size == codec.size;
    }
    ReadsBackIff(codec, if io.truncated then [] else image, if io.truncated && io.rewound then 0 else |image|, n, x, y);
  }

  class TempFdArrayIterator<T(!new)> {
    const codec: Codec<T>
    const buffer: seq<T>
    const fileVec: seq<Byte>
    var index: nat

    ghost predicate Valid()
      reads this
    {
      && 0 < codec.size
      && index <= |buffer| + |Records()|
    }

    /** The file vector as a slice of records. */
    ghost function Records(): (xs: seq<T>)
      requires 0 < codec.size
    {
      Spilled(codec, fileVec, Fitting(|fileVec|, codec.size))
    }

    method RecordCount() returns (length: nat)
      requires 0 < codec.size
      ensures length == |Records()| == Fitting(|fileVec|, codec.size)
    {
      FittingIsQuotient(|fileVec|, codec.size);
      length := |fileVec| / codec.size;
    }

    ghost function Remaining(): seq<T>
      requires Valid()
      reads this
    {
      (buffer + Records())[index..]
    }

    constructor (codec: Codec<T>, buffer: seq<T>, fileVec: seq<Byte>)
      requires 0 < codec.size
      ensures Valid() && this.codec == codec && this.buffer == buffer && this.fileVec == fileVec
      ensures Remaining() == buffer + Records()
    {
      this.codec, this.buffer, this.fileVec := codec, buffer, fileVec;
      index := 0;
    }

    method Next() returns (e: Option<T>)
      requires Valid()
      modifies this
      ensures Valid()
      ensures old(Remaining()) == [] ==> e.None? && Remaining() == []
      ensures old(Remaining()) != [] ==> e == Some(old(Remaining())[0]) && Remaining() == old(Remaining())[1..]
    {
      if index < |buffer| {
        index := index + 1;
        return Some(buffer[index - 1]);
      }
      var length := RecordCount();
      if index - |buffer| < length {
        SpilledAt(codec, fileVec, length, index - |buffer|);
        index := index + 1;
        return Some(DecodeAt(codec, fileVec, index - |buffer| - 1));
      }
      return None;
    }

    method Drain() returns (es: seq<T>)
      requires Valid()
      modifies this
      ensures Valid() && Remaining() == []
      ensures es == old(Remaining())
    {
      es := [];
      var e := Next();
      while e.Some?
        invariant Valid()
        invariant old(Remaining()) == es + (if e.Some? then [e.value] else []) + Remaining()
        invariant e.None? ==> Remaining() == []
        decreases |Remaining()|, e.Some?
      {
        es := es + [e.value];
        e := Next();
      }
    }
  }
}
