/** A fixed-size memory image for samples: because a sample's frames are inline, a raw byte copy of
    the record is a copy of the sample. */
module SampleImage {
  import opened Tallies
  import opened Bytes
  import opened Frames
  import opened Spill

  function WordCodec(): Codec<Word> {
    Codec<Word>.Codec(8, (w: Word) => LittleEndian(w, 8), (bs: seq<Byte>) => FromLittleEndian(bs) % 0x1_0000_0000_0000_0000)
  }

  lemma {:induction false} WordCodecFaithful()
    ensures Faithful(WordCodec())
  {
    WordFitsEightBytes();
    forall w: Word
      ensures |WordCodec().enc(w)| == 8 && WordCodec().dec(WordCodec().enc(w)) == w
    {
      LittleEndianRoundTrip(w, 8);
    }
  }

  /** The record as words: four scalars, the frame slots, the name buffer. */
  ghost function Words(u: UnresolvedFrames): (ws: seq<Word>)
    ensures |ws| == WordCount()
    ensures ws[0] == |u.frames| && ws[1] == u.threadNameLength && ws[2] == u.threadId && ws[3] == u.sampleTimestamp
    ensures forall i :: 0 <= i < |u.frames| ==> ws[4 + i] == u.frames[i].ip
    ensures forall i :: 0 <= i < |u.frames| ==> ws[4 + MAX_DEPTH + i] == u.frames[i].symbolAddress
    ensures forall i :: 0 <= i < MAX_THREAD_NAME ==> ws[4 + 2 * MAX_DEPTH + i] == u.threadName[i]
  {
    seq(WordCount(), i requires 0 <= i < WordCount() => WordAt(u, i))
  }

  function WordCount(): nat {
    4 + 2 * MAX_DEPTH + MAX_THREAD_NAME
  }

  function WordAt(u: UnresolvedFrames, i: nat): Word
    requires i < WordCount()
  {
    if i == 0 then |u.frames|
    else if i == 1 then u.threadNameLength
    else if i == 2 then u.threadId
    else if i == 3 then u.sampleTimestamp
    else if i < 4 + MAX_DEPTH then (if i - 4 < |u.frames| then u.frames[i - 4].ip else 0)
    else if i < 4 + 2 * MAX_DEPTH then
      (if i - 4 - MAX_DEPTH < |u.frames| then u.frames[i - 4 - MAX_DEPTH].symbolAddress else 0)
    else u.threadName[i - 4 - 2 * MAX_DEPTH]
  }

  ghost function FromWords(ws: seq<Word>): UnresolvedFrames {
    if |ws| != WordCount() || ws[0] > MAX_DEPTH || ws[1] > MAX_THREAD_NAME then BLANK
    else
      SampleRecord(
        seq(ws[0], i requires 0 <= i < ws[0] => Frame(ws[4 + i], ws[4 + MAX_DEPTH + i])),
        seq(MAX_THREAD_NAME, i requires 0 <= i < MAX_THREAD_NAME => ws[4 + 2 * MAX_DEPTH + i] % 256),
        ws[1], ws[2], ws[3])
  }

  lemma {:induction false} WordsRoundTrip(u: UnresolvedFrames)
    ensures FromWords(Words(u)) == u
  {
  }

  ghost function SampleCodec(): Codec<UnresolvedFrames> {
    Codec<UnresolvedFrames>.Codec(Room(WordCount(), 8),
          (u: UnresolvedFrames) => EncodeAll(WordCodec(), Words(u)),
          (bs: seq<Byte>) => if Room(WordCount(), 8) <= |bs| then FromWords(DecodeFirst(bs, WordCount())) else BLANK)
  }

  ghost function DecodeFirst(bs: seq<Byte>, n: nat): (ws: seq<Word>)
    requires Room(n, 8) <= |bs|
    ensures |ws| == n
  {
    if n == 0 then [] else DecodeFirst(bs, n - 1) + [DecodeAt(WordCodec(), bs, n - 1)]
  }

  lemma {:induction false} DecodeFirstAt(bs: seq<Byte>, n: nat, i: nat)
    requires Room(n, 8) <= |bs| && i < n
    ensures Room(i + 1, 8) <= |bs| && DecodeFirst(bs, n)[i] == DecodeAt(WordCodec(), bs, i)
  {
    if i < n - 1 {
      DecodeFirstAt(bs, n - 1, i);
    }
  }

  /** A raw copy of a sample, or of a counted sample, is faithful. */
  lemma {:induction false} SampleCodecFaithful()
    ensures Faithful(SampleCodec())
    ensures Faithful(EntryCodec(SampleCodec()))
  {
    var c := SampleCodec();
    WordCodecFaithful();
    RoomMonotonic(1, WordCount(), 8);
    forall u: UnresolvedFrames
      ensures |c.enc(u)| == c.size && c.dec(c.enc(u)) == u
    {
      SampleRoundTrip(u);
    }
    EntryCodecFaithful(c);
  }

  lemma {:induction false} SampleRoundTrip(u: UnresolvedFrames)
    ensures |SampleCodec().enc(u)| == SampleCodec().size
    ensures SampleCodec().dec(SampleCodec().enc(u)) == u
  {
    var ws := Words(u);
    var bs := EncodeAll(WordCodec(), ws);
    WordCodecFaithful();
    EncodeAllLength(WordCodec(), ws);
    forall i | 0 <= i < |ws| ensures DecodeFirst(bs, |ws|)[i] == ws[i] {
      DecodeFirstAt(bs, |ws|, i);
      EncodeAllRoundTrip(WordCodec(), ws, i);
    }
    assert DecodeFirst(bs, |ws|) == ws;
    WordsRoundTrip(u);
  }

  /** Counted samples survive the file, in whatever order and with whatever padding the compiler lays
      their fields out: the raw records of any number of them decode to them, in order. */
  lemma {:induction false} CountedSamplesRoundTrip(entries: seq<Entry<UnresolvedFrames>>, l: Layout)
    requires Sound(l, EntryCodec(SampleCodec()).size)
    ensures var codec := LaidOut(EntryCodec(SampleCodec()), l);
            && Faithful(codec) && |EncodeAll(codec, entries)| == Room(|entries|, codec.size)
            && Spilled(codec, EncodeAll(codec, entries), |entries|) == entries
  {
    SampleCodecFaithful();
    LaidOutFaithful(EntryCodec(SampleCodec()), l);
    SpilledIsFlushed(LaidOut(EntryCodec(SampleCodec()), l), entries);
  }
}
