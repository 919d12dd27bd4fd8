/** Raw memory images: little-endian words, and fixed-size records laid end to end. */
module Bytes {
  import opened MachineInts
  import opened Quotients
  import opened Tallies

  type Byte = b: int | 0 <= b < 256

  type Word = w: int | 0 <= w < 0x1_0000_0000_0000_0000

  function LittleEndian(n: nat, width: nat): (bs: seq<Byte>)
    ensures |bs| == width
  {
    if width == 0 then [] else [n % 256] + LittleEndian(n / 256, width - 1)
  }

  function FromLittleEndian(bs: seq<Byte>): nat {
    if bs == [] then 0 else bs[0] + 256 * FromLittleEndian(bs[1..])
  }

  function Pow256(width: nat): (p: nat)
    ensures p > 0
  {
    if width == 0 then 1 else 256 * Pow256(width - 1)
  }

  lemma {:induction false} LittleEndianRoundTrip(n: nat, width: nat)
    requires n < Pow256(width)
    ensures FromLittleEndian(LittleEndian(n, width)) == n
  {
    if width > 0 {
      assert n / 256 < Pow256(width - 1);
      LittleEndianRoundTrip(n / 256, width - 1);
      assert LittleEndian(n, width)[1..] == LittleEndian(n / 256, width - 1);
    }
  }

  /** Byte `i` is the digit of that weight to base 256, the least significant first. */
  lemma {:induction false} LittleEndianByte(n: nat, width: nat, i: nat)
    requires i < width
    ensures LittleEndian(n, width)[i] == n / Pow256(i) % 256
  {
    if i > 0 {
      LittleEndianByte(n / 256, width - 1, i - 1);
      NestedQuotient(n, 256, Pow256(i - 1));
    }
  }

  lemma {:induction false} FromLittleEndianBound(bs: seq<Byte>)
    ensures FromLittleEndian(bs) < Pow256(|bs|)
  {
    if bs != [] {
      FromLittleEndianBound(bs[1..]);
    }
  }

  lemma {:induction false} WordFitsEightBytes()
    ensures Pow256(8) == ISIZE_SPAN
  {
  }

  // ---- Records ----

  /** The bytes taken by `n` records of `size` bytes each. */
  function Room(n: nat, size: nat): nat {
    if n == 0 then 0 else Room(n - 1, size) + size
  }

  lemma {:induction false} RoomIsProduct(n: nat, size: nat)
    ensures Room(n, size) == n * size
  {
    if n > 0 {
      RoomIsProduct(n - 1, size);
      assert n * size == (n - 1) * size + size;
    }
  }

  lemma {:induction false} RoomAdd(m: nat, n: nat, size: nat)
    ensures Room(m + n, size) == Room(m, size) + Room(n, size)
  {
    if n > 0 {
      RoomAdd(m, n - 1, size);
    }
  }

  lemma {:induction false} RoomMonotonic(m: nat, n: nat, size: nat)
    requires m <= n
    ensures Room(m, size) <= Room(n, size)
  {
    RoomAdd(m, n - m, size);
  }

  /** How many whole records fit in `length` bytes. */
  function Fitting(length: nat, size: nat): (n: nat)
    requires 0 < size
    ensures Room(n, size) <= length < Room(n + 1, size)
  {
    if length < size then 0 else Fitting(length - size, size) + 1
  }

  lemma {:induction false} FittingUnique(length: nat, size: nat, n: nat)
    requires 0 < size && Room(n, size) <= length < Room(n + 1, size)
    ensures n == Fitting(length, size)
  {
    var q := Fitting(length, size);
    if q < n {
      RoomMonotonic(q + 1, n, size);
    } else if n < q {
      RoomMonotonic(n + 1, q, size);
    }
  }

  lemma {:induction false} FittingIsQuotient(length: nat, size: nat)
    requires 0 < size
    ensures length / size == Fitting(length, size)
  {
    RoomIsProduct(length / size, size);
    FittingUnique(length, size, length / size);
  }

  /** The memory image of a type: every value occupies `size` bytes. */
  datatype Codec<!T> = Codec(size: nat, enc: T -> seq<Byte>, dec: seq<Byte> -> T)

  /** Reading back the image of a value gives the value. */
  ghost predicate Faithful<T(!new)>(c: Codec<T>) {
    && 0 < c.size
    && forall x: T :: |c.enc(x)| == c.size && c.dec(c.enc(x)) == x
  }

  /** The image of an array of records. */
  ghost function EncodeAll<T>(c: Codec<T>, xs: seq<T>): seq<Byte> {
    if xs == [] then [] else EncodeAll(c, xs[..|xs| - 1]) + c.enc(xs[|xs| - 1])
  }

  /** The array of records at `bytes`, as `slice::from_raw_parts` sees it. */
  function DecodeAt<T>(c: Codec<T>, bytes: seq<Byte>, i: nat): T
    requires Room(i + 1, c.size) <= |bytes|
  {
    c.dec(bytes[Room(i, c.size)..Room(i + 1, c.size)])
  }

  lemma {:induction false} EncodeAllConcat<T>(c: Codec<T>, xs: seq<T>, ys: seq<T>)
    ensures EncodeAll(c, xs + ys) == EncodeAll(c, xs) + EncodeAll(c, ys)
  {
    if ys == [] {
      assert xs + ys == xs;
    } else {
      assert (xs + ys)[..|xs + ys| - 1] == xs + ys[..|ys| - 1];
      EncodeAllConcat(c, xs, ys[..|ys| - 1]);
    }
  }

  lemma {:induction false} EncodeAllLength<T(!new)>(c: Codec<T>, xs: seq<T>)
    requires Faithful(c)
    ensures |EncodeAll(c, xs)| == Room(|xs|, c.size)
  {
    if xs != [] {
      EncodeAllLength(c, xs[..|xs| - 1]);
    }
  }

  /** Re-slicing an image record by record recovers the records in order. */
  lemma {:induction false} EncodeAllRoundTrip<T(!new)>(c: Codec<T>, xs: seq<T>, i: nat)
    requires Faithful(c) && i < |xs|
    ensures Room(i + 1, c.size) <= |EncodeAll(c, xs)|
    ensures DecodeAt(c, EncodeAll(c, xs), i) == xs[i]
  {
    var n := |xs| - 1;
    var front := EncodeAll(c, xs[..n]);
    var lo, hi := Room(i, c.size), Room(i + 1, c.size);
    EncodeAllLength(c, xs);
    EncodeAllLength(c, xs[..n]);
    RoomMonotonic(i + 1, n + 1, c.size);
    if i < n {
      RoomMonotonic(i + 1, n, c.size);
      EncodeAllRoundTrip(c, xs[..n], i);
      assert EncodeAll(c, xs)[lo..hi] == front[lo..hi];
    } else {
      assert EncodeAll(c, xs)[lo..hi] == c.enc(xs[i]);
    }
  }

  /** The image of an entry: its item, then its count as a two's-complement word. */
  function EntryCodec<T>(c: Codec<T>): Codec<Entry<T>> {
    Codec(c.size + 8,
          (e: Entry<T>) => c.enc(e.item) + LittleEndian(e.count % ISIZE_SPAN, 8),
          (bs: seq<Byte>) => var n := if |bs| < c.size then |bs| else c.size;
                             Entry(c.dec(bs[..n]), Wrap(FromLittleEndian(bs[n..]))))
  }

  lemma {:induction false} CountRoundTrip(count: Isize)
    ensures Wrap(FromLittleEndian(LittleEndian(count % ISIZE_SPAN, 8))) == count
  {
    var word := count % ISIZE_SPAN;
    WordFitsEightBytes();
    LittleEndianRoundTrip(word, 8);
    WrapUnique(word, count, -((word - count) / ISIZE_SPAN));
  }

  lemma {:induction false} EntryCodecFaithful<T(!new)>(c: Codec<T>)
    requires Faithful(c)
    ensures Faithful(EntryCodec(c))
  {
    var ec := EntryCodec(c);
    forall e: Entry<T>
      ensures |ec.enc(e)| == ec.size && ec.dec(ec.enc(e)) == e
    {
      var word := LittleEndian(e.count % ISIZE_SPAN, 8);
      var image := c.enc(e.item);
      assert ec.enc(e) == image + word;
      assert (image + word)[..c.size] == image && (image + word)[c.size..] == word;
      CountRoundTrip(e.count);
    }
  }

  // ---- Layouts ----

  /** Where a compiler puts the bytes of a record: byte `i` goes to `at(i)`, and what is left is padding. */
  datatype Layout = Layout(size: nat, at: nat -> nat, padding: nat -> Byte)

  /** The first `n` bytes have places of their own. */
  ghost predicate Sound(l: Layout, n: nat) {
    && (forall i :: 0 <= i < n ==> l.at(i) < l.size)
    && forall i, j :: 0 <= i < j < n ==> l.at(i) != l.at(j)
  }

  ghost function ByteAt(l: Layout, bytes: seq<Byte>, p: nat): Byte {
    if i: nat :| i < |bytes| && l.at(i) == p then bytes[i] else l.padding(p)
  }

  ghost function Spread(l: Layout, bytes: seq<Byte>): (spread: seq<Byte>)
    ensures |spread| == l.size
  {
    seq(l.size, p requires 0 <= p < l.size => ByteAt(l, bytes, p))
  }

  ghost function Collected(l: Layout, n: nat, spread: seq<Byte>): seq<Byte> {
    seq(n, i requires 0 <= i < n => if l.at(i) < |spread| then spread[l.at(i)] else 0)
  }

  /** The same records in another layout. */
  ghost function LaidOut<T>(c: Codec<T>, l: Layout): Codec<T> {
    Codec(l.size, (x: T) => Spread(l, c.enc(x)), (bs: seq<Byte>) => c.dec(Collected(l, c.size, bs)))
  }

  lemma {:induction false} CollectedSpread(l: Layout, bytes: seq<Byte>)
    requires Sound(l, |bytes|)
    ensures Collected(l, |bytes|, Spread(l, bytes)) == bytes
  {
    forall i | 0 <= i < |bytes| ensures Collected(l, |bytes|, Spread(l, bytes))[i] == bytes[i] {
      assert Spread(l, bytes)[l.at(i)] == ByteAt(l, bytes, l.at(i));
    }
  }

  /** No order of fields and no padding spoils a raw copy. */
  lemma {:induction false} LaidOutFaithful<T(!new)>(c: Codec<T>, l: Layout)
    requires Faithful(c) && Sound(l, c.size)
    ensures Faithful(LaidOut(c, l))
  {
    forall x: T ensures |LaidOut(c, l).enc(x)| == l.size && LaidOut(c, l).dec(LaidOut(c, l).enc(x)) == x {
      CollectedSpread(l, c.enc(x));
    }
    assert l.at(0) < l.size;
  }
}
