/** The name given to a thread that has none: the last digits of its id. */
module ThreadNames {
  import opened Outcomes
  import opened Quotients
  import opened Bytes
  import opened CStrings
  import opened Decimal
  import opened Frames

  /** The least length, up to the buffer's, at which a power of ten reaches the id. */
  function NameLength(id: Word): (len: nat)
    ensures len <= MAX_THREAD_NAME
    ensures len < MAX_THREAD_NAME ==> id <= Pow10(len)
    ensures forall j :: 0 <= j < len ==> Pow10(j) < id
  {
    NameLengthFrom(id, 0)
  }

  function NameLengthFrom(id: Word, start: nat): (len: nat)
    requires start <= MAX_THREAD_NAME && forall j :: 0 <= j < start ==> Pow10(j) < id
    ensures start <= len <= MAX_THREAD_NAME
    ensures len < MAX_THREAD_NAME ==> id <= Pow10(len)
    ensures forall j :: 0 <= j < len ==> Pow10(j) < id
    decreases MAX_THREAD_NAME - start
  {
    if id > Pow10(start) && start < MAX_THREAD_NAME then NameLengthFrom(id, start + 1) else start
  }

  function FallbackName(id: Word): string {
    Padded(id, NameLength(id))
  }

  /** The digits of `n` from position `k` upwards, padded to `width`. */
  lemma {:induction false} PaddedPrefix(n: nat, width: nat, k: nat)
    requires k <= width
    ensures Padded(n, width)[..k] == Padded(n / Pow10(width - k), k)
  {
    if k < width {
      PaddedPrefix(n / 10, width - 1, k);
      DivByPowers(n, width - k);
      assert Padded(n, width)[..k] == Padded(n / 10, width - 1)[..k];
    }
  }

  lemma {:induction false} DivByPowers(n: nat, k: nat)
    requires k > 0
    ensures n / 10 / Pow10(k - 1) == n / Pow10(k)
  {
    NestedQuotient(n, 10, Pow10(k - 1));
  }

  /** The first digit loop: the length of the name and its power of ten. */
  method MeasureName(currentThread: Word) returns (len: nat, base: nat)
    ensures len == NameLength(currentThread) && base == Pow10(len)
  {
    PowersOfTen(0);
    hide Pow10;
    len := 0;
    base := 1;
    while currentThread > base && len < MAX_THREAD_NAME
      invariant len <= MAX_THREAD_NAME && base == Pow10(len)
      invariant forall j :: 0 <= j < len ==> Pow10(j) < currentThread
      invariant NameLength(currentThread) == NameLengthFrom(currentThread, len)
      decreases MAX_THREAD_NAME - len
    {
      PowersOfTen(len);
      base := base * 10;
      len := len + 1;
    }
  }

  /** The two digit loops write the numeral of the id modulo 10^len and leave the rest of the buffer alone. */
  method WriteThreadNameFallback(currentThread: Word, name: array<char>)
    requires name.Length == MAX_THREAD_NAME
    modifies name
    ensures name[..NameLength(currentThread)] == FallbackName(currentThread)
    ensures name[NameLength(currentThread)..] == old(name[NameLength(currentThread)..])
    ensures old(name[..]) == Zeros(MAX_THREAD_NAME) ==> name[..] == NameBuffer(currentThread)
  {
    hide Pow10, Padded, NameLength;
    var len, base := MeasureName(currentThread);
    ghost var digits := Padded(currentThread, len);
    var index := 0;
    LowPowers(len);
    while index < len && base > 1
      invariant index <= len <= name.Length && base == Pow10(len - index)
      invariant name[..index] == digits[..index]
      invariant name[len..] == old(name[len..])
      decreases len - index
    {
      LowPowers(len - index);
      NextDigit(currentThread, len, index);
      base := base / 10;
      name[index] := DigitAt(currentThread, base);
      index := index + 1;
    }
    LowPowers(len - index);
    assert name[..] == name[..len] + name[len..];
    if old(name[..]) == Zeros(MAX_THREAD_NAME) {
      assert old(name[len..]) == old(name[..])[len..] == Zeros(MAX_THREAD_NAME - len);
    }
  }

  function Zeros(n: nat): string {
    seq(n, _ => '\0')
  }

  /** What the handler's zeroed buffer holds afterwards. */
  function NameBuffer(id: Word): (buffer: string)
    ensures |buffer| == MAX_THREAD_NAME
  {
    FallbackName(id) + Zeros(MAX_THREAD_NAME - NameLength(id))
  }

  function DigitAt(n: nat, base: nat): char
    requires base > 0
  {
    Digit(n / base % 10)
  }

  lemma {:induction false} LowPowers(k: nat)
    ensures Pow10(k) == 1 <==> k == 0
    ensures k > 0 ==> Pow10(k) / 10 == Pow10(k - 1)
  {
  }

  lemma {:induction false} NextDigit(n: nat, width: nat, k: nat)
    requires k < width
    ensures Padded(n, width)[k] == DigitAt(n, Pow10(width - k - 1))
    ensures Padded(n, width)[..k + 1] == Padded(n, width)[..k] + [DigitAt(n, Pow10(width - k - 1))]
  {
    PaddedPrefix(n, width, k + 1);
    assert Padded(n, width)[k] == Padded(n, width)[..k + 1][k];
  }

  /** The digits are those of the id, the most significant of the last `NameLength(id)` first. */
  lemma {:induction false} FallbackDigits(id: Word, k: nat)
    requires k < NameLength(id)
    ensures FallbackName(id)[k] == Digit(id / Pow10(NameLength(id) - 1 - k) % 10)
  {
    PaddedDigit(id, NameLength(id), k);
  }

  // ---- What the name says ----

  ghost predicate IsPowerOfTen(n: nat) {
    exists k: nat :: n == Pow10(k)
  }

  lemma {:induction false} PowerBetween(id: Word, len: nat)
    requires IsPowerOfTen(id) && id <= Pow10(len) && forall j :: 0 <= j < len ==> Pow10(j) < id
    ensures id == Pow10(len)
  {
    var k: nat :| id == Pow10(k);
    if k > len {
      Pow10Increases(len, k);
    }
  }

  lemma {:induction false} Remainder(n: nat, m: nat)
    requires m > 0
    ensures n % m < m
    ensures n < m ==> n % m == n
    ensures n == m ==> n % m == 0
  {
  }

  /** The digits decode to the id exactly if the id has at most sixteen digits and is neither zero nor
      a power of ten. */
  lemma {:induction false} FallbackDecodes(id: Word)
    ensures ParseNumeral(FallbackName(id)) == Some(id) <==> 0 < id < Pow10(MAX_THREAD_NAME) && !IsPowerOfTen(id)
  {
    var len := NameLength(id);
    assert Pow10(0) == 1;
    if len == 0 {
      assert id == 1 ==> id == Pow10(0);
    } else {
      PaddedRoundTrip(id, len);
      Remainder(id, Pow10(len));
      LengthReaches(id, len);
    }
  }

  lemma {:induction false} LengthReaches(id: Word, len: nat)
    requires len == NameLength(id) > 0
    ensures id < Pow10(len) <==> id < Pow10(MAX_THREAD_NAME) && !IsPowerOfTen(id)
  {
    if len < MAX_THREAD_NAME {
      Pow10Increases(len, MAX_THREAD_NAME);
    }
    if IsPowerOfTen(id) && id <= Pow10(len) {
      PowerBetween(id, len);
    }
  }

  /** The handler reads the buffer up to its terminator. There is one, and what stands before it is the
      digits written, exactly if the id is at most 10^15; any larger id fills the buffer. */
  lemma {:induction false} TerminatedIff(id: Word)
    ensures CString(NameBuffer(id), '\0')
            == if id <= Pow10(MAX_THREAD_NAME - 1) then Some(FallbackName(id)) else None
  {
    LengthBelowBuffer(id);
    hide Pow10, Padded, NameLength;
    assert '\0' !in FallbackName(id);
    CStringOfPadded(FallbackName(id), MAX_THREAD_NAME - NameLength(id), '\0');
  }

  lemma {:induction false} LengthBelowBuffer(id: Word)
    ensures NameLength(id) < MAX_THREAD_NAME <==> id <= Pow10(MAX_THREAD_NAME - 1)
  {
    hide Pow10;
    if NameLength(id) < MAX_THREAD_NAME - 1 {
      Pow10Increases(NameLength(id), MAX_THREAD_NAME - 1);
    }
  }

  /** An id whose name runs past the end of the buffer. */
  lemma {:induction false} UnterminatedName()
    ensures CString(NameBuffer(1_234_567_890_123_456), '\0') == None
  {
    assert Pow10(5) == 100_000;
    assert Pow10(10) == 100_000 * Pow10(5);
    assert Pow10(15) == 100_000 * Pow10(10);
    TerminatedIff(1_234_567_890_123_456);
  }

  /** The label that a report shows for a thread without a name of its own, if its name can be read. */
  function Label(id: Word): Option<string> {
    match CString(NameBuffer(id), '\0')
    case None => None
    case Some(name) => Some(ThreadNameOrId(Frames([], name, id, 0)))
  }

  /** The label is the thread's id in decimal exactly if the id is at most one, or at most 10^15 and no
      power of ten. */
  lemma {:induction false} LabelIsId(id: Word)
    ensures Label(id) == Some(Numeral(id)) <==> id <= 1 || (id <= Pow10(MAX_THREAD_NAME - 1) && !IsPowerOfTen(id))
  {
    hide Pow10;
    TerminatedIff(id);
    PowersOfTen(0);
    Pow10Increases(0, MAX_THREAD_NAME - 1);
    if id <= Pow10(MAX_THREAD_NAME - 1) {
      NameIsId(id, NameLength(id));
    }
  }

  /** Up to the buffer's last power of ten, the digits are the id's numeral or, for zero and one, missing. */
  lemma {:induction false} NameIsId(id: Word, len: nat)
    requires len == NameLength(id) && id <= Pow10(MAX_THREAD_NAME - 1)
    ensures id <= 1 ==> FallbackName(id) == ""
    ensures id > 1 ==> FallbackName(id) != "" && (FallbackName(id) == Numeral(id) <==> !IsPowerOfTen(id))
  {
    PowersOfTen(0);
    if len == 0 {
      assert FallbackName(id) == "";
    } else {
      assert Pow10(0) < id;
      Pow10Increases(MAX_THREAD_NAME - 1, MAX_THREAD_NAME);
      FallbackDecodes(id);
      NumeralRoundTrip(id);
      LengthReaches(id, len);
      if id < Pow10(len) {
        PaddedIsNumeral(id, len);
      }
    }
  }

  /** Thread 10 is labelled 0: a power of ten loses its leading digit. */
  lemma {:induction false} TenIsLabelledZero()
    ensures Numeral(10) == "10" && Label(10) == Some("0")
  {
    PowersOfTen(0);
    assert Pow10(1) == 10;
    assert NameLength(10) == 1;
    assert Padded(10 / 10, 0) == "";
    assert FallbackName(10) == "0";
    Pow10Increases(1, MAX_THREAD_NAME - 1);
    TerminatedIff(10);
    assert Numeral(1) == "1";
  }
}
