/** Decimal numerals: how counts and thread ids are printed, and how a reader gets them back. */
module Decimal {
  import opened Outcomes
  import opened Quotients

  function Digit(d: nat): (c: char)
    requires d < 10
    ensures '0' <= c <= '9' && c == "0123456789"[d]
  {
    ('0' as int + d) as char
  }

  function DigitValue(c: char): (d: nat)
    requires '0' <= c <= '9'
    ensures d < 10 && Digit(d) == c
  {
    c as int - '0' as int
  }

  function Numeral(n: nat): (s: string)
    ensures s != []
    ensures forall i :: 0 <= i < |s| ==> '0' <= s[i] <= '9'
  {
    if n < 10 then [Digit(n)] else Numeral(n / 10) + [Digit(n % 10)]
  }

  function SignedNumeral(n: int): (s: string)
    ensures s != []
    ensures forall i :: 0 <= i < |s| ==> s[i] == '-' || '0' <= s[i] <= '9'
    ensures n >= 0 ==> s == Numeral(n)
    ensures n < 0 ==> s[0] == '-' && s[1..] == Numeral(-n)
  {
    if n < 0 then "-" + Numeral(-n) else Numeral(n)
  }

  /** The last `width` decimal digits of `n`. */
  function Padded(n: nat, width: nat): (s: string)
    ensures |s| == width
    ensures forall i :: 0 <= i < |s| ==> '0' <= s[i] <= '9'
  {
    if width == 0 then [] else Padded(n / 10, width - 1) + [Digit(n % 10)]
  }

  function ParseNumeral(s: string): Option<nat> {
    if s == [] || !('0' <= s[|s| - 1] <= '9') then None
    else
      var d := DigitValue(s[|s| - 1]);
      if |s| == 1 then Some(d)
      else
        match ParseNumeral(s[..|s| - 1])
        case None => None
        case Some(n) => Some(10 * n + d)
  }

  function ParseSigned(s: string): Option<int> {
    if s != [] && s[0] == '-' then
      var n := ParseNumeral(s[1..]);
      if n.Some? then Some(0 - n.value) else None
    else
      var n := ParseNumeral(s);
      if n.Some? then Some(n.value) else None
  }

  lemma {:induction false} NumeralRoundTrip(n: nat)
    ensures ParseNumeral(Numeral(n)) == Some(n)
  {
    if n >= 10 {
      var s := Numeral(n);
      assert s[..|s| - 1] == Numeral(n / 10);
      NumeralRoundTrip(n / 10);
    }
  }

  lemma {:induction false} ParseUnsigned(s: string)
    requires s != [] && s[0] != '-'
    ensures ParseSigned(s) == ParseNumeral(s)
  {
  }

  lemma {:induction false} ParseNegative(s: string, n: nat)
    requires ParseNumeral(s) == Some(n)
    ensures ParseSigned("-" + s) == Some(0 - n)
  {
  }

  lemma {:induction false} SignedRoundTrip(n: int)
    ensures ParseSigned(SignedNumeral(n)) == Some(n)
  {
    if n < 0 {
      NumeralRoundTrip(-n);
      ParseNegative(Numeral(-n), -n);
    } else {
      NumeralRoundTrip(n);
      ParseUnsigned(Numeral(n));
    }
  }

  function Pow10(k: nat): (p: nat)
    ensures p > 0
  {
    if k == 0 then 1 else 10 * Pow10(k - 1)
  }

  lemma {:induction false} Pow10Increases(j: nat, k: nat)
    requires j < k
    ensures Pow10(j) < Pow10(k)
  {
    if j < k - 1 {
      Pow10Increases(j, k - 1);
    }
  }

  lemma {:induction false} DropDigit(n: nat, m: nat)
    requires m > 0
    ensures n % (10 * m) == 10 * (n / 10 % m) + n % 10
  {
    var q, r := n / 10 / m, n / 10 % m;
    assert n / 10 == q * m + r;
    assert n == q * (10 * m) + (10 * r + n % 10);
    RemainderUnique(n, 10 * m, q, 10 * r + n % 10);
  }

  lemma {:induction false} ParseAppend(s: string, n: nat, d: nat)
    requires d < 10 && if s == [] then n == 0 else ParseNumeral(s) == Some(n)
    ensures ParseNumeral(s + [Digit(d)]) == Some(10 * n + d)
  {
  }

  /** Padding keeps the value modulo a power of ten. */
  lemma {:induction false} PaddedRoundTrip(n: nat, width: nat)
    requires width > 0
    ensures ParseNumeral(Padded(n, width)) == Some(n % Pow10(width))
  {
    if width > 1 {
      PaddedRoundTrip(n / 10, width - 1);
    }
    DropDigit(n, Pow10(width - 1));
    ParseAppend(Padded(n / 10, width - 1), n / 10 % Pow10(width - 1), n % 10);
  }

  /** A numeral is its own padding at its own width. */
  lemma {:induction false} PaddedIsNumeral(n: nat, width: nat)
    requires width > 0 && n < Pow10(width) && (width > 1 ==> Pow10(width - 1) <= n)
    ensures Padded(n, width) == Numeral(n)
  {
    if width > 1 {
      PaddedIsNumeral(n / 10, width - 1);
    }
  }

  /** Digit `k` of a padded number, from the left, is its decimal digit of that weight. */
  lemma {:induction false} PaddedDigit(n: nat, width: nat, k: nat)
    requires k < width
    ensures Padded(n, width)[k] == Digit(n / Pow10(width - 1 - k) % 10)
  {
    if k < width - 1 {
      PaddedDigit(n / 10, width - 1, k);
      NestedQuotient(n, 10, Pow10(width - 2 - k));
    }
  }

  /** A numeral has no leading zero, and its digits are the number's, the most significant first. */
  lemma {:induction false} NumeralDigits(n: nat)
    ensures var s := Numeral(n);
            && n < Pow10(|s|) && (|s| > 1 ==> Pow10(|s| - 1) <= n)
            && forall k :: 0 <= k < |s| ==> s[k] == Digit(n / Pow10(|s| - 1 - k) % 10)
  {
    NumeralWidth(n);
    var s := Numeral(n);
    PaddedIsNumeral(n, |s|);
    forall k | 0 <= k < |s| ensures s[k] == Digit(n / Pow10(|s| - 1 - k) % 10) {
      PaddedDigit(n, |s|, k);
    }
  }

  lemma {:induction false} NumeralWidth(n: nat)
    ensures n < Pow10(|Numeral(n)|) && (|Numeral(n)| > 1 ==> Pow10(|Numeral(n)| - 1) <= n)
  {
    if n >= 10 {
      NumeralWidth(n / 10);
    }
  }

  lemma {:induction false} PowersOfTen(k: nat)
    ensures Pow10(0) == 1 && Pow10(k + 1) == Pow10(k) * 10
  {
  }
}
