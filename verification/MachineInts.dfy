/** The fixed-width integers of the profiler: `isize`/`i64` counts and the `i32` sample counter.
    Additions wrap, as they do in a release build. */
module MachineInts {

  const ISIZE_SPAN: int := 0x1_0000_0000_0000_0000
  const ISIZE_MAX: int := 0x7FFF_FFFF_FFFF_FFFF
  const ISIZE_MIN: int := -0x8000_0000_0000_0000

  type Isize = x: int | -0x8000_0000_0000_0000 <= x <= 0x7FFF_FFFF_FFFF_FFFF

  type Positive = n: nat | 0 < n witness 1

  /** `n` whole spans of 2^64, which no isize computation can see. */
  function Spans(n: int): int {
    0x1_0000_0000_0000_0000 * n
  }

  /** How many spans bring `x` into range. */
  function Laps(x: int): (n: int)
    ensures ISIZE_MIN <= x + Spans(n) <= ISIZE_MAX
    ensures ISIZE_MIN <= x <= ISIZE_MAX ==> n == 0
    decreases if x > ISIZE_MAX then x - ISIZE_MAX else if x < ISIZE_MIN then ISIZE_MIN - x else 0
  {
    if x > 0x7FFF_FFFF_FFFF_FFFF then Laps(x - 0x1_0000_0000_0000_0000) - 1
    else if x < -0x8000_0000_0000_0000 then Laps(x + 0x1_0000_0000_0000_0000) + 1
    else 0
  }

  /** The isize that the integer `x` wraps around to. */
  function Wrap(x: int): (r: Isize)
    ensures ISIZE_MIN <= x <= ISIZE_MAX ==> r == x
  {
    x + Spans(Laps(x))
  }

  /** Only one isize is a whole number of spans away from `x`. */
  lemma {:induction false} WrapUnique(x: int, r: Isize, n: int)
    requires r == x + Spans(n)
    ensures r == Wrap(x)
  {
  }

  /** Wrapping changes a number by a multiple of 2^64, nothing else. */
  lemma {:induction false} WrapIsModular(x: int)
    ensures (Wrap(x) - x) % 0x1_0000_0000_0000_0000 == 0
  {
  }

  /** Wrapping after every addition gives the same isize as wrapping once at the end. */
  lemma {:induction false} WrapAdd(x: int, y: int)
    ensures Wrap(Wrap(x) + y) == Wrap(x + y)
  {
  }

  /** The `i32` sample counter, which wraps modulo 2^32. */
  function Wrap32(x: int): (r: int)
    ensures -0x8000_0000 <= r <= 0x7FFF_FFFF
    ensures -0x8000_0000 <= x <= 0x7FFF_FFFF ==> r == x
    decreases if x > 0x7FFF_FFFF then x - 0x7FFF_FFFF else if x < -0x8000_0000 then -0x8000_0000 - x else 0
  {
    if x > 0x7FFF_FFFF then Wrap32(x - 0x1_0000_0000)
    else if x < -0x8000_0000 then Wrap32(x + 0x1_0000_0000)
    else x
  }

  /** Wrapping changes a number by a multiple of 2^32, nothing else. */
  lemma {:induction false} Wrap32IsModular(x: int)
    ensures (Wrap32(x) - x) % 0x1_0000_0000 == 0
    decreases if x > 0x7FFF_FFFF then x - 0x7FFF_FFFF else if x < -0x8000_0000 then -0x8000_0000 - x else 0
  {
    if x > 0x7FFF_FFFF {
      Wrap32IsModular(x - 0x1_0000_0000);
    } else if x < -0x8000_0000 {
      Wrap32IsModular(x + 0x1_0000_0000);
    }
  }

  /** Counting up by one wraps at each step to the wrapped count. */
  lemma {:induction false} Wrap32Next(n: int)
    requires n >= -0x8000_0000
    ensures Wrap32(Wrap32(n) + 1) == Wrap32(n + 1)
    decreases n + 0x8000_0000
  {
    if n > 0x7FFF_FFFF {
      Wrap32Next(n - 0x1_0000_0000);
    }
  }

  /** Rust's `/` on signed integers, which truncates toward zero. */
  function TruncDiv(n: int, d: int): (q: int)
    requires d != 0
  {
    if n >= 0 then n / d else -(-n / d)
  }

  /** The quotient times the divisor misses the dividend by less than the divisor, on the side of zero. */
  lemma {:induction false} TruncDivMeaning(n: int, d: int)
    requires d != 0
    ensures var rest := n - d * TruncDiv(n, d);
            && (n >= 0 ==> 0 <= rest) && (n <= 0 ==> rest <= 0)
            && (if d > 0 then -d < rest < d else d < rest < -d)
  {
    if n < 0 {
      assert d * (-n / d) + -n % d == -n;
    }
  }
}
