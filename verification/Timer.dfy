/** The sampling timer and the time values derived from its frequency. */
module Timer {
  import opened MachineInts

  datatype Timeval = Timeval(tvSec: int, tvUsec: int)

  const ZERO: Timeval := Timeval(0, 0)

  /** Timing metadata copied into every report. */
  datatype ReportTiming = ReportTiming(frequency: int, startTime: nat, duration: nat)

  const DEFAULT_TIMING: ReportTiming := ReportTiming(1, 0, 0)

  /** Rust's `%`, which takes the sign of the dividend. */
  function TruncMod(n: int, d: int): int
    requires d != 0
  {
    n - d * TruncDiv(n, d)
  }

  function IntervalOf(frequency: int): Timeval
    requires frequency != 0
  {
    var interval := TruncDiv(1_000_000, frequency);
    Timeval(TruncDiv(interval, 1_000_000), TruncMod(interval, 1_000_000))
  }

  /** The process's ITIMER_PROF. */
  class ProfilingTimer {
    var value: Timeval

    constructor ()
      ensures !Armed()
    {
      value := ZERO;
    }

    predicate Armed()
      reads this
    {
      value != ZERO
    }

    /** `setitimer`: out-of-range fields are rejected, zero disarms. */
    method Set(tv: Timeval)
      modifies this
      ensures value == if 0 <= tv.tvSec && 0 <= tv.tvUsec < 1_000_000 then tv else old(value)
    {
      if 0 <= tv.tvSec && 0 <= tv.tvUsec && tv.tvUsec < 1_000_000 {
        value := tv;
      }
    }
  }

  class Timer {
    const frequency: int
    const startTime: nat
    const startInstant: nat

    /** Arms the process timer exactly for frequencies from 1 to a million. Beyond a million, in either
        direction, the interval is zero and disarms it; a negative interval is refused. Neither is
        reported. */
    constructor (frequency: int, process: ProfilingTimer, now: nat, instant: nat)
      requires frequency != 0
      modifies process
      ensures process.value == if -1_000_000 <= frequency < 0 then old(process.value) else IntervalOf(frequency)
      ensures !old(process.Armed()) ==> (process.Armed() <==> 1 <= frequency <= 1_000_000)
      ensures this.frequency == frequency && this.startTime == now && this.startInstant == instant
    {
      var interval := TruncDiv(1_000_000, frequency);
      var itInterval := Timeval(TruncDiv(interval, 1_000_000), TruncMod(interval, 1_000_000));
      IntervalFields(frequency);
      process.Set(itInterval);
      this.frequency, startTime, startInstant := frequency, now, instant;
    }

    method Timing(instant: nat) returns (t: ReportTiming)
      requires startInstant <= instant
      ensures t == ReportTiming(frequency, startTime, instant - startInstant)
    {
      t := ReportTiming(frequency, startTime, instant - startInstant);
    }

    method Drop(process: ProfilingTimer)
      modifies process
      ensures !process.Armed()
    {
      process.Set(ZERO);
    }
  }

  // ---- Division ----

  /** `q` is the quotient `n / f`. */
  lemma {:induction false} QuotientIs(n: nat, f: nat, q: nat)
    requires f > 0
    ensures n / f * f <= n < (n / f + 1) * f
    ensures q * f <= n ==> q <= n / f
    ensures n < q * f ==> n / f < q
  {
  }

  // ---- The interval ----

  /** For a frequency from 1 to a million the fields encode the positive interval; above, the interval
      is zero, which disarms; below zero it is rejected or zero. */
  lemma {:induction false} IntervalFields(frequency: int)
    requires frequency != 0
    ensures var tv := IntervalOf(frequency);
            && (1 <= frequency <= 1_000_000 ==>
                  && tv.tvSec * 1_000_000 + tv.tvUsec == 1_000_000 / frequency
                  && tv != ZERO && 0 <= tv.tvSec && 0 <= tv.tvUsec < 1_000_000)
            && (frequency > 1_000_000 || frequency < -1_000_000 ==> tv == ZERO)
            && (-1_000_000 <= frequency < 0 ==> tv.tvSec < 0 || tv.tvUsec < 0)
  {
  }

  // ---- The period and the time values of a profile ----

  /** The profile's period in nanoseconds is the timer's interval in microseconds, up to rounding. */
  lemma {:induction false} PeriodMatchesInterval(frequency: nat)
    requires frequency > 0
    ensures 1000 * (1_000_000 / frequency) <= 1_000_000_000 / frequency < 1000 * (1_000_000 / frequency + 1)
  {
    var interval := 1_000_000 / frequency;
    QuotientIs(1_000_000, frequency, 0);
    assert 1000 * interval * frequency == 1000 * (interval * frequency);
    assert 1000 * (interval + 1) * frequency == 1000 * ((interval + 1) * frequency);
    QuotientIs(1_000_000_000, frequency, 1000 * interval);
    QuotientIs(1_000_000_000, frequency, 1000 * (interval + 1));
  }

  /** CPU time of `count` samples. */
  function CpuTime(count: nat, frequency: nat): nat
    requires frequency > 0
  {
    count * 1_000_000_000 / frequency
  }

  /** A sample's time lies between its count of periods and its count of rounded-up periods. */
  lemma {:induction false} TimeMatchesPeriod(count: nat, frequency: nat)
    requires count > 0 && frequency > 0
    ensures var period := 1_000_000_000 / frequency;
            count * period <= CpuTime(count, frequency) < count * (period + 1)
  {
  }

  function Sum(counts: seq<nat>): nat {
    if counts == [] then 0 else Sum(counts[..|counts| - 1]) + counts[|counts| - 1]
  }

  function SumOfTimes(counts: seq<nat>, frequency: nat): nat
    requires frequency > 0
  {
    if counts == [] then 0
    else SumOfTimes(counts[..|counts| - 1], frequency) + CpuTime(counts[|counts| - 1], frequency)
  }

  lemma {:induction false} QuotientAdd(x: nat, y: nat, f: nat)
    requires f > 0
    ensures x / f + y / f <= (x + y) / f <= x / f + y / f + 1
  {
    var p, q := x / f, y / f;
    QuotientIs(x, f, 0);
    QuotientIs(y, f, 0);
    assert (p + q) * f == p * f + q * f;
    assert (p + q + 2) * f == (p + 1) * f + (q + 1) * f;
    QuotientIs(x + y, f, p + q);
    QuotientIs(x + y, f, p + q + 2);
  }

  /** Adding up the samples' times loses less than a nanosecond a sample. */
  lemma {:induction false} TimesAddUp(counts: seq<nat>, frequency: nat)
    requires frequency > 0
    ensures SumOfTimes(counts, frequency) <= CpuTime(Sum(counts), frequency)
    ensures counts != [] ==> CpuTime(Sum(counts), frequency) < SumOfTimes(counts, frequency) + |counts|
  {
    if counts != [] {
      var front, c := counts[..|counts| - 1], counts[|counts| - 1];
      TimesAddUp(front, frequency);
      QuotientAdd(Sum(front) * 1_000_000_000, c * 1_000_000_000, frequency);
    }
  }
}
