/** Timestamps, the deadline arithmetic of the aging thread, and the eligibility test of a task. */
module Deadline {

  const NANOS := 1_000_000_000

  datatype Timespec = Timespec(sec: int, nsec: int)

  predicate Normalised(t: Timespec)
  {
    0 <= t.nsec < NANOS
  }

  /** The instant a timestamp denotes, in nanoseconds. */
  function Instant(t: Timespec): int
  {
    t.sec * NANOS + t.nsec
  }

  predicate Before(a: Timespec, b: Timespec)
  {
    a.sec < b.sec || (a.sec == b.sec && a.nsec < b.nsec)
  }

  /** The zero stamp marks a task submitted while aging was off. */
  predicate Unstamped(t: Timespec)
  {
    t.sec == 0 && t.nsec == 0
  }

  /** Seconds and nanoseconds from start to end, after the borrow. */
  function Elapsed(start: Timespec, end: Timespec): Timespec
  {
    var sec := end.sec - start.sec;
    var nsec := end.nsec - start.nsec;
    if nsec < 0 then Timespec(sec - 1, nsec + NANOS) else Timespec(sec, nsec)
  }

  predicate HasPassedMs(start: Timespec, end: Timespec, ms: int)
  {
    !Unstamped(start) && Elapsed(start, end).sec * NANOS + Elapsed(start, end).nsec >= ms * 1_000_000
  }

  /** C's division and remainder by a positive divisor, which truncate toward zero. */
  function TruncDiv(x: int, d: int): int
    requires d > 0
  {
    if x >= 0 then x / d else -((-x) / d)
  }

  function TruncMod(x: int, d: int): int
    requires d > 0
  {
    x - TruncDiv(x, d) * d
  }

  function PlusMs(t: Timespec, ms: int): Timespec
  {
    if ms <= 0 then t
    else
      var sec := t.sec + TruncDiv(ms, 1000);
      var nsec := t.nsec + TruncMod(ms, 1000) * 1_000_000;
      if nsec >= NANOS then Timespec(sec + TruncDiv(nsec, NANOS), TruncMod(nsec, NANOS))
      else Timespec(sec, nsec)
  }

  /** A timestamp variable that `timespec_add_ms` updates through its pointer. */
  class TimespecCell {
    var sec: int
    var nsec: int

    constructor (t: Timespec)
      ensures Value() == t
    {
      sec, nsec := t.sec, t.nsec;
    }

    function Value(): Timespec
      reads this
    {
      Timespec(sec, nsec)
    }

    method AddMs(ms: int)
      modifies this
      ensures Value() == PlusMs(old(Value()), ms)
      ensures Normalised(old(Value())) ==>
                && Normalised(Value())
                && Instant(Value()) == Instant(old(Value())) + (if ms > 0 then ms * 1_000_000 else 0)
    {
      if ms <= 0 {
        return;
      }
      sec := sec + TruncDiv(ms, 1000);
      nsec := nsec + TruncMod(ms, 1000) * 1_000_000;
      if nsec >= NANOS {
        sec := sec + TruncDiv(nsec, NANOS);
        nsec := TruncMod(nsec, NANOS);
      }
    }
  }

  /** Adding milliseconds moves the instant by exactly that much and keeps the stamp normalised. */
  lemma PlusMsExact(t: Timespec, ms: int)
    requires Normalised(t)
    ensures Normalised(PlusMs(t, ms))
    ensures Instant(PlusMs(t, ms)) == Instant(t) + (if ms > 0 then ms * 1_000_000 else 0)
  {
  }

  lemma BeforeIsInstantOrder(a: Timespec, b: Timespec)
    requires Normalised(a) && Normalised(b)
    ensures Before(a, b) <==> Instant(a) < Instant(b)
  {
  }

  /** The eligibility test is the deadline test: `end` is not before `start` plus the threshold. */
  lemma PassedIffDeadlineReached(start: Timespec, end: Timespec, ms: int)
    requires Normalised(start) && Normalised(end) && ms > 0
    ensures HasPassedMs(start, end, ms) <==> !Unstamped(start) && !Before(end, PlusMs(start, ms))
  {
    PlusMsExact(start, ms);
    BeforeIsInstantOrder(end, PlusMs(start, ms));
  }

  /** Eligibility, once reached, is kept by a monotone clock; an earlier stamp is eligible sooner. */
  lemma PassedMonotone(start: Timespec, start': Timespec, end: Timespec, end': Timespec, ms: int)
    requires !Before(end', end) && !Before(start, start') && !Unstamped(start')
    requires Normalised(start) && Normalised(start') && Normalised(end) && Normalised(end')
    requires HasPassedMs(start, end, ms)
    ensures HasPassedMs(start', end', ms)
  {
    BeforeIsInstantOrder(end', end);
    BeforeIsInstantOrder(start, start');
  }

  predicate Fits64(x: int)
  {
    -0x8000_0000_0000_0000 <= x < 0x8000_0000_0000_0000
  }

  /**
   * With seconds below 9 * 10^9 and a threshold below 9 * 10^12 ms, no intermediate value of
   * `has_passed_ms` or `timespec_add_ms` leaves the 64-bit `long`, so the integers here are exact.
   */
  lemma NoOverflow(start: Timespec, end: Timespec, ms: int)
    requires Normalised(start) && Normalised(end)
    requires 0 <= start.sec < 9_000_000_000 && 0 <= end.sec < 9_000_000_000
    requires 0 < ms < 9_000_000_000_000
    ensures Fits64(end.sec - start.sec) && Fits64(end.nsec - start.nsec)
    ensures var e := Elapsed(start, end);
            Fits64(e.sec) && Fits64(e.nsec) && Fits64(e.sec * NANOS) && Fits64(e.sec * NANOS + e.nsec)
    ensures Fits64(ms * 1_000_000)
    ensures Fits64(start.sec + ms / 1000) && Fits64(start.nsec + (ms % 1000) * 1_000_000)
    ensures Fits64(PlusMs(start, ms).sec)
  {
  }
}
