/** Deadlines of timers: the arithmetic of LocTimer::start and the order of LocTimerDelegate::ranks. */
module Deadline {
  import opened Words

  const NS_PER_SEC := 1_000_000_000
  const INT_LIMIT := 0x8000_0000     // one more than the largest 32-bit int

  datatype Timespec = Timespec(sec: int, nsec: int)

  predicate Normal(t: Timespec) {
    0 <= t.nsec < NS_PER_SEC
  }

  /** Times since boot that a 32-bit time_t can hold. */
  type Time = t: Timespec | Normal(t) && 0 <= t.sec < INT_LIMIT witness Timespec(0, 0)

  /** What the clock shows on a device up for less than 67 years: it leaves room for the longest timeout. */
  type Clock = t: Time | t.sec < INT_LIMIT - WORD_RANGE / 1000 - 1 witness Timespec(0, 0)

  function Nanos(t: Timespec): int {
    t.sec * NS_PER_SEC + t.nsec
  }

  predicate Earlier(a: Timespec, b: Timespec) {
    a.sec < b.sec || (a.sec == b.sec && a.nsec < b.nsec)
  }

  /** The time a timer started at now for so many milliseconds expires. */
  function After(now: Timespec, ms: nat): Timespec {
    var sec := now.sec + ms / 1000;
    var nsec := now.nsec + (ms % 1000) * 1000000;
    if nsec >= NS_PER_SEC then Timespec(sec + nsec / NS_PER_SEC, nsec % NS_PER_SEC) else Timespec(sec, nsec)
  }

  /** The deadline is exact and normalised, and the unnormalised tv_nsec never leaves the 32-bit range. */
  lemma AfterExact(now: Timespec, ms: nat)
    requires Normal(now)
    ensures Normal(After(now, ms))
    ensures Nanos(After(now, ms)) == Nanos(now) + ms * 1000000
    ensures now.nsec + (ms % 1000) * 1000000 < INT_LIMIT
    ensures After(now, ms).sec <= now.sec + ms / 1000 + 1
  {
    assert ms == ms / 1000 * 1000 + ms % 1000;
  }

  /** No start comes too late for a 32-bit time_t. */
  lemma DeadlineFits(now: Clock, ms: Word)
    ensures Normal(After(now, ms)) && 0 <= After(now, ms).sec < INT_LIMIT
  {
    AfterExact(now, ms);
  }

  lemma EarlierIsNanos(a: Timespec, b: Timespec)
    requires Normal(a) && Normal(b)
    ensures Earlier(a, b) <==> Nanos(a) < Nanos(b)
  {
  }

  /** Assignment of a wider integer to an int. */
  function ToInt(x: int): int {
    var low := x % WORD_RANGE;
    if low < INT_LIMIT then low else low - WORD_RANGE
  }

  /** LocTimerDelegate::ranks: positive if a, being due sooner, ranks higher than b. */
  function Ranks(a: Timespec, b: Timespec): int {
    var rank := ToInt(b.sec - a.sec);
    if rank == 0 then ToInt(b.nsec - a.nsec) else rank
  }

  /** ranks tells which of a and b is due sooner. */
  predicate RanksByTime(a: Timespec, b: Timespec) {
    && (Ranks(a, b) > 0 <==> Nanos(a) < Nanos(b))
    && (Ranks(b, a) > 0 <==> Nanos(b) < Nanos(a))
  }

  /** The distance in seconds, narrowed to an int, still says which time is later. */
  predicate Comparable(a: Timespec, b: Timespec) {
    var gap := if a.sec <= b.sec then b.sec - a.sec else a.sec - b.sec;
    || gap == 0
    || 0 < gap % WORD_RANGE < INT_LIMIT
    || (gap % WORD_RANGE == 0 && if a.sec < b.sec then a.nsec < b.nsec else b.nsec < a.nsec)
  }

  /**
   * The truncated difference of seconds ranks by time exactly when the later time is ahead modulo 2^32 by
   * less than 2^31 seconds, or by none at all and is ahead in nanoseconds.
   */
  lemma RanksByTimeExact(a: Timespec, b: Timespec)
    requires Normal(a) && Normal(b)
    ensures RanksByTime(a, b) <==> Comparable(a, b)
    ensures -WORD_RANGE < b.sec - a.sec < WORD_RANGE ==>
      (Comparable(a, b) <==> -INT_LIMIT < b.sec - a.sec < INT_LIMIT)
  {
    EarlierIsNanos(a, b);
    EarlierIsNanos(b, a);
    if a.sec <= b.sec { NarrowedGap(b.sec - a.sec); } else { NarrowedGap(a.sec - b.sec); }
    hide ToInt, Nanos;
  }

  lemma NarrowedGap(gap: int)
    requires gap >= 0
    ensures ToInt(gap) > 0 <==> 0 < gap % WORD_RANGE < INT_LIMIT
    ensures ToInt(gap) == 0 <==> gap % WORD_RANGE == 0
    ensures ToInt(-gap) == 0 <==> gap % WORD_RANGE == 0
    ensures ToInt(-gap) > 0 <==> gap % WORD_RANGE > INT_LIMIT
  {
  }

  /** A timer due more than 2^31 seconds after another is taken to be due sooner. */
  lemma RanksCanBeWrong()
    ensures var a, b := Timespec(0, 0), Timespec(INT_LIMIT + 1, 0);
      Nanos(a) < Nanos(b) && Ranks(b, a) > 0
  {
  }

  /** What the proofs about timers need: on times since boot, outranking is being due earlier. */
  lemma RanksIsEarlier(a: Time, b: Time)
    ensures Ranks(a, b) > 0 <==> Earlier(a, b)
  {
  }
}
