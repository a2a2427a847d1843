// The render timer's microsecond interval arithmetic and the rotate timer's
// interval bookkeeping. The clock reading (gettimeofday's tv_usec) is a
// parameter.
module Timers {

  const MicrosPerSecond := 1000000

  /** The interval between two tv_usec readings, wrapping once around a
      second boundary. */
  function Elapsed(last: int, now: int): (diff: int)
    requires 0 <= last < MicrosPerSecond && 0 <= now < MicrosPerSecond
    ensures 0 <= diff < MicrosPerSecond
    ensures diff == (now - last) % MicrosPerSecond
  {
    if last > now then (now + MicrosPerSecond) - last else now - last
  }

  class RenderTimer {
    /** The most recent clock reading (the time member's tv_usec). */
    var timeUsec: int
    /** The reading that intervals are measured from. */
    var lastTimeMS: int

    ghost predicate Valid()
      reads this
    {
      0 <= timeUsec < MicrosPerSecond && 0 <= lastTimeMS < MicrosPerSecond
    }

    constructor (nowUsec: int)
      requires 0 <= nowUsec < MicrosPerSecond
      ensures Valid()
      ensures timeUsec == nowUsec && lastTimeMS == nowUsec
    {
      timeUsec := nowUsec;
      lastTimeMS := nowUsec;
    }

    /** getTiming: take a new reading and return the interval since the
        baseline; the baseline itself is kept. */
    method GetTiming(nowUsec: int) returns (diff: int)
      requires Valid() && 0 <= nowUsec < MicrosPerSecond
      modifies this`timeUsec
      ensures Valid()
      ensures timeUsec == nowUsec && lastTimeMS == old(lastTimeMS)
      ensures diff == Elapsed(old(lastTimeMS), nowUsec)
    {
      timeUsec := nowUsec;
      if lastTimeMS > timeUsec {
        diff := (timeUsec + MicrosPerSecond) - lastTimeMS;
      } else {
        diff := timeUsec - lastTimeMS;
      }
    }

    /** resetTiming: the latest reading becomes the baseline. */
    method ResetTiming()
      requires Valid()
      modifies this`lastTimeMS
      ensures Valid()
      ensures lastTimeMS == timeUsec
    {
      lastTimeMS := timeUsec;
    }
  }

  /** After a reset, a clock that has not moved reads an interval of zero. */
  lemma ResetThenUnchangedClock(t: int)
    requires 0 <= t < MicrosPerSecond
    ensures Elapsed(t, t) == 0
  {
  }

  /** Intervals taken against one baseline add up, modulo a second. */
  lemma ElapsedAdds(a: int, b: int, c: int)
    requires 0 <= a < MicrosPerSecond && 0 <= b < MicrosPerSecond && 0 <= c < MicrosPerSecond
    ensures (Elapsed(a, b) + Elapsed(b, c)) % MicrosPerSecond == Elapsed(a, c)
  {
  }

  const DefaultRotateInterval := 30000

  class RotateTimer {
    /** Milliseconds of one rotation period. */
    var counterMax: int

    constructor ()
      ensures counterMax == DefaultRotateInterval
    {
      counterMax := DefaultRotateInterval;
    }

    /** Start: an interval of -1 keeps the previous period. */
    method Start(milliseconds: int)
      modifies this`counterMax
      ensures counterMax == if milliseconds != -1 then milliseconds else old(counterMax)
    {
      if milliseconds != -1 {
        counterMax := milliseconds;
      }
    }
  }
}
