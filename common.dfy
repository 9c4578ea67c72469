/** The unit conversion of `minutesDelay` (src/utils/common.ts). */
module Common {

  const MillisPerMinute: nat := 60 * 1000

  /** `minutes * 60 * 1000`: the number of milliseconds the scheduler sleeps. */
  function MinutesToMillis(minutes: nat): (ms: nat)
    ensures ms % MillisPerMinute == 0
    ensures ms / MillisPerMinute == minutes
  {
    minutes * 60 * 1000
  }

  /** Zero minutes is no delay at all; any positive number of minutes is a positive delay. */
  lemma ZeroAndPositive(minutes: nat)
    ensures minutes == 0 <==> MinutesToMillis(minutes) == 0
    ensures minutes > 0 ==> MinutesToMillis(minutes) >= MillisPerMinute
  {
  }

  /** More minutes never gives a shorter delay, and distinct minute counts give distinct delays. */
  lemma Monotone(m1: nat, m2: nat)
    ensures m1 <= m2 <==> MinutesToMillis(m1) <= MinutesToMillis(m2)
    ensures m1 == m2 <==> MinutesToMillis(m1) == MinutesToMillis(m2)
  {
  }

  /** The scheduler's default of 30 minutes is half an hour in milliseconds. */
  lemma DefaultIsHalfAnHour()
    ensures MinutesToMillis(30) == 1_800_000
  {
  }
}
