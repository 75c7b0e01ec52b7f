/**
 * The tiered parking fee of backend/server.js (`calculateFee`).
 *
 * Amounts are integer cents, timestamps integer milliseconds since the epoch.
 * The stay is billed in whole minutes, rounded up; the first hour costs a
 * flat 2.00, each further started hour 1.50 more, and the total is capped at
 * 15.00.
 */
module Fees {

  const MS_PER_MINUTE := 60_000
  const MINUTES_PER_HOUR := 60
  /** Flat rate for the first hour, in cents. */
  const FIRST_HOUR_FEE := 200
  /** Added for each started hour after the first, in cents. */
  const EXTRA_HOUR_FEE := 150
  /** Upper bound of every fee, in cents. */
  const MAX_FEE := 1500

  /** What `calculateFee` returns: `{ fee, duration }`. */
  datatype Charge = Charge(fee: int, duration: int)

  function Min(a: int, b: int): int {
    if a <= b then a else b
  }

  /**
   * `Math.ceil(elapsed / 60000)`: whole minutes, any started minute counted.
   * Dafny's division is Euclidean, so negating twice rounds up.
   */
  function DurationMinutes(elapsed: int): (minutes: int)
    ensures (minutes - 1) * MS_PER_MINUTE < elapsed <= minutes * MS_PER_MINUTE
  {
    -((-elapsed) / MS_PER_MINUTE)
  }

  /** `Math.ceil(minutes / 60)`: the number of started hours. */
  function BilledHours(minutes: int): (hours: int)
    ensures (hours - 1) * MINUTES_PER_HOUR < minutes <= hours * MINUTES_PER_HOUR
  {
    -((-minutes) / MINUTES_PER_HOUR)
  }

  /** The fee tier for a stay of `minutes` whole minutes. */
  function FeeForDuration(minutes: int): (fee: int)
    ensures FIRST_HOUR_FEE <= fee <= MAX_FEE
    ensures minutes <= MINUTES_PER_HOUR ==> fee == FIRST_HOUR_FEE
  {
    if minutes <= MINUTES_PER_HOUR then FIRST_HOUR_FEE
    else Min(FIRST_HOUR_FEE + (BilledHours(minutes) - 1) * EXTRA_HOUR_FEE, MAX_FEE)
  }

  /**
   * `calculateFee(entryTime, exitTime)`. An exit before the entry is not
   * rejected: it bills a non-positive duration at the first-hour rate.
   */
  function CalculateFee(entry: int, exit: int): (c: Charge)
    ensures (c.duration - 1) * MS_PER_MINUTE < exit - entry <= c.duration * MS_PER_MINUTE
    ensures FIRST_HOUR_FEE <= c.fee <= MAX_FEE
    ensures c.fee == FeeForDuration(c.duration)
  {
    var minutes := DurationMinutes(exit - entry);
    Charge(FeeForDuration(minutes), minutes)
  }

  /** The number of started hours is the only integer bracketing `minutes`. */
  lemma BilledHoursUnique(minutes: int, hours: int)
    requires (hours - 1) * MINUTES_PER_HOUR < minutes <= hours * MINUTES_PER_HOUR
    ensures BilledHours(minutes) == hours
  {
  }

  /** Started hours never decrease as the stay grows. */
  lemma BilledHoursMonotone(m1: int, m2: int)
    requires m1 <= m2
    ensures BilledHours(m1) <= BilledHours(m2)
  {
  }

  /**
   * The tier formula: past the first hour, with `hours` the started hours,
   * the fee is 2.00 plus 1.50 per started hour after the first, capped.
   */
  lemma FeeTiers(minutes: int, hours: int)
    requires minutes > MINUTES_PER_HOUR
    requires (hours - 1) * MINUTES_PER_HOUR < minutes <= hours * MINUTES_PER_HOUR
    ensures FeeForDuration(minutes) == Min(FIRST_HOUR_FEE + (hours - 1) * EXTRA_HOUR_FEE, MAX_FEE)
  {
    BilledHoursUnique(minutes, hours);
  }

  /** A longer stay never costs less. */
  lemma FeeMonotone(m1: int, m2: int)
    requires m1 <= m2
    ensures FeeForDuration(m1) <= FeeForDuration(m2)
  {
    if m1 > MINUTES_PER_HOUR {
      BilledHoursMonotone(m1, m2);
    }
  }

  /** From the tenth started hour on (more than 540 minutes) the cap applies. */
  lemma FeeCapped(minutes: int)
    requires minutes > 9 * MINUTES_PER_HOUR
    ensures FeeForDuration(minutes) == MAX_FEE
  {
    BilledHoursMonotone(9 * MINUTES_PER_HOUR + 1, minutes);
    BilledHoursUnique(9 * MINUTES_PER_HOUR + 1, 10);
  }

  /** Up to 540 minutes the cap is not reached and every started hour is billed. */
  lemma FeeBelowCap(minutes: int)
    requires MINUTES_PER_HOUR < minutes <= 9 * MINUTES_PER_HOUR
    ensures FeeForDuration(minutes) == FIRST_HOUR_FEE + (BilledHours(minutes) - 1) * EXTRA_HOUR_FEE
    ensures FeeForDuration(minutes) < MAX_FEE
  {
    BilledHoursMonotone(minutes, 9 * MINUTES_PER_HOUR);
    BilledHoursUnique(9 * MINUTES_PER_HOUR, 9);
  }

  /**
   * Each further hour of a (positive) stay adds 1.50, up to the cap: the fee
   * as a recurrence over hours, independent of the closed formula.
   */
  lemma FeeNextHour(minutes: int)
    requires minutes > 0
    ensures FeeForDuration(minutes + MINUTES_PER_HOUR)
         == Min(FeeForDuration(minutes) + EXTRA_HOUR_FEE, MAX_FEE)
  {
    var h := BilledHours(minutes);
    BilledHoursUnique(minutes + MINUTES_PER_HOUR, h + 1);
    if minutes <= MINUTES_PER_HOUR {
      BilledHoursUnique(minutes, 1);
    }
  }

  /** An exit at or before the entry bills at most zero minutes, at the first-hour rate. */
  lemma NoEarlyExitRejection(entry: int, exit: int)
    requires exit <= entry
    ensures CalculateFee(entry, exit).duration <= 0
    ensures CalculateFee(entry, exit).fee == FIRST_HOUR_FEE
  {
  }

  /** Any started minute counts: one second is a one-minute stay. */
  lemma OneSecondStay(entry: int)
    ensures CalculateFee(entry, entry + 1000) == Charge(FIRST_HOUR_FEE, 1)
  {
  }

  /** 08:00:00Z to 09:30:00Z on 2024-01-01 is 90 minutes and two billed hours: 3.50. */
  lemma NinetyMinuteStay()
    ensures CalculateFee(1_704_096_000_000, 1_704_101_400_000) == Charge(350, 90)
  {
    FeeTiers(90, 2);
  }
}
