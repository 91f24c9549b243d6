/** The recurring-payment calendar: standingInstruction.ts. */
module Schedules {
  import opened Calendar

  datatype Frequency = Daily | Weekly | Monthly

  /** The run instant that follows `from`. */
  function AdvanceRun(from: int, frequency: Frequency): int {
    match frequency
    case Daily => from + DAY_MS
    case Weekly => from + 7 * DAY_MS
    case Monthly => AddMonths(from, 1)
  }

  /** The n-th planned run of a schedule that starts at `start`. */
  function Planned(start: int, frequency: Frequency, n: nat): int {
    if n == 0 then start else AdvanceRun(Planned(start, frequency, n - 1), frequency)
  }

  /** A monthly advance is exactly the length of the month it leaves. */
  lemma MonthlyAdvance(from: int)
    ensures AdvanceRun(from, Monthly) - from == DaysInMonth(MonthOf(DayOf(from))) * DAY_MS
  {
    AddMonthsSpan(from, 1);
    MonthLength(MonthOf(DayOf(from)));
  }

  /** Daily runs fall on the next day, weekly ones on the same weekday of the
    * next week, both at the same time of day. */
  lemma FixedSteps(from: int)
    ensures var to := AdvanceRun(from, Daily); DayOf(to) == DayOf(from) + 1 && TimeWithinDay(to) == TimeWithinDay(from)
    ensures var to := AdvanceRun(from, Weekly);
            && 0 < DayOf(to) - DayOf(from) <= 7
            && DayOf(to) % 7 == DayOf(from) % 7
            && TimeWithinDay(to) == TimeWithinDay(from)
  {
    assert from + DAY_MS == (DayOf(from) + 1) * DAY_MS + TimeWithinDay(from);
    assert from + 7 * DAY_MS == (DayOf(from) + 7) * DAY_MS + TimeWithinDay(from);
  }

  lemma AdvanceAtLeastADay(from: int, frequency: Frequency)
    ensures AdvanceRun(from, frequency) >= from + DAY_MS
  {
    if frequency == Monthly {
      MonthlyAdvance(from);
    }
  }

  /** No two runs of a schedule share an instant. */
  lemma {:induction false} PlannedIncreasing(start: int, frequency: Frequency, i: nat, j: nat)
    requires i < j
    ensures Planned(start, frequency, i) < Planned(start, frequency, j)
  {
    hide AdvanceRun;
    AdvanceAtLeastADay(Planned(start, frequency, j - 1), frequency);
    if i < j - 1 {
      PlannedIncreasing(start, frequency, i, j - 1);
    }
  }

  /** Where a monthly advance lands: the date is kept exactly when the next
    * month has it; otherwise that month is skipped and the run falls on the
    * 1st, 2nd or 3rd of the month after. */
  lemma MonthlyLanding(from: int)
    ensures var m := MonthOf(DayOf(from));
            var d := DateOf(from);
            var to := AdvanceRun(from, Monthly);
            && TimeWithinDay(to) == TimeWithinDay(from)
            && if d <= DaysInMonth(m + 1)
               then MonthOf(DayOf(to)) == m + 1 && DateOf(to) == d
               else MonthOf(DayOf(to)) == m + 2 && DateOf(to) == d - DaysInMonth(m + 1) <= 3
  {
    AddMonthsLanding(from, 1);
  }

  lemma SmallDateStays(from: int)
    requires DateOf(from) <= 28
    ensures DateOf(AdvanceRun(from, Monthly)) == DateOf(from)
  {
    MonthlyLanding(from);
  }

  /** The day of the month of the n-th run of a monthly schedule. */
  function RunDate(start: int, n: nat): int {
    DateOf(Planned(start, Monthly, n))
  }

  /** A date of at most 28 never changes again. */
  lemma {:induction false} SmallDateFixed(start: int, i: nat, j: nat)
    requires i <= j && RunDate(start, i) <= 28
    ensures RunDate(start, j) == RunDate(start, i)
    decreases j
  {
    if i < j {
      SmallDateFixed(start, i, j - 1);
      SmallDateStays(Planned(start, Monthly, j - 1));
    }
  }

  lemma NextRunDate(start: int, n: nat)
    ensures RunDate(start, n + 1) == RunDate(start, n) || RunDate(start, n + 1) <= 3
  {
    MonthlyLanding(Planned(start, Monthly, n));
  }

  /** Across an unbounded monthly schedule the date changes at most once: as
    * long as it is not the starting date it is 3 or less, and from the first
    * such run on it is the same for ever. */
  lemma {:induction false} MonthlyDateChangesOnce(start: int, i: nat, j: nat)
    requires i <= j && RunDate(start, i) != RunDate(start, 0)
    ensures RunDate(start, i) <= 3
    ensures RunDate(start, j) == RunDate(start, i)
  {
    if RunDate(start, i - 1) == RunDate(start, 0) {
      NextRunDate(start, i - 1);
    } else {
      MonthlyDateChangesOnce(start, i - 1, i);
    }
    SmallDateFixed(start, i, j);
  }
}
