/**
 * The proleptic Gregorian calendar that ECMAScript dates use, over integer
 * milliseconds since 1970-01-01T00:00:00Z. A month is named by its index
 * 12 * year + month, with January as month 0, so that month arithmetic is
 * integer arithmetic.
 */
module Calendar {

  const DAY_MS := 86_400_000

  predicate IsLeapYear(y: int) {
    y % 4 == 0 && (y % 100 != 0 || y % 400 == 0)
  }

  function DaysInMonth(m: int): (n: int)
    ensures 28 <= n <= 31
  {
    match m % 12
    case 1 => if IsLeapYear(m / 12) then 29 else 28
    case 3 => 30
    case 5 => 30
    case 8 => 30
    case 10 => 30
    case _ => 31
  }

  /** The day number of the first day of month m: the month lengths summed
    * from January 1970. */
  function FirstDay(m: int): int
    decreases if m < 23640 then 23640 - m else m - 23640
  {
    if m == 23640 then 0
    else if m > 23640 then FirstDay(m - 1) + DaysInMonth(m - 1)
    else FirstDay(m + 1) - DaysInMonth(m)
  }

  lemma MonthLength(m: int)
    ensures FirstDay(m + 1) == FirstDay(m) + DaysInMonth(m)
  {
  }

  /** The month that contains a day, found by walking from January 1970. */
  function MonthOf(day: int): (m: int)
    ensures FirstDay(m) <= day < FirstDay(m + 1)
    decreases if day < 0 then -day else day
  {
    if day == 0 then
      23640
    else if day > 0 then
      var prev := MonthOf(day - 1);
      MonthLength(prev);
      MonthLength(prev + 1);
      if day < FirstDay(prev + 1) then prev else prev + 1
    else
      var next := MonthOf(day + 1);
      MonthLength(next);
      MonthLength(next - 1);
      if FirstDay(next) <= day then next else next - 1
  }

  lemma {:induction false} FirstDayMonotone(m: int, n: int)
    requires m <= n
    ensures FirstDay(n) - FirstDay(m) >= 28 * (n - m)
    decreases n - m
  {
    if m < n {
      MonthLength(n - 1);
      FirstDayMonotone(m, n - 1);
    }
  }

  /** Months partition the days: a day lies in exactly one month. */
  lemma MonthOfUnique(day: int, m: int)
    requires FirstDay(m) <= day < FirstDay(m + 1)
    ensures MonthOf(day) == m
  {
    var n := MonthOf(day);
    if n < m {
      FirstDayMonotone(n + 1, m);
    } else if m < n {
      FirstDayMonotone(m + 1, n);
    }
  }

  function DayOf(t: int): int {
    t / DAY_MS
  }

  function TimeWithinDay(t: int): int {
    t % DAY_MS
  }

  /** The day of the month, 1 to 31, in UTC. */
  function DateOf(t: int): (d: int)
    ensures 1 <= d <= DaysInMonth(MonthOf(DayOf(t)))
  {
    MonthLength(MonthOf(DayOf(t)));
    DayOf(t) - FirstDay(MonthOf(DayOf(t))) + 1
  }

  /** setMonth(getMonth() + n): the date is kept, and a date past the end of
    * the target month runs over into the month after it. */
  function AddMonths(t: int, n: int): int {
    (FirstDay(MonthOf(DayOf(t)) + n) + DateOf(t) - 1) * DAY_MS + TimeWithinDay(t)
  }

  /** Adding months moves time by the whole months in between, whatever the
    * date; overflow never shortens the span. */
  lemma AddMonthsSpan(t: int, n: int)
    ensures var m := MonthOf(DayOf(t));
            AddMonths(t, n) - t == (FirstDay(m + n) - FirstDay(m)) * DAY_MS
  {
    assert t == DayOf(t) * DAY_MS + TimeWithinDay(t);
  }

  /** Where it lands: on the same date n months on if that month has it, else
    * on the 1st, 2nd or 3rd of the month after. */
  lemma AddMonthsLanding(t: int, n: int)
    ensures var m := MonthOf(DayOf(t)) + n;
            var d := DateOf(t);
            var to := AddMonths(t, n);
            && TimeWithinDay(to) == TimeWithinDay(t)
            && if d <= DaysInMonth(m)
               then MonthOf(DayOf(to)) == m && DateOf(to) == d
               else MonthOf(DayOf(to)) == m + 1 && DateOf(to) == d - DaysInMonth(m) <= 3
  {
    var m := MonthOf(DayOf(t)) + n;
    var day := FirstDay(m) + DateOf(t) - 1;
    var to := AddMonths(t, n);
    assert DayOf(to) == day && TimeWithinDay(to) == TimeWithinDay(t);
    MonthLength(m);
    MonthLength(m + 1);
    MonthOfUnique(day, if DateOf(t) <= DaysInMonth(m) then m else m + 1);
  }

  /** Days before month k of a common year, running on into a second one. */
  function CommonDays(k: nat): int
    requires k < 24
  {
    if k >= 12 then 365 + CommonDays(k - 12)
    else match k
      case 0 => 0
      case 1 => 31
      case 2 => 59
      case 3 => 90
      case 4 => 120
      case 5 => 151
      case 6 => 181
      case 7 => 212
      case 8 => 243
      case 9 => 273
      case 10 => 304
      case _ => 334
  }

  lemma CommonMonth(m: int, n: nat)
    requires n < 12
    ensures DaysInMonth(m + n) >= CommonDays(m % 12 + n + 1) - CommonDays(m % 12 + n)
  {
    MonthIndex(m, n);
    CommonLength(m + n, m % 12 + n);
  }

  lemma MonthIndex(m: int, n: int)
    ensures (m + n) % 12 == (m % 12 + n) % 12
  {
    var k := m % 12 + n;
    assert m + n == 12 * (m / 12 + k / 12) + k % 12;
  }

  lemma CommonLength(m: int, k: nat)
    requires k < 23 && m % 12 == k % 12
    ensures DaysInMonth(m) >= CommonDays(k + 1) - CommonDays(k)
  {
  }

  /** A stretch of up to twelve months is never shorter than in common years. */
  lemma {:induction false} CommonStretch(m: int, n: nat)
    requires n <= 12
    ensures FirstDay(m + n) - FirstDay(m) >= CommonDays(m % 12 + n) - CommonDays(m % 12)
  {
    if n > 0 {
      CommonStretch(m, n - 1);
      MonthLength(m + n - 1);
      CommonMonth(m, n - 1);
    }
  }

  /** Common months stay within two days of 30-day months, and from the
    * seventh month of any stretch on they are at least two days ahead. */
  lemma CommonSlack(k: nat, n: nat)
    requires k < 12 && n <= 12
    ensures CommonDays(k + n) - CommonDays(k) >= 30 * n - 2
    ensures n >= 7 ==> CommonDays(k + n) - CommonDays(k) >= 30 * n + 2
    ensures n == 12 ==> CommonDays(k + n) - CommonDays(k) == 365
  {
  }

  /** Seven or more consecutive months exceed 30-day months by two days. */
  lemma {:induction false} ThirtyDayMonths(m: int, n: nat)
    ensures FirstDay(m + n) - FirstDay(m) >= 30 * n - 2
    ensures n >= 7 ==> FirstDay(m + n) - FirstDay(m) >= 30 * n + 2
    decreases n
  {
    hide FirstDay, CommonDays;
    if n <= 12 {
      CommonStretch(m, n);
      CommonSlack(m % 12, n);
    } else {
      CommonStretch(m, 12);
      CommonSlack(m % 12, 12);
      ThirtyDayMonths(m + 12, n - 12);
    }
  }

  /** The day number of 1 January of year y, in closed form (ECMA-262,
    * section "Year Number"). */
  function DayFromYear(y: int): int {
    365 * (y - 1970) + (y - 1969) / 4 - (y - 1901) / 100 + (y - 1601) / 400
  }

  lemma YearMonth(y: int, k: nat)
    requires k < 12
    ensures FirstDay(12 * y + k + 1) - FirstDay(12 * y + k)
            == if k == 1 && IsLeapYear(y) then 29 else CommonDays(k + 1) - CommonDays(k)
  {
    assert (12 * y + k) % 12 == k && (12 * y + k) / 12 == y;
    MonthLength(12 * y + k);
  }

  lemma {:induction false} MonthsOfYear(y: int, k: nat)
    requires k <= 12
    ensures FirstDay(12 * y + k) - FirstDay(12 * y)
            == CommonDays(k) + (if k >= 2 && IsLeapYear(y) then 1 else 0)
  {
    if k > 0 {
      MonthsOfYear(y, k - 1);
      YearMonth(y, k - 1);
    }
  }

  lemma LeapRules(y: int)
    ensures y % 400 == 0 ==> y % 100 == 0
    ensures y % 100 == 0 ==> y % 4 == 0
  {
  }

  lemma ClosedFormYear(y: int)
    ensures DayFromYear(y + 1) == DayFromYear(y) + (if IsLeapYear(y) then 366 else 365)
  {
    LeapRules(y);
    assert (y - 1968) / 4 == (y - 1969) / 4 + (if y % 4 == 0 then 1 else 0);
    assert (y - 1900) / 100 == (y - 1901) / 100 + (if y % 100 == 0 then 1 else 0);
    assert (y - 1600) / 400 == (y - 1601) / 400 + (if y % 400 == 0 then 1 else 0);
  }

  /** Counting months one by one agrees with the standard's year formula. */
  lemma {:induction false} YearFormula(y: int)
    ensures FirstDay(12 * y) == DayFromYear(y)
    decreases if y < 1970 then 1970 - y else y - 1970
  {
    if y > 1970 {
      YearFormula(y - 1);
      MonthsOfYear(y - 1, 12);
      ClosedFormYear(y - 1);
    } else if y < 1970 {
      YearFormula(y + 1);
      MonthsOfYear(y, 12);
      ClosedFormYear(y);
    }
  }
}
