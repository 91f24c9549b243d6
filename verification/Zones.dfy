/**
 * The server's time zone as the JavaScript Date methods see it: the offsets
 * used to go to and from local time, and the instants at which the local day
 * and the local month of an instant began. Daylight saving is allowed for:
 * only the laws in Lawful are relied on.
 */
module Zones {
  import opened Calendar

  datatype Zone = Zone(
    offsetAt: int -> int,
    offsetOfLocal: int -> int,
    dayStart: int -> int,
    monthStart: int -> int)

  /** `start` maps every instant to the beginning of its period. */
  ghost predicate Periods(start: int -> int) {
    && (forall t :: start(t) <= t)
    && (forall t :: start(start(t)) == start(t))
    && (forall t, u :: t <= u ==> start(t) <= start(u))
  }

  ghost predicate Lawful(z: Zone) {
    && (forall t :: -DAY_MS <= z.offsetAt(t) <= DAY_MS)
    && (forall t :: -DAY_MS <= z.offsetOfLocal(t) <= DAY_MS)
    && Periods(z.dayStart)
    && Periods(z.monthStart)
    && (forall t :: z.monthStart(t) <= z.dayStart(t))
  }

  /** An instant not after `now` is in now's period exactly when it is not
    * before the start of that period. */
  lemma SamePeriod(start: int -> int, t: int, now: int)
    requires Periods(start) && t <= now
    ensures start(t) == start(now) <==> t >= start(now)
  {
    if t >= start(now) {
      assert start(start(now)) <= start(t) <= start(now);
    }
  }

  function UtcDayStart(t: int): int {
    t - TimeWithinDay(t)
  }

  function UtcMonthStart(t: int): int {
    FirstDay(MonthOf(DayOf(t))) * DAY_MS
  }

  /** A server at a fixed distance from UTC, such as India's. */
  function FixedOffset(offset: int): Zone {
    Zone(t => offset, t => offset, Shifted(UtcDayStart, offset), Shifted(UtcMonthStart, offset))
  }

  function Shifted(start: int -> int, offset: int): int -> int {
    t => start(t + offset) - offset
  }

  lemma UtcMonthLaws(t: int)
    ensures UtcMonthStart(t) <= UtcDayStart(t) <= t
    ensures UtcMonthStart(UtcMonthStart(t)) == UtcMonthStart(t)
  {
    hide MonthOf, FirstDay;
    var m := MonthOf(DayOf(t));
    MonthLength(m);
    MonthOfUnique(FirstDay(m), m);
    assert DayOf(UtcMonthStart(t)) == FirstDay(m);
  }

  lemma UtcMonthOrder(t: int, u: int)
    ensures t <= u ==> UtcMonthStart(t) <= UtcMonthStart(u)
  {
    if t <= u {
      hide FirstDay;
      var m, n := MonthOf(DayOf(t)), MonthOf(DayOf(u));
      if n < m {
        FirstDayMonotone(n + 1, m);
        assert false;
      }
      FirstDayMonotone(m, n);
    }
  }

  lemma UtcMonthPeriods()
    ensures Periods(UtcMonthStart)
    ensures forall t :: UtcMonthStart(t) <= UtcDayStart(t)
  {
    forall t, u
      ensures t <= u ==> UtcMonthStart(t) <= UtcMonthStart(u)
    {
      UtcMonthOrder(t, u);
    }
    forall t
      ensures UtcMonthStart(t) <= UtcDayStart(t) <= t && UtcMonthStart(UtcMonthStart(t)) == UtcMonthStart(t)
    {
      UtcMonthLaws(t);
    }
  }

  lemma UtcDayPeriods()
    ensures Periods(UtcDayStart)
  {
  }

  lemma ShiftedPeriods(start: int -> int, offset: int)
    requires Periods(start)
    ensures Periods(Shifted(start, offset))
  {
    var shifted := Shifted(start, offset);
    forall t ensures shifted(t) <= t && shifted(shifted(t)) == shifted(t) {
      assert shifted(t) + offset == start(t + offset);
    }
    forall t, u | t <= u ensures shifted(t) <= shifted(u) {
      assert start(t + offset) <= start(u + offset);
    }
  }

  /** Every zone without daylight saving, UTC among them, is lawful. */
  lemma FixedOffsetLawful(offset: int)
    requires -DAY_MS <= offset <= DAY_MS
    ensures Lawful(FixedOffset(offset))
  {
    UtcMonthPeriods();
    UtcDayPeriods();
    hide UtcDayStart, UtcMonthStart, Periods;
    ShiftedPeriods(UtcDayStart, offset);
    ShiftedPeriods(UtcMonthStart, offset);
  }
}
