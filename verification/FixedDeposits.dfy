/** Term deposits: fixedDeposit.ts. */
module FixedDeposits {
  import opened Prelude
  import opened Calendar
  import Zones
  import opened Accounts

  const MIN_PRINCIPAL := 1_000_000
  const MIN_TENURE := 7
  const MAX_TENURE := 120
  const PENALTY_BPS := 100

  datatype DepositStatus = ActiveDeposit | Matured | PrematureClosed

  datatype Deposit = Deposit(
    account: nat,
    userId: UserId,
    payout: nat,
    principal: int,
    tenureMonths: int,
    rateBps: int,
    openedAt: int,
    maturityAt: int,
    status: DepositStatus,
    interestPaid: int)

  function RateBpsForTenure(months: int): Result<int, Error> {
    if 7 <= months <= 12 then Ok(650)
    else if 13 <= months <= 24 then Ok(700)
    else if 25 <= months <= 36 then Ok(750)
    else if 37 <= months <= 60 then Ok(775)
    else if 61 <= months <= 120 then Ok(800)
    else Err(FdInvalidTenure)
  }

  function MonthsElapsed(d: Deposit, asOf: int): int {
    Min(Max(0, (asOf - d.openedAt) / (30 * DAY_MS)), d.tenureMonths)
  }

  function SimpleInterest(principal: int, rateBps: int, months: int): int {
    principal * rateBps * months / 120_000
  }

  function AccruedInterest(d: Deposit, asOf: int): int {
    SimpleInterest(d.principal, d.rateBps, MonthsElapsed(d, asOf))
  }

  function PrematureInterest(d: Deposit, asOf: int): int {
    var gross := AccruedInterest(d, asOf);
    Max(0, gross - gross * PENALTY_BPS / 10_000)
  }

  function MaturityInterest(d: Deposit): int {
    SimpleInterest(d.principal, d.rateBps, d.tenureMonths)
  }

  /** setMonth in the server's own zone: to local time, months added, back. */
  function MaturityInstant(z: Zones.Zone, openedAt: int, tenureMonths: int): int {
    var local := AddMonths(openedAt + z.offsetAt(openedAt), tenureMonths);
    local - z.offsetOfLocal(local)
  }

  function NewDeposit(z: Zones.Zone, account: nat, userId: UserId, payout: nat,
                      principal: int, tenureMonths: int, openedAt: int): Result<Deposit, Error> {
    if principal < MIN_PRINCIPAL then Err(FdMinimumPrincipal)
    else if tenureMonths < MIN_TENURE || tenureMonths > MAX_TENURE then Err(FdInvalidTenure)
    else
      var rate :- RateBpsForTenure(tenureMonths);
      Ok(Deposit(account, userId, payout, principal, tenureMonths, rate, openedAt,
                 MaturityInstant(z, openedAt, tenureMonths), ActiveDeposit, 0))
  }

  function MarkMatured(d: Deposit, interest: int): Result<Deposit, Error> {
    if d.status != ActiveDeposit then Err(FdNotActive) else Ok(d.(status := Matured, interestPaid := interest))
  }

  function MarkPrematureClosed(d: Deposit, interest: int): Result<Deposit, Error> {
    if d.status != ActiveDeposit then Err(FdNotActive) else Ok(d.(status := PrematureClosed, interestPaid := interest))
  }

  /** What opening guarantees about the terms of a deposit for its whole life. */
  predicate Terms(d: Deposit) {
    && d.principal >= MIN_PRINCIPAL
    && MIN_TENURE <= d.tenureMonths <= MAX_TENURE
    && 650 <= d.rateBps <= 800
  }

  lemma {:induction false} ProductMonotone(a: int, x: int, y: int)
    requires 0 <= a && 0 <= x <= y
    ensures 0 <= a * x <= a * y
  {
    assert a * y == a * x + a * (y - x);
  }

  lemma InterestMonotone(principal: int, rateBps: int, m: int, n: int)
    requires principal >= 0 && rateBps >= 0 && 0 <= m <= n
    ensures 0 <= SimpleInterest(principal, rateBps, m) <= SimpleInterest(principal, rateBps, n)
  {
    ProductMonotone(principal, 0, rateBps);
    ProductMonotone(principal * rateBps, m, n);
  }

  /** At every instant the early payout is no more than what has accrued, by
    * one percent rounded down, and the accrual no more than what maturity pays. */
  lemma InterestBounds(d: Deposit, asOf: int)
    requires Terms(d)
    ensures 0 <= PrematureInterest(d, asOf) <= AccruedInterest(d, asOf) <= MaturityInterest(d)
    ensures 0 <= AccruedInterest(d, asOf) - 100 * (AccruedInterest(d, asOf) - PrematureInterest(d, asOf)) < 100
  {
    InterestMonotone(d.principal, d.rateBps, MonthsElapsed(d, asOf), d.tenureMonths);
  }

  /** Waiting never costs interest, early closure included. */
  lemma InterestNeverDrops(d: Deposit, t: int, u: int)
    requires Terms(d) && t <= u
    ensures AccruedInterest(d, t) <= AccruedInterest(d, u)
    ensures PrematureInterest(d, t) <= PrematureInterest(d, u)
  {
    ElapsedMonotone(d, t, u);
    InterestMonotone(d.principal, d.rateBps, MonthsElapsed(d, t), MonthsElapsed(d, u));
  }

  /** The rate card covers exactly the permitted terms, and a longer term never
    * earns a lower rate. */
  lemma RateCard(m: int, n: int)
    ensures RateBpsForTenure(m).Ok? <==> MIN_TENURE <= m <= MAX_TENURE
    ensures RateBpsForTenure(m).Ok? && RateBpsForTenure(n).Ok? && m <= n ==>
              650 <= RateBpsForTenure(m).value <= RateBpsForTenure(n).value <= 800
    ensures RateBpsForTenure(m).Ok? ==> RateBpsForTenure(m).value == YearlyRate((m + 11) / 12)
  {
  }

  /** The annual rate in basis points by the year of the term that was begun last. */
  function YearlyRate(year: int): int {
    if year <= 1 then 650 else if year == 2 then 700 else if year == 3 then 750 else if year <= 5 then 775 else 800
  }

  /** Interest is the annual rate pro rata by months, rounded down to the paisa. */
  predicate Earned(interest: int, principal: int, rateBps: int, months: int) {
    120_000 * interest <= principal * rateBps * months < 120_000 * (interest + 1)
  }

  /** Every y years earn y times the whole annual rate. */
  lemma WholeYears(principal: int, rateBps: int, y: int)
    ensures SimpleInterest(principal, rateBps, 12 * y) == principal * rateBps * y / 10_000
  {
    assert principal * rateBps * (12 * y) == 12 * (principal * rateBps * y);
  }

  /** The whole 30-day months between opening and an instant, within the term. */
  predicate Elapsed(d: Deposit, asOf: int, months: int) {
    && 0 <= months <= d.tenureMonths
    && (months > 0 ==> d.openedAt + months * 30 * DAY_MS <= asOf)
    && (months < d.tenureMonths ==> asOf < d.openedAt + (months + 1) * 30 * DAY_MS)
  }

  /** One percent of the gross interest is withheld, rounded down. */
  predicate Withheld(paid: int, gross: int) {
    100 * (gross - paid) <= gross < 100 * (gross - paid) + 100
  }

  /** What a deposit pays: at maturity for its term, before for the months that
    * have elapsed, less the penalty. */
  lemma InterestExactly(d: Deposit, asOf: int)
    requires Terms(d)
    ensures Earned(MaturityInterest(d), d.principal, d.rateBps, d.tenureMonths)
    ensures Elapsed(d, asOf, MonthsElapsed(d, asOf))
    ensures Earned(AccruedInterest(d, asOf), d.principal, d.rateBps, MonthsElapsed(d, asOf))
    ensures Withheld(PrematureInterest(d, asOf), AccruedInterest(d, asOf))
  {
    InterestMonotone(d.principal, d.rateBps, 0, MonthsElapsed(d, asOf));
    ElapsedExactly(d, asOf);
  }

  lemma ElapsedExactly(d: Deposit, asOf: int)
    requires Terms(d)
    ensures Elapsed(d, asOf, MonthsElapsed(d, asOf))
  {
  }

  lemma ElapsedMonotone(d: Deposit, t: int, u: int)
    requires d.tenureMonths >= 0 && t <= u
    ensures 0 <= MonthsElapsed(d, t) <= MonthsElapsed(d, u)
  {
  }

  /** In any lawful zone the calendar term is at least 30 days per month. */
  lemma CalendarTerm(z: Zones.Zone, openedAt: int, tenureMonths: int)
    requires Zones.Lawful(z) && tenureMonths >= MIN_TENURE
    ensures MaturityInstant(z, openedAt, tenureMonths) - openedAt >= 30 * tenureMonths * DAY_MS
  {
    hide AddMonths, MonthOf, FirstDay;
    var local := openedAt + z.offsetAt(openedAt);
    AddMonthsSpan(local, tenureMonths);
    ThirtyDayMonths(MonthOf(DayOf(local)), tenureMonths);
  }

  /** A deposit that has reached its maturity date has accrued every month of
    * its term, although accrual counts 30-day months. */
  lemma AccrualMeetsCalendar(z: Zones.Zone, account: nat, userId: UserId, payout: nat,
                             principal: int, tenureMonths: int, openedAt: int, asOf: int)
    requires Zones.Lawful(z)
    ensures var made := NewDeposit(z, account, userId, payout, principal, tenureMonths, openedAt);
            && (made.Ok? <==> principal >= MIN_PRINCIPAL && MIN_TENURE <= tenureMonths <= MAX_TENURE)
            && (made.Ok? ==> Terms(made.value))
            && (made.Ok? && asOf >= made.value.maturityAt ==>
                  AccruedInterest(made.value, asOf) == MaturityInterest(made.value))
  {
    var made := NewDeposit(z, account, userId, payout, principal, tenureMonths, openedAt);
    if made.Ok? && asOf >= made.value.maturityAt {
      AccruedInFull(z, made.value, asOf);
    }
  }

  /** Maturity is the instant whose local reading has the opening's time of day
    * and date, the term's months on; a date that month does not have runs over
    * into the first three days of the next. */
  lemma MaturityDate(z: Zones.Zone, openedAt: int, tenureMonths: int)
    ensures var start := openedAt + z.offsetAt(openedAt);
            var m := MonthOf(DayOf(start)) + tenureMonths;
            var d := DateOf(start);
            exists local ::
              && MaturityInstant(z, openedAt, tenureMonths) == local - z.offsetOfLocal(local)
              && TimeWithinDay(local) == TimeWithinDay(start)
              && if d <= DaysInMonth(m) then MonthOf(DayOf(local)) == m && DateOf(local) == d
                 else MonthOf(DayOf(local)) == m + 1 && DateOf(local) == d - DaysInMonth(m) <= 3
  {
    var local := AddMonths(openedAt + z.offsetAt(openedAt), tenureMonths);
    AddMonthsLanding(openedAt + z.offsetAt(openedAt), tenureMonths);
    hide AddMonths, MonthOf, FirstDay;
    assert MaturityInstant(z, openedAt, tenureMonths) == local - z.offsetOfLocal(local);
  }

  /** Maturity falls on the calendar date of the term. */
  predicate Dated(z: Zones.Zone, d: Deposit) {
    d.maturityAt == MaturityInstant(z, d.openedAt, d.tenureMonths)
  }

  lemma AccruedInFull(z: Zones.Zone, d: Deposit, asOf: int)
    requires Zones.Lawful(z) && MIN_TENURE <= d.tenureMonths && Dated(z, d) && asOf >= d.maturityAt
    ensures AccruedInterest(d, asOf) == MaturityInterest(d)
  {
    CalendarTerm(z, d.openedAt, d.tenureMonths);
    assert (asOf - d.openedAt) / (30 * DAY_MS) >= d.tenureMonths;
  }
}
