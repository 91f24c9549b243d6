/** Spending caps summed over the transfers table: transferLimits.ts and cardLimits.ts. */
module Limits {
  import opened Prelude
  import Zones
  import opened Accounts
  import opened Tables

  datatype Tier = NoKyc | Basic | Full

  datatype LimitCheck =
    | Allowed(dailyUsed: int, monthlyUsed: int)
    | TierRefused
    | PerTxnRefused
    | DailyRefused(dailyUsed: int, monthlyUsed: int)
    | MonthlyRefused(dailyUsed: int, monthlyUsed: int)

  function DailyLimit(tier: Tier): int {
    match tier
    case NoKyc => 2_500_000
    case Basic => 10_000_000
    case Full => 20_000_000
  }

  function MonthlyLimit(tier: Tier): int {
    match tier
    case NoKyc => 25_000_000
    case Basic => 100_000_000
    case Full => 200_000_000
  }

  predicate OwnedBy(accounts: seq<Account>, id: AccountId, user: UserId) {
    id < |accounts| && accounts[id].userId == user
  }

  /** A row's contribution to what `user` has sent since `since`. */
  function OutboundFn(accounts: seq<Account>, user: UserId, since: int): Transfer -> int {
    (t: Transfer) =>
      if t.from.Some? && OwnedBy(accounts, t.from.value, user) && t.status == Posted && t.postedAt >= since
      then t.amount else 0
  }

  function Outbound(s: Db, user: UserId, since: int): int {
    Sum(s.transfers, OutboundFn(s.accounts, user, since))
  }

  /** A row's contribution to what a card has spent since `since`. */
  function CardSpendFn(card: CardId, since: int): Transfer -> int {
    (t: Transfer) => if t.card == Some(card) && t.category == CardSpend && t.status == Posted && t.postedAt >= since
         then t.amount else 0
  }

  function CardOutbound(s: Db, card: CardId, since: int): int {
    Sum(s.transfers, CardSpendFn(card, since))
  }

  function AggregateCheck(z: Zones.Zone, s: Db, user: UserId, tier: Tier, amount: int, now: int): LimitCheck {
    if tier == NoKyc then TierRefused
    else
      var daily, monthly := Outbound(s, user, z.dayStart(now)), Outbound(s, user, z.monthStart(now));
      if daily + amount > DailyLimit(tier) then DailyRefused(daily, monthly)
      else if monthly + amount > MonthlyLimit(tier) then MonthlyRefused(daily, monthly)
      else Allowed(daily, monthly)
  }

  function CardCheck(z: Zones.Zone, s: Db, card: CardId, limits: CardLimits, amount: int, now: int): LimitCheck {
    if amount > limits.perTxn then PerTxnRefused
    else
      var daily, monthly := CardOutbound(s, card, z.dayStart(now)), CardOutbound(s, card, z.monthStart(now));
      if daily + amount > limits.daily then DailyRefused(daily, monthly)
      else if monthly + amount > limits.monthly then MonthlyRefused(daily, monthly)
      else Allowed(daily, monthly)
  }

  // ---------- the queries behind the checks ----------

  /** SELECT ... WHERE from_account_id = id AND status = 'posted' AND posted_at >= since */
  function SentRows(transfers: seq<Transfer>, id: AccountId, since: int): seq<Transfer> {
    if |transfers| == 0 then []
    else
      var n := |transfers| - 1;
      var earlier := SentRows(transfers[..n], id, since);
      var t := transfers[n];
      if t.from == Some(id) && t.status == Posted && t.postedAt >= since then earlier + [t] else earlier
  }

  function CardRows(transfers: seq<Transfer>, card: CardId, since: int): seq<Transfer> {
    if |transfers| == 0 then []
    else
      var n := |transfers| - 1;
      var earlier := CardRows(transfers[..n], card, since);
      var t := transfers[n];
      if t.card == Some(card) && t.category == CardSpend && t.status == Posted && t.postedAt >= since
      then earlier + [t] else earlier
  }

  /** The accounts of a user among the first n. */
  function AccountIdsOf(accounts: seq<Account>, user: UserId, n: nat): seq<AccountId>
    requires n <= |accounts|
  {
    if n == 0 then []
    else if accounts[n - 1].userId == user then AccountIdsOf(accounts, user, n - 1) + [n - 1]
    else AccountIdsOf(accounts, user, n - 1)
  }

  function AmountSinceFn(since: int): Transfer -> int {
    (t: Transfer) => if t.postedAt >= since then t.amount else 0
  }

  function SentFn(id: AccountId, since: int): Transfer -> int {
    (t: Transfer) => if t.from == Some(id) && t.status == Posted && t.postedAt >= since then t.amount else 0
  }

  /** Filtering from the earlier instant and counting from the later one is
    * the same as filtering from the later one. */
  lemma {:induction false} SentRowsSum(transfers: seq<Transfer>, id: AccountId, filterSince: int, since: int)
    requires filterSince <= since
    ensures Sum(SentRows(transfers, id, filterSince), AmountSinceFn(since)) == Sum(transfers, SentFn(id, since))
  {
    if |transfers| > 0 {
      var n := |transfers| - 1;
      SentRowsSum(transfers[..n], id, filterSince, since);
      SumAppend(SentRows(transfers[..n], id, filterSince), transfers[n], AmountSinceFn(since));
    }
  }

  lemma {:induction false} CardRowsSum(transfers: seq<Transfer>, card: CardId, filterSince: int, since: int)
    requires filterSince <= since
    ensures Sum(CardRows(transfers, card, filterSince), AmountSinceFn(since))
            == Sum(transfers, CardSpendFn(card, since))
  {
    if |transfers| > 0 {
      var n := |transfers| - 1;
      CardRowsSum(transfers[..n], card, filterSince, since);
      SumAppend(CardRows(transfers[..n], card, filterSince), transfers[n], AmountSinceFn(since));
    }
  }

  /** Contribution of the accounts below n only. */
  function OutboundBelowFn(accounts: seq<Account>, user: UserId, since: int, n: nat): Transfer -> int {
    (t: Transfer) => if t.from.Some? && t.from.value < n && OwnedBy(accounts, t.from.value, user)
            && t.status == Posted && t.postedAt >= since
         then t.amount else 0
  }

  /** Taking one more account into the sum adds exactly that account's rows. */
  lemma {:induction false} OneMoreAccount(transfers: seq<Transfer>, accounts: seq<Account>, user: UserId, since: int,
                                          n: nat)
    requires n < |accounts|
    ensures Sum(transfers, OutboundBelowFn(accounts, user, since, n + 1))
            == Sum(transfers, OutboundBelowFn(accounts, user, since, n))
               + (if accounts[n].userId == user then Sum(transfers, SentFn(n, since)) else 0)
  {
    if |transfers| > 0 {
      OneMoreAccount(transfers[..|transfers| - 1], accounts, user, since, n);
    }
  }

  /** The total over a list of accounts, one account after the other. */
  function SentTotal(transfers: seq<Transfer>, ids: seq<AccountId>, since: int): int {
    if |ids| == 0 then 0
    else SentTotal(transfers, ids[..|ids| - 1], since) + Sum(transfers, SentFn(ids[|ids| - 1], since))
  }

  lemma {:induction false} SentTotalBelow(s: Db, user: UserId, since: int, n: nat)
    requires n <= |s.accounts|
    ensures SentTotal(s.transfers, AccountIdsOf(s.accounts, user, n), since)
            == Sum(s.transfers, OutboundBelowFn(s.accounts, user, since, n))
  {
    if n == 0 {
      SumZero(s.transfers, OutboundBelowFn(s.accounts, user, since, 0));
    } else {
      SentTotalBelow(s, user, since, n - 1);
      OneMoreAccount(s.transfers, s.accounts, user, since, n - 1);
    }
  }

  /** Account by account, row by row, the loops add up the single filtered sum. */
  lemma SentTotalIsOutbound(s: Db, user: UserId, since: int)
    ensures SentTotal(s.transfers, AccountIdsOf(s.accounts, user, |s.accounts|), since) == Outbound(s, user, since)
  {
    SentTotalBelow(s, user, since, |s.accounts|);
    SumSame(s.transfers, OutboundBelowFn(s.accounts, user, since, |s.accounts|), OutboundFn(s.accounts, user, since));
  }

  // ---------- the loops ----------

  /** Adds up one result set, in total and from the start of the day on. */
  method AddRows(rows: seq<Transfer>, filterSince: int, dayStart: int, dailySoFar: int, monthlySoFar: int)
    returns (daily: int, monthly: int)
    requires forall i :: 0 <= i < |rows| ==> rows[i].postedAt >= filterSince
    ensures daily == dailySoFar + Sum(rows, AmountSinceFn(dayStart))
    ensures monthly == monthlySoFar + Sum(rows, AmountSinceFn(filterSince))
  {
    daily, monthly := dailySoFar, monthlySoFar;
    for i := 0 to |rows|
      invariant daily == dailySoFar + Sum(rows[..i], AmountSinceFn(dayStart))
      invariant monthly == monthlySoFar + Sum(rows[..i], AmountSinceFn(filterSince))
    {
      assert rows[..i + 1] == rows[..i] + [rows[i]];
      SumAppend(rows[..i], rows[i], AmountSinceFn(dayStart));
      SumAppend(rows[..i], rows[i], AmountSinceFn(filterSince));
      monthly := monthly + rows[i].amount;
      if rows[i].postedAt >= dayStart {
        daily := daily + rows[i].amount;
      }
    }
    assert rows[..|rows|] == rows;
  }

  lemma {:induction false} SentRowsSince(transfers: seq<Transfer>, id: AccountId, since: int)
    ensures forall t :: t in SentRows(transfers, id, since) ==> t.postedAt >= since
  {
    if |transfers| > 0 {
      SentRowsSince(transfers[..|transfers| - 1], id, since);
    }
  }

  lemma {:induction false} CardRowsSince(transfers: seq<Transfer>, card: CardId, since: int)
    ensures forall t :: t in CardRows(transfers, card, since) ==> t.postedAt >= since
  {
    if |transfers| > 0 {
      CardRowsSince(transfers[..|transfers| - 1], card, since);
    }
  }

  /** The nested loops of checkAggregateLimits decide as AggregateCheck does. */
  method CheckAggregateLimits(z: Zones.Zone, s: Db, user: UserId, tier: Tier, amount: int, now: int)
    returns (r: LimitCheck)
    requires Zones.Lawful(z)
    ensures r == AggregateCheck(z, s, user, tier, amount, now)
  {
    if tier == NoKyc {
      return TierRefused;
    }
    var dayStart, monthStart := z.dayStart(now), z.monthStart(now);
    assert monthStart <= dayStart;
    hide Zones.Lawful, SentRows, AccountIdsOf, Outbound;
    var daily, monthly := 0, 0;
    var ids := AccountIdsOf(s.accounts, user, |s.accounts|);
    for i := 0 to |ids|
      invariant daily == SentTotal(s.transfers, ids[..i], dayStart)
      invariant monthly == SentTotal(s.transfers, ids[..i], monthStart)
    {
      var rows := SentRows(s.transfers, ids[i], monthStart);
      SentRowsSince(s.transfers, ids[i], monthStart);
      daily, monthly := AddRows(rows, monthStart, dayStart, daily, monthly);
      SentRowsSum(s.transfers, ids[i], monthStart, dayStart);
      SentRowsSum(s.transfers, ids[i], monthStart, monthStart);
      assert ids[..i + 1][..i] == ids[..i];
    }
    assert ids[..|ids|] == ids;
    SentTotalIsOutbound(s, user, dayStart);
    SentTotalIsOutbound(s, user, monthStart);
    if daily + amount > DailyLimit(tier) {
      return DailyRefused(daily, monthly);
    }
    if monthly + amount > MonthlyLimit(tier) {
      return MonthlyRefused(daily, monthly);
    }
    return Allowed(daily, monthly);
  }

  /** The loop of checkCardLimits decides as CardCheck does. */
  method CheckCardLimits(z: Zones.Zone, s: Db, card: CardId, limits: CardLimits, amount: int, now: int)
    returns (r: LimitCheck)
    requires Zones.Lawful(z)
    ensures r == CardCheck(z, s, card, limits, amount, now)
  {
    if amount > limits.perTxn {
      return PerTxnRefused;
    }
    var dayStart, monthStart := z.dayStart(now), z.monthStart(now);
    var rows := CardRows(s.transfers, card, monthStart);
    CardRowsSince(s.transfers, card, monthStart);
    var daily, monthly := AddRows(rows, monthStart, dayStart, 0, 0);
    CardRowsSum(s.transfers, card, monthStart, dayStart);
    CardRowsSum(s.transfers, card, monthStart, monthStart);
    if daily + amount > limits.daily {
      return DailyRefused(daily, monthly);
    }
    if monthly + amount > limits.monthly {
      return MonthlyRefused(daily, monthly);
    }
    return Allowed(daily, monthly);
  }
}
