/** Card limits as bounds on whole runs: cardLimits.ts and simulateCardSpend.ts. */
module CardCaps {
  import opened Prelude
  import opened Zones
  import Accounts
  import opened Tables
  import Limits
  import UseCases
  import Books
  import Journal
  import opened Runs
  import History

  /** A row's contribution to what a card spent in the period that began at p. */
  function PeriodFn(start: int -> int, card: CardId, p: int): Transfer -> int {
    (t: Transfer) => if t.card == Some(card) && t.category == CardSpend && t.status == Posted && start(t.postedAt) == p
                     then t.amount else 0
  }

  /** The card's posted spends in one calendar period. */
  function SpentIn(transfers: seq<Transfer>, start: int -> int, card: CardId, p: int): int {
    Sum(transfers, PeriodFn(start, card, p))
  }

  predicate NotAfter(transfers: seq<Transfer>, now: int) {
    forall i :: 0 <= i < |transfers| ==> transfers[i].postedAt <= now
  }

  /** With no row from the future, what was spent since the start of the
    * current period is what was spent in it. */
  lemma SpentSinceStart(s: Db, start: int -> int, card: CardId, now: int)
    requires Periods(start) && NotAfter(s.transfers, now)
    ensures Limits.CardOutbound(s, card, start(now)) == SpentIn(s.transfers, start, card, start(now))
  {
    forall i | 0 <= i < |s.transfers|
      ensures Limits.CardSpendFn(card, start(now))(s.transfers[i]) == PeriodFn(start, card, start(now))(s.transfers[i])
    {
      SamePeriod(start, s.transfers[i].postedAt, now);
    }
    SumSame(s.transfers, Limits.CardSpendFn(card, start(now)), PeriodFn(start, card, start(now)));
  }

  /** Calls other than this card's spends leave its periods as they were. */
  lemma {:induction false} OtherRowsIgnored(a: seq<Transfer>, b: seq<Transfer>, start: int -> int, card: CardId, p: int)
    requires History.TransfersKept(a, b)
    requires forall i :: 0 <= i < |a| && a[i].status == Pending ==> a[i].card.None?
    requires forall i :: |a| <= i < |b| ==> b[i].card != Some(card)
    ensures SpentIn(b, start, card, p) == SpentIn(a, start, card, p)
  {
    var kept := b[..|a|];
    forall i | 0 <= i < |a| ensures PeriodFn(start, card, p)(kept[i]) == PeriodFn(start, card, p)(a[i]) {
      assert History.RowKept(a[i], b[i]);
    }
    SumAlike(kept, a, PeriodFn(start, card, p));
    SumZero(b[|a|..], PeriodFn(start, card, p));
    SumConcat(kept, b[|a|..], PeriodFn(start, card, p));
    assert b == kept + b[|a|..];
  }

  /** A spend that goes through stays within the limits of its own periods. */
  lemma SpendWithinLimits(z: Zone, s: Db, user: Accounts.UserId, kyc: bool, card: CardId, amount: int,
                          merchant: Option<string>, key: ClientKey, now: int)
    requires Lawful(z) && NotAfter(s.transfers, now)
    requires UseCases.SimulateCardSpend(z, s, user, kyc, card, amount, merchant, key, now).Ok?
    ensures card < |s.cards|
    ensures var db := UseCases.SimulateCardSpend(z, s, user, kyc, card, amount, merchant, key, now).value.db;
            && (FindPrior(s.transfers, key).Some? ==> db == s)
            && (FindPrior(s.transfers, key).None? ==>
              && |db.transfers| == |s.transfers| + 1
              && db.transfers[..|s.transfers|] == s.transfers
              && db.transfers[|s.transfers|].card == Some(card)
              && db.transfers[|s.transfers|].postedAt == now
              && 0 < amount == db.transfers[|s.transfers|].amount <= s.cards[card].limits.perTxn
              && SpentIn(s.transfers, z.dayStart, card, z.dayStart(now)) + amount <= s.cards[card].limits.daily
              && SpentIn(s.transfers, z.monthStart, card, z.monthStart(now)) + amount <= s.cards[card].limits.monthly)
  {
    SpentSinceStart(s, z.dayStart, card, now);
    SpentSinceStart(s, z.monthStart, card, now);
  }

  datatype Period = ADay | AMonth

  function StartOf(z: Zone, period: Period): int -> int {
    if period == ADay then z.dayStart else z.monthStart
  }

  function LimitOf(limits: CardLimits, period: Period): int {
    if period == ADay then limits.daily else limits.monthly
  }

  predicate Capped(transfers: seq<Transfer>, start: int -> int, card: CardId, p: int, cap: int) {
    SpentIn(transfers, start, card, p) <= Max(0, cap)
  }

  lemma NewSpendCapped(a: seq<Transfer>, row: Transfer, start: int -> int, card: CardId, p: int, cap: int)
    requires Capped(a, start, card, p, cap)
    requires row.card == Some(card) && start(row.postedAt) == p ==> SpentIn(a, start, card, p) + row.amount <= cap
    ensures Capped(a + [row], start, card, p, cap)
  {
    SumAppend(a, row, PeriodFn(start, card, p));
  }

  /** If this call is a spend by the card in the period that began at p, then
    * the card's limit at that moment is at most the cap. */
  predicate SpendsUnder(z: Zone, s: Db, c: Call, card: CardId, period: Period, p: int, cap: int) {
    c.step.SpendByCard? && c.step.card == card && card < |s.cards| && StartOf(z, period)(c.now) == p ==>
      LimitOf(s.cards[card].limits, period) <= cap
  }

  /** One call keeps the spends of a period within the cap. */
  lemma StepCapped(z: Zone, s: Db, c: Call, card: CardId, period: Period, p: int, cap: int)
    requires Lawful(z) && Books.RowsOk(s.accounts, s.transfers) && NotAfter(s.transfers, c.now)
    requires SpendsUnder(z, s, c, card, period, p, cap)
    requires Capped(s.transfers, StartOf(z, period), card, p, cap)
    ensures Capped(Apply(z, s, c).transfers, StartOf(z, period), card, p, cap)
  {
    var db := Apply(z, s, c);
    History.StepHistory(z, s, c);
    hide Apply, History.StepKey, SpentIn, History.TransfersKept, NotAfter, Lawful, SpendsUnder;
    if c.step.SpendByCard? && |db.transfers| > |s.transfers| {
      SpendCapped(z, s, c, card, period, p, cap);
    } else {
      forall i | 0 <= i < |s.transfers| && s.transfers[i].status == Pending ensures s.transfers[i].card.None? {
        assert Books.RowOk(s.accounts, s.transfers[i]);
      }
      OtherRowsIgnored(s.transfers, db.transfers, StartOf(z, period), card, p);
    }
  }

  /** The new row of a spend fits what is left of its period. */
  lemma SpendCapped(z: Zone, s: Db, c: Call, card: CardId, period: Period, p: int, cap: int)
    requires Lawful(z) && NotAfter(s.transfers, c.now)
    requires c.step.SpendByCard? && |Apply(z, s, c).transfers| > |s.transfers|
    requires SpendsUnder(z, s, c, card, period, p, cap)
    requires Capped(s.transfers, StartOf(z, period), card, p, cap)
    ensures Capped(Apply(z, s, c).transfers, StartOf(z, period), card, p, cap)
  {
    hide UseCases.SimulateCardSpend, History.StepKey, History.Kept, SpentIn, Lawful, NotAfter;
    var db, step := Apply(z, s, c), c.step;
    SpendWithinLimits(z, s, step.user, step.kycApproved, step.card, step.amount, step.merchant, step.key, c.now);
    hide Apply;
    var row := db.transfers[|s.transfers|];
    assert db.transfers == s.transfers + [row];
    NewSpendCapped(s.transfers, row, StartOf(z, period), card, p, cap);
  }

  /** At each of the card's spends in the period its limit is at most the cap. */
  predicate LimitsInPeriod(z: Zone, calls: seq<Call>, card: CardId, period: Period, p: int, cap: int) {
    forall k :: 0 <= k < |calls| ==> SpendsUnder(z, Run(z, EMPTY_DB, calls[..k]), calls[k], card, period, p, cap)
  }

  /** No run lets a card's posted spends of a calendar day or of a calendar
    * month exceed the highest limit it had when spending in that period. So
    * while the limit is unchanged it is never exceeded, whatever it was before
    * or after. */
  lemma {:induction false} CardCapsHold(z: Zone, calls: seq<Call>, from: int, card: CardId, period: Period, p: int,
                                        cap: int)
    requires Lawful(z) && InOrder(calls, from) && LimitsInPeriod(z, calls, card, period, p, cap)
    ensures SpentIn(Run(z, EMPTY_DB, calls).transfers, StartOf(z, period), card, p) <= Max(0, cap)
    decreases |calls|
  {
    if |calls| > 0 {
      hide SpendsUnder, LimitsInPeriod, Apply, Books.RowsOk, NotAfter, Lawful;
      var n := |calls| - 1;
      LastLimit(z, calls, card, period, p, cap);
      CardCapsHold(z, calls[..n], from, card, period, p, cap);
      ReachableRows(z, calls, from);
      StepCapped(z, Run(z, EMPTY_DB, calls[..n]), calls[n], card, period, p, cap);
    }
  }

  /** The limits before the last call, and at it. */
  lemma LastLimit(z: Zone, calls: seq<Call>, card: CardId, period: Period, p: int, cap: int)
    requires |calls| > 0 && LimitsInPeriod(z, calls, card, period, p, cap)
    ensures var n := |calls| - 1;
            && LimitsInPeriod(z, calls[..n], card, period, p, cap)
            && SpendsUnder(z, Run(z, EMPTY_DB, calls[..n]), calls[n], card, period, p, cap)
  {
    hide SpendsUnder, Run;
    var n := |calls| - 1;
    forall k | 0 <= k < n
      ensures SpendsUnder(z, Run(z, EMPTY_DB, calls[..n][..k]), calls[..n][k], card, period, p, cap)
    {
      assert calls[..n][..k] == calls[..k];
    }
  }

  lemma ReachableRows(z: Zone, calls: seq<Call>, from: int)
    requires |calls| > 0 && InOrder(calls, from)
    ensures var n := |calls| - 1;
            var s := Run(z, EMPTY_DB, calls[..n]);
            Books.RowsOk(s.accounts, s.transfers) && NotAfter(s.transfers, calls[n].now)
  {
    var n := |calls| - 1;
    ReachableInv(z, calls[..n], from);
    hide Run, Books.RowsOk;
    var s := Run(z, EMPTY_DB, calls[..n]);
    assert Journal.Timed(s.transfers, s.ledger, Clock(calls[..n], from));
  }
}
