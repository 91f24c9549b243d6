/** The promises of the money engine, for every run of calls from the empty bank. */
module Guarantees {
  import opened Prelude
  import opened Zones
  import opened Accounts
  import opened FixedDeposits
  import opened Tables
  import opened Limits
  import opened UseCases
  import opened Books
  import BooksKept
  import DepositsKept
  import opened Journal
  import opened Runs
  import opened History

  // ---------- holds ----------

  function StuckFn(a: AccountId): Transfer -> int {
    (t: Transfer) => if t.from == Some(a) && StuckHold(t) then t.amount else 0
  }

  lemma {:induction false} HeldSplits(transfers: seq<Transfer>, a: AccountId)
    ensures Sum(transfers, HeldFn(a)) == Sum(transfers, PendingFn(a)) + Sum(transfers, StuckFn(a))
  {
    if |transfers| > 0 {
      HeldSplits(transfers[..|transfers| - 1], a);
    }
  }

  /** In every reachable state a hold is covered by the balance and equals the
    * account's pending transfers plus the batch transfers it settled to
    * itself; so it equals the pending transfers exactly when there are none of
    * the latter. */
  lemma HoldsMatchPending(z: Zone, calls: seq<Call>, from: int, a: AccountId)
    requires InOrder(calls, from) && a < |Run(z, EMPTY_DB, calls).accounts|
    ensures var s := Run(z, EMPTY_DB, calls);
            var pending := Sum(s.transfers, PendingFn(a));
            && 0 <= s.accounts[a].hold <= s.accounts[a].balance
            && s.accounts[a].hold == pending + Sum(s.transfers, StuckFn(a))
            && (s.accounts[a].hold == pending <==>
                  forall i :: 0 <= i < |s.transfers| ==> !(s.transfers[i].from == Some(a) && StuckHold(s.transfers[i])))
  {
    hide Run;
    var s := Run(z, EMPTY_DB, calls);
    ReachableInv(z, calls, from);
    assert HoldAgrees(s.accounts, s.transfers, a);
    HeldSplits(s.transfers, a);
    forall i | 0 <= i < |s.transfers| ensures s.transfers[i].amount > 0 {
      assert RowOk(s.accounts, s.transfers[i]);
    }
    if i :| 0 <= i < |s.transfers| && s.transfers[i].from == Some(a) && StuckHold(s.transfers[i]) {
      SumAtLeast(s.transfers, i, StuckFn(a));
    } else {
      SumZero(s.transfers, StuckFn(a));
    }
  }

  /** Settling one pending transfer keeps its account's hold in step with the
    * pending rows exactly when source and destination differ. */
  lemma SettlementKeepsHold(s: Db, id: TransferId, now: int)
    requires Balanced(s) && BooksKept.Settles(s, id, now)
    ensures var row := s.transfers[id];
            var db := SettleOne(s, id, now).value;
            && row.from.Some? && row.from.value < |s.accounts|
            && var a := row.from.value;
            && db.accounts[a].hold - Sum(db.transfers, PendingFn(a))
               == s.accounts[a].hold - Sum(s.transfers, PendingFn(a)) + (if Aliased(row) then row.amount else 0)
            && (db.accounts[a].hold - Sum(db.transfers, PendingFn(a))
                == s.accounts[a].hold - Sum(s.transfers, PendingFn(a))
                <==> !Aliased(row))
  {
    var row := s.transfers[id];
    assert RowOk(s.accounts, row);
    SumUpdate(s.transfers, id, SettleOne(s, id, now).value.transfers[id], PendingFn(row.from.value));
  }

  // ---------- balances and the ledger ----------

  /** What an account's balance says beyond its ledger entries. */
  function LedgerGap(s: Db, a: AccountId): int
    requires a < |s.accounts|
  {
    s.accounts[a].balance - Sum(s.ledger, SignedFn(a))
  }

  predicate OwnPosting(t: Transfer, a: AccountId) {
    t.status == Posted && Aliased(t) && t.to == a
  }

  /** A posting keeps every account's balance in step with its ledger entries
    * if and only if its own two accounts differ. */
  lemma PostingKeepsLedger(s: Db, row: Transfer, a: AccountId)
    requires HasAccounts(s, row) && row.from.Some? && Post(s, row).Ok? && a < |s.accounts|
    ensures |Post(s, row).value.accounts| == |s.accounts|
    ensures LedgerGap(Post(s, row).value, a)
            == LedgerGap(s, a) + (if Aliased(row) && row.to == a then row.amount else 0)
    ensures LedgerGap(Post(s, row).value, row.to) == LedgerGap(s, row.to) <==> !Aliased(row)
  {
    var db := Post(s, row).value;
    var n := |s.ledger|;
    SumAppend2(s.ledger, db.ledger[n], db.ledger[n + 1], SignedFn(a));
    SumAppend2(s.ledger, db.ledger[n], db.ledger[n + 1], SignedFn(row.to));
  }

  lemma SettlementKeepsLedger(s: Db, id: TransferId, now: int, a: AccountId)
    requires BooksKept.Settles(s, id, now) && a < |s.accounts|
    ensures var row, db := s.transfers[id], SettleOne(s, id, now).value;
            && row.to < |s.accounts| == |db.accounts|
            && LedgerGap(db, a) == LedgerGap(s, a) + (if Aliased(row) && row.to == a then row.amount else 0)
            && (LedgerGap(db, row.to) == LedgerGap(s, row.to) <==> !Aliased(row))
  {
    var row, db := s.transfers[id], SettleOne(s, id, now).value;
    var n := |s.ledger|;
    SumAppend2(s.ledger, db.ledger[n], db.ledger[n + 1], SignedFn(a));
    SumAppend2(s.ledger, db.ledger[n], db.ledger[n + 1], SignedFn(row.to));
  }

  /** Double entry in every reachable state: a posted two-account transfer has
    * one debit and one credit of its amount, a faucet deposit one credit, a
    * pending transfer none; events are announced at most once, never early. */
  lemma DoubleEntry(z: Zone, calls: seq<Call>, from: int, t: TransferId)
    requires InOrder(calls, from) && t < |Run(z, EMPTY_DB, calls).transfers|
    ensures var s := Run(z, EMPTY_DB, calls);
            Booked(s.ledger, s.transfers[t], t)
            && Announced(s.events, s.transfers[t], t)
  {
    hide Run;
    ReachableInv(z, calls, from);
  }

  // ---------- conservation ----------

  function Total(s: Db): int {
    Sum(s.accounts, BalanceFn())
  }

  /** In every reachable state the money in the bank is the faucet money, the
    * interest paid less what zeroed deposit accounts lost, and the amounts of
    * posted transfers from an account to itself. */
  lemma MoneyInTheBank(z: Zone, calls: seq<Call>, from: int)
    requires InOrder(calls, from)
    ensures var s := Run(z, EMPTY_DB, calls);
            && Total(s) == Sum(s.transfers, FaucetFn()) + Sum(s.transfers, AllGainFn())
               + Sum(s.deposits, InterestFn(s.ledger))
            && ((forall i :: 0 <= i < |s.transfers| ==>
                   !(s.transfers[i].status == Posted && Aliased(s.transfers[i]))) ==>
                  Total(s) == Sum(s.transfers, FaucetFn()) + Sum(s.deposits, InterestFn(s.ledger)))
  {
    hide Run;
    var s := Run(z, EMPTY_DB, calls);
    ReachableInv(z, calls, from);
    if forall i :: 0 <= i < |s.transfers| ==> !(s.transfers[i].status == Posted && Aliased(s.transfers[i])) {
      SumZero(s.transfers, AllGainFn());
    }
  }

  /** Posting a transfer, bill, card spend or reversal conserves money exactly
    * when its two accounts differ; otherwise it creates the amount. */
  lemma PostingConserves(s: Db, row: Transfer)
    requires HasAccounts(s, row) && row.from.Some? && Post(s, row).Ok?
    ensures Total(Post(s, row).value) == Total(s) + (if Aliased(row) then row.amount else 0)
    ensures Total(Post(s, row).value) == Total(s) <==> !Aliased(row)
  {
    var from := row.from.value;
    var debited := Debit(s.accounts[from], row.amount).value;
    SumUpdate(s.accounts, from, debited, BalanceFn());
    SumUpdate(s.accounts[from := debited], row.to, Credit(s.accounts[row.to], row.amount).value, BalanceFn());
  }

  lemma SettlementConserves(s: Db, id: TransferId, now: int)
    requires BooksKept.Settles(s, id, now)
    ensures Total(SettleOne(s, id, now).value)
            == Total(s) + (if Aliased(s.transfers[id]) then s.transfers[id].amount else 0)
    ensures Total(SettleOne(s, id, now).value) == Total(s) <==> !Aliased(s.transfers[id])
  {
    var row := s.transfers[id];
    var from := row.from.value;
    var debited := Debit(ReleaseHold(s.accounts[from], row.amount).value, row.amount).value;
    SumUpdate(s.accounts, from, debited, BalanceFn());
    SumUpdate(s.accounts[from := debited], row.to, Credit(s.accounts[row.to], row.amount).value, BalanceFn());
  }

  /** A payout changes the total by the interest, less what the deposit's
    * account held besides the principal. */
  lemma PayOutMoneyChange(s: Db, id: nat, paid: Result<Deposit, Error>, interest: int)
    requires Balanced(s) && DepositsKept.Closing(s, id, paid, interest)
    ensures var d := s.deposits[id];
            && d.account < |s.accounts|
            && Total(PayOut(s, id, paid, interest).value)
               == Total(s) + interest - (s.accounts[d.account].balance - d.principal)
            && s.accounts[d.account].balance >= d.principal
  {
    var d := s.deposits[id];
    DepositsKept.DepositBalance(s, id);
    assert DepositOk(s.accounts, d);
    var closed := Close(ZeroFixedDepositPrincipal(s.accounts[d.account]).value).value;
    SumUpdate(s.accounts, d.account, closed, BalanceFn());
    SumUpdate(s.accounts[d.account := closed], d.payout,
              Credit(s.accounts[d.payout], d.principal + interest).value, BalanceFn());
  }

  lemma OpeningConserves(z: Zone, s: Db, user: UserId, payout: AccountId, principal: int, tenure: int, number: string,
                         now: int)
    ensures Total(After(s, OpenFixedDeposit(z, s, user, payout, principal, tenure, number, now))) == Total(s)
  {
    hide OpenFixedDeposit;
    var r := OpenFixedDeposit(z, s, user, payout, principal, tenure, number, now);
    if r.Ok? {
      DepositsKept.OpenShape(z, s, user, payout, principal, tenure, number, now);
      var debited := r.value.accounts[payout];
      SumUpdate(s.accounts, payout, debited, BalanceFn());
      SumAppend(s.accounts[payout := debited], r.value.accounts[|s.accounts|], BalanceFn());
    }
  }

  // ---------- fixed deposits ----------

  /** In every reachable state an active deposit's account is open and holds at
    * least the principal, its payout account is another, open, ordinary
    * account of the same user, and maturity fails exactly when one of the two
    * is not active or the deposit's account carries a hold. */
  lemma ActiveDeposits(z: Zone, calls: seq<Call>, from: int, id: nat)
    requires InOrder(calls, from)
    ensures var s := Run(z, EMPTY_DB, calls);
            id < |s.deposits| && s.deposits[id].status == ActiveDeposit ==>
            var d := s.deposits[id];
            && d.account < |s.accounts| && d.payout < |s.accounts| && d.account != d.payout
            && s.accounts[d.account].status != Closed && s.accounts[d.account].balance >= d.principal
            && s.accounts[d.payout].status != Closed && s.accounts[d.payout].accountType != FixedDeposit
            && s.accounts[d.payout].userId == d.userId
            && (MatureOne(s, id).Err? <==>
                  || s.accounts[d.account].status != Active
                  || s.accounts[d.account].hold != 0
                  || s.accounts[d.payout].status != Active)
  {
    hide Run;
    var s := Run(z, EMPTY_DB, calls);
    ReachableInv(z, calls, from);
    if id < |s.deposits| && s.deposits[id].status == ActiveDeposit {
      var d := s.deposits[id];
      assert DepositOk(s.accounts, d);
      DepositsKept.DepositBalance(s, id);
      InterestBounds(d, 0);
      DepositsKept.PayOutFails(s, id, MarkMatured(d, MaturityInterest(d)), MaturityInterest(d));
    }
  }

  /** A deposit that has been paid out stays exactly as it was recorded, and
    * its account stays closed and empty, so it is never paid out again. */
  lemma PaidOutOnce(z: Zone, calls: seq<Call>, more: seq<Call>, from: int, id: nat)
    requires InOrder(calls, from) && InOrder(more, Clock(calls, from))
    ensures var s := Run(z, EMPTY_DB, calls);
            var later := Run(z, s, more);
            id < |s.deposits| && s.deposits[id].status != ActiveDeposit ==>
            && id < |later.deposits| && later.deposits[id] == s.deposits[id]
            && later.deposits[id].account < |later.accounts|
            && later.accounts[later.deposits[id].account].status == Closed
            && later.accounts[later.deposits[id].account].balance == 0
  {
    var s := Run(z, EMPTY_DB, calls);
    RunHistory(z, s, more);
    ReachableInv(z, calls, from);
    InvAlong(z, s, more, Clock(calls, from));
    hide Run;
    var later := Run(z, s, more);
    if id < |s.deposits| && s.deposits[id].status != ActiveDeposit {
      assert DepositKept(s.deposits[id], later.deposits[id]);
      assert DepositOk(later.accounts, later.deposits[id]);
      assert BalanceAgrees(later, later.deposits[id].account);
    }
  }

  /** The call `c` asked for these terms, at the rate and for the calendar term
    * of the moment it was made. */
  predicate AgreedBy(z: Zone, c: Call, d: Deposit) {
    && c.step.OpenDeposit? && c.now == d.openedAt
    && c.step.user == d.userId && c.step.payout == d.payout
    && c.step.principal == d.principal && c.step.tenureMonths == d.tenureMonths
    && RateBpsForTenure(d.tenureMonths) == Ok(d.rateBps) && Dated(z, d)
  }

  predicate Agreed(z: Zone, calls: seq<Call>, d: Deposit) {
    exists k :: 0 <= k < |calls| && AgreedBy(z, calls[k], d)
  }

  lemma StillAgreed(z: Zone, calls: seq<Call>, c: Call, d: Deposit, later: Deposit)
    requires Agreed(z, calls, d) && DepositKept(d, later)
    ensures Agreed(z, calls + [c], later)
  {
    var k :| 0 <= k < |calls| && AgreedBy(z, calls[k], d);
    assert AgreedBy(z, (calls + [c])[k], later);
  }

  lemma NowAgreed(z: Zone, calls: seq<Call>, c: Call, d: Deposit)
    requires AgreedBy(z, c, d)
    ensures Agreed(z, calls + [c], d)
  {
    assert AgreedBy(z, (calls + [c])[|calls|], d);
  }

  lemma OpenedAsAsked(z: Zone, s: Db, c: Call, i: nat)
    requires |s.deposits| <= i < |Apply(z, s, c).deposits| && c.step.OpenDeposit?
    ensures AgreedBy(z, c, Apply(z, s, c).deposits[i])
  {
  }

  /** In every reachable state each deposit has the terms that one of the calls
    * agreed on, its maturity date included, whatever has happened since. */
  lemma {:induction false} DepositsAsAgreed(z: Zone, calls: seq<Call>, i: nat)
    ensures var s := Run(z, EMPTY_DB, calls); i < |s.deposits| ==> Agreed(z, calls, s.deposits[i])
  {
    if |calls| > 0 {
      hide Agreed, Apply;
      var earlier, c := calls[..|calls| - 1], calls[|calls| - 1];
      DepositsAsAgreed(z, earlier, i);
      NextAsAgreed(z, earlier, Run(z, EMPTY_DB, earlier), c, i);
      assert calls == earlier + [c];
    }
  }

  lemma NextAsAgreed(z: Zone, earlier: seq<Call>, s: Db, c: Call, i: nat)
    requires i < |s.deposits| ==> Agreed(z, earlier, s.deposits[i])
    ensures var db := Apply(z, s, c); i < |db.deposits| ==> Agreed(z, earlier + [c], db.deposits[i])
  {
    hide Agreed, Apply, AgreedBy;
    var db := Apply(z, s, c);
    StepHistory(z, s, c);
    if i < |s.deposits| {
      StillAgreed(z, earlier, c, s.deposits[i], db.deposits[i]);
    } else if i < |db.deposits| {
      OpenedAsAsked(z, s, c, i);
      NowAgreed(z, earlier, c, db.deposits[i]);
    }
  }

  /** So a deposit that is due has always accrued every month of its term. */
  lemma DueMeansAccrued(z: Zone, calls: seq<Call>, id: nat, asOf: int)
    requires Lawful(z)
    ensures var s := Run(z, EMPTY_DB, calls);
            id < |s.deposits| && s.deposits[id].maturityAt <= asOf ==>
            AccruedInterest(s.deposits[id], asOf) == MaturityInterest(s.deposits[id])
  {
    hide Run, Lawful;
    var s := Run(z, EMPTY_DB, calls);
    DepositsAsAgreed(z, calls, id);
    if id < |s.deposits| && s.deposits[id].maturityAt <= asOf {
      AccruedInFull(z, s.deposits[id], asOf);
    }
  }

  lemma {:induction false} InvAlong(z: Zone, s: Db, more: seq<Call>, now: int)
    requires Inv(s, now) && InOrder(more, now)
    ensures Inv(Run(z, s, more), Clock(more, now))
  {
    if |more| > 0 {
      hide Inv, Apply;
      var n := |more| - 1;
      InvAlong(z, s, more[..n], now);
      StepKeeps(z, Run(z, s, more[..n]), more[n], Clock(more[..n], now));
    }
  }

  // ---------- idempotency keys ----------

  predicate UsesKey(step: Step, key: Key) {
    (step.Faucet? || step.Send? || step.SendByRail? || step.PayTheBill? || step.SpendByCard?) && step.key == Some(key)
  }

  lemma RepeatChangesNothing(z: Zone, s: Db, repeat: Call, key: Key)
    requires UsesKey(repeat.step, key) && FindByKey(s.transfers, key).Some?
    ensures Apply(z, s, repeat) == s
  {
  }

  lemma KeyStays(s: Db, db: Db, key: Key, i: TransferId)
    requires Kept(s, db) && KeysOk(db.transfers, |db.instructions|)
    requires i < |s.transfers| && s.transfers[i].key == Some(key)
    ensures FindByKey(db.transfers, key).Some?
    ensures forall j :: 0 <= j < |db.transfers| ==> (db.transfers[j].key == Some(key) <==> i == j)
  {
    assert RowKept(s.transfers[i], db.transfers[i]);
  }

  /** Once a key is on a transfer, then at every later point of the run it is
    * on exactly that one, and every further call that carries it changes
    * nothing at all, whether it returns the earlier transfer or throws. */
  lemma KeyUsedOnce(z: Zone, calls: seq<Call>, more: seq<Call>, from: int, key: Key, i: TransferId, repeat: Call)
    requires InOrder(calls, from) && InOrder(more, Clock(calls, from))
    requires i < |Run(z, EMPTY_DB, calls).transfers| && Run(z, EMPTY_DB, calls).transfers[i].key == Some(key)
    requires UsesKey(repeat.step, key)
    ensures var later := Run(z, Run(z, EMPTY_DB, calls), more);
            && (forall j :: 0 <= j < |later.transfers| ==> (later.transfers[j].key == Some(key) <==> i == j))
            && Apply(z, later, repeat) == later
  {
    hide Run, Kept, Apply;
    var s := Run(z, EMPTY_DB, calls);
    var later := Run(z, s, more);
    RunHistory(z, s, more);
    assert KeysOk(later.transfers, |later.instructions|) by {
      ReachableInv(z, calls, from);
      InvAlong(z, s, more, Clock(calls, from));
    }
    KeyStays(s, later, key, i);
    RepeatChangesNothing(z, later, repeat, key);
  }

  // ---------- limits ----------

  /** Right after a limit-checked transfer is posted, everything its owner has
    * sent that day and that month, this transfer included, is within the
    * limits of the tier. */
  lemma CheckedTransferWithinLimits(z: Zone, s: Db, inp: TransferInput, key: Option<Key>, now: int)
    requires inp.owner.Some? && inp.tier.Some?
    requires ExecuteTransfer(z, s, inp, key, now).Ok? && FindPrior(s.transfers, key).None?
    ensures var db := ExecuteTransfer(z, s, inp, key, now).value.db;
            && Outbound(db, inp.owner.value, z.dayStart(now)) <= DailyLimit(inp.tier.value)
            && Outbound(db, inp.owner.value, z.monthStart(now)) <= MonthlyLimit(inp.tier.value)
  {
    var db := ExecuteTransfer(z, s, inp, key, now).value.db;
    var row := db.transfers[|s.transfers|];
    OutboundAfter(s, db, row, inp.owner.value, z.dayStart(now));
    OutboundAfter(s, db, row, inp.owner.value, z.monthStart(now));
  }

  /** A row's contribution to what `user` has sent in the period that began at p. */
  function SentInFn(accounts: seq<Account>, user: UserId, start: int -> int, p: int): Transfer -> int {
    (t: Transfer) =>
      if && t.status == Posted && start(t.postedAt) == p
         && t.from.Some? && t.from.value < |accounts| && accounts[t.from.value].userId == user
      then t.amount else 0
  }

  /** What counts towards a limit is exactly what the user's accounts have sent
    * in the calendar day or month of the clock. */
  lemma OutboundIsPeriod(s: Db, user: UserId, start: int -> int, now: int)
    requires Periods(start) && forall i :: 0 <= i < |s.transfers| ==> s.transfers[i].postedAt <= now
    ensures Outbound(s, user, start(now)) == Sum(s.transfers, SentInFn(s.accounts, user, start, start(now)))
  {
    forall i | 0 <= i < |s.transfers|
      ensures OutboundFn(s.accounts, user, start(now))(s.transfers[i])
              == SentInFn(s.accounts, user, start, start(now))(s.transfers[i])
    {
      SamePeriod(start, s.transfers[i].postedAt, now);
    }
    SumSame(s.transfers, OutboundFn(s.accounts, user, start(now)), SentInFn(s.accounts, user, start, start(now)));
  }

  lemma OutboundAfter(s: Db, db: Db, row: Transfer, user: UserId, since: int)
    requires db.transfers == s.transfers + [row] && row.amount >= 0
    requires AccountsKept(s.accounts, db.accounts) && |db.accounts| == |s.accounts|
    ensures Outbound(db, user, since) <= Outbound(s, user, since) + row.amount
  {
    forall i | 0 <= i < |s.transfers|
      ensures OutboundFn(db.accounts, user, since)(s.transfers[i])
              == OutboundFn(s.accounts, user, since)(s.transfers[i])
    {
      var t := s.transfers[i];
      if t.from.Some? && t.from.value < |s.accounts| {
        assert AccountKept(s.accounts[t.from.value], db.accounts[t.from.value]);
      }
    }
    SumSame(s.transfers, OutboundFn(db.accounts, user, since), OutboundFn(s.accounts, user, since));
    SumAppend(s.transfers, row, OutboundFn(db.accounts, user, since));
  }
}
