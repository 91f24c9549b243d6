/** Every primitive change to the tables keeps the books of module Books. */
module BooksKept {
  import opened Prelude
  import opened Accounts
  import opened Tables
  import opened UseCases
  import opened Books

  // ---------- posting ----------

  /** The rows that Post inserts: posted at once, and if from an account to
    * itself then not on a batch rail. */
  predicate PostedRow(s: Db, row: Transfer) {
    HasAccounts(s, row) && row.from.Some? && row.status == Posted && !StuckHold(row)
  }

  lemma PostHolds(s: Db, row: Transfer)
    requires HoldsAgree(s.accounts, s.transfers) && PostedRow(s, row) && Post(s, row).Ok?
    ensures var db := Post(s, row).value; HoldsAgree(db.accounts, db.transfers)
  {
    var db := Post(s, row).value;
    forall a | 0 <= a < |db.accounts| ensures HoldAgrees(db.accounts, db.transfers, a) {
      assert HoldAgrees(s.accounts, s.transfers, a);
      SumAppend(s.transfers, row, HeldFn(a));
    }
  }

  lemma PostBalances(s: Db, row: Transfer)
    requires BalancesAgree(s) && PostedRow(s, row) && Post(s, row).Ok?
    ensures BalancesAgree(Post(s, row).value)
  {
    var db := Post(s, row).value;
    var n := |s.ledger|;
    forall a | 0 <= a < |db.accounts| ensures BalanceAgrees(db, a) {
      assert BalanceAgrees(s, a);
      SumAppend(s.transfers, row, GainFn(a));
      SumAppend2(s.ledger, db.ledger[n], db.ledger[n + 1], SignedFn(a));
    }
  }

  /** A posting adds to the balances what it adds to the aliased amounts. */
  lemma PostTotals(s: Db, row: Transfer)
    requires PostedRow(s, row) && Post(s, row).Ok?
    ensures var db := Post(s, row).value;
            && Sum(db.transfers, FaucetFn()) == Sum(s.transfers, FaucetFn())
            && Sum(db.accounts, BalanceFn()) - Sum(s.accounts, BalanceFn())
               == Sum(db.transfers, AllGainFn()) - Sum(s.transfers, AllGainFn())
  {
    var from := row.from.value;
    var debited := Debit(s.accounts[from], row.amount).value;
    var credited := Credit(s.accounts[row.to], row.amount).value;
    SumAppend(s.transfers, row, FaucetFn());
    SumAppend(s.transfers, row, AllGainFn());
    SumUpdate(s.accounts, from, debited, BalanceFn());
    SumUpdate(s.accounts[from := debited], row.to, credited, BalanceFn());
  }

  lemma PostInterest(s: Db, row: Transfer)
    requires DepositsOk(s.accounts, s.deposits) && PostedRow(s, row) && Post(s, row).Ok?
    ensures var db := Post(s, row).value;
            && db.deposits == s.deposits
            && Sum(s.deposits, InterestFn(db.ledger)) == Sum(s.deposits, InterestFn(s.ledger))
  {
    hide DepositsOk;
    var db := Post(s, row).value;
    var n := |s.ledger|;
    forall a | 0 <= a < |s.accounts| && Retired(s.accounts[a])
      ensures Sum(db.ledger, SignedFn(a)) == Sum(s.ledger, SignedFn(a))
    {
      SumAppend2(s.ledger, db.ledger[n], db.ledger[n + 1], SignedFn(a));
    }
    InterestFrame(s.accounts, s.deposits, s.ledger, db.ledger);
  }

  lemma PostMoney(s: Db, row: Transfer)
    requires MoneyAgrees(s) && DepositsOk(s.accounts, s.deposits) && PostedRow(s, row) && Post(s, row).Ok?
    ensures MoneyAgrees(Post(s, row).value)
  {
    hide Post, PostedRow, DepositsOk;
    PostTotals(s, row);
    PostInterest(s, row);
  }

  lemma PostShape(s: Db, row: Transfer)
    requires PostedRow(s, row) && Post(s, row).Ok?
    requires RowsOk(s.accounts, s.transfers) && EntriesOk(s.accounts, s.transfers, s.ledger)
             && DepositsOk(s.accounts, s.deposits)
    ensures var db := Post(s, row).value;
            && HoldersKept(s.accounts, db.accounts)
            && RowsOk(db.accounts, db.transfers)
            && EntriesOk(db.accounts, db.transfers, db.ledger)
            && DepositsOk(db.accounts, db.deposits)
  {
    var db := Post(s, row).value;
    HoldersFrame(s.accounts, db.accounts, s.transfers, db.transfers, s.ledger, s.deposits);
  }

  lemma PostKeepsBooks(s: Db, row: Transfer)
    requires Balanced(s) && PostedRow(s, row) && Post(s, row).Ok?
    ensures Balanced(Post(s, row).value)
  {
    hide Post, PostedRow, RowsOk, EntriesOk, HoldsAgree, BalancesAgree, MoneyAgrees, DepositsOk, HoldersKept;
    PostHolds(s, row);
    PostBalances(s, row);
    PostMoney(s, row);
    PostShape(s, row);
  }

  // ---------- deposits without a source ----------

  predicate DepositRow(s: Db, row: Transfer) {
    HasAccounts(s, row) && row.from.None? && row.status == Posted
  }

  lemma PostDepositAccounts(s: Db, row: Transfer)
    requires HoldsAgree(s.accounts, s.transfers) && BalancesAgree(s) && DepositRow(s, row) && PostDeposit(s, row).Ok?
    ensures var db := PostDeposit(s, row).value; HoldsAgree(db.accounts, db.transfers) && BalancesAgree(db)
  {
    var db := PostDeposit(s, row).value;
    forall a | 0 <= a < |db.accounts|
      ensures HoldAgrees(db.accounts, db.transfers, a) && BalanceAgrees(db, a)
    {
      assert HoldAgrees(s.accounts, s.transfers, a) && BalanceAgrees(s, a);
      SumAppend(s.transfers, row, HeldFn(a));
      SumAppend(s.transfers, row, GainFn(a));
      SumAppend(s.ledger, db.ledger[|s.ledger|], SignedFn(a));
    }
  }

  lemma PostDepositMoney(s: Db, row: Transfer)
    requires MoneyAgrees(s) && DepositsOk(s.accounts, s.deposits) && DepositRow(s, row) && PostDeposit(s, row).Ok?
    ensures MoneyAgrees(PostDeposit(s, row).value)
  {
    var db := PostDeposit(s, row).value;
    forall a | 0 <= a < |s.accounts| && Retired(s.accounts[a])
      ensures Sum(db.ledger, SignedFn(a)) == Sum(s.ledger, SignedFn(a))
    {
      SumAppend(s.ledger, db.ledger[|s.ledger|], SignedFn(a));
    }
    InterestFrame(s.accounts, s.deposits, s.ledger, db.ledger);
    SumAppend(s.transfers, row, FaucetFn());
    SumAppend(s.transfers, row, AllGainFn());
    SumUpdate(s.accounts, row.to, Credit(s.accounts[row.to], row.amount).value, BalanceFn());
  }

  lemma PostDepositKeepsBooks(s: Db, row: Transfer)
    requires Balanced(s) && DepositRow(s, row) && PostDeposit(s, row).Ok?
    ensures Balanced(PostDeposit(s, row).value)
    ensures HoldersKept(s.accounts, PostDeposit(s, row).value.accounts)
  {
    var db := PostDeposit(s, row).value;
    PostDepositAccounts(s, row);
    PostDepositMoney(s, row);
    HoldersFrame(s.accounts, db.accounts, s.transfers, db.transfers, s.ledger, s.deposits);
  }

  // ---------- holds ----------

  predicate PendingRow(s: Db, row: Transfer) {
    HasAccounts(s, row) && row.from.Some? && row.status == Pending && Batched(row.rail) && row.card.None?
    && row.kind == TransferKind
  }

  lemma PendAccounts(s: Db, row: Transfer)
    requires HoldsAgree(s.accounts, s.transfers) && BalancesAgree(s) && PendingRow(s, row) && Pend(s, row).Ok?
    ensures var db := Pend(s, row).value; HoldsAgree(db.accounts, db.transfers) && BalancesAgree(db)
  {
    var db := Pend(s, row).value;
    forall a | 0 <= a < |db.accounts|
      ensures HoldAgrees(db.accounts, db.transfers, a) && BalanceAgrees(db, a)
    {
      assert HoldAgrees(s.accounts, s.transfers, a) && BalanceAgrees(s, a);
      SumAppend(s.transfers, row, HeldFn(a));
      SumAppend(s.transfers, row, GainFn(a));
    }
  }

  lemma PendMoney(s: Db, row: Transfer)
    requires MoneyAgrees(s) && PendingRow(s, row) && Pend(s, row).Ok?
    ensures MoneyAgrees(Pend(s, row).value)
  {
    SumAppend(s.transfers, row, FaucetFn());
    SumAppend(s.transfers, row, AllGainFn());
    SumUpdate(s.accounts, row.from.value, PlaceHold(s.accounts[row.from.value], row.amount).value, BalanceFn());
  }

  lemma PendShape(s: Db, row: Transfer)
    requires PendingRow(s, row) && Pend(s, row).Ok?
    requires RowsOk(s.accounts, s.transfers) && EntriesOk(s.accounts, s.transfers, s.ledger)
             && DepositsOk(s.accounts, s.deposits)
    ensures var db := Pend(s, row).value;
            && HoldersKept(s.accounts, db.accounts)
            && RowsOk(db.accounts, db.transfers)
            && EntriesOk(db.accounts, db.transfers, db.ledger)
            && DepositsOk(db.accounts, db.deposits)
  {
    hide EntriesOk, DepositsOk;
    var db := Pend(s, row).value;
    HoldersFrame(s.accounts, db.accounts, s.transfers, db.transfers, s.ledger, s.deposits);
  }

  lemma PendKeepsBooks(s: Db, row: Transfer)
    requires Balanced(s) && PendingRow(s, row) && Pend(s, row).Ok?
    ensures Balanced(Pend(s, row).value)
    ensures HoldersKept(s.accounts, Pend(s, row).value.accounts)
  {
    hide Pend, PendingRow, RowsOk, EntriesOk, HoldsAgree, BalancesAgree, MoneyAgrees, DepositsOk, HoldersKept;
    PendAccounts(s, row);
    PendMoney(s, row);
    PendShape(s, row);
  }

  // ---------- settlement ----------

  /** The item is settled by this call rather than skipped. */
  predicate Settles(s: Db, id: TransferId, now: int) {
    id < |s.transfers| && s.transfers[id].status == Pending && SettleOne(s, id, now).Ok?
  }

  lemma SettleHolds(s: Db, id: TransferId, now: int)
    requires RowsOk(s.accounts, s.transfers) && HoldsAgree(s.accounts, s.transfers) && Settles(s, id, now)
    ensures var db := SettleOne(s, id, now).value; HoldsAgree(db.accounts, db.transfers)
  {
    var db := SettleOne(s, id, now).value;
    assert RowOk(s.accounts, s.transfers[id]);
    forall a | 0 <= a < |db.accounts| ensures HoldAgrees(db.accounts, db.transfers, a) {
      assert HoldAgrees(s.accounts, s.transfers, a);
      SumUpdate(s.transfers, id, db.transfers[id], HeldFn(a));
    }
  }

  lemma SettleBalances(s: Db, id: TransferId, now: int)
    requires RowsOk(s.accounts, s.transfers) && BalancesAgree(s) && Settles(s, id, now)
    ensures BalancesAgree(SettleOne(s, id, now).value)
  {
    var db := SettleOne(s, id, now).value;
    var n := |s.ledger|;
    assert RowOk(s.accounts, s.transfers[id]);
    forall a | 0 <= a < |db.accounts| ensures BalanceAgrees(db, a) {
      assert BalanceAgrees(s, a);
      SumUpdate(s.transfers, id, db.transfers[id], GainFn(a));
      SumAppend2(s.ledger, db.ledger[n], db.ledger[n + 1], SignedFn(a));
    }
  }

  lemma SettleMoney(s: Db, id: TransferId, now: int)
    requires RowsOk(s.accounts, s.transfers) && MoneyAgrees(s) && DepositsOk(s.accounts, s.deposits)
             && Settles(s, id, now)
    ensures MoneyAgrees(SettleOne(s, id, now).value)
  {
    var db := SettleOne(s, id, now).value;
    var row := s.transfers[id];
    var n := |s.ledger|;
    var from := row.from.value;
    forall a | 0 <= a < |s.accounts| && Retired(s.accounts[a])
      ensures Sum(db.ledger, SignedFn(a)) == Sum(s.ledger, SignedFn(a))
    {
      SumAppend2(s.ledger, db.ledger[n], db.ledger[n + 1], SignedFn(a));
    }
    InterestFrame(s.accounts, s.deposits, s.ledger, db.ledger);
    SumUpdate(s.transfers, id, db.transfers[id], FaucetFn());
    SumUpdate(s.transfers, id, db.transfers[id], AllGainFn());
    var debited := Debit(ReleaseHold(s.accounts[from], row.amount).value, row.amount).value;
    SumUpdate(s.accounts, from, debited, BalanceFn());
    SumUpdate(s.accounts[from := debited], row.to, Credit(s.accounts[row.to], row.amount).value, BalanceFn());
  }

  lemma SettleShape(s: Db, id: TransferId, now: int)
    requires RowsOk(s.accounts, s.transfers) && EntriesOk(s.accounts, s.transfers, s.ledger)
             && DepositsOk(s.accounts, s.deposits)
    requires Settles(s, id, now)
    ensures var db := SettleOne(s, id, now).value;
            && HoldersKept(s.accounts, db.accounts)
            && RowsOk(db.accounts, db.transfers)
            && EntriesOk(db.accounts, db.transfers, db.ledger)
            && DepositsOk(db.accounts, db.deposits)
  {
    var db := SettleOne(s, id, now).value;
    assert RowOk(s.accounts, s.transfers[id]);
    HoldersFrame(s.accounts, db.accounts, s.transfers, db.transfers, s.ledger, s.deposits);
  }

  lemma SettleKeepsBooks(s: Db, id: TransferId, now: int)
    requires Balanced(s) && Settles(s, id, now)
    ensures Balanced(SettleOne(s, id, now).value)
  {
    SettleHolds(s, id, now);
    SettleBalances(s, id, now);
    SettleMoney(s, id, now);
    SettleShape(s, id, now);
  }
}
