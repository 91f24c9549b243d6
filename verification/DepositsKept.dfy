/** Opening and paying out fixed deposits, and account lifecycle, keep the books. */
module DepositsKept {
  import opened Prelude
  import Zones
  import opened Accounts
  import opened FixedDeposits
  import opened Tables
  import opened UseCases
  import opened Books

  // ---------- what an active deposit's account holds ----------

  lemma OnlyItsDeposit(s: Db, id: nat)
    requires id < |s.deposits| && DepositsOk(s.accounts, s.deposits)
    ensures Sum(s.deposits, DepositFn(s.deposits[id].account)) == s.deposits[id].principal
  {
    var a := s.deposits[id].account;
    forall i | 0 <= i < |s.deposits|
      ensures DepositFn(a)(s.deposits[i]) == if i == id then s.deposits[id].principal else 0
    {
      assert DepositOk(s.accounts, s.deposits[i]);
      assert DepositOk(s.accounts, s.deposits[id]);
    }
    SingleTerm(s.deposits, id, DepositFn(a));
  }

  lemma NoGainInDeposit(s: Db, a: AccountId)
    requires RowsOk(s.accounts, s.transfers)
    requires a < |s.accounts| && s.accounts[a].accountType == FixedDeposit
    ensures Sum(s.transfers, GainFn(a)) == 0
  {
    forall i | 0 <= i < |s.transfers| ensures GainFn(a)(s.transfers[i]) == 0 {
      assert RowOk(s.accounts, s.transfers[i]);
    }
    SumZero(s.transfers, GainFn(a));
  }

  lemma OnlyCreditsInDeposit(s: Db, a: AccountId)
    requires EntriesOk(s.accounts, s.transfers, s.ledger)
    requires a < |s.accounts| && s.accounts[a].accountType == FixedDeposit
    ensures Sum(s.ledger, SignedFn(a)) >= 0
  {
    forall k | 0 <= k < |s.ledger| ensures SignedFn(a)(s.ledger[k]) >= 0 {
      assert EntryOk(s.accounts, s.transfers, s.ledger[k]);
    }
    SumNonNegative(s.ledger, SignedFn(a));
  }

  /** An active deposit's account holds its principal plus what was credited
    * to it since, so never less than the principal. */
  lemma DepositBalance(s: Db, id: nat)
    requires Balanced(s) && id < |s.deposits| && s.deposits[id].status == ActiveDeposit
    ensures var d := s.deposits[id];
            && s.accounts[d.account].balance == d.principal + Sum(s.ledger, SignedFn(d.account))
            && s.accounts[d.account].balance >= d.principal
  {
    var d := s.deposits[id];
    assert DepositOk(s.accounts, d);
    assert BalanceAgrees(s, d.account);
    OnlyItsDeposit(s, id);
    NoGainInDeposit(s, d.account);
    OnlyCreditsInDeposit(s, d.account);
  }

  // ---------- opening ----------

  lemma UnknownAccount(s: Db, a: AccountId)
    requires RowsOk(s.accounts, s.transfers) && EntriesOk(s.accounts, s.transfers, s.ledger)
    requires DepositsOk(s.accounts, s.deposits) && a >= |s.accounts|
    ensures Explained(s, a) == 0 && Sum(s.transfers, HeldFn(a)) == 0
  {
    forall i | 0 <= i < |s.transfers| ensures HeldFn(a)(s.transfers[i]) == 0 && GainFn(a)(s.transfers[i]) == 0 {
      assert RowOk(s.accounts, s.transfers[i]);
    }
    forall k | 0 <= k < |s.ledger| ensures SignedFn(a)(s.ledger[k]) == 0 {
      assert EntryOk(s.accounts, s.transfers, s.ledger[k]);
    }
    forall i | 0 <= i < |s.deposits| ensures DepositFn(a)(s.deposits[i]) == 0 {
      assert DepositOk(s.accounts, s.deposits[i]);
    }
    SumZero(s.transfers, HeldFn(a));
    SumZero(s.transfers, GainFn(a));
    SumZero(s.ledger, SignedFn(a));
    SumZero(s.deposits, DepositFn(a));
  }

  /** The tables after an opening, and the new rows. */
  predicate OpenedInto(s: Db, db: Db, payout: AccountId, principal: int) {
    var n, m := |s.accounts|, |s.deposits|;
    && payout < n && |db.accounts| == n + 1 && |db.deposits| == m + 1
    && db == s.(accounts := s.accounts[payout := db.accounts[payout]] + [db.accounts[n]],
                deposits := s.deposits + [db.deposits[m]])
    && db.accounts[payout] == s.accounts[payout].(balance := s.accounts[payout].balance - principal)
    && (Covered(s.accounts[payout]) ==> Covered(db.accounts[payout]))
    && !Retired(s.accounts[payout])
    && db.accounts[n].status == Active && db.accounts[n].balance == principal >= 0 && db.accounts[n].hold == 0
    && db.deposits[m].account == n && db.deposits[m].payout == payout && db.deposits[m].principal == principal
    && db.deposits[m].status == ActiveDeposit
  }

  lemma OpenShape(z: Zones.Zone, s: Db, user: UserId, payout: AccountId, principal: int, tenure: int, number: string,
                  now: int)
    requires OpenFixedDeposit(z, s, user, payout, principal, tenure, number, now).Ok?
    ensures OpenedInto(s, OpenFixedDeposit(z, s, user, payout, principal, tenure, number, now).value, payout, principal)
  {
  }

  lemma OpenAccounts(z: Zones.Zone, s: Db, user: UserId, payout: AccountId, principal: int, tenure: int, number: string,
                     now: int)
    requires Balanced(s)
    requires OpenFixedDeposit(z, s, user, payout, principal, tenure, number, now).Ok?
    ensures var db := OpenFixedDeposit(z, s, user, payout, principal, tenure, number, now).value;
            HoldsAgree(db.accounts, db.transfers) && BalancesAgree(db)
  {
    hide OpenFixedDeposit, MoneyAgrees, RowsOk, EntriesOk, DepositsOk;
    OpenShape(z, s, user, payout, principal, tenure, number, now);
    var db := OpenFixedDeposit(z, s, user, payout, principal, tenure, number, now).value;
    var n := |s.accounts|;
    var d := db.deposits[|s.deposits|];
    UnknownAccount(s, n);
    forall a | 0 <= a < |db.accounts|
      ensures HoldAgrees(db.accounts, db.transfers, a) && BalanceAgrees(db, a)
    {
      SumAppend(s.deposits, d, DepositFn(a));
      if a < n {
        assert HoldAgrees(s.accounts, s.transfers, a) && BalanceAgrees(s, a);
      }
    }
  }

  lemma OpenMoney(z: Zones.Zone, s: Db, user: UserId, payout: AccountId, principal: int, tenure: int, number: string,
                  now: int)
    requires MoneyAgrees(s)
    requires OpenFixedDeposit(z, s, user, payout, principal, tenure, number, now).Ok?
    ensures MoneyAgrees(OpenFixedDeposit(z, s, user, payout, principal, tenure, number, now).value)
  {
    hide OpenFixedDeposit;
    OpenShape(z, s, user, payout, principal, tenure, number, now);
    var db := OpenFixedDeposit(z, s, user, payout, principal, tenure, number, now).value;
    var debited := db.accounts[payout];
    SumUpdate(s.accounts, payout, debited, BalanceFn());
    SumAppend(s.accounts[payout := debited], db.accounts[|s.accounts|], BalanceFn());
    SumAppend(s.deposits, db.deposits[|s.deposits|], InterestFn(s.ledger));
  }

  lemma OpenKeepsBooks(z: Zones.Zone, s: Db, user: UserId, payout: AccountId, principal: int, tenure: int,
                       number: string, now: int)
    requires Balanced(s)
    requires OpenFixedDeposit(z, s, user, payout, principal, tenure, number, now).Ok?
    ensures Balanced(OpenFixedDeposit(z, s, user, payout, principal, tenure, number, now).value)
  {
    hide HoldsAgree, BalancesAgree, MoneyAgrees, RowsOk, EntriesOk;
    var db := OpenFixedDeposit(z, s, user, payout, principal, tenure, number, now).value;
    var n := |s.accounts|;
    var d := db.deposits[|s.deposits|];
    OpenAccounts(z, s, user, payout, principal, tenure, number, now);
    HoldersFrame(s.accounts, db.accounts, s.transfers, s.transfers, s.ledger, s.deposits);
    forall i | 0 <= i < |s.deposits| ensures s.deposits[i].account < n {
      assert DepositOk(s.accounts, s.deposits[i]);
    }
    assert DepositOk(db.accounts, d);
    OpenMoney(z, s, user, payout, principal, tenure, number, now);
  }

  // ---------- paying out ----------

  /** The ways a deposit is closed: the row changes status once and records its interest. */
  predicate Closing(s: Db, id: nat, paid: Result<Deposit, Error>, interest: int) {
    && id < |s.deposits|
    && s.deposits[id].status == ActiveDeposit
    && interest >= 0
    && paid.Ok?
    && paid.value.status != ActiveDeposit
    && paid.value == s.deposits[id].(status := paid.value.status, interestPaid := interest)
    && PayOut(s, id, paid, interest).Ok?
  }

  /** Paying out fails exactly when one of the two accounts is not active or
    * the deposit's account carries a hold. */
  lemma PayOutFails(s: Db, id: nat, paid: Result<Deposit, Error>, interest: int)
    requires Balanced(s) && id < |s.deposits| && s.deposits[id].status == ActiveDeposit
    requires interest >= 0 && paid.Ok?
    ensures var d := s.deposits[id];
            PayOut(s, id, paid, interest).Err? <==>
              s.accounts[d.account].status != Active || s.accounts[d.account].hold != 0
              || s.accounts[d.payout].status != Active
  {
    assert DepositOk(s.accounts, s.deposits[id]);
  }

  lemma PayOutAccounts(s: Db, id: nat, paid: Result<Deposit, Error>, interest: int)
    requires Balanced(s) && Closing(s, id, paid, interest)
    ensures var db := PayOut(s, id, paid, interest).value;
            HoldsAgree(db.accounts, db.transfers) && BalancesAgree(db)
  {
    var db := PayOut(s, id, paid, interest).value;
    assert DepositOk(s.accounts, s.deposits[id]);
    forall a | 0 <= a < |db.accounts|
      ensures HoldAgrees(db.accounts, db.transfers, a) && BalanceAgrees(db, a)
    {
      assert HoldAgrees(s.accounts, s.transfers, a) && BalanceAgrees(s, a);
      SumUpdate(s.deposits, id, paid.value, DepositFn(a));
    }
  }

  lemma PayOutMoney(s: Db, id: nat, paid: Result<Deposit, Error>, interest: int)
    requires Balanced(s) && Closing(s, id, paid, interest)
    ensures MoneyAgrees(PayOut(s, id, paid, interest).value)
  {
    hide HoldsAgree, BalancesAgree, RowsOk, EntriesOk, PayOut;
    var d, db := s.deposits[id], PayOut(s, id, paid, interest).value;
    assert DepositOk(s.accounts, d);
    DepositBalance(s, id);
    PaidOutRows(s, id, paid, interest);
    var closed := db.accounts[d.account];
    SumUpdate(s.accounts, d.account, closed, BalanceFn());
    SumUpdate(s.accounts[d.account := closed], d.payout, db.accounts[d.payout], BalanceFn());
    SumUpdate(s.deposits, id, paid.value, InterestFn(s.ledger));
  }

  /** The tables after a payout. */
  lemma PaidOutRows(s: Db, id: nat, paid: Result<Deposit, Error>, interest: int)
    requires Closing(s, id, paid, interest) && s.deposits[id].account != s.deposits[id].payout
    ensures var d, db := s.deposits[id], PayOut(s, id, paid, interest).value;
            && d.account < |s.accounts| && d.payout < |s.accounts| && |db.accounts| == |s.accounts|
            && db == s.(accounts := s.accounts[d.account := db.accounts[d.account]][d.payout := db.accounts[d.payout]],
                        deposits := s.deposits[id := paid.value])
            && db.accounts[d.account].balance == 0
            && db.accounts[d.payout].balance == s.accounts[d.payout].balance + d.principal + interest
  {
  }

  lemma PayOutShape(s: Db, id: nat, paid: Result<Deposit, Error>, interest: int)
    requires Balanced(s) && Closing(s, id, paid, interest)
    ensures var db := PayOut(s, id, paid, interest).value;
            && RowsOk(db.accounts, db.transfers)
            && EntriesOk(db.accounts, db.transfers, db.ledger)
            && DepositsOk(db.accounts, db.deposits)
  {
    var db := PayOut(s, id, paid, interest).value;
    assert DepositOk(s.accounts, s.deposits[id]);
    forall i | 0 <= i < |s.transfers| ensures RowOk(db.accounts, s.transfers[i]) {
      assert RowOk(s.accounts, s.transfers[i]);
    }
    forall k | 0 <= k < |s.ledger| ensures EntryOk(db.accounts, s.transfers, s.ledger[k]) {
      assert EntryOk(s.accounts, s.transfers, s.ledger[k]);
    }
    forall i | 0 <= i < |s.deposits| ensures DepositOk(db.accounts, db.deposits[i]) {
      assert DepositOk(s.accounts, s.deposits[i]);
    }
  }

  lemma PayOutKeepsBooks(s: Db, id: nat, paid: Result<Deposit, Error>, interest: int)
    requires Balanced(s) && Closing(s, id, paid, interest)
    ensures Balanced(PayOut(s, id, paid, interest).value)
  {
    PayOutAccounts(s, id, paid, interest);
    PayOutMoney(s, id, paid, interest);
    PayOutShape(s, id, paid, interest);
  }

  lemma MatureOneKeepsBooks(s: Db, id: nat)
    requires Balanced(s) && id < |s.deposits| && MatureOne(s, id).Ok?
    ensures Balanced(MatureOne(s, id).value)
  {
    var d := s.deposits[id];
    if d.status == ActiveDeposit {
      assert DepositOk(s.accounts, d);
      InterestBounds(d, 0);
      PayOutKeepsBooks(s, id, MarkMatured(d, MaturityInterest(d)), MaturityInterest(d));
    }
  }

  lemma PrematureKeepsBooks(s: Db, user: UserId, id: nat, now: int)
    requires Balanced(s) && PrematureCloseFixedDeposit(s, user, id, now).Ok?
    ensures Balanced(PrematureCloseFixedDeposit(s, user, id, now).value)
  {
    var d := s.deposits[id];
    assert DepositOk(s.accounts, d);
    InterestBounds(d, now);
    PayOutKeepsBooks(s, id, MarkPrematureClosed(d, PrematureInterest(d, now)), PrematureInterest(d, now));
  }

  // ---------- account lifecycle ----------

  lemma CreateKeepsBooks(s: Db, user: UserId, accountType: AccountType, number: string)
    requires Balanced(s)
    ensures Balanced(CreateAccount(s, user, accountType, number))
  {
    hide RowsOk, EntriesOk, DepositsOk;
    var db := CreateAccount(s, user, accountType, number);
    var n := |s.accounts|;
    UnknownAccount(s, n);
    HoldersFrame(s.accounts, db.accounts, s.transfers, s.transfers, s.ledger, s.deposits);
    SumAppend(s.accounts, db.accounts[n], BalanceFn());
    forall a | 0 <= a < |db.accounts|
      ensures HoldAgrees(db.accounts, db.transfers, a) && BalanceAgrees(db, a)
    {
      if a < n {
        assert HoldAgrees(s.accounts, s.transfers, a) && BalanceAgrees(s, a);
      }
    }
  }

  /** A status change that no active deposit depends on. */
  predicate Restatus(s: Db, id: AccountId, next: Account) {
    && id < |s.accounts|
    && next == s.accounts[id].(status := next.status)
    && (next.status == Closed ==>
          && next.accountType != FixedDeposit
          && forall i :: 0 <= i < |s.deposits| && s.deposits[i].status == ActiveDeposit ==> s.deposits[i].payout != id)
    && (next.status != Closed ==> s.accounts[id].status != Closed)
  }

  lemma RestatusKeepsBooks(s: Db, id: AccountId, next: Account)
    requires Balanced(s) && Restatus(s, id, next)
    ensures Balanced(s.(accounts := s.accounts[id := next]))
  {
    var db := s.(accounts := s.accounts[id := next]);
    forall a | 0 <= a < |db.accounts|
      ensures HoldAgrees(db.accounts, db.transfers, a) && BalanceAgrees(db, a)
    {
      assert HoldAgrees(s.accounts, s.transfers, a) && BalanceAgrees(s, a);
    }
    forall i | 0 <= i < |s.transfers| ensures RowOk(db.accounts, s.transfers[i]) {
      assert RowOk(s.accounts, s.transfers[i]);
    }
    forall k | 0 <= k < |s.ledger| ensures EntryOk(db.accounts, s.transfers, s.ledger[k]) {
      assert EntryOk(s.accounts, s.transfers, s.ledger[k]);
    }
    forall i | 0 <= i < |s.deposits| ensures DepositOk(db.accounts, s.deposits[i]) {
      assert DepositOk(s.accounts, s.deposits[i]);
    }
    SumUpdate(s.accounts, id, next, BalanceFn());
  }

  /** closeAccount's guards are exactly what active deposits need. */
  lemma CloseKeepsBooks(s: Db, user: UserId, id: AccountId)
    requires Balanced(s) && CloseAccount(s, user, id).Ok?
    ensures Restatus(s, id, Close(s.accounts[id]).value)
    ensures Balanced(CloseAccount(s, user, id).value)
  {
    forall i | 0 <= i < |s.deposits| && s.deposits[i].status == ActiveDeposit
      ensures s.deposits[i].payout != id
    {
      assert DepositOk(s.accounts, s.deposits[i]);
    }
    RestatusKeepsBooks(s, id, Close(s.accounts[id]).value);
  }
}
