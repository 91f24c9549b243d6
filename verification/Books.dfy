/**
 * What the books say in every reachable state: each account's hold and
 * balance explained from the transfers, the ledger and the deposits, with no
 * assumption on the calls that were made.
 */
module Books {
  import opened Prelude
  import opened Accounts
  import opened FixedDeposits
  import opened Tables

  // ---------- contributions of single rows ----------

  /** Source and destination are the same account. */
  predicate Aliased(t: Transfer) {
    t.from == Some(t.to)
  }

  predicate Batched(rail: Rail) {
    rail == Neft || rail == Rtgs
  }

  /** A settled NEFT or RTGS transfer from an account to itself: the credited
    * row, computed before the release, overwrites it. */
  predicate StuckHold(t: Transfer) {
    t.status == Posted && Aliased(t) && Batched(t.rail)
  }

  function PendingFn(a: AccountId): Transfer -> int {
    (t: Transfer) => if t.from == Some(a) && t.status == Pending then t.amount else 0
  }

  function HeldFn(a: AccountId): Transfer -> int {
    (t: Transfer) => if t.from == Some(a) && (t.status == Pending || StuckHold(t)) then t.amount else 0
  }

  function GainFn(a: AccountId): Transfer -> int {
    (t: Transfer) => if t.status == Posted && t.from == Some(a) && t.to == a then t.amount else 0
  }

  function SignedFn(a: AccountId): LedgerEntry -> int {
    (e: LedgerEntry) => if e.account != a then 0 else if e.side == CreditSide then e.amount else -e.amount
  }

  /** Principal into the deposit's account, out of and back into its payout
    * account: these moves write no ledger rows. */
  function DepositFn(a: AccountId): Deposit -> int {
    (d: Deposit) =>
      (if d.account == a then d.principal else 0)
      + (if d.payout != a then 0 else if d.status == ActiveDeposit then -d.principal else d.interestPaid)
  }

  function BalanceFn(): Account -> int {
    (a: Account) => a.balance
  }

  function FaucetFn(): Transfer -> int {
    (t: Transfer) => if t.from.None? then t.amount else 0
  }

  function AllGainFn(): Transfer -> int {
    (t: Transfer) => if t.status == Posted && Aliased(t) then t.amount else 0
  }

  /** Money a closed deposit brought in: interest, less whatever its account
    * had received besides the principal, which zeroing discards. */
  function InterestFn(ledger: seq<LedgerEntry>): Deposit -> int {
    (d: Deposit) => if d.status == ActiveDeposit then 0 else d.interestPaid - Sum(ledger, SignedFn(d.account))
  }

  function Explained(s: Db, a: AccountId): int {
    Sum(s.ledger, SignedFn(a)) + Sum(s.deposits, DepositFn(a)) + Sum(s.transfers, GainFn(a))
  }

  predicate Retired(a: Account) {
    a.accountType == FixedDeposit && a.status == Closed
  }

  // ---------- the invariant ----------

  /** Each transfer row is well formed and refers to existing accounts; money
    * never leaves a fixed deposit through a posted transfer. */
  predicate RowsOk(accounts: seq<Account>, transfers: seq<Transfer>) {
    forall i :: 0 <= i < |transfers| ==> RowOk(accounts, transfers[i])
  }

  predicate RowOk(accounts: seq<Account>, t: Transfer) {
    && t.amount > 0
    && t.to < |accounts|
    && (t.from.Some? ==> t.from.value < |accounts|)
    && (t.from.None? ==> t.status == Posted)
    && (t.status == Pending ==> Batched(t.rail) && t.card.None? && t.kind == TransferKind)
    && (t.status == Posted && t.from.Some? ==> accounts[t.from.value].accountType != FixedDeposit)
  }

  predicate EntryOk(accounts: seq<Account>, transfers: seq<Transfer>, e: LedgerEntry) {
    && e.amount > 0
    && e.account < |accounts|
    && e.transfer < |transfers|
    && (e.side == DebitSide ==> accounts[e.account].accountType != FixedDeposit)
  }

  predicate EntriesOk(accounts: seq<Account>, transfers: seq<Transfer>, ledger: seq<LedgerEntry>) {
    forall k :: 0 <= k < |ledger| ==> EntryOk(accounts, transfers, ledger[k])
  }

  predicate HoldsAgree(accounts: seq<Account>, transfers: seq<Transfer>) {
    forall a :: 0 <= a < |accounts| ==> HoldAgrees(accounts, transfers, a)
  }

  predicate HoldAgrees(accounts: seq<Account>, transfers: seq<Transfer>, a: AccountId)
    requires a < |accounts|
  {
    Covered(accounts[a]) && accounts[a].hold == Sum(transfers, HeldFn(a))
  }

  predicate BalancesAgree(s: Db) {
    forall a :: 0 <= a < |s.accounts| ==> BalanceAgrees(s, a)
  }

  predicate BalanceAgrees(s: Db, a: AccountId)
    requires a < |s.accounts|
  {
    s.accounts[a].balance == if Retired(s.accounts[a]) then 0 else Explained(s, a)
  }

  /** Total money is faucet money, interest paid and the gains of aliased
    * transfers, less what zeroed deposit accounts discarded. */
  predicate MoneyAgrees(s: Db) {
    Sum(s.accounts, BalanceFn())
    == Sum(s.transfers, FaucetFn()) + Sum(s.transfers, AllGainFn()) + Sum(s.deposits, InterestFn(s.ledger))
  }

  predicate DepositOk(accounts: seq<Account>, d: Deposit) {
    && Terms(d)
    && d.interestPaid >= 0
    && d.account < |accounts|
    && d.payout < |accounts|
    && accounts[d.account].accountType == FixedDeposit
    && accounts[d.payout].accountType != FixedDeposit
    && accounts[d.payout].userId == d.userId
    && (d.status == ActiveDeposit ==> accounts[d.account].status != Closed && accounts[d.payout].status != Closed)
    && (d.status != ActiveDeposit ==> accounts[d.account].status == Closed)
  }

  predicate DepositsOk(accounts: seq<Account>, deposits: seq<Deposit>) {
    && (forall i :: 0 <= i < |deposits| ==> DepositOk(accounts, deposits[i]))
    && (forall i, j :: 0 <= i < j < |deposits| ==> deposits[i].account != deposits[j].account)
  }

  predicate Balanced(s: Db) {
    && RowsOk(s.accounts, s.transfers)
    && EntriesOk(s.accounts, s.transfers, s.ledger)
    && HoldsAgree(s.accounts, s.transfers)
    && BalancesAgree(s)
    && MoneyAgrees(s)
    && DepositsOk(s.accounts, s.deposits)
  }

  // ---------- frames ----------

  /** Accounts may be added; of the others only balances and holds differ. */
  predicate HoldersKept(a: seq<Account>, b: seq<Account>) {
    |a| <= |b| && forall i :: 0 <= i < |a| ==> b[i] == a[i].(balance := b[i].balance, hold := b[i].hold)
  }

  lemma HoldersFrame(a: seq<Account>, b: seq<Account>, transfers: seq<Transfer>, more: seq<Transfer>,
                     ledger: seq<LedgerEntry>, deposits: seq<Deposit>)
    requires HoldersKept(a, b) && |transfers| <= |more|
    requires RowsOk(a, transfers) && EntriesOk(a, transfers, ledger) && DepositsOk(a, deposits)
    ensures RowsOk(b, transfers) && EntriesOk(b, more, ledger) && DepositsOk(b, deposits)
  {
    forall k | 0 <= k < |ledger| ensures EntryOk(b, more, ledger[k]) {
      assert EntryOk(a, transfers, ledger[k]);
    }
    forall i | 0 <= i < |deposits| ensures DepositOk(b, deposits[i]) {
      assert DepositOk(a, deposits[i]);
    }
    forall i | 0 <= i < |transfers| ensures RowOk(b, transfers[i]) {
      assert RowOk(a, transfers[i]);
    }
  }

  /** New ledger entries of accounts that are not retired leave closed deposits alone. */
  lemma InterestFrame(accounts: seq<Account>, deposits: seq<Deposit>, ledger: seq<LedgerEntry>, more: seq<LedgerEntry>)
    requires DepositsOk(accounts, deposits)
    requires forall a :: 0 <= a < |accounts| && Retired(accounts[a]) ==>
               Sum(more, SignedFn(a)) == Sum(ledger, SignedFn(a))
    ensures Sum(deposits, InterestFn(more)) == Sum(deposits, InterestFn(ledger))
  {
    forall i | 0 <= i < |deposits|
      ensures InterestFn(more)(deposits[i]) == InterestFn(ledger)(deposits[i])
    {
      assert DepositOk(accounts, deposits[i]);
    }
    SumSame(deposits, InterestFn(more), InterestFn(ledger));
  }

  /** The books do not depend on cards, disputes, instructions or events. */
  lemma BooksFrame(s: Db, db: Db)
    requires Balanced(s)
    requires db.accounts == s.accounts && db.transfers == s.transfers && db.ledger == s.ledger
             && db.deposits == s.deposits
    ensures Balanced(db)
  {
    forall a | 0 <= a < |db.accounts| ensures BalanceAgrees(db, a) {
      assert BalanceAgrees(s, a);
    }
  }
}
