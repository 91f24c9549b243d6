/**
 * Reachable states in which the plain forms of three promises fail: only
 * executeTransfer refuses to move money from an account to itself, and
 * deposits move money without ledger entries.
 */
module Counterexamples {
  import opened Prelude
  import opened Zones
  import opened Accounts
  import FixedDeposits
  import opened Statements
  import opened Tables
  import Limits
  import opened UseCases
  import Books
  import opened Runs

  /** A savings account opened for user 1 and funded by the faucet. */
  function Funded(): Db {
    var row := Transfer(None, None, 0, 2_000_000, FaucetKind, Posted, Internal, 0, FaucetMoney, None);
    Db([Account("A1", 1, Savings, Active, 2_000_000, 0)], [row],
       [Entry(row, 0, 0, CreditSide, 2_000_000)], [], [], [], [], [MovedEvent(row, 0)])
  }

  const FUNDING_CALLS := [Call(Create(1, Savings, "A1"), 0), Call(Faucet(0, 2_000_000, None), 0)]

  lemma FundedReachable(z: Zone)
    ensures Run(z, EMPTY_DB, FUNDING_CALLS) == Funded()
  {
    var created := EMPTY_DB.(accounts := [Account("A1", 1, Savings, Active, 0, 0)]);
    assert FUNDING_CALLS[..1][..0] == [];
    assert Run(z, EMPTY_DB, FUNDING_CALLS[..1]) == created;
    assert Apply(z, created, FUNDING_CALLS[1]) == Funded();
  }

  /** A bill whose biller is paid from the biller's own account. */
  const OWN_BILL := Call(PayTheBill(1, true, 0, ActiveBiller("A1"), 100, None), 1)

  /** Paying it creates money: the balance grows by the amount while its
    * ledger entries cancel out. */
  lemma OwnBillCreatesMoney(z: Zone)
    ensures var db := Apply(z, Run(z, EMPTY_DB, FUNDING_CALLS), OWN_BILL);
            && |db.accounts| == 1
            && db.accounts[0].balance == 2_000_100
            && Sum(db.ledger, Books.SignedFn(0)) == 2_000_000
  {
    FundedReachable(z);
    var s := Funded();
    assert s.accounts[..0] == [] && FindByNumber(s.accounts, "A1") == Some(0);
    assert s.accounts[0].userId == 1 && HasActiveAccount(s.accounts, 1);
    var db := Apply(z, s, OWN_BILL);
    assert Sum(s.ledger, Books.SignedFn(0)) == 2_000_000 by {
      assert s.ledger[..0] == [];
    }
    SumAppend2(s.ledger, db.ledger[1], db.ledger[2], Books.SignedFn(0));
  }

  /** A NEFT transfer from an account to itself. */
  const OWN_NEFT := Call(SendByRail(TransferInput(0, "A1", 100, None, true, None, true, Neft), 1, Limits.Full, false,
                                    None),
                         1)

  lemma OwnNeftHeld(z: Zone)
    ensures var held := Apply(z, Run(z, EMPTY_DB, FUNDING_CALLS), OWN_NEFT);
            && held.accounts == [Account("A1", 1, Savings, Active, 2_000_000, 100)]
            && held.transfers == Funded().transfers
               + [Transfer(None, Some(0), 0, 100, TransferKind, Pending, Neft, 1, SelfTransfer, None)]
  {
    FundedReachable(z);
    var s := Funded();
    assert s.accounts[..0] == [] && FindByNumber(s.accounts, "A1") == Some(0);
    assert s.accounts[0].userId == 1 && HasActiveAccount(s.accounts, 1);
  }

  /** Settling it leaves the hold in place with nothing pending any more. */
  lemma OwnNeftKeepsHold(z: Zone)
    ensures var held := Apply(z, Run(z, EMPTY_DB, FUNDING_CALLS), OWN_NEFT);
            && |held.transfers| == 2
            && SettleOne(held, 1, 2).Ok?
            && var db := SettleOne(held, 1, 2).value;
            && |db.accounts| == 1
            && db.accounts[0].hold == 100
            && Sum(db.transfers, Books.PendingFn(0)) == 0
  {
    OwnNeftHeld(z);
    hide Apply;
    var held := Apply(z, Run(z, EMPTY_DB, FUNDING_CALLS), OWN_NEFT);
    assert held.transfers[1].status == Pending;
    var db := SettleOne(held, 1, 2).value;
    SumZero(db.transfers, Books.PendingFn(0));
  }

  // ---------- a deposit between two lines of a statement ----------

  const OPENING := Call(OpenDeposit(1, 0, 1_000_000, 12, "D1"), 1)

  /** The funded account after half its money went into a deposit. */
  function Locked(z: Zone): Db {
    Funded().(accounts := [Account("A1", 1, Savings, Active, 1_000_000, 0),
                           Account("D1", 1, FixedDeposit, Active, 1_000_000, 0)],
              deposits := [FixedDeposits.Deposit(1, 1, 0, 1_000_000, 12, 650, 1,
                                                 FixedDeposits.MaturityInstant(z, 1, 12),
                                                 FixedDeposits.ActiveDeposit, 0)])
  }

  lemma LockedReachable(z: Zone)
    ensures Apply(z, Run(z, EMPTY_DB, FUNDING_CALLS), OPENING) == Locked(z)
  {
    FundedReachable(z);
    assert FixedDeposits.NewDeposit(z, 1, 1, 0, 1_000_000, 12, 1).value == Locked(z).deposits[0];
    assert Apply(z, Funded(), OPENING).accounts == Locked(z).accounts;
  }

  const TOP_UP := Call(Faucet(0, 100, None), 2)

  lemma ToppedUp(z: Zone)
    ensures Apply(z, Locked(z), TOP_UP).ledger
            == [LedgerEntry(0, 0, CreditSide, 2_000_000, 2_000_000, 0),
                LedgerEntry(0, 1, CreditSide, 100, 1_000_100, 2)]
  {
  }

  /** The statement over the deposit's opening and a later credit does not add
    * up: the deposit wrote no line. */
  lemma DepositBreaksStatement(z: Zone)
    ensures var db := Apply(z, Apply(z, Run(z, EMPTY_DB, FUNDING_CALLS), OPENING), TOP_UP);
            var st := QueryStatement(db.ledger, 0, 0, 3);
            |st.lines| == 2 && !Adds(st)
  {
    LockedReachable(z);
    ToppedUp(z);
    hide Apply;
    var ledger := Apply(z, Locked(z), TOP_UP).ledger;
    assert ledger[..2] == ledger && ledger[..1][..0] == [];
    assert Rows(ledger[..1], 0, 0, 3) == ledger[..1];
    assert Rows(ledger, 0, 0, 3) == ledger;
    SumAppend(ledger[..1], ledger[1], CreditsFn());
    SumAppend(ledger[..1], ledger[1], DebitsFn());
    assert ledger == ledger[..1] + [ledger[1]];
    assert Sum(ledger[..1], CreditsFn()) == 2_000_000 && Sum(ledger[..1], DebitsFn()) == 0;
  }
}
