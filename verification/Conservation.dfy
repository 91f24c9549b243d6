/**
 * Conservation call by call and over whole runs: how much money each call of
 * any service brings into the bank, in terms of its own arguments.
 */
module Conservation {
  import opened Prelude
  import opened Zones
  import opened Accounts
  import opened FixedDeposits
  import opened Tables
  import opened UseCases
  import opened Books
  import BooksKept
  import DepositsKept
  import opened Settlement
  import opened Runs
  import opened Guarantees

  /** The call inserts a transfer, rather than finding its key used or throwing. */
  predicate Inserts(z: Zone, s: Db, c: Call) {
    |Apply(z, s, c).transfers| > |s.transfers|
  }

  /** The biller is paid from the biller's own account. */
  predicate OwnBill(s: Db, account: AccountId, biller: Biller) {
    biller.ActiveBiller? && FindByNumber(s.accounts, biller.number) == Some(account)
  }

  /** The card draws on the merchant's own account. */
  predicate OwnSpend(s: Db, card: CardId, merchant: Option<string>) {
    card < |s.cards| && merchant.Some? && FindByNumber(s.accounts, merchant.value) == Some(s.cards[card].account)
  }

  /** The disputed transfer went from an account to itself. */
  predicate OwnReversal(s: Db, dispute: nat) {
    && dispute < |s.disputes|
    && s.disputes[dispute].transfer < |s.transfers|
    && Aliased(s.transfers[s.disputes[dispute].transfer])
  }

  function DisputedAmount(s: Db, dispute: nat): int {
    if dispute < |s.disputes| && s.disputes[dispute].transfer < |s.transfers|
    then s.transfers[s.disputes[dispute].transfer].amount else 0
  }

  /** The amounts of the listed transfers that go from an account to itself. */
  function OwnAmounts(s: Db, ids: seq<TransferId>): int {
    if |ids| == 0 then 0
    else
      var id := ids[|ids| - 1];
      OwnAmounts(s, ids[..|ids| - 1])
      + (if id < |s.transfers| && Aliased(s.transfers[id]) then s.transfers[id].amount else 0)
  }

  /** Both accounts of the deposit are active and its own carries no hold. */
  predicate CanPayOut(s: Db, id: nat) {
    && id < |s.deposits|
    && s.deposits[id].account < |s.accounts| && s.deposits[id].payout < |s.accounts|
    && s.accounts[s.deposits[id].account].status == Active
    && s.accounts[s.deposits[id].account].hold == 0
    && s.accounts[s.deposits[id].payout].status == Active
  }

  /** Interest, less what the deposit's account holds besides the principal. */
  function PayOutGain(s: Db, id: nat, interest: int): int
    requires id < |s.deposits| && s.deposits[id].account < |s.accounts|
  {
    interest - (s.accounts[s.deposits[id].account].balance - s.deposits[id].principal)
  }

  function MaturityGain(s: Db, ids: seq<nat>): int {
    if |ids| == 0 then 0
    else
      var id := ids[|ids| - 1];
      MaturityGain(s, ids[..|ids| - 1])
      + (if CanPayOut(s, id) then PayOutGain(s, id, MaturityInterest(s.deposits[id])) else 0)
  }

  /** The money a call brings into the bank. Transfers on any rail, deposit
    * openings, standing instructions and everything not listed bring none. */
  function Brought(z: Zone, s: Db, c: Call): int {
    match c.step
    case Faucet(account, amount, key) => if Inserts(z, s, c) then amount else 0
    case PayTheBill(user, kyc, account, biller, amount, key) =>
      if Inserts(z, s, c) && OwnBill(s, account, biller) then amount else 0
    case SpendByCard(user, kyc, card, amount, merchant, key) =>
      if Inserts(z, s, c) && OwnSpend(s, card, merchant) then amount else 0
    case Decide(dispute, approve) =>
      if Inserts(z, s, c) && OwnReversal(s, dispute) then DisputedAmount(s, dispute) else 0
    case SettleRail(rail) => OwnAmounts(s, SettledIds(s, ListPendingByRail(s.transfers, rail), c.now))
    case MatureDue => MaturityGain(s, ListDueForMaturity(s.deposits, c.now))
    case CloseEarly(user, id) =>
      if PrematureCloseFixedDeposit(s, user, id, c.now).Ok?
      then PayOutGain(s, id, PrematureInterest(s.deposits[id], c.now)) else 0
    case _ => 0
  }

  // ---------- postings ----------

  lemma TransferTotal(z: Zone, s: Db, inp: TransferInput, key: Option<Key>, now: int)
    ensures Total(AfterPosting(s, ExecuteTransfer(z, s, inp, key, now))) == Total(s)
  {
    var r := ExecuteTransfer(z, s, inp, key, now);
    if r.Ok? && FindPrior(s.transfers, key).None? {
      PostingConserves(s, TransferRow(s, inp, FindByNumber(s.accounts, inp.toNumber).value, key, Posted, now));
    }
  }

  lemma PendingTotal(s: Db, inp: TransferInput, key: Option<Key>, now: int)
    ensures Total(AfterPosting(s, CreatePendingRailTransfer(s, inp, key, now))) == Total(s)
  {
    var r := CreatePendingRailTransfer(s, inp, key, now);
    if r.Ok? && FindPrior(s.transfers, key).None? {
      SumUpdate(s.accounts, inp.from, PlaceHold(s.accounts[inp.from], inp.amount).value, BalanceFn());
    }
  }

  lemma RailTotal(z: Zone, s: Db, inp: TransferInput, vpaValid: bool, key: Option<Key>, now: int)
    requires inp.owner.Some? && inp.tier.Some?
    ensures Total(AfterPosting(s, ExecuteRailTransfer(z, s, inp, vpaValid, key, now))) == Total(s)
  {
    hide ExecuteTransfer, CreatePendingRailTransfer, Total;
    PendingTotal(s, inp, key, now);
    TransferTotal(z, s, inp.(beneficiaryCleared := true), key, now);
  }

  lemma FaucetTotal(s: Db, to: AccountId, amount: int, key: Option<Key>, now: int)
    ensures var db := AfterPosting(s, FaucetDeposit(s, to, amount, key, now));
            Total(db) == Total(s) + (if |db.transfers| > |s.transfers| then amount else 0)
  {
    var r := FaucetDeposit(s, to, amount, key, now);
    if r.Ok? && FindPrior(s.transfers, key).None? {
      SumUpdate(s.accounts, to, Credit(s.accounts[to], amount).value, BalanceFn());
    }
  }

  lemma BillTotal(s: Db, user: UserId, kyc: bool, from: AccountId, biller: Biller, amount: int, key: Option<Key>,
                  now: int)
    ensures var db := AfterPosting(s, PayBill(s, user, kyc, from, biller, amount, key, now));
            Total(db) == Total(s) + (if |db.transfers| > |s.transfers| && OwnBill(s, from, biller) then amount else 0)
  {
    var r := PayBill(s, user, kyc, from, biller, amount, key, now);
    if r.Ok? && FindPrior(s.transfers, key).None? {
      var to := FindByNumber(s.accounts, biller.number).value;
      PostingConserves(s, Transfer(key, Some(from), to, amount, TransferKind, Posted, Internal, now, Bill, None));
    }
  }

  lemma CardTotal(z: Zone, s: Db, user: UserId, kyc: bool, card: CardId, amount: int, merchant: Option<string>,
                  key: Option<Key>, now: int)
    ensures var db := AfterPosting(s, SimulateCardSpend(z, s, user, kyc, card, amount, merchant, key, now));
            Total(db) == Total(s)
            + (if |db.transfers| > |s.transfers| && OwnSpend(s, card, merchant) then amount else 0)
  {
    var r := SimulateCardSpend(z, s, user, kyc, card, amount, merchant, key, now);
    if r.Ok? && FindPrior(s.transfers, key).None? {
      PostingConserves(s, CardRow(s, card, amount, merchant.value, key, now));
    }
  }

  lemma DisputeTotal(s: Db, id: nat, approve: bool, now: int)
    ensures var db := After(s, DecideDispute(s, id, approve, now));
            Total(db) == Total(s)
            + (if |db.transfers| > |s.transfers| && OwnReversal(s, id) then DisputedAmount(s, id) else 0)
  {
    var r := DecideDispute(s, id, approve, now);
    if r.Ok? && approve {
      var original := s.transfers[s.disputes[id].transfer];
      PostingConserves(s, Transfer(None, Some(original.to), original.from.value, original.amount, ReversalKind,
                                   Posted, Internal, now, original.category, None));
    }
  }

  // ---------- batches ----------

  lemma {:induction false} SettleListTotal(s: Db, ids: seq<TransferId>, now: int)
    requires Distinct(ids) && AllPending(s, ids)
    ensures Total(SettleList(s, ids, now).db) == Total(s) + OwnAmounts(s, SettledIds(s, ids, now))
  {
    if |ids| > 0 {
      var n := |ids| - 1;
      SettleListTotal(s, ids[..n], now);
      LastStillPending(s, ids, now);
      var db := SettleList(s, ids[..n], now).db;
      var done := SettledIds(s, ids[..n], now);
      hide Total;
      if BooksKept.Settles(db, ids[n], now) {
        SettlementConserves(db, ids[n], now);
        assert (done + [ids[n]])[..|done|] == done;
      } else {
        assert done + [] == done;
      }
    }
  }

  /** Deposits not listed, and statuses of ordinary accounts, are as they were. */
  predicate OthersUntouched(s: Db, db: Db, ids: seq<nat>) {
    && |db.accounts| == |s.accounts| && |db.deposits| == |s.deposits|
    && (forall j: nat :: j < |s.deposits| && j !in ids ==>
          && db.deposits[j] == s.deposits[j]
          && (s.deposits[j].account < |s.accounts| ==>
                db.accounts[s.deposits[j].account] == s.accounts[s.deposits[j].account]))
    && (forall a :: 0 <= a < |s.accounts| && s.accounts[a].accountType != FixedDeposit ==>
          db.accounts[a].accountType != FixedDeposit && db.accounts[a].status == s.accounts[a].status)
  }

  lemma MatureOneTouches(s: Db, db: Db, ids: seq<nat>, id: nat)
    requires DepositsOk(s.accounts, s.deposits) && OthersUntouched(s, db, ids)
    requires id < |s.deposits| && id !in ids && MatureOne(db, id).Ok?
    ensures OthersUntouched(s, MatureOne(db, id).value, ids + [id])
  {
    var d := s.deposits[id];
    assert DepositOk(s.accounts, d);
    forall j: nat | j < |s.deposits| && j != id
      ensures s.deposits[j].account != d.account && s.deposits[j].account != d.payout
    {
      assert DepositOk(s.accounts, s.deposits[j]);
    }
  }

  lemma MatureOneTotal(db: Db, id: nat)
    requires Balanced(db) && id < |db.deposits| && db.deposits[id].status == ActiveDeposit
    ensures MatureOne(db, id).Ok? <==> CanPayOut(db, id)
    ensures MatureOne(db, id).Ok? ==>
              Total(MatureOne(db, id).value) == Total(db) + PayOutGain(db, id, MaturityInterest(db.deposits[id]))
  {
    var d := db.deposits[id];
    assert DepositOk(db.accounts, d);
    InterestBounds(d, 0);
    DepositsKept.PayOutFails(db, id, MarkMatured(d, MaturityInterest(d)), MaturityInterest(d));
    if MatureOne(db, id).Ok? {
      PayOutMoneyChange(db, id, MarkMatured(d, MaturityInterest(d)), MaturityInterest(d));
    }
  }

  /** In its turn an item still sees its deposit and both accounts as they were. */
  lemma MatureItemTotal(s: Db, db: Db, ids: seq<nat>, id: nat, now: int)
    requires Inv(s, now) && Inv(db, now) && OthersUntouched(s, db, ids)
    requires id < |s.deposits| && id !in ids && s.deposits[id].status == ActiveDeposit
    ensures MatureOne(db, id).Ok? <==> CanPayOut(s, id)
    ensures MatureOne(db, id).Ok? ==>
              && Total(MatureOne(db, id).value) == Total(db) + PayOutGain(s, id, MaturityInterest(s.deposits[id]))
              && OthersUntouched(s, MatureOne(db, id).value, ids + [id])
  {
    hide Total, MatureOne;
    assert DepositOk(s.accounts, s.deposits[id]);
    MatureOneTotal(db, id);
    if MatureOne(db, id).Ok? {
      MatureOneTouches(s, db, ids, id);
    }
  }

  lemma {:induction false} MatureListTotal(s: Db, ids: seq<nat>, now: int)
    requires Inv(s, now) && Distinct(ids)
    requires forall i :: 0 <= i < |ids| ==> ids[i] < |s.deposits| && s.deposits[ids[i]].status == ActiveDeposit
    ensures OthersUntouched(s, MatureList(s, ids).db, ids)
    ensures Total(MatureList(s, ids).db) == Total(s) + MaturityGain(s, ids)
  {
    hide Total, MatureOne, CanPayOut, PayOutGain, Inv;
    if |ids| > 0 {
      hide OthersUntouched;
      var n := |ids| - 1;
      MatureListTotal(s, ids[..n], now);
      MatureListKeeps(s, ids[..n], now);
      assert ids[n] !in ids[..n];
      MatureItemTotal(s, MatureList(s, ids[..n]).db, ids[..n], ids[n], now);
      assert ids[..n] + [ids[n]] == ids;
      MoreUntouched(s, MatureList(s, ids[..n]).db, ids[..n], ids);
    }
  }

  lemma MoreUntouched(s: Db, db: Db, ids: seq<nat>, more: seq<nat>)
    requires OthersUntouched(s, db, ids) && forall x :: x in ids ==> x in more
    ensures OthersUntouched(s, db, more)
  {
  }

  lemma MaturityListing(deposits: seq<Deposit>, now: int)
    ensures var ids := ListDueForMaturity(deposits, now);
            Distinct(ids) && forall i :: 0 <= i < |ids| ==> deposits[ids[i]].status == ActiveDeposit
  {
    var keep := (i: nat) => i < |deposits| && deposits[i].status == ActiveDeposit && deposits[i].maturityAt <= now;
    QueryOrdered(|deposits|, keep, (i: nat) => i);
    var ids := ListDueForMaturity(deposits, now);
    assert ids == Query(|deposits|, keep, (i: nat) => i);
    forall i | 0 <= i < |ids| ensures deposits[ids[i]].status == ActiveDeposit {
      assert ids[i] in ids;
    }
  }

  lemma CloseEarlyTotal(s: Db, user: UserId, id: nat, now: int)
    requires Balanced(s)
    ensures var r := PrematureCloseFixedDeposit(s, user, id, now);
            && (r.Ok? ==> id < |s.deposits| && s.deposits[id].account < |s.accounts|)
            && Total(After(s, r)) == Total(s)
               + (if r.Ok? then PayOutGain(s, id, PrematureInterest(s.deposits[id], now)) else 0)
  {
    if PrematureCloseFixedDeposit(s, user, id, now).Ok? {
      var d := s.deposits[id];
      assert DepositOk(s.accounts, d);
      InterestBounds(d, now);
      PayOutMoneyChange(s, id, MarkPrematureClosed(d, PrematureInterest(d, now)), PrematureInterest(d, now));
    }
  }

  lemma RunOneTotal(z: Zone, s: Db, id: InstructionId, si: Instruction, beneficiaries: map<nat, string>, fate: Fate,
                    now: int)
    requires id < |s.instructions|
    ensures Total(RunOne(z, s, id, si, beneficiaries, fate, now).db) == Total(s)
  {
    if si.beneficiary in beneficiaries {
      TransferTotal(z, s, StandingInput(si, beneficiaries[si.beneficiary]), Some(Standing(id, si.nextRunAt)), now);
    }
    hide ExecuteTransfer;
  }

  lemma {:induction false} RunListTotal(z: Zone, s: Db, ids: seq<InstructionId>, beneficiaries: map<nat, string>,
                                        fates: InstructionId -> Fate, now: int)
    requires forall i :: 0 <= i < |ids| ==> ids[i] < |s.instructions|
    ensures Total(RunList(z, s, ids, beneficiaries, fates, now).db) == Total(s)
  {
    if |ids| > 0 {
      hide RunOne, Total;
      var n := |ids| - 1;
      RunListTotal(z, s, ids[..n], beneficiaries, fates, now);
      var r := RunList(z, s, ids[..n], beneficiaries, fates, now);
      if !r.stopped {
        RunOneTotal(z, r.db, ids[n], r.db.instructions[ids[n]], beneficiaries, fates(ids[n]), now);
      }
    }
  }

  // ---------- every call ----------

  lemma PostingTotal(z: Zone, s: Db, c: Call)
    requires PostingStep(c.step)
    ensures Total(Apply(z, s, c)) == Total(s) + Brought(z, s, c)
  {
    hide Total, FaucetDeposit, ExecuteTransfer, ExecuteRailTransfer, PayBill, SimulateCardSpend, DecideDispute, OwnBill,
         OwnSpend, OwnReversal;
    match c.step
    case Faucet(account, amount, key) => FaucetTotal(s, account, amount, key, c.now);
    case Send(inp, key) => TransferTotal(z, s, inp, key, c.now);
    case SendByRail(inp, user, tier, vpaValid, key) =>
      RailTotal(z, s, RailInput(inp, user, tier), vpaValid, key, c.now);
    case PayTheBill(user, kyc, account, biller, amount, key) =>
      BillTotal(s, user, kyc, account, biller, amount, key, c.now);
    case SpendByCard(user, kyc, card, amount, merchant, key) =>
      CardTotal(z, s, user, kyc, card, amount, merchant, key, c.now);
    case Decide(dispute, approve) => DisputeTotal(s, dispute, approve, c.now);
  }

  lemma SettleRailTotal(s: Db, rail: Rail, now: int)
    ensures Total(SettlePendingTransfers(s, rail, now).db)
            == Total(s) + OwnAmounts(s, SettledIds(s, ListPendingByRail(s.transfers, rail), now))
  {
    ListingIsPending(s, rail);
    hide ListPendingByRail, SettleList, SettledIds;
    SettleListTotal(s, ListPendingByRail(s.transfers, rail), now);
  }

  lemma MatureTotal(s: Db, now: int)
    requires Inv(s, now)
    ensures Total(MatureFixedDeposits(s, now).db) == Total(s) + MaturityGain(s, ListDueForMaturity(s.deposits, now))
  {
    MaturityListing(s.deposits, now);
    hide Inv, Total, MatureList, MaturityGain, ListDueForMaturity;
    MatureListTotal(s, ListDueForMaturity(s.deposits, now), now);
  }

  lemma RunDueTotal(z: Zone, s: Db, beneficiaries: map<nat, string>, fates: InstructionId -> Fate, now: int)
    ensures Total(RunDueInstructions(z, s, beneficiaries, fates, now).db) == Total(s)
  {
    hide Total, RunList;
    RunListTotal(z, s, ListDue(s.instructions, now), beneficiaries, fates, now);
  }

  lemma BatchTotal(z: Zone, s: Db, c: Call)
    requires BatchStep(c.step)
    ensures Total(Apply(z, s, c)) == Total(s) + Brought(z, s, c)
  {
    hide Total, RunDueInstructions, OwnAmounts, SettlePendingTransfers, SettledIds, ListPendingByRail;
    match c.step
    case SettleRail(rail) => SettleRailTotal(s, rail, c.now);
    case RunDue(beneficiaries, fates) => RunDueTotal(z, s, beneficiaries, fates, c.now);
  }

  lemma OpenTotal(z: Zone, s: Db, c: Call)
    requires c.step.OpenDeposit?
    ensures Total(Apply(z, s, c)) == Total(s) + Brought(z, s, c)
  {
    hide Total, OpenFixedDeposit;
    var step := c.step;
    OpeningConserves(z, s, step.user, step.payout, step.principal, step.tenureMonths, step.number, c.now);
  }

  lemma MatureDueTotal(z: Zone, s: Db, c: Call)
    requires Inv(s, c.now) && c.step.MatureDue?
    ensures Total(Apply(z, s, c)) == Total(s) + Brought(z, s, c)
  {
    hide Inv, Total, MatureFixedDeposits, MaturityGain, ListDueForMaturity;
    MatureTotal(s, c.now);
  }

  lemma ClosingTotal(z: Zone, s: Db, c: Call)
    requires Balanced(s) && c.step.CloseEarly?
    ensures Total(Apply(z, s, c)) == Total(s) + Brought(z, s, c)
  {
    hide Balanced, Total, PrematureCloseFixedDeposit, PrematureInterest;
    CloseEarlyTotal(s, c.step.user, c.step.deposit, c.now);
  }

  lemma DepositTotal(z: Zone, s: Db, c: Call, before: int)
    requires Inv(s, before) && before <= c.now && DepositStep(c.step)
    ensures Total(Apply(z, s, c)) == Total(s) + Brought(z, s, c)
  {
    hide Inv, Total, Apply, Brought, Balanced;
    InvLater(s, before, c.now);
    BooksOfInv(s, before);
    match c.step
    case OpenDeposit(_, _, _, _, _) => OpenTotal(z, s, c);
    case MatureDue => MatureDueTotal(z, s, c);
    case CloseEarly(_, _) => ClosingTotal(z, s, c);
  }

  lemma BooksOfInv(s: Db, now: int)
    requires Inv(s, now)
    ensures Balanced(s)
  {
  }

  lemma OtherTotal(z: Zone, s: Db, c: Call)
    requires !PostingStep(c.step) && !BatchStep(c.step) && !DepositStep(c.step)
    ensures Total(Apply(z, s, c)) == Total(s)
  {
    match c.step
    case Create(user, accountType, number) =>
      SumAppend(s.accounts, OpenAccount(number, user, accountType), BalanceFn());
    case FreezeIt(account) => StatusTotal(s, account);
    case UnfreezeIt(account) => StatusTotal(s, account);
    case CloseIt(user, account) => StatusTotal(s, account);
    case _ =>
  }

  lemma StatusTotal(s: Db, id: AccountId)
    ensures forall status :: id < |s.accounts| ==>
              Total(s.(accounts := s.accounts[id := s.accounts[id].(status := status)])) == Total(s)
  {
    forall status | id < |s.accounts|
      ensures Total(s.(accounts := s.accounts[id := s.accounts[id].(status := status)])) == Total(s)
    {
      SumUpdate(s.accounts, id, s.accounts[id].(status := status), BalanceFn());
    }
  }

  /** Every call of every service changes the total of all balances by exactly
    * what it brings. */
  lemma CallChangesTotal(z: Zone, s: Db, c: Call, before: int)
    requires Inv(s, before) && before <= c.now
    ensures Total(Apply(z, s, c)) == Total(s) + Brought(z, s, c)
  {
    hide Inv, Total, Apply;
    if PostingStep(c.step) {
      PostingTotal(z, s, c);
    } else if BatchStep(c.step) {
      BatchTotal(z, s, c);
    } else if DepositStep(c.step) {
      DepositTotal(z, s, c, before);
    } else {
      OtherTotal(z, s, c);
    }
  }

  /** A bill, card spend or approved dispute that posts conserves money exactly
    * when the account it draws on is not the one it pays. */
  lemma CallConservesExactly(z: Zone, s: Db, c: Call, before: int)
    requires Inv(s, before) && before <= c.now
    ensures c.step.Send? || c.step.SendByRail? ==> Total(Apply(z, s, c)) == Total(s)
    ensures c.step.PayTheBill? && Inserts(z, s, c) ==>
              (Total(Apply(z, s, c)) == Total(s) <==> !OwnBill(s, c.step.account, c.step.biller))
    ensures c.step.SpendByCard? && Inserts(z, s, c) ==>
              (Total(Apply(z, s, c)) == Total(s) <==> !OwnSpend(s, c.step.card, c.step.merchant))
    ensures c.step.Decide? && Inserts(z, s, c) ==>
              (Total(Apply(z, s, c)) == Total(s) <==> !OwnReversal(s, c.step.dispute))
  {
    CallChangesTotal(z, s, c, before);
    if (c.step.PayTheBill? || c.step.SpendByCard?) && Inserts(z, s, c) {
      assert c.step.amount > 0;
    } else if c.step.Decide? && Inserts(z, s, c) {
      assert DisputedAmount(s, c.step.dispute) > 0;
    }
    hide Apply, Total, Inv;
  }

  /** What all calls of a run bring together. */
  function BroughtBy(z: Zone, calls: seq<Call>): int {
    if |calls| == 0 then 0
    else
      var n := |calls| - 1;
      BroughtBy(z, calls[..n]) + Brought(z, Run(z, EMPTY_DB, calls[..n]), calls[n])
  }

  /** Conservation over any run: the money in the bank is what its calls brought. */
  lemma {:induction false} RunChangesTotal(z: Zone, calls: seq<Call>, from: int)
    requires InOrder(calls, from)
    ensures Total(Run(z, EMPTY_DB, calls)) == BroughtBy(z, calls)
    decreases |calls|
  {
    if |calls| > 0 {
      hide Inv, Apply, Brought, Total;
      var n := |calls| - 1;
      RunChangesTotal(z, calls[..n], from);
      ReachableInv(z, calls[..n], from);
      CallChangesTotal(z, Run(z, EMPTY_DB, calls[..n]), calls[n], Clock(calls[..n], from));
    } else {
      assert Total(EMPTY_DB) == 0;
    }
  }
}
