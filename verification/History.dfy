/**
 * What no call ever undoes: the ledger and the event list only grow, posted
 * transfers and closed deposits never change, and a key once used stays used.
 */
module History {
  import opened Prelude
  import opened Zones
  import opened Accounts
  import FixedDeposits
  import opened Tables
  import opened UseCases
  import Schedules
  import Settlement
  import opened Runs

  /** A row is never rewritten, except that a pending one may be settled. */
  predicate RowKept(a: Transfer, b: Transfer) {
    b == a || (a.status == Pending && b == Settlement.SettledRow(a, b.postedAt))
  }

  predicate TransfersKept(a: seq<Transfer>, b: seq<Transfer>) {
    |a| <= |b| && forall i :: 0 <= i < |a| ==> RowKept(a[i], b[i])
  }

  /** A deposit is closed at most once, and a closed one never changes. */
  predicate DepositKept(a: FixedDeposits.Deposit, b: FixedDeposits.Deposit) {
    b == a || (a.status == FixedDeposits.ActiveDeposit && b.status != FixedDeposits.ActiveDeposit
               && b == a.(status := b.status, interestPaid := b.interestPaid))
  }

  predicate DepositRowsKept(a: seq<FixedDeposits.Deposit>, b: seq<FixedDeposits.Deposit>) {
    |a| <= |b| && forall i :: 0 <= i < |a| ==> DepositKept(a[i], b[i])
  }

  /** Holder, number and type are fixed; closing is final. */
  predicate AccountKept(a: Account, b: Account) {
    && b == a.(status := b.status, balance := b.balance, hold := b.hold)
    && (a.status == Closed ==> b.status == Closed)
  }

  predicate AccountsKept(a: seq<Account>, b: seq<Account>) {
    |a| <= |b| && forall i :: 0 <= i < |a| ==> AccountKept(a[i], b[i])
  }

  predicate Kept(s: Db, db: Db) {
    && TransfersKept(s.transfers, db.transfers)
    && DepositRowsKept(s.deposits, db.deposits)
    && AccountsKept(s.accounts, db.accounts)
    && s.ledger <= db.ledger
    && s.events <= db.events
    && |s.instructions| <= |db.instructions|
  }

  /** Every row that was added carries this key and this card. */
  predicate NewRows(s: Db, db: Db, key: Option<Key>, card: Option<CardId>) {
    forall i :: |s.transfers| <= i < |db.transfers| ==> db.transfers[i].key == key && db.transfers[i].card == card
  }

  predicate NoNewRows(s: Db, db: Db) {
    |db.transfers| == |s.transfers|
  }

  predicate NoNewCardRows(s: Db, db: Db) {
    forall i :: |s.transfers| <= i < |db.transfers| ==> db.transfers[i].card.None?
  }

  /** A posting leaves instructions and deposits as they are. */
  predicate OnlyPosts(s: Db, db: Db) {
    db.instructions == s.instructions && db.deposits == s.deposits
  }

  predicate NoNewDeposits(s: Db, db: Db) {
    |db.deposits| == |s.deposits|
  }

  /** Outside the runner only an instruction's status changes. */
  predicate SchedulesKept(a: seq<Instruction>, b: seq<Instruction>) {
    |a| <= |b| && forall i :: 0 <= i < |a| ==> b[i] == a[i].(status := b[i].status)
  }

  lemma KeptChain(a: Db, b: Db, c: Db)
    requires Kept(a, b) && Kept(b, c)
    ensures Kept(a, c)
  {
    forall i | 0 <= i < |a.transfers| ensures RowKept(a.transfers[i], c.transfers[i]) {
      assert RowKept(a.transfers[i], b.transfers[i]) && RowKept(b.transfers[i], c.transfers[i]);
    }
    forall i | 0 <= i < |a.deposits| ensures DepositKept(a.deposits[i], c.deposits[i]) {
      assert DepositKept(a.deposits[i], b.deposits[i]) && DepositKept(b.deposits[i], c.deposits[i]);
    }
    forall i | 0 <= i < |a.accounts| ensures AccountKept(a.accounts[i], c.accounts[i]) {
      assert AccountKept(a.accounts[i], b.accounts[i]) && AccountKept(b.accounts[i], c.accounts[i]);
    }
  }

  lemma TransferHistory(z: Zone, s: Db, inp: TransferInput, key: Option<Key>, now: int)
    ensures Kept(s, AfterPosting(s, ExecuteTransfer(z, s, inp, key, now)))
    ensures OnlyPosts(s, AfterPosting(s, ExecuteTransfer(z, s, inp, key, now)))
    ensures NewRows(s, AfterPosting(s, ExecuteTransfer(z, s, inp, key, now)), key, None)
  {
  }

  lemma RailHistory(z: Zone, s: Db, inp: TransferInput, vpaValid: bool, key: Option<Key>, now: int)
    requires inp.owner.Some? && inp.tier.Some?
    ensures Kept(s, AfterPosting(s, ExecuteRailTransfer(z, s, inp, vpaValid, key, now)))
    ensures NewRows(s, AfterPosting(s, ExecuteRailTransfer(z, s, inp, vpaValid, key, now)), key, None)
    ensures OnlyPosts(s, AfterPosting(s, ExecuteRailTransfer(z, s, inp, vpaValid, key, now)))
  {
    TransferHistory(z, s, inp.(beneficiaryCleared := true), key, now);
    hide ExecuteTransfer;
  }

  lemma FaucetHistory(s: Db, to: AccountId, amount: int, key: Option<Key>, now: int)
    ensures Kept(s, AfterPosting(s, FaucetDeposit(s, to, amount, key, now)))
    ensures NewRows(s, AfterPosting(s, FaucetDeposit(s, to, amount, key, now)), key, None)
    ensures OnlyPosts(s, AfterPosting(s, FaucetDeposit(s, to, amount, key, now)))
  {
  }

  lemma BillHistory(s: Db, user: UserId, kyc: bool, from: AccountId, biller: Biller, amount: int, key: Option<Key>,
                    now: int)
    ensures Kept(s, AfterPosting(s, PayBill(s, user, kyc, from, biller, amount, key, now)))
    ensures NewRows(s, AfterPosting(s, PayBill(s, user, kyc, from, biller, amount, key, now)), key, None)
    ensures OnlyPosts(s, AfterPosting(s, PayBill(s, user, kyc, from, biller, amount, key, now)))
  {
  }

  lemma CardHistory(z: Zone, s: Db, user: UserId, kyc: bool, card: CardId, amount: int, merchant: Option<string>,
                    key: Option<Key>, now: int)
    ensures Kept(s, AfterPosting(s, SimulateCardSpend(z, s, user, kyc, card, amount, merchant, key, now)))
    ensures NewRows(s, AfterPosting(s, SimulateCardSpend(z, s, user, kyc, card, amount, merchant, key, now)), key,
                    Some(card))
    ensures OnlyPosts(s, AfterPosting(s, SimulateCardSpend(z, s, user, kyc, card, amount, merchant, key, now)))
  {
  }

  lemma DisputeHistory(s: Db, id: nat, approve: bool, now: int)
    ensures Kept(s, After(s, DecideDispute(s, id, approve, now)))
    ensures NewRows(s, After(s, DecideDispute(s, id, approve, now)), None, None)
    ensures OnlyPosts(s, After(s, DecideDispute(s, id, approve, now)))
  {
  }

  lemma SettleOneHistory(s: Db, id: TransferId, now: int)
    requires id < |s.transfers| && SettleOne(s, id, now).Ok?
    ensures Kept(s, SettleOne(s, id, now).value)
    ensures OnlyPosts(s, SettleOne(s, id, now).value)
  {
  }

  lemma {:induction false} SettleListHistory(s: Db, ids: seq<TransferId>, now: int)
    requires forall i :: 0 <= i < |ids| ==> ids[i] < |s.transfers|
    ensures Kept(s, SettleList(s, ids, now).db)
    ensures SettleList(s, ids, now).db.events == s.events
    ensures OnlyPosts(s, SettleList(s, ids, now).db)
  {
    if |ids| > 0 {
      var n := |ids| - 1;
      SettleListHistory(s, ids[..n], now);
      var b := SettleList(s, ids[..n], now);
      if SettleOne(b.db, ids[n], now).Ok? {
        SettleOneHistory(b.db, ids[n], now);
        KeptChain(s, b.db, SettleOne(b.db, ids[n], now).value);
      }
    }
  }

  lemma OpenHistory(z: Zone, s: Db, user: UserId, payout: AccountId, principal: int, tenure: int, number: string,
                    now: int)
    ensures Kept(s, After(s, OpenFixedDeposit(z, s, user, payout, principal, tenure, number, now)))
    ensures NoNewRows(s, After(s, OpenFixedDeposit(z, s, user, payout, principal, tenure, number, now)))
    ensures After(s, OpenFixedDeposit(z, s, user, payout, principal, tenure, number, now)).instructions
            == s.instructions
  {
  }

  lemma MatureOneHistory(s: Db, id: nat)
    requires id < |s.deposits| && MatureOne(s, id).Ok?
    ensures Kept(s, MatureOne(s, id).value)
    ensures NoNewRows(s, MatureOne(s, id).value)
    ensures MatureOne(s, id).value.instructions == s.instructions
  {
  }

  lemma {:induction false} MatureListHistory(s: Db, ids: seq<nat>)
    requires forall i :: 0 <= i < |ids| ==> ids[i] < |s.deposits|
    ensures Kept(s, MatureList(s, ids).db)
    ensures NoNewRows(s, MatureList(s, ids).db)
    ensures MatureList(s, ids).db.instructions == s.instructions
  {
    if |ids| > 0 {
      var n := |ids| - 1;
      MatureListHistory(s, ids[..n]);
      var r := MatureList(s, ids[..n]);
      if MatureOne(r.db, ids[n]).Ok? {
        MatureOneHistory(r.db, ids[n]);
        KeptChain(s, r.db, MatureOne(r.db, ids[n]).value);
      }
    }
  }

  lemma PrematureHistory(s: Db, user: UserId, id: nat, now: int)
    ensures Kept(s, After(s, PrematureCloseFixedDeposit(s, user, id, now)))
    ensures NoNewRows(s, After(s, PrematureCloseFixedDeposit(s, user, id, now)))
    ensures NoNewDeposits(s, After(s, PrematureCloseFixedDeposit(s, user, id, now)))
    ensures After(s, PrematureCloseFixedDeposit(s, user, id, now)).instructions == s.instructions
  {
  }

  lemma AccountHistory(s: Db, user: UserId, id: AccountId)
    ensures Kept(s, After(s, FreezeAccount(s, id)))
    ensures Kept(s, After(s, UnfreezeAccount(s, id)))
    ensures Kept(s, After(s, CloseAccount(s, user, id)))
  {
  }

  lemma RunOneHistory(z: Zone, s: Db, id: InstructionId, si: Instruction, beneficiaries: map<nat, string>, fate: Fate,
                      now: int)
    requires id < |s.instructions|
    ensures Kept(s, RunOne(z, s, id, si, beneficiaries, fate, now).db)
    ensures NoNewCardRows(s, RunOne(z, s, id, si, beneficiaries, fate, now).db)
    ensures NoNewDeposits(s, RunOne(z, s, id, si, beneficiaries, fate, now).db)
  {
    hide ExecuteTransfer, Schedules.AdvanceRun;
    if si.beneficiary in beneficiaries {
      TransferHistory(z, s, StandingInput(si, beneficiaries[si.beneficiary]), Some(Standing(id, si.nextRunAt)), now);
    }
  }

  lemma {:induction false} RunListHistory(z: Zone, s: Db, ids: seq<InstructionId>, beneficiaries: map<nat, string>,
                                          fates: InstructionId -> Fate, now: int)
    requires forall i :: 0 <= i < |ids| ==> ids[i] < |s.instructions|
    ensures Kept(s, RunList(z, s, ids, beneficiaries, fates, now).db)
    ensures NoNewCardRows(s, RunList(z, s, ids, beneficiaries, fates, now).db)
    ensures NoNewDeposits(s, RunList(z, s, ids, beneficiaries, fates, now).db)
  {
    if |ids| > 0 {
      hide RunOne;
      var n := |ids| - 1;
      RunListHistory(z, s, ids[..n], beneficiaries, fates, now);
      var r := RunList(z, s, ids[..n], beneficiaries, fates, now);
      if !r.stopped {
        RunOneHistory(z, r.db, ids[n], r.db.instructions[ids[n]], beneficiaries, fates(ids[n]), now);
        KeptChain(s, r.db, RunList(z, s, ids, beneficiaries, fates, now).db);
      }
    }
  }

  /** The idempotency key a client sent with a call. */
  function StepKey(step: Step): ClientKey {
    if step.Faucet? || step.Send? || step.SendByRail? || step.PayTheBill? || step.SpendByCard? then step.key else None
  }

  lemma PostingHistory(z: Zone, s: Db, c: Call)
    requires PostingStep(c.step)
    ensures Kept(s, Apply(z, s, c))
    ensures !c.step.SpendByCard? ==> NoNewCardRows(s, Apply(z, s, c))
    ensures NewRows(s, Apply(z, s, c), StepKey(c.step), if c.step.SpendByCard? then Some(c.step.card) else None)
    ensures OnlyPosts(s, Apply(z, s, c))
  {
    hide Kept;
    match c.step
    case Faucet(account, amount, key) => FaucetHistory(s, account, amount, key, c.now);
    case Send(inp, key) => TransferHistory(z, s, inp, key, c.now);
    case SendByRail(inp, user, tier, vpaValid, key) =>
      RailHistory(z, s, RailInput(inp, user, tier), vpaValid, key, c.now);
    case PayTheBill(user, kyc, account, biller, amount, key) =>
      BillHistory(s, user, kyc, account, biller, amount, key, c.now);
    case SpendByCard(user, kyc, card, amount, merchant, key) =>
      CardHistory(z, s, user, kyc, card, amount, merchant, key, c.now);
    case Decide(dispute, approve) => DisputeHistory(s, dispute, approve, c.now);
  }

  lemma AccountStepHistory(z: Zone, s: Db, c: Call)
    requires AccountStep(c.step)
    ensures Kept(s, Apply(z, s, c))
    ensures NoNewRows(s, Apply(z, s, c)) && NoNewDeposits(s, Apply(z, s, c))
    ensures Apply(z, s, c).instructions == s.instructions
  {
    match c.step
    case Create(user, accountType, number) =>
    case FreezeIt(account) => AccountHistory(s, 0, account);
    case UnfreezeIt(account) => AccountHistory(s, 0, account);
    case CloseIt(user, account) => AccountHistory(s, user, account);
  }

  lemma MatureHistory(s: Db, now: int)
    ensures var db := MatureFixedDeposits(s, now).db;
            Kept(s, db) && NoNewRows(s, db) && NoNewDeposits(s, db) && db.instructions == s.instructions
  {
    MatureListHistory(s, ListDueForMaturity(s.deposits, now));
  }

  lemma DepositStepHistory(z: Zone, s: Db, c: Call)
    requires DepositStep(c.step)
    ensures Kept(s, Apply(z, s, c))
    ensures !c.step.OpenDeposit? ==> NoNewDeposits(s, Apply(z, s, c))
    ensures NoNewRows(s, Apply(z, s, c))
    ensures Apply(z, s, c).instructions == s.instructions
  {
    hide Kept, OpenFixedDeposit, MatureFixedDeposits, PrematureCloseFixedDeposit;
    match c.step
    case OpenDeposit(user, payout, principal, tenureMonths, number) =>
      OpenHistory(z, s, user, payout, principal, tenureMonths, number, c.now);
    case MatureDue => MatureHistory(s, c.now);
    case CloseEarly(user, deposit) => PrematureHistory(s, user, deposit, c.now);
  }

  lemma SettleHistory(s: Db, rail: Rail, now: int)
    ensures var db := SettlePendingTransfers(s, rail, now).db;
            Kept(s, db) && NoNewRows(s, db) && OnlyPosts(s, db)
  {
    SettleListHistory(s, ListPendingByRail(s.transfers, rail), now);
  }

  lemma RunDueHistory(z: Zone, s: Db, beneficiaries: map<nat, string>, fates: InstructionId -> Fate, now: int)
    ensures var db := RunDueInstructions(z, s, beneficiaries, fates, now).db;
            Kept(s, db) && NoNewCardRows(s, db) && NoNewDeposits(s, db)
  {
    RunListHistory(z, s, ListDue(s.instructions, now), beneficiaries, fates, now);
  }

  lemma InstructionHistory(z: Zone, s: Db, c: Call)
    requires c.step.Instruct? || c.step.Change?
    ensures Kept(s, Apply(z, s, c))
    ensures NoNewRows(s, Apply(z, s, c)) && NoNewDeposits(s, Apply(z, s, c))
    ensures SchedulesKept(s.instructions, Apply(z, s, c).instructions)
  {
    hide Schedules.AdvanceRun, BankingAccess;
  }

  lemma DisputeAndCardHistory(z: Zone, s: Db, c: Call)
    requires c.step.File? || c.step.Issue? || c.step.Update?
    ensures Kept(s, Apply(z, s, c))
    ensures NoNewRows(s, Apply(z, s, c)) && NoNewDeposits(s, Apply(z, s, c))
    ensures SchedulesKept(s.instructions, Apply(z, s, c).instructions)
  {
  }

  /** One call, whatever it is, undoes nothing. */
  lemma StepHistory(z: Zone, s: Db, c: Call)
    ensures Kept(s, Apply(z, s, c))
    ensures !c.step.SpendByCard? ==> NoNewCardRows(s, Apply(z, s, c))
    ensures !c.step.RunDue? ==> forall i :: |s.transfers| <= i < |Apply(z, s, c).transfers| ==>
              Apply(z, s, c).transfers[i].key == StepKey(c.step)
    ensures !c.step.RunDue? ==> SchedulesKept(s.instructions, Apply(z, s, c).instructions)
    ensures !c.step.OpenDeposit? ==> NoNewDeposits(s, Apply(z, s, c))
  {
    hide Kept, SettlePendingTransfers, RunDueInstructions;
    if c.step.SettleRail? {
      SettleHistory(s, c.step.rail, c.now);
    } else if c.step.RunDue? {
      RunDueHistory(z, s, c.step.beneficiaries, c.step.fates, c.now);
    } else {
      hide Apply;
      if PostingStep(c.step) {
        PostingHistory(z, s, c);
      } else if AccountStep(c.step) {
        AccountStepHistory(z, s, c);
      } else if DepositStep(c.step) {
        DepositStepHistory(z, s, c);
      } else if c.step.Instruct? || c.step.Change? {
        InstructionHistory(z, s, c);
      } else {
        DisputeAndCardHistory(z, s, c);
      }
    }
  }

  /** Neither does a run. */
  lemma {:induction false} RunHistory(z: Zone, s: Db, calls: seq<Call>)
    ensures Kept(s, Run(z, s, calls))
  {
    if |calls| > 0 {
      var n := |calls| - 1;
      RunHistory(z, s, calls[..n]);
      StepHistory(z, Run(z, s, calls[..n]), calls[n]);
      hide Kept;
      KeptChain(s, Run(z, s, calls[..n]), Run(z, s, calls));
    }
  }
}
