/**
 * Runs: any sequence of calls of the services, in the order of the clock,
 * with any arguments, from the empty database. The invariant needs no
 * assumption on the arguments.
 */
module Runs {
  import opened Prelude
  import opened Zones
  import opened Accounts
  import opened FixedDeposits
  import Schedules
  import opened Tables
  import Limits
  import opened UseCases
  import opened Books
  import BooksKept
  import opened DepositsKept
  import opened Journal
  import Settlement

  /** Clients choose their own keys, never the runner's. */
  type ClientKey = k: Option<Key> | k.Some? ==> k.value.Client? witness None

  datatype Step =
    | Create(user: UserId, accountType: AccountType, number: string)
    | FreezeIt(account: AccountId)
    | UnfreezeIt(account: AccountId)
    | CloseIt(user: UserId, account: AccountId)
    | Faucet(account: AccountId, amount: int, key: ClientKey)
    | Send(inp: TransferInput, key: ClientKey)
    | SendByRail(inp: TransferInput, user: UserId, tier: Limits.Tier, vpaValid: bool, key: ClientKey)
    | SettleRail(rail: Rail)
    | PayTheBill(user: UserId, kycApproved: bool, account: AccountId, biller: Biller, amount: int, key: ClientKey)
    | SpendByCard(user: UserId, kycApproved: bool, card: CardId, amount: int, merchant: Option<string>, key: ClientKey)
    | File(user: UserId, transfer: TransferId)
    | Decide(dispute: nat, approve: bool)
    | OpenDeposit(user: UserId, payout: AccountId, principal: int, tenureMonths: int, number: string)
    | MatureDue
    | CloseEarly(user: UserId, deposit: nat)
    | Issue(user: UserId, account: AccountId, limits: CardLimits)
    | Update(card: CardId, active: bool, limits: CardLimits)
    | Instruct(user: UserId, kycApproved: bool, account: AccountId, beneficiary: nat, beneficiaryOwned: bool,
               amount: int, frequency: Schedules.Frequency, startAt: Option<int>, endAt: Option<int>)
    | Change(user: UserId, instruction: InstructionId, change: StatusChange)
    | RunDue(beneficiaries: map<nat, string>, fates: InstructionId -> Fate)

  datatype Call = Call(step: Step, now: int)

  function After(s: Db, r: Result<Db, Error>): Db {
    if r.Ok? then r.value else s
  }

  function AfterPosting(s: Db, r: Result<Posting, Error>): Db {
    if r.Ok? then r.value.db else s
  }

  function RailInput(inp: TransferInput, user: UserId, tier: Limits.Tier): TransferInput {
    inp.(owner := Some(user), tier := Some(tier))
  }

  /** The database after one call, whether it succeeds or throws. */
  function Apply(z: Zone, s: Db, c: Call): Db {
    match c.step
    case Create(user, accountType, number) => CreateAccount(s, user, accountType, number)
    case FreezeIt(account) => After(s, FreezeAccount(s, account))
    case UnfreezeIt(account) => After(s, UnfreezeAccount(s, account))
    case CloseIt(user, account) => After(s, CloseAccount(s, user, account))
    case Faucet(account, amount, key) => AfterPosting(s, FaucetDeposit(s, account, amount, key, c.now))
    case Send(inp, key) => AfterPosting(s, ExecuteTransfer(z, s, inp, key, c.now))
    case SendByRail(inp, user, tier, vpaValid, key) =>
      AfterPosting(s, ExecuteRailTransfer(z, s, RailInput(inp, user, tier), vpaValid, key, c.now))
    case SettleRail(rail) => SettlePendingTransfers(s, rail, c.now).db
    case PayTheBill(user, kyc, account, biller, amount, key) =>
      AfterPosting(s, PayBill(s, user, kyc, account, biller, amount, key, c.now))
    case SpendByCard(user, kyc, card, amount, merchant, key) =>
      AfterPosting(s, SimulateCardSpend(z, s, user, kyc, card, amount, merchant, key, c.now))
    case File(user, transfer) => After(s, FileDispute(s, user, transfer))
    case Decide(dispute, approve) => After(s, DecideDispute(s, dispute, approve, c.now))
    case OpenDeposit(user, payout, principal, tenureMonths, number) =>
      After(s, OpenFixedDeposit(z, s, user, payout, principal, tenureMonths, number, c.now))
    case MatureDue => MatureFixedDeposits(s, c.now).db
    case CloseEarly(user, deposit) => After(s, PrematureCloseFixedDeposit(s, user, deposit, c.now))
    case Issue(user, account, limits) => After(s, IssueCard(s, user, account, limits))
    case Update(card, active, limits) => After(s, UpdateCard(s, card, active, limits))
    case Instruct(user, kyc, account, beneficiary, owned, amount, frequency, startAt, endAt) =>
      After(s, CreateInstruction(s, user, kyc, account, beneficiary, owned, amount, frequency, startAt, endAt, c.now))
    case Change(user, instruction, change) => After(s, ChangeInstruction(s, user, instruction, change))
    case RunDue(beneficiaries, fates) => RunDueInstructions(z, s, beneficiaries, fates, c.now).db
  }

  function Run(z: Zone, s: Db, calls: seq<Call>): Db {
    if |calls| == 0 then s else Apply(z, Run(z, s, calls[..|calls| - 1]), calls[|calls| - 1])
  }

  /** The clock never goes back, and starts at `from`. */
  predicate InOrder(calls: seq<Call>, from: int) {
    && (forall i :: 0 <= i < |calls| ==> from <= calls[i].now)
    && (forall i, j :: 0 <= i < j < |calls| ==> calls[i].now <= calls[j].now)
  }

  function Clock(calls: seq<Call>, from: int): int {
    if |calls| == 0 then from else calls[|calls| - 1].now
  }

  predicate Inv(s: Db, now: int) {
    Balanced(s) && Recorded(s, now)
  }

  lemma InvLater(s: Db, before: int, now: int)
    requires Inv(s, before) && before <= now
    ensures Inv(s, now)
  {
    LaterRecorded(s, before, now);
  }

  // ---------- the services one by one ----------

  lemma PostKeeps(s: Db, row: Transfer, before: int)
    requires Inv(s, before) && before <= row.postedAt && BooksKept.PostedRow(s, row) && FreshKey(s, row.key)
    ensures Post(s, row).Ok? ==> Inv(Post(s, row).value, row.postedAt)
  {
    if Post(s, row).Ok? {
      BooksKept.PostKeepsBooks(s, row);
      PostRecorded(s, row, before);
    }
  }

  lemma OtherTables(s: Db, db: Db, now: int)
    requires Inv(s, now)
    requires db.accounts == s.accounts && db.transfers == s.transfers && db.ledger == s.ledger
             && db.deposits == s.deposits
    requires AllAnnounced(db.transfers, db.events) && |s.instructions| <= |db.instructions|
    ensures Inv(db, now)
  {
    BooksFrame(s, db);
  }

  lemma TransferKeeps(z: Zone, s: Db, inp: TransferInput, key: Option<Key>, now: int, before: int)
    requires Inv(s, before) && before <= now
    requires key.Some? && key.value.Standing? ==> key.value.instruction < |s.instructions|
    ensures Inv(AfterPosting(s, ExecuteTransfer(z, s, inp, key, now)), now)
  {
    LaterRecorded(s, before, now);
    var r := ExecuteTransfer(z, s, inp, key, now);
    if r.Ok? && FindPrior(s.transfers, key).None? {
      var to := FindByNumber(s.accounts, inp.toNumber).value;
      PostKeeps(s, TransferRow(s, inp, to, key, Posted, now), before);
    }
  }

  lemma PendingKeeps(s: Db, inp: TransferInput, key: ClientKey, now: int, before: int)
    requires Inv(s, before) && before <= now && Batched(inp.rail)
    ensures Inv(AfterPosting(s, CreatePendingRailTransfer(s, inp, key, now)), now)
  {
    LaterRecorded(s, before, now);
    var r := CreatePendingRailTransfer(s, inp, key, now);
    if r.Ok? && FindPrior(s.transfers, key).None? {
      var row := TransferRow(s, inp, FindByNumber(s.accounts, inp.toNumber).value, key, Pending, now);
      BooksKept.PendKeepsBooks(s, row);
      PendRecorded(s, row, before);
    }
  }

  lemma RailKeeps(z: Zone, s: Db, inp: TransferInput, vpaValid: bool, key: ClientKey, now: int, before: int)
    requires Inv(s, before) && before <= now && inp.owner.Some? && inp.tier.Some?
    ensures Inv(AfterPosting(s, ExecuteRailTransfer(z, s, inp, vpaValid, key, now)), now)
  {
    var r := ExecuteRailTransfer(z, s, inp, vpaValid, key, now);
    if r.Err? {
      LaterRecorded(s, before, now);
    } else if Batched(inp.rail) {
      assert r == CreatePendingRailTransfer(s, inp, key, now);
      PendingKeeps(s, inp, key, now, before);
    } else {
      assert r == ExecuteTransfer(z, s, inp.(beneficiaryCleared := true), key, now);
      TransferKeeps(z, s, inp.(beneficiaryCleared := true), key, now, before);
    }
  }

  lemma FaucetKeeps(s: Db, to: AccountId, amount: int, key: ClientKey, now: int, before: int)
    requires Inv(s, before) && before <= now
    ensures Inv(AfterPosting(s, FaucetDeposit(s, to, amount, key, now)), now)
  {
    LaterRecorded(s, before, now);
    var r := FaucetDeposit(s, to, amount, key, now);
    if r.Ok? && FindPrior(s.transfers, key).None? {
      var row := Transfer(key, None, to, amount, FaucetKind, Posted, Internal, now, FaucetMoney, None);
      BooksKept.PostDepositKeepsBooks(s, row);
      PostDepositRecorded(s, row, before);
    }
  }

  lemma BillKeeps(s: Db, user: UserId, kyc: bool, from: AccountId, biller: Biller, amount: int, key: ClientKey,
                  now: int, before: int)
    requires Inv(s, before) && before <= now
    ensures Inv(AfterPosting(s, PayBill(s, user, kyc, from, biller, amount, key, now)), now)
  {
    LaterRecorded(s, before, now);
    var r := PayBill(s, user, kyc, from, biller, amount, key, now);
    if r.Ok? && FindPrior(s.transfers, key).None? {
      var row := Transfer(key, Some(from), FindByNumber(s.accounts, biller.number).value, amount, TransferKind,
                          Posted, Internal, now, Bill, None);
      PostKeeps(s, row, before);
      var db := Post(s, row).value;
      OtherEvent(db.transfers, db.events, BillPaid(|s.transfers|, amount, now));
      OtherTables(db, r.value.db, now);
    }
  }

  function CardRow(s: Db, card: CardId, amount: int, merchant: string, key: Option<Key>, now: int): Transfer
    requires card < |s.cards| && FindByNumber(s.accounts, merchant).Some?
  {
    Transfer(key, Some(s.cards[card].account), FindByNumber(s.accounts, merchant).value, amount, TransferKind,
             Posted, Internal, now, CardSpend, Some(card))
  }

  lemma CardKeeps(z: Zone, s: Db, user: UserId, kyc: bool, card: CardId, amount: int, merchant: Option<string>,
                  key: ClientKey, now: int, before: int)
    requires Inv(s, before) && before <= now
    ensures Inv(AfterPosting(s, SimulateCardSpend(z, s, user, kyc, card, amount, merchant, key, now)), now)
  {
    LaterRecorded(s, before, now);
    var r := SimulateCardSpend(z, s, user, kyc, card, amount, merchant, key, now);
    if r.Ok? && FindPrior(s.transfers, key).None? {
      var row := CardRow(s, card, amount, merchant.value, key, now);
      PostKeeps(s, row, before);
      var db := Post(s, row).value;
      OtherEvent(db.transfers, db.events, Event.CardSpent(card, |s.transfers|, amount, now));
      OtherTables(db, r.value.db, now);
    }
  }

  lemma DisputeKeeps(s: Db, id: nat, approve: bool, now: int, before: int)
    requires Inv(s, before) && before <= now
    ensures Inv(After(s, DecideDispute(s, id, approve, now)), now)
  {
    LaterRecorded(s, before, now);
    var r := DecideDispute(s, id, approve, now);
    if r.Ok? && approve {
      var original := s.transfers[s.disputes[id].transfer];
      var row := Transfer(None, Some(original.to), original.from.value, original.amount, ReversalKind,
                          Posted, Internal, now, original.category, None);
      PostKeeps(s, row, before);
      OtherTables(Post(s, row).value, r.value, now);
    } else if r.Ok? {
      OtherTables(s, r.value, now);
    }
  }

  /** The journal does not depend on accounts and deposits. */
  lemma JournalFrame(s: Db, db: Db, now: int)
    requires Recorded(s, now)
    requires db.transfers == s.transfers && db.ledger == s.ledger && db.events == s.events
    requires |s.instructions| <= |db.instructions|
    ensures Recorded(db, now)
  {
  }

  lemma OpenKeeps(z: Zone, s: Db, user: UserId, payout: AccountId, principal: int, tenure: int, number: string,
                  now: int, before: int)
    requires Inv(s, before) && before <= now
    ensures Inv(After(s, OpenFixedDeposit(z, s, user, payout, principal, tenure, number, now)), now)
  {
    hide Balanced, AllBooked, AllAnnounced, KeysOk, Timed;
    LaterRecorded(s, before, now);
    var r := OpenFixedDeposit(z, s, user, payout, principal, tenure, number, now);
    if r.Ok? {
      OpenKeepsBooks(z, s, user, payout, principal, tenure, number, now);
      JournalFrame(s, r.value, now);
    }
  }

  lemma MatureOneKeeps(s: Db, id: nat, now: int)
    requires Inv(s, now) && id < |s.deposits| && MatureOne(s, id).Ok?
    ensures Inv(MatureOne(s, id).value, now)
  {
    var d := s.deposits[id];
    MatureOneKeepsBooks(s, id);
    if d.status == ActiveDeposit {
      assert DepositOk(s.accounts, d);
      InterestBounds(d, 0);
      JournalFrame(s, MatureOne(s, id).value, now);
    }
  }

  lemma {:induction false} MatureListKeeps(s: Db, ids: seq<nat>, now: int)
    requires Inv(s, now) && forall i :: 0 <= i < |ids| ==> ids[i] < |s.deposits|
    ensures Inv(MatureList(s, ids).db, now)
  {
    if |ids| > 0 {
      hide Inv, MatureOne;
      var n := |ids| - 1;
      MatureListKeeps(s, ids[..n], now);
      var r := MatureList(s, ids[..n]);
      if MatureOne(r.db, ids[n]).Ok? {
        MatureOneKeeps(r.db, ids[n], now);
      }
    }
  }

  lemma PrematureKeeps(s: Db, user: UserId, id: nat, now: int, before: int)
    requires Inv(s, before) && before <= now
    ensures Inv(After(s, PrematureCloseFixedDeposit(s, user, id, now)), now)
  {
    LaterRecorded(s, before, now);
    if PrematureCloseFixedDeposit(s, user, id, now).Ok? {
      var d := s.deposits[id];
      PrematureKeepsBooks(s, user, id, now);
      assert DepositOk(s.accounts, d);
      InterestBounds(d, now);
      JournalFrame(s, PrematureCloseFixedDeposit(s, user, id, now).value, now);
    }
  }

  lemma RestatusKeeps(s: Db, id: AccountId, next: Account, now: int)
    requires Inv(s, now) && Restatus(s, id, next)
    ensures Inv(s.(accounts := s.accounts[id := next]), now)
  {
    RestatusKeepsBooks(s, id, next);
    JournalFrame(s, s.(accounts := s.accounts[id := next]), now);
  }

  lemma AccountStepKeeps(s: Db, user: UserId, id: AccountId, now: int, before: int)
    requires Inv(s, before) && before <= now
    ensures Inv(After(s, FreezeAccount(s, id)), now)
    ensures Inv(After(s, UnfreezeAccount(s, id)), now)
    ensures Inv(After(s, CloseAccount(s, user, id)), now)
  {
    LaterRecorded(s, before, now);
    if id < |s.accounts| && s.accounts[id].status != Closed {
      RestatusKeeps(s, id, s.accounts[id].(status := Frozen), now);
      RestatusKeeps(s, id, s.accounts[id].(status := Active), now);
    }
    if CloseAccount(s, user, id).Ok? {
      CloseKeepsBooks(s, user, id);
      JournalFrame(s, CloseAccount(s, user, id).value, now);
    }
  }

  lemma CreateKeeps(s: Db, user: UserId, accountType: AccountType, number: string, now: int, before: int)
    requires Inv(s, before) && before <= now
    ensures Inv(CreateAccount(s, user, accountType, number), now)
  {
    LaterRecorded(s, before, now);
    CreateKeepsBooks(s, user, accountType, number);
    JournalFrame(s, CreateAccount(s, user, accountType, number), now);
  }

  // ---------- the runner ----------

  lemma InstructionRows(s: Db, db: Db, now: int)
    requires Inv(s, now) && db == s.(instructions := db.instructions) && |s.instructions| <= |db.instructions|
    ensures Inv(db, now)
  {
    OtherTables(s, db, now);
  }

  lemma StoppedTransferKeeps(z: Zone, s: Db, inp: TransferInput, key: Option<Key>, now: int)
    requires Inv(s, now) && ExecuteTransfer(z, s, inp, key, now).Ok?
    requires key.Some? && key.value.Standing? ==> key.value.instruction < |s.instructions|
    ensures Inv(ExecuteTransfer(z, s, inp, key, now).value.db.(events := s.events), now)
  {
    var db := ExecuteTransfer(z, s, inp, key, now).value.db;
    TransferKeeps(z, s, inp, key, now, now);
    assert AllAnnounced(db.transfers, s.events) by {
      if FindPrior(s.transfers, key).None? {
        var to := FindByNumber(s.accounts, inp.toNumber).value;
        AnnounceNew(s, TransferRow(s, inp, to, key, Posted, now), |s.transfers|);
      }
    }
    hide Inv, AllAnnounced, ExecuteTransfer;
    OtherTables(db, db.(events := s.events), now);
  }

  lemma RunOneKeeps(z: Zone, s: Db, id: InstructionId, si: Instruction, beneficiaries: map<nat, string>, fate: Fate,
                    now: int)
    requires Inv(s, now) && id < |s.instructions|
    ensures Inv(RunOne(z, s, id, si, beneficiaries, fate, now).db, now)
  {
    hide ExecuteTransfer, Balanced, AllBooked, KeysOk, Timed;
    var item := RunOne(z, s, id, si, beneficiaries, fate, now);
    if fate.stops == AtStart || (si.endAt.Some? && si.endAt.value <= now) || si.beneficiary !in beneficiaries {
      InstructionRows(s, item.db, now);
    } else {
      var inp := StandingInput(si, beneficiaries[si.beneficiary]);
      var key := Some(Standing(id, si.nextRunAt));
      TransferKeeps(z, s, inp, key, now, now);
      var sent := ExecuteTransfer(z, s, inp, key, now);
      if sent.Err? {
        InstructionRows(s, item.db, now);
      } else if fate.stops == AfterCommit {
        StoppedTransferKeeps(z, s, inp, key, now);
      } else {
        var db := sent.value.db;
        OtherEvent(db.transfers, db.events, StandingRan(id, si.amount, now));
        OtherTables(db, item.db, now);
      }
    }
  }

  lemma {:induction false} RunListKeeps(z: Zone, s: Db, ids: seq<InstructionId>, beneficiaries: map<nat, string>,
                                        fates: InstructionId -> Fate, now: int)
    requires Inv(s, now) && forall i :: 0 <= i < |ids| ==> ids[i] < |s.instructions|
    ensures Inv(RunList(z, s, ids, beneficiaries, fates, now).db, now)
  {
    if |ids| > 0 {
      var n := |ids| - 1;
      hide Inv, RunOne;
      RunListKeeps(z, s, ids[..n], beneficiaries, fates, now);
      var r := RunList(z, s, ids[..n], beneficiaries, fates, now);
      if !r.stopped {
        RunOneKeeps(z, r.db, ids[n], r.db.instructions[ids[n]], beneficiaries, fates(ids[n]), now);
      }
    }
  }

  // ---------- all services, all runs ----------

  lemma OtherStepKeeps(z: Zone, s: Db, c: Call, before: int)
    requires Inv(s, before) && before <= c.now
    requires c.step.File? || c.step.Issue? || c.step.Update? || c.step.Instruct? || c.step.Change?
    ensures Inv(Apply(z, s, c), c.now)
  {
    hide Balanced, AllBooked, AllAnnounced, KeysOk, Timed, Involves, BankingAccess, Schedules.AdvanceRun;
    LaterRecorded(s, before, c.now);
    OtherTables(s, Apply(z, s, c), c.now);
  }

  predicate AccountStep(step: Step) {
    step.Create? || step.FreezeIt? || step.UnfreezeIt? || step.CloseIt?
  }

  lemma AccountStepsKeep(z: Zone, s: Db, c: Call, before: int)
    requires Inv(s, before) && before <= c.now && AccountStep(c.step)
    ensures Inv(Apply(z, s, c), c.now)
  {
    match c.step
    case Create(user, accountType, number) => CreateKeeps(s, user, accountType, number, c.now, before);
    case FreezeIt(account) => AccountStepKeeps(s, 0, account, c.now, before);
    case UnfreezeIt(account) => AccountStepKeeps(s, 0, account, c.now, before);
    case CloseIt(user, account) => AccountStepKeeps(s, user, account, c.now, before);
  }

  predicate DepositStep(step: Step) {
    step.OpenDeposit? || step.MatureDue? || step.CloseEarly?
  }

  lemma MatureKeeps(s: Db, now: int, before: int)
    requires Inv(s, before) && before <= now
    ensures Inv(MatureFixedDeposits(s, now).db, now)
  {
    LaterRecorded(s, before, now);
    MatureListKeeps(s, ListDueForMaturity(s.deposits, now), now);
  }

  lemma DepositStepsKeep(z: Zone, s: Db, c: Call, before: int)
    requires Inv(s, before) && before <= c.now && DepositStep(c.step)
    ensures Inv(Apply(z, s, c), c.now)
  {
    hide Inv, OpenFixedDeposit, MatureFixedDeposits, PrematureCloseFixedDeposit;
    match c.step
    case OpenDeposit(user, payout, principal, tenureMonths, number) =>
      OpenKeeps(z, s, user, payout, principal, tenureMonths, number, c.now, before);
    case MatureDue => MatureKeeps(s, c.now, before);
    case CloseEarly(user, deposit) => PrematureKeeps(s, user, deposit, c.now, before);
  }

  predicate BatchStep(step: Step) {
    step.SettleRail? || step.RunDue?
  }

  lemma RunDueKeeps(z: Zone, s: Db, beneficiaries: map<nat, string>, fates: InstructionId -> Fate, now: int,
                    before: int)
    requires Inv(s, before) && before <= now
    ensures Inv(RunDueInstructions(z, s, beneficiaries, fates, now).db, now)
  {
    hide Balanced;
    LaterRecorded(s, before, now);
    RunListKeeps(z, s, ListDue(s.instructions, now), beneficiaries, fates, now);
  }

  lemma SettleRailKeeps(s: Db, rail: Rail, now: int, before: int)
    requires Inv(s, before) && before <= now
    ensures Inv(SettlePendingTransfers(s, rail, now).db, now)
  {
    LaterRecorded(s, before, now);
    Settlement.SettleKeeps(s, rail, now);
  }

  lemma BatchStepsKeep(z: Zone, s: Db, c: Call, before: int)
    requires Inv(s, before) && before <= c.now && BatchStep(c.step)
    ensures Inv(Apply(z, s, c), c.now)
  {
    hide Inv, SettlePendingTransfers, RunDueInstructions;
    match c.step
    case SettleRail(rail) => SettleRailKeeps(s, rail, c.now, before);
    case RunDue(beneficiaries, fates) => RunDueKeeps(z, s, beneficiaries, fates, c.now, before);
  }

  predicate PostingStep(step: Step) {
    step.Faucet? || step.Send? || step.SendByRail? || step.PayTheBill? || step.SpendByCard? || step.Decide?
  }

  lemma PostingStepsKeep(z: Zone, s: Db, c: Call, before: int)
    requires Inv(s, before) && before <= c.now && PostingStep(c.step)
    ensures Inv(Apply(z, s, c), c.now)
  {
    hide Inv, FaucetDeposit, ExecuteTransfer, ExecuteRailTransfer, PayBill, SimulateCardSpend, DecideDispute;
    match c.step
    case Faucet(account, amount, key) => FaucetKeeps(s, account, amount, key, c.now, before);
    case Send(inp, key) => TransferKeeps(z, s, inp, key, c.now, before);
    case SendByRail(inp, user, tier, vpaValid, key) =>
      RailKeeps(z, s, RailInput(inp, user, tier), vpaValid, key, c.now, before);
    case PayTheBill(user, kyc, account, biller, amount, key) =>
      BillKeeps(s, user, kyc, account, biller, amount, key, c.now, before);
    case SpendByCard(user, kyc, card, amount, merchant, key) =>
      CardKeeps(z, s, user, kyc, card, amount, merchant, key, c.now, before);
    case Decide(dispute, approve) => DisputeKeeps(s, dispute, approve, c.now, before);
  }

  lemma StepKeeps(z: Zone, s: Db, c: Call, before: int)
    requires Inv(s, before) && before <= c.now
    ensures Inv(Apply(z, s, c), c.now)
  {
    if AccountStep(c.step) {
      AccountStepsKeep(z, s, c, before);
    } else if DepositStep(c.step) {
      DepositStepsKeep(z, s, c, before);
    } else if BatchStep(c.step) {
      BatchStepsKeep(z, s, c, before);
    } else if PostingStep(c.step) {
      PostingStepsKeep(z, s, c, before);
    } else {
      OtherStepKeeps(z, s, c, before);
    }
  }

  lemma EmptyInv(now: int)
    ensures Inv(EMPTY_DB, now)
  {
  }

  /** Every reachable database satisfies the invariant. */
  lemma {:induction false} ReachableInv(z: Zone, calls: seq<Call>, from: int)
    requires InOrder(calls, from)
    ensures Inv(Run(z, EMPTY_DB, calls), Clock(calls, from))
    decreases |calls|
  {
    if |calls| == 0 {
      EmptyInv(from);
    } else {
      var n := |calls| - 1;
      ReachableInv(z, calls[..n], from);
      StepKeeps(z, Run(z, EMPTY_DB, calls[..n]), calls[n], Clock(calls[..n], from));
    }
  }
}
