/**
 * What each application service does to the database, as functions. A
 * database transaction is all or nothing, so a service either yields the
 * committed database or the error it throws, in which case nothing changed.
 */
module UseCases {
  import opened Prelude
  import opened Zones
  import opened Accounts
  import opened FixedDeposits
  import Schedules
  import opened Tables
  import opened Limits

  const TRANSFER_MAX := 100_000_000
  const FAUCET_MAX := 10_000_000
  const BILL_MAX := 50_000_000
  const MAX_FAILURES := 3

  /** A committed database and the transfer row that was written or found. */
  datatype Posting = Posting(db: Db, id: TransferId)

  // ---------- the double entry ----------

  function Entry(row: Transfer, id: TransferId, account: AccountId, side: Side, running: int): LedgerEntry {
    LedgerEntry(account, id, side, row.amount, running, row.postedAt)
  }

  function EntryPair(row: Transfer, id: TransferId, debited: Account, credited: Account): seq<LedgerEntry>
    requires row.from.Some?
  {
    [Entry(row, id, row.from.value, DebitSide, debited.balance), Entry(row, id, row.to, CreditSide, credited.balance)]
  }

  function MovedEvent(row: Transfer, id: TransferId): Event {
    MoneyMoved(id, row.from, row.to, row.amount, row.kind, row.postedAt)
  }

  predicate HasAccounts(s: Db, row: Transfer) {
    row.to < |s.accounts| && (row.from.Some? ==> row.from.value < |s.accounts|)
  }

  /** Both account rows are computed from the rows as read, then written one
    * after the other: the debited row first, the credited row second. */
  function WriteBoth(accounts: seq<Account>, from: AccountId, to: AccountId, debited: Account,
                     credited: Account): seq<Account>
    requires from < |accounts| && to < |accounts|
  {
    accounts[from := debited][to := credited]
  }

  /** Inserts a posted two-account transfer with its entries and event. */
  function Post(s: Db, row: Transfer): Result<Db, Error>
    requires HasAccounts(s, row) && row.from.Some?
  {
    var debited :- Debit(s.accounts[row.from.value], row.amount);
    var credited :- Credit(s.accounts[row.to], row.amount);
    Ok(s.(accounts := WriteBoth(s.accounts, row.from.value, row.to, debited, credited),
          transfers := s.transfers + [row],
          ledger := s.ledger + EntryPair(row, |s.transfers|, debited, credited),
          events := s.events + [MovedEvent(row, |s.transfers|)]))
  }

  /** Inserts a deposit that has no source account. */
  function PostDeposit(s: Db, row: Transfer): Result<Db, Error>
    requires HasAccounts(s, row) && row.from.None?
  {
    var credited :- Credit(s.accounts[row.to], row.amount);
    Ok(s.(accounts := s.accounts[row.to := credited],
          transfers := s.transfers + [row],
          ledger := s.ledger + [Entry(row, |s.transfers|, row.to, CreditSide, credited.balance)],
          events := s.events + [MovedEvent(row, |s.transfers|)]))
  }

  /** Inserts a pending transfer and holds its amount. */
  function Pend(s: Db, row: Transfer): Result<Db, Error>
    requires HasAccounts(s, row) && row.from.Some?
  {
    var held :- PlaceHold(s.accounts[row.from.value], row.amount);
    Ok(s.(accounts := s.accounts[row.from.value := held],
          transfers := s.transfers + [row]))
  }

  // ---------- transfers ----------

  /** beneficiaryCleared is false when a named beneficiary is unknown, not the
    * owner's, or still cooling. */
  datatype TransferInput = TransferInput(
    from: AccountId,
    toNumber: string,
    amount: int,
    owner: Option<UserId>,
    kycApproved: bool,
    tier: Option<Tier>,
    beneficiaryCleared: bool,
    rail: Rail)

  predicate BankingAccess(s: Db, user: UserId, kycApproved: bool) {
    kycApproved && HasActiveAccount(s.accounts, user)
  }

  predicate WithinAggregateLimits(z: Zone, s: Db, inp: TransferInput, now: int) {
    inp.owner.Some? && inp.tier.Some? ==>
      AggregateCheck(z, s, inp.owner.value, inp.tier.value, inp.amount, now).Allowed?
  }

  function TransferRow(s: Db, inp: TransferInput, to: AccountId, key: Option<Key>, status: TransferStatus,
                       now: int): Transfer
    requires inp.from < |s.accounts| && to < |s.accounts|
  {
    var category := if s.accounts[inp.from].userId == s.accounts[to].userId then SelfTransfer else P2p;
    Transfer(key, Some(inp.from), to, inp.amount, TransferKind, status, inp.rail, now, category, None)
  }

  function ExecuteTransfer(z: Zone, s: Db, inp: TransferInput, key: Option<Key>, now: int): Result<Posting, Error> {
    if inp.amount <= 0 then Err(InvalidAmount)
    else if inp.amount > TRANSFER_MAX then Err(OverLimit)
    else if inp.owner.Some? && !BankingAccess(s, inp.owner.value, inp.kycApproved) then Err(BankingAccessDenied)
    else if inp.tier == Some(NoKyc) then Err(AggregateLimit)
    else if FindPrior(s.transfers, key).Some? then Ok(Posting(s, FindPrior(s.transfers, key).value))
    else if inp.from >= |s.accounts| then Err(AccountNotFound)
    else
      var found := FindByNumber(s.accounts, inp.toNumber);
      if found.None? then Err(AccountNotFound)
      else
        var to := found.value;
        if inp.from == to then Err(TransferToSelf)
        else if s.accounts[to].accountType == FixedDeposit && s.accounts[inp.from].userId != s.accounts[to].userId
        then Err(CrossUserFixedDeposit)
        else if !inp.beneficiaryCleared then Err(BeneficiaryCooling)
        else if !WithinAggregateLimits(z, s, inp, now) then Err(AggregateLimit)
        else
          var db :- Post(s, TransferRow(s, inp, to, key, Posted, now));
          Ok(Posting(db, |s.transfers|))
  }

  function CreatePendingRailTransfer(s: Db, inp: TransferInput, key: Option<Key>, now: int): Result<Posting, Error> {
    if FindPrior(s.transfers, key).Some? then Ok(Posting(s, FindPrior(s.transfers, key).value))
    else if inp.from >= |s.accounts| then Err(AccountNotFound)
    else
      var found := FindByNumber(s.accounts, inp.toNumber);
      if found.None? then Err(AccountNotFound)
      else
        var db :- Pend(s, TransferRow(s, inp, found.value, key, Pending, now));
        Ok(Posting(db, |s.transfers|))
  }

  /** NEFT and RTGS hold and wait; IMPS and UPI post at once. */
  function ExecuteRailTransfer(z: Zone, s: Db, inp: TransferInput, vpaValid: bool, key: Option<Key>,
                               now: int): Result<Posting, Error>
    requires inp.owner.Some? && inp.tier.Some?
  {
    if inp.amount <= 0 then Err(InvalidAmount)
    else if !BankingAccess(s, inp.owner.value, inp.kycApproved) then Err(BankingAccessDenied)
    else if inp.tier == Some(NoKyc) then Err(AggregateLimit)
    else if inp.rail == Upi && !vpaValid then Err(InvalidUpiVpa)
    else if inp.rail == Neft || inp.rail == Rtgs then CreatePendingRailTransfer(s, inp, key, now)
    else ExecuteTransfer(z, s, inp.(beneficiaryCleared := true), key, now)
  }

  function FaucetDeposit(s: Db, to: AccountId, amount: int, key: Option<Key>, now: int): Result<Posting, Error> {
    if amount <= 0 then Err(InvalidAmount)
    else if amount > FAUCET_MAX then Err(OverLimit)
    else if FindPrior(s.transfers, key).Some? then Ok(Posting(s, FindPrior(s.transfers, key).value))
    else if to >= |s.accounts| then Err(AccountNotFound)
    else
      var db :- PostDeposit(s, Transfer(key, None, to, amount, FaucetKind, Posted, Internal, now, FaucetMoney, None));
      Ok(Posting(db, |s.transfers|))
  }

  datatype Biller = UnknownBiller | InactiveBiller | ActiveBiller(number: string)

  function PayBill(s: Db, user: UserId, kycApproved: bool, from: AccountId, biller: Biller, amount: int,
                   key: Option<Key>, now: int): Result<Posting, Error>
  {
    if amount <= 0 then Err(InvalidAmount)
    else if amount > BILL_MAX then Err(OverLimit)
    else if !BankingAccess(s, user, kycApproved) then Err(BankingAccessDenied)
    else if FindPrior(s.transfers, key).Some? then Ok(Posting(s, FindPrior(s.transfers, key).value))
    else match biller
      case UnknownBiller => Err(BillerNotFound)
      case InactiveBiller => Err(BillerInactive)
      case ActiveBiller(number) =>
        if from >= |s.accounts| then Err(AccountNotFound)
        else
          var found := FindByNumber(s.accounts, number);
          if found.None? then Err(AccountNotFound)
          else
            var db :- Post(s, Transfer(key, Some(from), found.value, amount, TransferKind, Posted, Internal, now, Bill,
                                       None));
            Ok(Posting(db.(events := db.events + [BillPaid(|s.transfers|, amount, now)]), |s.transfers|))
  }

  /** merchant is the settlement biller's account number, when it is configured and active. */
  function SimulateCardSpend(z: Zone, s: Db, user: UserId, kycApproved: bool, card: CardId, amount: int,
                             merchant: Option<string>, key: Option<Key>, now: int): Result<Posting, Error>
  {
    if amount <= 0 then Err(InvalidAmount)
    else if !BankingAccess(s, user, kycApproved) then Err(BankingAccessDenied)
    else if card >= |s.cards| then Err(CardNotFound)
    else
      var c := s.cards[card];
      if c.account >= |s.accounts| || s.accounts[c.account].userId != user then Err(CardNotFound)
      else if !c.active then Err(CardInvalidState)
      else if merchant.None? || FindByNumber(s.accounts, merchant.value).None? then Err(CardMerchantNotConfigured)
      else
        var to := FindByNumber(s.accounts, merchant.value).value;
        var check := CardCheck(z, s, card, c.limits, amount, now);
        if check.PerTxnRefused? then Err(CardPerTxnLimit)
        else if !check.Allowed? then Err(CardLimitExceeded)
        else if FindPrior(s.transfers, key).Some? then Ok(Posting(s, FindPrior(s.transfers, key).value))
        else
          var db :- Post(s, Transfer(key, Some(c.account), to, amount, TransferKind, Posted, Internal, now, CardSpend,
                                     Some(card)));
          Ok(Posting(db.(events := db.events + [CardSpent(card, |s.transfers|, amount, now)]), |s.transfers|))
  }

  // ---------- batch settlement ----------

  /** One item of the batch: release the hold, debit, credit, post. */
  function SettleOne(s: Db, id: TransferId, now: int): Result<Db, Error>
    requires id < |s.transfers|
  {
    var row := s.transfers[id];
    if row.status != Pending then Ok(s)
    else if row.from.None? || !HasAccounts(s, row) then Err(AccountsMissing)
    else
      var from := row.from.value;
      var released :- ReleaseHold(s.accounts[from], row.amount);
      var debited :- Debit(released, row.amount);
      var credited :- Credit(s.accounts[row.to], row.amount);
      var posted := row.(status := Posted, postedAt := now);
      Ok(s.(accounts := WriteBoth(s.accounts, from, row.to, debited, credited),
            transfers := s.transfers[id := posted],
            ledger := s.ledger + EntryPair(posted, id, debited, credited)))
  }

  datatype Batch = Batch(db: Db, settled: nat, failed: nat, events: seq<Event>)

  /** The loop, over any list of rows: a failing item rolls back alone. */
  function SettleList(s: Db, ids: seq<TransferId>, now: int): (b: Batch)
    requires forall i :: 0 <= i < |ids| ==> ids[i] < |s.transfers|
    ensures |b.db.transfers| == |s.transfers|
  {
    if |ids| == 0 then Batch(s, 0, 0, [])
    else
      var n := |ids| - 1;
      var b := SettleList(s, ids[..n], now);
      var next := SettleOne(b.db, ids[n], now);
      if next.Err? then b.(failed := b.failed + 1)
      else
        b.(db := next.value,
           settled := b.settled + 1,
           events := if b.db.transfers[ids[n]].status == Pending
                     then b.events + [MovedEvent(next.value.transfers[ids[n]], ids[n])] else b.events)
  }

  function SettlePendingTransfers(s: Db, rail: Rail, now: int): Batch {
    var b := SettleList(s, ListPendingByRail(s.transfers, rail), now);
    b.(db := b.db.(events := s.events + b.events))
  }

  // ---------- disputes ----------

  predicate Involves(s: Db, t: Transfer, user: UserId) {
    || (t.from.Some? && OwnedBy(s.accounts, t.from.value, user))
    || OwnedBy(s.accounts, t.to, user)
  }

  function FileDispute(s: Db, user: UserId, transfer: TransferId): Result<Db, Error> {
    if transfer >= |s.transfers| then Err(TransferNotFound)
    else if !Involves(s, s.transfers[transfer], user) then Err(DisputeNotAuthorized)
    else Ok(s.(disputes := s.disputes + [Dispute(user, transfer, Submitted, None)]))
  }

  function DecideDispute(s: Db, id: nat, approve: bool, now: int): Result<Db, Error> {
    if id >= |s.disputes| then Err(DisputeNotFound)
    else
      var d := s.disputes[id];
      if d.status != Submitted && d.status != UnderReview then Err(DisputeAlreadyDecided)
      else if !approve then Ok(s.(disputes := s.disputes[id := d.(status := Rejected)]))
      else if d.transfer >= |s.transfers| || s.transfers[d.transfer].from.None? then Err(ReversalBlocked)
      else
        var original := s.transfers[d.transfer];
        if !HasAccounts(s, original) then Err(ReversalBlocked)
        else
          var reversal := Transfer(None, Some(original.to), original.from.value, original.amount, ReversalKind,
                                   Posted, Internal, now, original.category, None);
          var db :- Post(s, reversal);
          Ok(db.(disputes := db.disputes[id := d.(status := Approved, reversal := Some(|s.transfers|))]))
  }

  // ---------- accounts ----------

  function CreateAccount(s: Db, user: UserId, accountType: AccountType, number: string): Db {
    s.(accounts := s.accounts + [OpenAccount(number, user, accountType)])
  }

  function FreezeAccount(s: Db, id: AccountId): Result<Db, Error> {
    if id >= |s.accounts| then Err(AccountNotFound)
    else
      var next :- Freeze(s.accounts[id]);
      Ok(s.(accounts := s.accounts[id := next]))
  }

  function UnfreezeAccount(s: Db, id: AccountId): Result<Db, Error> {
    if id >= |s.accounts| then Err(AccountNotFound)
    else
      var next :- Unfreeze(s.accounts[id]);
      Ok(s.(accounts := s.accounts[id := next]))
  }

  predicate HasActiveDeposit(s: Db, account: AccountId) {
    exists i :: 0 <= i < |s.deposits| && s.deposits[i].account == account && s.deposits[i].status == ActiveDeposit
  }

  predicate HasActiveCard(s: Db, account: AccountId) {
    exists i :: 0 <= i < |s.cards| && s.cards[i].account == account && s.cards[i].active
  }

  predicate HasRunningInstruction(s: Db, user: UserId, account: AccountId) {
    exists i :: 0 <= i < |s.instructions| && s.instructions[i].owner == user
                && s.instructions[i].status == Running && s.instructions[i].from == account
  }

  predicate PaysOutActiveDeposit(s: Db, user: UserId, account: AccountId) {
    exists i :: 0 <= i < |s.deposits| && s.deposits[i].userId == user
                && s.deposits[i].status == ActiveDeposit && s.deposits[i].payout == account
  }

  function CloseAccount(s: Db, user: UserId, id: AccountId): Result<Db, Error> {
    if id >= |s.accounts| || s.accounts[id].userId != user then Err(AccountNotFound)
    else if s.accounts[id].accountType == FixedDeposit then Err(CloseBlocked)
    else if HasActiveDeposit(s, id) then Err(CloseBlocked)
    else if HasActiveCard(s, id) then Err(CloseBlocked)
    else if HasRunningInstruction(s, user, id) then Err(CloseBlocked)
    else if PaysOutActiveDeposit(s, user, id) then Err(CloseBlocked)
    else
      var closed :- Close(s.accounts[id]);
      Ok(s.(accounts := s.accounts[id := closed]))
  }

  // ---------- fixed deposits ----------

  function OpenFixedDeposit(z: Zone, s: Db, user: UserId, payout: AccountId, principal: int, tenureMonths: int,
                            number: string, now: int): Result<Db, Error>
  {
    if payout >= |s.accounts| || s.accounts[payout].userId != user then Err(AccountNotFound)
    else
      var debited :- Debit(s.accounts[payout], principal);
      var funded :- Credit(OpenAccount(number, user, FixedDeposit), principal);
      var deposit :- NewDeposit(z, |s.accounts|, user, payout, principal, tenureMonths, now);
      Ok(s.(accounts := s.accounts[payout := debited] + [funded],
            deposits := s.deposits + [deposit]))
  }

  /** Empties and closes the deposit's account and pays principal and interest out. */
  function PayOut(s: Db, id: nat, paid: Result<Deposit, Error>, interest: int): Result<Db, Error>
    requires id < |s.deposits|
  {
    var d := s.deposits[id];
    if d.account >= |s.accounts| || d.payout >= |s.accounts| then Err(AccountNotFound)
    else
      var emptied :- ZeroFixedDepositPrincipal(s.accounts[d.account]);
      var closed :- Close(emptied);
      var credited :- Credit(s.accounts[d.payout], d.principal + interest);
      var updated :- paid;
      Ok(s.(accounts := s.accounts[d.account := closed][d.payout := credited],
            deposits := s.deposits[id := updated]))
  }

  function MatureOne(s: Db, id: nat): Result<Db, Error>
    requires id < |s.deposits|
  {
    var d := s.deposits[id];
    if d.status != ActiveDeposit then Ok(s)
    else PayOut(s, id, MarkMatured(d, MaturityInterest(d)), MaturityInterest(d))
  }

  datatype MatureRun = MatureRun(db: Db, matured: nat, failed: nat)

  function MatureList(s: Db, ids: seq<nat>): (r: MatureRun)
    requires forall i :: 0 <= i < |ids| ==> ids[i] < |s.deposits|
    ensures |r.db.deposits| == |s.deposits|
  {
    if |ids| == 0 then MatureRun(s, 0, 0)
    else
      var n := |ids| - 1;
      var r := MatureList(s, ids[..n]);
      var next := MatureOne(r.db, ids[n]);
      if next.Err? then r.(failed := r.failed + 1) else r.(db := next.value, matured := r.matured + 1)
  }

  function MatureFixedDeposits(s: Db, now: int): MatureRun {
    MatureList(s, ListDueForMaturity(s.deposits, now))
  }

  function PrematureCloseFixedDeposit(s: Db, user: UserId, id: nat, now: int): Result<Db, Error> {
    if id >= |s.deposits| || s.deposits[id].userId != user then Err(AccountNotFound)
    else
      var d := s.deposits[id];
      if d.status != ActiveDeposit then Err(FdNotActive)
      else PayOut(s, id, MarkPrematureClosed(d, PrematureInterest(d, now)), PrematureInterest(d, now))
  }

  // ---------- cards ----------

  function IssueCard(s: Db, user: UserId, account: AccountId, limits: CardLimits): Result<Db, Error> {
    if !OwnedBy(s.accounts, account, user) then Err(AccountNotFound)
    else Ok(s.(cards := s.cards + [Card(account, true, limits)]))
  }

  /** Freezing, unfreezing, cancelling or setting new limits. */
  function UpdateCard(s: Db, card: CardId, active: bool, limits: CardLimits): Result<Db, Error> {
    if card >= |s.cards| then Err(CardNotFound)
    else Ok(s.(cards := s.cards[card := s.cards[card].(active := active, limits := limits)]))
  }

  // ---------- standing instructions ----------

  function CreateInstruction(s: Db, user: UserId, kycApproved: bool, from: AccountId, beneficiary: nat,
                             beneficiaryOwned: bool, amount: int, frequency: Schedules.Frequency,
                             startAt: Option<int>, endAt: Option<int>, now: int): Result<Db, Error>
  {
    if !BankingAccess(s, user, kycApproved) then Err(BankingAccessDenied)
    else if !OwnedBy(s.accounts, from, user) then Err(AccountNotFound)
    else if !beneficiaryOwned then Err(BeneficiaryNotFound)
    else if amount <= 0 then Err(InvalidAmount)
    else
      var start := if startAt.Some? then startAt.value else Schedules.AdvanceRun(now, frequency);
      Ok(s.(instructions := s.instructions
            + [Instruction(user, from, beneficiary, amount, frequency, start, None, Running, endAt, 0)]))
  }

  datatype StatusChange = Pause | Resume | Cancel

  function ChangeInstruction(s: Db, user: UserId, id: InstructionId, change: StatusChange): Result<Db, Error> {
    if id >= |s.instructions| || s.instructions[id].owner != user then Err(InstructionNotFound)
    else
      var si := s.instructions[id];
      var wrong := match change
        case Pause => si.status != Running
        case Resume => si.status != Paused
        case Cancel => si.status == Cancelled;
      var status := match change case Pause => Paused case Resume => Running case Cancel => Cancelled;
      if wrong then Err(InstructionInvalidState)
      else Ok(s.(instructions := s.instructions[id := si.(status := status)]))
  }

  /** Which subscriber throws, if any: one of the transfer's event, or one of
    * the runner's own. */
  datatype Thrown = Nothing | TransferSubscriber | NoticeSubscriber

  /** Where the tick is cut short, if at all: between two of the writes and
    * publications around an instruction, by the process stopping or, after a
    * recorded failure, also by the notification throwing. */
  datatype Stop =
    | Never
    | AtStart
    | AfterCommit
    | AfterPublish
    | AfterAdvance
    | AfterNotice
    | AfterFailure

  datatype Fate = Fate(throws: Thrown, stops: Stop)

  datatype ItemOutcome = Skipped | Succeeded | Failed | Stopped
  datatype Item = Item(db: Db, outcome: ItemOutcome)

  function StandingInput(si: Instruction, number: string): TransferInput {
    TransferInput(si.from, number, si.amount, None, false, None, true, Internal)
  }

  function FailedOnce(si: Instruction): Instruction {
    si.(failures := si.failures + 1, status := if si.failures + 1 >= MAX_FAILURES then Paused else si.status)
  }

  /** The catch branch: the row as it was read is written back, one failure on. */
  function MarkFailed(s: Db, id: InstructionId, si: Instruction, fate: Fate): Item
    requires id < |s.instructions|
  {
    Item(s.(instructions := s.instructions[id := FailedOnce(si)]),
         if fate.stops == AfterFailure then Stopped else Failed)
  }

  function Advanced(si: Instruction, now: int): Instruction {
    si.(nextRunAt := Schedules.AdvanceRun(si.nextRunAt, si.frequency), lastRunAt := Some(now), status := Running,
        failures := 0)
  }

  /** One iteration of the runner; `si` is the row as the due query read it. */
  function RunOne(z: Zone, s: Db, id: InstructionId, si: Instruction, beneficiaries: map<nat, string>, fate: Fate,
                  now: int): (r: Item)
    requires id < |s.instructions|
    ensures |r.db.instructions| == |s.instructions|
  {
    if fate.stops == AtStart then Item(s, Stopped)
    else if si.endAt.Some? && si.endAt.value <= now then
      Item(s.(instructions := s.instructions[id := si.(status := Cancelled)]), Skipped)
    else if si.beneficiary !in beneficiaries then Item(s, Failed)
    else
      var sent := ExecuteTransfer(z, s, StandingInput(si, beneficiaries[si.beneficiary]),
                                  Some(Standing(id, si.nextRunAt)), now);
      if sent.Err? then MarkFailed(s, id, si, fate)
      else
        var db := sent.value.db;
        var posted := |db.transfers| > |s.transfers|;
        if fate.stops == AfterCommit then Item(db.(events := s.events), Stopped)
        else if fate.stops == AfterPublish then Item(db, Stopped)
        else if fate.throws == TransferSubscriber && posted then MarkFailed(db, id, si, fate)
        else
          var advanced := db.(instructions := db.instructions[id := Advanced(si, now)]);
          if fate.stops == AfterAdvance then Item(advanced, Stopped)
          else
            var noticed := advanced.(events := advanced.events + [StandingRan(id, si.amount, now)]);
            if fate.stops == AfterNotice then Item(noticed, Stopped)
            else if fate.throws == NoticeSubscriber then MarkFailed(noticed, id, si, fate)
            else Item(noticed, Succeeded)
  }

  datatype Tick = Tick(db: Db, stopped: bool, succeeded: nat, failed: nat)

  function RunList(z: Zone, s: Db, ids: seq<InstructionId>, beneficiaries: map<nat, string>,
                   fates: InstructionId -> Fate, now: int): (r: Tick)
    requires forall i :: 0 <= i < |ids| ==> ids[i] < |s.instructions|
    ensures |r.db.instructions| == |s.instructions|
  {
    if |ids| == 0 then Tick(s, false, 0, 0)
    else
      var n := |ids| - 1;
      var r := RunList(z, s, ids[..n], beneficiaries, fates, now);
      if r.stopped then r
      else
        var item := RunOne(z, r.db, ids[n], r.db.instructions[ids[n]], beneficiaries, fates(ids[n]), now);
        Tick(item.db, item.outcome == Stopped,
             r.succeeded + (if item.outcome == Succeeded then 1 else 0),
             r.failed + (if item.outcome == Failed then 1 else 0))
  }

  function RunDueInstructions(z: Zone, s: Db, beneficiaries: map<nat, string>,
                              fates: InstructionId -> Fate, now: int): Tick
  {
    RunList(z, s, ListDue(s.instructions, now), beneficiaries, fates, now)
  }
}
