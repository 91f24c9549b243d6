/**
 * The services as they run: one object holding the tables, whose methods
 * guard, insert and update step by step. Each method is proved to do exactly
 * what its function in UseCases says, so every guarantee about runs of those
 * functions is a guarantee about this object.
 */
module Bank {
  import opened Prelude
  import opened Zones
  import opened Accounts
  import opened FixedDeposits
  import Schedules
  import opened Tables
  import Limits
  import opened UseCases
  import opened Runs
  import Books
  import Conservation
  import Guarantees
  import History
  import Scheduler

  /** A transaction answered as its specification says: committed in full, or not at all. */
  predicate Commits(spec: Result<Db, Error>, before: Db, answer: Result<(), Error>, after: Db) {
    after == After(before, spec) && answer == if spec.Ok? then Ok(()) else Err(spec.error)
  }

  predicate Posts(spec: Result<Posting, Error>, before: Db, answer: Result<TransferId, Error>, after: Db) {
    after == AfterPosting(before, spec) && answer == if spec.Ok? then Ok(spec.value.id) else Err(spec.error)
  }

  /** What the caller of a service gets back. */
  datatype Answer =
    | Transferred(transfer: Result<TransferId, Error>)
    | Completed(completion: Result<(), Error>)
    | TransfersSettled(settled: nat, failed: nat)
    | DepositsMatured(matured: nat, failed: nat)
    | Ticked(stopped: bool, succeeded: nat, failed: nat)

  function TransferAnswer(spec: Result<Posting, Error>): Answer {
    Transferred(if spec.Ok? then Ok(spec.value.id) else Err(spec.error))
  }

  function CompletionAnswer(spec: Result<Db, Error>): Answer {
    Completed(if spec.Ok? then Ok(()) else Err(spec.error))
  }

  /** The answer to a call in state `s`; Apply is the state it leaves. */
  function AnswerOf(z: Zone, s: Db, c: Call): Answer {
    match c.step
    case Create(user, accountType, number) => Completed(Ok(()))
    case FreezeIt(account) => CompletionAnswer(UseCases.FreezeAccount(s, account))
    case UnfreezeIt(account) => CompletionAnswer(UseCases.UnfreezeAccount(s, account))
    case CloseIt(user, account) => CompletionAnswer(UseCases.CloseAccount(s, user, account))
    case Faucet(account, amount, key) => TransferAnswer(UseCases.FaucetDeposit(s, account, amount, key, c.now))
    case Send(inp, key) => TransferAnswer(UseCases.ExecuteTransfer(z, s, inp, key, c.now))
    case SendByRail(inp, user, tier, vpaValid, key) =>
      TransferAnswer(UseCases.ExecuteRailTransfer(z, s, RailInput(inp, user, tier), vpaValid, key, c.now))
    case SettleRail(rail) =>
      var b := UseCases.SettlePendingTransfers(s, rail, c.now);
      TransfersSettled(b.settled, b.failed)
    case PayTheBill(user, kyc, account, biller, amount, key) =>
      TransferAnswer(UseCases.PayBill(s, user, kyc, account, biller, amount, key, c.now))
    case SpendByCard(user, kyc, card, amount, merchant, key) =>
      TransferAnswer(UseCases.SimulateCardSpend(z, s, user, kyc, card, amount, merchant, key, c.now))
    case File(user, transfer) => CompletionAnswer(UseCases.FileDispute(s, user, transfer))
    case Decide(dispute, approve) => CompletionAnswer(UseCases.DecideDispute(s, dispute, approve, c.now))
    case OpenDeposit(user, payout, principal, tenureMonths, number) =>
      CompletionAnswer(UseCases.OpenFixedDeposit(z, s, user, payout, principal, tenureMonths, number, c.now))
    case MatureDue =>
      var run := UseCases.MatureFixedDeposits(s, c.now);
      DepositsMatured(run.matured, run.failed)
    case CloseEarly(user, deposit) => CompletionAnswer(UseCases.PrematureCloseFixedDeposit(s, user, deposit, c.now))
    case Issue(user, account, limits) => CompletionAnswer(UseCases.IssueCard(s, user, account, limits))
    case Update(card, active, limits) => CompletionAnswer(UseCases.UpdateCard(s, card, active, limits))
    case Instruct(user, kyc, account, beneficiary, owned, amount, frequency, startAt, endAt) =>
      CompletionAnswer(UseCases.CreateInstruction(s, user, kyc, account, beneficiary, owned, amount, frequency,
                                                  startAt, endAt, c.now))
    case Change(user, instruction, change) => CompletionAnswer(UseCases.ChangeInstruction(s, user, instruction, change))
    case RunDue(beneficiaries, fates) =>
      var t := UseCases.RunDueInstructions(z, s, beneficiaries, fates, c.now);
      Ticked(t.stopped, t.succeeded, t.failed)
  }

  /** A tick that has stopped does nothing more. */
  lemma {:induction false} StoppedForGood(z: Zone, s: Db, ids: seq<InstructionId>, beneficiaries: map<nat, string>,
                                          fates: InstructionId -> Fate, now: int, n: nat)
    requires n <= |ids| && forall i :: 0 <= i < |ids| ==> ids[i] < |s.instructions|
    requires RunList(z, s, ids[..n], beneficiaries, fates, now).stopped
    ensures RunList(z, s, ids, beneficiaries, fates, now) == RunList(z, s, ids[..n], beneficiaries, fates, now)
    decreases |ids|
  {
    if n < |ids| {
      assert ids[..|ids| - 1][..n] == ids[..n];
      StoppedForGood(z, s, ids[..|ids| - 1], beneficiaries, fates, now, n);
    } else {
      assert ids[..n] == ids;
    }
  }

  /** The n-th iteration of a tick, from the row read at its start. */
  lemma OneMoreRun(z: Zone, s: Db, ids: seq<InstructionId>, beneficiaries: map<nat, string>,
                   fates: InstructionId -> Fate, now: int, n: nat)
    requires n < |ids| && Distinct(ids) && forall i :: 0 <= i < |ids| ==> ids[i] < |s.instructions|
    requires !RunList(z, s, ids[..n], beneficiaries, fates, now).stopped
    ensures var r := RunList(z, s, ids[..n], beneficiaries, fates, now);
            var item := RunOne(z, r.db, ids[n], s.instructions[ids[n]], beneficiaries, fates(ids[n]), now);
            RunList(z, s, ids[..n + 1], beneficiaries, fates, now)
            == Tick(item.db, item.outcome == Stopped,
                    r.succeeded + (if item.outcome == Succeeded then 1 else 0),
                    r.failed + (if item.outcome == Failed then 1 else 0))
  {
    hide RunOne;
    assert ids[..n + 1][..n] == ids[..n];
    Scheduler.RowsNotYetRun(z, s, ids[..n], beneficiaries, fates, now, ids[n]);
  }

  lemma OneMoreCall(z: Zone, calls: seq<Call>, c: Call, from: int)
    requires InOrder(calls, from) && Clock(calls, from) <= c.now
    ensures InOrder(calls + [c], from) && Clock(calls + [c], from) == c.now
    ensures Run(z, EMPTY_DB, calls + [c]) == Apply(z, Run(z, EMPTY_DB, calls), c)
  {
    assert (calls + [c])[..|calls|] == calls;
    hide Apply;
  }

  class Bank {
    var accounts: seq<Account>
    var transfers: seq<Transfer>
    var ledger: seq<LedgerEntry>
    var deposits: seq<Deposit>
    var cards: seq<Card>
    var disputes: seq<Dispute>
    var instructions: seq<Instruction>
    /** What has been published on the bus. */
    var events: seq<Event>

    const zone: Zone
    /** The calls answered so far, the first not before `start`. */
    ghost var calls: seq<Call>
    ghost const start: int

    /** The tables are those that the calls lead to from the empty database. */
    ghost predicate Valid()
      reads this
    {
      Lawful(zone) && InOrder(calls, start) && State() == Run(zone, EMPTY_DB, calls)
    }

    function State(): Db
      reads this
    {
      Db(accounts, transfers, ledger, deposits, cards, disputes, instructions, events)
    }

    constructor (zone: Zone, ghost start: int)
      requires Lawful(zone)
      ensures Valid() && calls == [] && State() == EMPTY_DB
      ensures this.zone == zone && this.start == start
    {
      this.zone, this.start, calls := zone, start, [];
      accounts, transfers, ledger, deposits := [], [], [], [];
      cards, disputes, instructions, events := [], [], [], [];
    }

    // ---------- the double entry ----------

    /** The two entries of a posted transfer, with the balances just written. */
    method InsertEntries(row: Transfer, id: TransferId, debited: Account, credited: Account)
      requires row.from.Some?
      modifies this`ledger
      ensures ledger == old(ledger) + EntryPair(row, id, debited, credited)
    {
      ledger := ledger + [LedgerEntry(row.from.value, id, DebitSide, row.amount, debited.balance, row.postedAt)];
      ledger := ledger + [LedgerEntry(row.to, id, CreditSide, row.amount, credited.balance, row.postedAt)];
    }

    /** Debit, credit, insert the row, update both accounts, two entries, publish. */
    method PostRow(row: Transfer) returns (r: Result<TransferId, Error>)
      requires HasAccounts(State(), row) && row.from.Some?
      modifies this`accounts, this`transfers, this`ledger, this`events
      ensures var spec := Post(old(State()), row);
              && State() == After(old(State()), spec)
              && r == if spec.Ok? then Ok(|old(transfers)|) else Err(spec.error)
    {
      var from := row.from.value;
      var debited :- Debit(accounts[from], row.amount);
      var credited :- Credit(accounts[row.to], row.amount);
      var id := |transfers|;
      transfers := transfers + [row];
      accounts := accounts[from := debited];
      accounts := accounts[row.to := credited];
      InsertEntries(row, id, debited, credited);
      events := events + [MoneyMoved(id, row.from, row.to, row.amount, row.kind, row.postedAt)];
      return Ok(id);
    }

    // ---------- transfers ----------

    method AssertBankingAccess(user: UserId, kycApproved: bool) returns (ok: bool)
      ensures ok == BankingAccess(State(), user, kycApproved)
    {
      if !kycApproved {
        return false;
      }
      ok := false;
      for i := 0 to |accounts|
        invariant ok <==> exists k :: 0 <= k < i && accounts[k].userId == user && accounts[k].status == Active
      {
        if accounts[i].userId == user && accounts[i].status == Active {
          ok := true;
        }
      }
    }

    method ExecuteTransfer(z: Zone, inp: TransferInput, key: Option<Key>, now: int)
      returns (r: Result<TransferId, Error>)
      requires Lawful(z)
      modifies this`accounts, this`transfers, this`ledger, this`events
      ensures Posts(UseCases.ExecuteTransfer(z, old(State()), inp, key, now), old(State()), r, State())
    {
      hide Post, Limits.AggregateCheck, BankingAccess, Lawful;
      if inp.amount <= 0 {
        return Err(InvalidAmount);
      }
      if inp.amount > TRANSFER_MAX {
        return Err(OverLimit);
      }
      if inp.owner.Some? {
        var access := AssertBankingAccess(inp.owner.value, inp.kycApproved);
        if !access {
          return Err(BankingAccessDenied);
        }
      }
      if inp.tier == Some(Limits.NoKyc) {
        return Err(AggregateLimit);
      }
      var prior := FindPrior(transfers, key);
      if prior.Some? {
        return Ok(prior.value);
      }
      if inp.from >= |accounts| {
        return Err(AccountNotFound);
      }
      var found := FindByNumber(accounts, inp.toNumber);
      if found.None? {
        return Err(AccountNotFound);
      }
      var to := found.value;
      if inp.from == to {
        return Err(TransferToSelf);
      }
      if accounts[to].accountType == FixedDeposit && accounts[inp.from].userId != accounts[to].userId {
        return Err(CrossUserFixedDeposit);
      }
      if !inp.beneficiaryCleared {
        return Err(BeneficiaryCooling);
      }
      if inp.owner.Some? && inp.tier.Some? {
        var check := Limits.CheckAggregateLimits(z, State(), inp.owner.value, inp.tier.value, inp.amount, now);
        if !check.Allowed? {
          return Err(AggregateLimit);
        }
      }
      r := PostRow(TransferRow(State(), inp, to, key, Posted, now));
    }

    method CreatePendingRailTransfer(inp: TransferInput, key: Option<Key>, now: int)
      returns (r: Result<TransferId, Error>)
      modifies this
      ensures Posts(UseCases.CreatePendingRailTransfer(old(State()), inp, key, now), old(State()), r, State())
    {
      var prior := FindPrior(transfers, key);
      if prior.Some? {
        return Ok(prior.value);
      }
      if inp.from >= |accounts| {
        return Err(AccountNotFound);
      }
      var to := FindByNumber(accounts, inp.toNumber);
      if to.None? {
        return Err(AccountNotFound);
      }
      var held :- PlaceHold(accounts[inp.from], inp.amount);
      var row := TransferRow(State(), inp, to.value, key, Pending, now);
      transfers := transfers + [row];
      accounts := accounts[inp.from := held];
      return Ok(|transfers| - 1);
    }

    method ExecuteRailTransfer(z: Zone, inp: TransferInput, vpaValid: bool, key: Option<Key>, now: int)
      returns (r: Result<TransferId, Error>)
      requires Lawful(z) && inp.owner.Some? && inp.tier.Some?
      modifies this
      ensures Posts(UseCases.ExecuteRailTransfer(z, old(State()), inp, vpaValid, key, now), old(State()), r, State())
    {
      hide UseCases.ExecuteTransfer, UseCases.CreatePendingRailTransfer, BankingAccess, Lawful;
      if inp.amount <= 0 {
        return Err(InvalidAmount);
      }
      var access := AssertBankingAccess(inp.owner.value, inp.kycApproved);
      if !access {
        return Err(BankingAccessDenied);
      }
      if inp.tier == Some(Limits.NoKyc) {
        return Err(AggregateLimit);
      }
      if inp.rail == Upi && !vpaValid {
        return Err(InvalidUpiVpa);
      }
      if inp.rail == Neft || inp.rail == Rtgs {
        r := CreatePendingRailTransfer(inp, key, now);
      } else {
        r := ExecuteTransfer(z, inp.(beneficiaryCleared := true), key, now);
      }
    }

    method FaucetDeposit(to: AccountId, amount: int, key: Option<Key>, now: int) returns (r: Result<TransferId, Error>)
      modifies this
      ensures Posts(UseCases.FaucetDeposit(old(State()), to, amount, key, now), old(State()), r, State())
    {
      if amount <= 0 {
        return Err(InvalidAmount);
      }
      if amount > FAUCET_MAX {
        return Err(OverLimit);
      }
      var prior := FindPrior(transfers, key);
      if prior.Some? {
        return Ok(prior.value);
      }
      if to >= |accounts| {
        return Err(AccountNotFound);
      }
      var credited :- Credit(accounts[to], amount);
      var id := |transfers|;
      transfers := transfers + [Transfer(key, None, to, amount, FaucetKind, Posted, Internal, now, FaucetMoney, None)];
      accounts := accounts[to := credited];
      ledger := ledger + [LedgerEntry(to, id, CreditSide, amount, credited.balance, now)];
      events := events + [MoneyMoved(id, None, to, amount, FaucetKind, now)];
      return Ok(id);
    }

    method PayBill(user: UserId, kycApproved: bool, from: AccountId, biller: Biller, amount: int, key: Option<Key>,
                   now: int)
      returns (r: Result<TransferId, Error>)
      modifies this
      ensures Posts(UseCases.PayBill(old(State()), user, kycApproved, from, biller, amount, key, now), old(State()), r,
                    State())
    {
      hide Post, BankingAccess;
      if amount <= 0 {
        return Err(InvalidAmount);
      }
      if amount > BILL_MAX {
        return Err(OverLimit);
      }
      var access := AssertBankingAccess(user, kycApproved);
      if !access {
        return Err(BankingAccessDenied);
      }
      var prior := FindPrior(transfers, key);
      if prior.Some? {
        return Ok(prior.value);
      }
      if biller.UnknownBiller? {
        return Err(BillerNotFound);
      }
      if biller.InactiveBiller? {
        return Err(BillerInactive);
      }
      if from >= |accounts| {
        return Err(AccountNotFound);
      }
      var to := FindByNumber(accounts, biller.number);
      if to.None? {
        return Err(AccountNotFound);
      }
      r := PostRow(Transfer(key, Some(from), to.value, amount, TransferKind, Posted, Internal, now, Bill, None));
      if r.Ok? {
        events := events + [BillPaid(r.value, amount, now)];
      }
    }

    method SimulateCardSpend(z: Zone, user: UserId, kycApproved: bool, card: CardId, amount: int,
                             merchant: Option<string>, key: Option<Key>, now: int)
      returns (r: Result<TransferId, Error>)
      requires Lawful(z)
      modifies this
      ensures Posts(UseCases.SimulateCardSpend(z, old(State()), user, kycApproved, card, amount, merchant, key, now),
                    old(State()), r, State())
    {
      hide Post, BankingAccess, Limits.CardCheck, Lawful;
      if amount <= 0 {
        return Err(InvalidAmount);
      }
      var access := AssertBankingAccess(user, kycApproved);
      if !access {
        return Err(BankingAccessDenied);
      }
      if card >= |cards| {
        return Err(CardNotFound);
      }
      var c := cards[card];
      if c.account >= |accounts| || accounts[c.account].userId != user {
        return Err(CardNotFound);
      }
      if !c.active {
        return Err(CardInvalidState);
      }
      if merchant.None? {
        return Err(CardMerchantNotConfigured);
      }
      var to := FindByNumber(accounts, merchant.value);
      if to.None? {
        return Err(CardMerchantNotConfigured);
      }
      var check := Limits.CheckCardLimits(z, State(), card, c.limits, amount, now);
      if !check.Allowed? {
        return Err(if check.PerTxnRefused? then CardPerTxnLimit else CardLimitExceeded);
      }
      var prior := FindPrior(transfers, key);
      if prior.Some? {
        return Ok(prior.value);
      }
      r := PostRow(Transfer(key, Some(c.account), to.value, amount, TransferKind, Posted, Internal, now, CardSpend,
                            Some(card)));
      if r.Ok? {
        events := events + [CardSpent(card, r.value, amount, now)];
      }
    }

    // ---------- batch settlement ----------

    /** The transaction of one item; the event it would publish goes back to the loop. */
    method SettleItem(id: TransferId, now: int) returns (r: Result<Option<Event>, Error>)
      requires id < |transfers|
      modifies this
      ensures var spec := SettleOne(old(State()), id, now);
              && State() == After(old(State()), spec)
              && r == if spec.Err? then Err(spec.error)
                      else if old(transfers)[id].status != Pending then Ok(None)
                      else Ok(Some(MovedEvent(transfers[id], id)))
    {
      var row := transfers[id];
      if row.status != Pending {
        return Ok(None);
      }
      if row.from.None? || row.from.value >= |accounts| || row.to >= |accounts| {
        return Err(AccountsMissing);
      }
      var from := row.from.value;
      var released :- ReleaseHold(accounts[from], row.amount);
      var debited :- Debit(released, row.amount);
      var credited :- Credit(accounts[row.to], row.amount);
      var posted := row.(status := Posted, postedAt := now);
      transfers := transfers[id := posted];
      accounts := accounts[from := debited];
      accounts := accounts[row.to := credited];
      InsertEntries(posted, id, debited, credited);
      return Ok(Some(MoneyMoved(id, posted.from, posted.to, posted.amount, posted.kind, now)));
    }

    /** The loop: a failing item is counted and leaves everything as it was. */
    method SettleEach(pending: seq<TransferId>, now: int) returns (settled: nat, failed: nat, moved: seq<Event>)
      requires forall k :: 0 <= k < |pending| ==> pending[k] < |transfers|
      modifies this
      ensures Batch(State(), settled, failed, moved) == SettleList(old(State()), pending, now)
    {
      hide SettleOne;
      settled, failed, moved := 0, 0, [];
      for i := 0 to |pending|
        invariant Batch(State(), settled, failed, moved) == SettleList(old(State()), pending[..i], now)
      {
        assert pending[..i + 1][..i] == pending[..i];
        var r := SettleItem(pending[i], now);
        if r.Err? {
          failed := failed + 1;
        } else {
          settled := settled + 1;
          if r.value.Some? {
            moved := moved + [r.value.value];
          }
        }
      }
      assert pending[..|pending|] == pending;
    }

    method SettlePendingTransfers(rail: Rail, now: int) returns (settled: nat, failed: nat)
      modifies this
      ensures var b := UseCases.SettlePendingTransfers(old(State()), rail, now);
              State() == b.db && settled == b.settled && failed == b.failed
    {
      hide SettleList;
      var pending := ListPendingByRail(transfers, rail);
      History.SettleListHistory(State(), pending, now);
      hide History.Kept;
      var moved: seq<Event>;
      settled, failed, moved := SettleEach(pending, now);
      events := events + moved;
    }

    // ---------- disputes ----------

    method FileDispute(user: UserId, transfer: TransferId) returns (r: Result<(), Error>)
      modifies this
      ensures Commits(UseCases.FileDispute(old(State()), user, transfer), old(State()), r, State())
    {
      if transfer >= |transfers| {
        return Err(TransferNotFound);
      }
      var t := transfers[transfer];
      var authorized := t.from.Some? && t.from.value < |accounts| && accounts[t.from.value].userId == user;
      if t.to < |accounts| && accounts[t.to].userId == user {
        authorized := true;
      }
      if !authorized {
        return Err(DisputeNotAuthorized);
      }
      disputes := disputes + [Dispute(user, transfer, Submitted, None)];
      return Ok(());
    }

    method DecideDispute(id: nat, approve: bool, now: int) returns (r: Result<(), Error>)
      modifies this
      ensures Commits(UseCases.DecideDispute(old(State()), id, approve, now), old(State()), r, State())
    {
      hide Post;
      if id >= |disputes| {
        return Err(DisputeNotFound);
      }
      var d := disputes[id];
      if d.status != Submitted && d.status != UnderReview {
        return Err(DisputeAlreadyDecided);
      }
      if !approve {
        disputes := disputes[id := d.(status := Rejected)];
        return Ok(());
      }
      if d.transfer >= |transfers| || transfers[d.transfer].from.None? {
        return Err(ReversalBlocked);
      }
      var original := transfers[d.transfer];
      if original.to >= |accounts| || original.from.value >= |accounts| {
        return Err(ReversalBlocked);
      }
      var reversal :- PostRow(Transfer(None, Some(original.to), original.from.value, original.amount, ReversalKind,
                                       Posted, Internal, now, original.category, None));
      disputes := disputes[id := d.(status := Approved, reversal := Some(reversal))];
      return Ok(());
    }

    // ---------- accounts ----------

    method CreateAccount(user: UserId, accountType: AccountType, number: string)
      modifies this
      ensures State() == UseCases.CreateAccount(old(State()), user, accountType, number)
    {
      accounts := accounts + [OpenAccount(number, user, accountType)];
    }

    method FreezeAccount(id: AccountId) returns (r: Result<(), Error>)
      modifies this
      ensures Commits(UseCases.FreezeAccount(old(State()), id), old(State()), r, State())
    {
      if id >= |accounts| {
        return Err(AccountNotFound);
      }
      var frozen :- Freeze(accounts[id]);
      accounts := accounts[id := frozen];
      return Ok(());
    }

    method UnfreezeAccount(id: AccountId) returns (r: Result<(), Error>)
      modifies this
      ensures Commits(UseCases.UnfreezeAccount(old(State()), id), old(State()), r, State())
    {
      if id >= |accounts| {
        return Err(AccountNotFound);
      }
      var active :- Unfreeze(accounts[id]);
      accounts := accounts[id := active];
      return Ok(());
    }

    method CloseAccount(user: UserId, id: AccountId) returns (r: Result<(), Error>)
      modifies this
      ensures Commits(UseCases.CloseAccount(old(State()), user, id), old(State()), r, State())
    {
      if id >= |accounts| || accounts[id].userId != user {
        return Err(AccountNotFound);
      }
      if accounts[id].accountType == FixedDeposit {
        return Err(CloseBlocked);
      }
      if HasActiveDeposit(State(), id) {
        return Err(CloseBlocked);
      }
      if HasActiveCard(State(), id) {
        return Err(CloseBlocked);
      }
      if HasRunningInstruction(State(), user, id) {
        return Err(CloseBlocked);
      }
      if PaysOutActiveDeposit(State(), user, id) {
        return Err(CloseBlocked);
      }
      var closed :- Close(accounts[id]);
      accounts := accounts[id := closed];
      return Ok(());
    }

    // ---------- fixed deposits ----------

    method OpenFixedDeposit(z: Zone, user: UserId, payout: AccountId, principal: int, tenureMonths: int, number: string,
                            now: int)
      returns (r: Result<(), Error>)
      modifies this
      ensures Commits(UseCases.OpenFixedDeposit(z, old(State()), user, payout, principal, tenureMonths, number, now),
                      old(State()), r, State())
    {
      if payout >= |accounts| || accounts[payout].userId != user {
        return Err(AccountNotFound);
      }
      var debited :- Debit(accounts[payout], principal);
      var account := OpenAccount(number, user, FixedDeposit);
      var funded :- Credit(account, principal);
      var deposit :- NewDeposit(z, |accounts|, user, payout, principal, tenureMonths, now);
      accounts := accounts[payout := debited];
      accounts := accounts + [funded];
      deposits := deposits + [deposit];
      return Ok(());
    }

    /** The transaction of one due deposit. */
    method MatureItem(id: nat) returns (r: Result<(), Error>)
      requires id < |deposits|
      modifies this
      ensures Commits(MatureOne(old(State()), id), old(State()), r, State())
    {
      var current := deposits[id];
      if current.status != ActiveDeposit {
        return Ok(());
      }
      if current.account >= |accounts| || current.payout >= |accounts| {
        return Err(AccountNotFound);
      }
      var interest := MaturityInterest(current);
      var totalPayout := current.principal + interest;
      var emptied :- ZeroFixedDepositPrincipal(accounts[current.account]);
      var closed :- Close(emptied);
      var credited :- Credit(accounts[current.payout], totalPayout);
      var updated := MarkMatured(current, interest).value;
      accounts := accounts[current.account := closed];
      accounts := accounts[current.payout := credited];
      deposits := deposits[id := updated];
      return Ok(());
    }

    method MatureFixedDeposits(now: int) returns (matured: nat, failed: nat)
      modifies this
      ensures var run := UseCases.MatureFixedDeposits(old(State()), now);
              State() == run.db && matured == run.matured && failed == run.failed
    {
      matured, failed := MatureEach(ListDueForMaturity(deposits, now));
    }

    /** The loop: a failing deposit is counted and leaves everything as it was. */
    method MatureEach(due: seq<nat>) returns (matured: nat, failed: nat)
      requires forall k :: 0 <= k < |due| ==> due[k] < |deposits|
      modifies this
      ensures MatureRun(State(), matured, failed) == MatureList(old(State()), due)
    {
      hide MatureOne;
      matured, failed := 0, 0;
      for i := 0 to |due|
        invariant MatureRun(State(), matured, failed) == MatureList(old(State()), due[..i])
      {
        assert due[..i + 1][..i] == due[..i];
        var r := MatureItem(due[i]);
        if r.Err? {
          failed := failed + 1;
        } else {
          matured := matured + 1;
        }
      }
      assert due[..|due|] == due;
    }

    method PrematureCloseFixedDeposit(user: UserId, id: nat, now: int) returns (r: Result<(), Error>)
      modifies this
      ensures Commits(UseCases.PrematureCloseFixedDeposit(old(State()), user, id, now), old(State()), r, State())
    {
      if id >= |deposits| || deposits[id].userId != user {
        return Err(AccountNotFound);
      }
      var fd := deposits[id];
      if fd.status != ActiveDeposit {
        return Err(FdNotActive);
      }
      if fd.account >= |accounts| || fd.payout >= |accounts| {
        return Err(AccountNotFound);
      }
      var interest := PrematureInterest(fd, now);
      var totalPayout := fd.principal + interest;
      var emptied :- ZeroFixedDepositPrincipal(accounts[fd.account]);
      var closed :- Close(emptied);
      var credited :- Credit(accounts[fd.payout], totalPayout);
      var updated := MarkPrematureClosed(fd, interest).value;
      accounts := accounts[fd.account := closed];
      accounts := accounts[fd.payout := credited];
      deposits := deposits[id := updated];
      return Ok(());
    }

    // ---------- cards ----------

    method IssueCard(user: UserId, account: AccountId, limits: CardLimits) returns (r: Result<(), Error>)
      modifies this
      ensures Commits(UseCases.IssueCard(old(State()), user, account, limits), old(State()), r, State())
    {
      if account >= |accounts| || accounts[account].userId != user {
        return Err(AccountNotFound);
      }
      cards := cards + [Card(account, true, limits)];
      return Ok(());
    }

    method UpdateCard(card: CardId, active: bool, limits: CardLimits) returns (r: Result<(), Error>)
      modifies this
      ensures Commits(UseCases.UpdateCard(old(State()), card, active, limits), old(State()), r, State())
    {
      if card >= |cards| {
        return Err(CardNotFound);
      }
      cards := cards[card := cards[card].(active := active, limits := limits)];
      return Ok(());
    }

    // ---------- standing instructions ----------

    method CreateInstruction(user: UserId, kycApproved: bool, from: AccountId, beneficiary: nat, beneficiaryOwned: bool,
                             amount: int, frequency: Schedules.Frequency, startAt: Option<int>, endAt: Option<int>,
                             now: int)
      returns (r: Result<(), Error>)
      modifies this
      ensures Commits(UseCases.CreateInstruction(old(State()), user, kycApproved, from, beneficiary, beneficiaryOwned,
                                                 amount, frequency, startAt, endAt, now), old(State()), r, State())
    {
      hide BankingAccess, Schedules.AdvanceRun;
      var access := AssertBankingAccess(user, kycApproved);
      if !access {
        return Err(BankingAccessDenied);
      }
      if from >= |accounts| || accounts[from].userId != user {
        return Err(AccountNotFound);
      }
      if !beneficiaryOwned {
        return Err(BeneficiaryNotFound);
      }
      if amount <= 0 {
        return Err(InvalidAmount);
      }
      var start := if startAt.Some? then startAt.value else Schedules.AdvanceRun(now, frequency);
      instructions := instructions
        + [Instruction(user, from, beneficiary, amount, frequency, start, None, Running, endAt, 0)];
      return Ok(());
    }

    method ChangeInstruction(user: UserId, id: InstructionId, change: StatusChange) returns (r: Result<(), Error>)
      modifies this
      ensures Commits(UseCases.ChangeInstruction(old(State()), user, id, change), old(State()), r, State())
    {
      if id >= |instructions| || instructions[id].owner != user {
        return Err(InstructionNotFound);
      }
      var si := instructions[id];
      match change {
        case Pause =>
          if si.status != Running {
            return Err(InstructionInvalidState);
          }
          instructions := instructions[id := si.(status := Paused)];
        case Resume =>
          if si.status != Paused {
            return Err(InstructionInvalidState);
          }
          instructions := instructions[id := si.(status := Running)];
        case Cancel =>
          if si.status == Cancelled {
            return Err(InstructionInvalidState);
          }
          instructions := instructions[id := si.(status := Cancelled)];
      }
      return Ok(());
    }

    /** The catch branch: one failure on, paused at the third. */
    method RecordFailure(id: InstructionId, si: Instruction, fate: Fate) returns (outcome: ItemOutcome)
      requires id < |instructions|
      modifies this`instructions
      ensures Item(State(), outcome) == MarkFailed(old(State()), id, si, fate)
    {
      var failures := si.failures + 1;
      var paused := failures >= MAX_FAILURES;
      instructions := instructions[id := si.(failures := failures, status := if paused then Paused else si.status)];
      return if fate.stops == AfterFailure then Stopped else Failed;
    }

    /** One iteration, over the row `si` that the due query read. */
    method RunItem(z: Zone, id: InstructionId, si: Instruction, beneficiaries: map<nat, string>, fate: Fate, now: int)
      returns (outcome: ItemOutcome)
      requires Lawful(z) && id < |instructions|
      modifies this
      ensures Item(State(), outcome) == RunOne(z, old(State()), id, si, beneficiaries, fate, now)
    {
      hide UseCases.ExecuteTransfer, Schedules.AdvanceRun, Lawful;
      if fate.stops == AtStart {
        return Stopped;
      }
      if si.endAt.Some? && si.endAt.value <= now {
        instructions := instructions[id := si.(status := Cancelled)];
        return Skipped;
      }
      if si.beneficiary !in beneficiaries {
        return Failed;
      }
      var published, rows := events, |transfers|;
      var sent := ExecuteTransfer(z, StandingInput(si, beneficiaries[si.beneficiary]), Some(Standing(id, si.nextRunAt)),
                                  now);
      if sent.Err? {
        outcome := RecordFailure(id, si, fate);
        return;
      }
      if fate.stops == AfterCommit {
        events := published;
        return Stopped;
      }
      if fate.stops == AfterPublish {
        return Stopped;
      }
      if fate.throws == TransferSubscriber && |transfers| > rows {
        outcome := RecordFailure(id, si, fate);
        return;
      }
      var nextRun := Schedules.AdvanceRun(si.nextRunAt, si.frequency);
      instructions := instructions[
        id := si.(nextRunAt := nextRun, lastRunAt := Some(now), status := Running, failures := 0)];
      if fate.stops == AfterAdvance {
        return Stopped;
      }
      events := events + [StandingRan(id, si.amount, now)];
      if fate.stops == AfterNotice {
        return Stopped;
      }
      if fate.throws == NoticeSubscriber {
        outcome := RecordFailure(id, si, fate);
        return;
      }
      return Succeeded;
    }

    /** The rows are read once, before the loop, and written back as read. */
    method RunDueInstructions(z: Zone, beneficiaries: map<nat, string>, fates: InstructionId -> Fate, now: int)
      returns (stopped: bool, succeeded: nat, failed: nat)
      requires Lawful(z)
      modifies this
      ensures Tick(State(), stopped, succeeded, failed)
              == UseCases.RunDueInstructions(z, old(State()), beneficiaries, fates, now)
    {
      hide RunList, Lawful, ListDue;
      var ids := ListDue(instructions, now);
      Scheduler.DueListing(instructions, now);
      var rows := instructions;
      var due := seq(|ids|, i requires 0 <= i < |ids| => rows[ids[i]]);
      stopped, succeeded, failed := RunEach(z, ids, due, beneficiaries, fates, now);
    }

    /** The loop, which ends early only if the process stops. */
    method RunEach(z: Zone, ids: seq<InstructionId>, due: seq<Instruction>, beneficiaries: map<nat, string>,
                   fates: InstructionId -> Fate, now: int)
      returns (stopped: bool, succeeded: nat, failed: nat)
      requires Lawful(z) && Distinct(ids) && |due| == |ids|
      requires forall i :: 0 <= i < |ids| ==> ids[i] < |instructions| && due[i] == instructions[ids[i]]
      modifies this
      ensures Tick(State(), stopped, succeeded, failed) == RunList(z, old(State()), ids, beneficiaries, fates, now)
    {
      hide RunOne, Lawful, Distinct;
      ghost var s := State();
      stopped, succeeded, failed := false, 0, 0;
      assert RunList(z, s, ids[..0], beneficiaries, fates, now) == Tick(s, false, 0, 0);
      hide RunList;
      for i := 0 to |ids|
        invariant !stopped && |instructions| == |s.instructions|
        invariant Tick(State(), stopped, succeeded, failed) == RunList(z, s, ids[..i], beneficiaries, fates, now)
      {
        OneMoreRun(z, s, ids, beneficiaries, fates, now, i);
        var outcome := RunItem(z, ids[i], due[i], beneficiaries, fates(ids[i]), now);
        if outcome == Succeeded {
          succeeded := succeeded + 1;
        } else if outcome == Failed {
          failed := failed + 1;
        } else if outcome == Stopped {
          stopped := true;
          StoppedForGood(z, s, ids, beneficiaries, fates, now, i + 1);
          return;
        }
      }
      assert ids[..|ids|] == ids;
    }

    // ---------- any call ----------

    /** So what is promised of every run holds of the object: here, that it has
      * covered holds and only the money its calls brought. */
    lemma Sound(a: AccountId)
      requires Valid() && a < |accounts|
      ensures Inv(State(), Clock(calls, start))
      ensures accounts[a].hold == Sum(transfers, Books.PendingFn(a)) + Sum(transfers, Guarantees.StuckFn(a))
              <= accounts[a].balance
      ensures Guarantees.Total(State()) == Conservation.BroughtBy(zone, calls)
    {
      hide Run, Inv;
      ReachableInv(zone, calls, start);
      Guarantees.HoldsMatchPending(zone, calls, start, a);
      Conservation.RunChangesTotal(zone, calls, start);
    }

    /** Every service of the bank takes the step of the state machine. A bank
      * that has answered any calls in the order of the clock is therefore in
      * the state those calls lead to, and the invariant of runs holds of it. */
    method Serve(c: Call) returns (answer: Answer)
      requires Valid() && Clock(calls, start) <= c.now
      modifies this
      ensures Valid() && calls == old(calls) + [c]
      ensures State() == Apply(zone, old(State()), c) && answer == AnswerOf(zone, old(State()), c)
      ensures Inv(State(), c.now)
    {
      hide Inv, Apply, AnswerOf;
      ghost var earlier := calls;
      ghost var s := State();
      if PostingStep(c.step) {
        answer := ServePosting(zone, c);
      } else if BatchStep(c.step) || DepositStep(c.step) {
        answer := ServeDeposit(zone, c);
      } else {
        answer := ServeHolder(zone, c);
      }
      calls := earlier + [c];
      hide Lawful;
      OneMoreCall(zone, earlier, c, start);
      ReachableInv(zone, calls, start);
    }

    method ServePosting(z: Zone, c: Call) returns (answer: Answer)
      requires Lawful(z) && PostingStep(c.step)
      modifies this
      ensures State() == Apply(z, old(State()), c) && answer == AnswerOf(z, old(State()), c)
    {
      hide UseCases.FaucetDeposit, UseCases.ExecuteTransfer, UseCases.ExecuteRailTransfer, UseCases.PayBill,
           UseCases.SimulateCardSpend, UseCases.DecideDispute, Lawful;
      match c.step {
        case Faucet(account, amount, key) =>
          var posted := FaucetDeposit(account, amount, key, c.now);
          answer := Transferred(posted);
        case Send(inp, key) =>
          var posted := ExecuteTransfer(z, inp, key, c.now);
          answer := Transferred(posted);
        case SendByRail(inp, user, tier, vpaValid, key) =>
          var posted := ExecuteRailTransfer(z, RailInput(inp, user, tier), vpaValid, key, c.now);
          answer := Transferred(posted);
        case PayTheBill(user, kyc, account, biller, amount, key) =>
          var posted := PayBill(user, kyc, account, biller, amount, key, c.now);
          answer := Transferred(posted);
        case SpendByCard(user, kyc, card, amount, merchant, key) =>
          var posted := SimulateCardSpend(z, user, kyc, card, amount, merchant, key, c.now);
          answer := Transferred(posted);
        case Decide(dispute, approve) =>
          var decided := DecideDispute(dispute, approve, c.now);
          answer := Completed(decided);
      }
    }

    method ServeDeposit(z: Zone, c: Call) returns (answer: Answer)
      requires Lawful(z) && (BatchStep(c.step) || DepositStep(c.step))
      modifies this
      ensures State() == Apply(z, old(State()), c) && answer == AnswerOf(z, old(State()), c)
    {
      hide UseCases.SettlePendingTransfers, UseCases.RunDueInstructions, UseCases.OpenFixedDeposit,
           UseCases.MatureFixedDeposits, UseCases.PrematureCloseFixedDeposit, Lawful;
      match c.step {
        case SettleRail(rail) =>
          var settled, failed := SettlePendingTransfers(rail, c.now);
          answer := TransfersSettled(settled, failed);
        case RunDue(beneficiaries, fates) =>
          var stopped, succeeded, failed := RunDueInstructions(z, beneficiaries, fates, c.now);
          answer := Ticked(stopped, succeeded, failed);
        case OpenDeposit(user, payout, principal, tenureMonths, number) =>
          var opening := OpenFixedDeposit(z, user, payout, principal, tenureMonths, number, c.now);
          answer := Completed(opening);
        case MatureDue =>
          var matured, failed := MatureFixedDeposits(c.now);
          answer := DepositsMatured(matured, failed);
        case CloseEarly(user, deposit) =>
          var closing := PrematureCloseFixedDeposit(user, deposit, c.now);
          answer := Completed(closing);
      }
    }

    method ServeHolder(z: Zone, c: Call) returns (answer: Answer)
      requires !PostingStep(c.step) && !BatchStep(c.step) && !DepositStep(c.step)
      modifies this
      ensures State() == Apply(z, old(State()), c) && answer == AnswerOf(z, old(State()), c)
    {
      hide UseCases.FreezeAccount, UseCases.UnfreezeAccount, UseCases.CloseAccount, UseCases.FileDispute,
           UseCases.IssueCard, UseCases.UpdateCard, UseCases.CreateInstruction, UseCases.ChangeInstruction;
      match c.step {
        case Create(user, accountType, number) =>
          CreateAccount(user, accountType, number);
          answer := Completed(Ok(()));
        case FreezeIt(account) =>
          var frozen := FreezeAccount(account);
          answer := Completed(frozen);
        case UnfreezeIt(account) =>
          var active := UnfreezeAccount(account);
          answer := Completed(active);
        case CloseIt(user, account) =>
          var closed := CloseAccount(user, account);
          answer := Completed(closed);
        case File(user, transfer) =>
          var filed := FileDispute(user, transfer);
          answer := Completed(filed);
        case Issue(user, account, limits) =>
          var issued := IssueCard(user, account, limits);
          answer := Completed(issued);
        case Update(card, active, limits) =>
          var updated := UpdateCard(card, active, limits);
          answer := Completed(updated);
        case Instruct(user, kyc, account, beneficiary, owned, amount, frequency, startAt, endAt) =>
          var created := CreateInstruction(user, kyc, account, beneficiary, owned, amount, frequency, startAt, endAt,
                                           c.now);
          answer := Completed(created);
        case Change(user, instruction, change) =>
          var changed := ChangeInstruction(user, instruction, change);
          answer := Completed(changed);
      }
    }
  }
}
