/**
 * Why a service refuses: whatever it was called with, the error it answers with
 * names a condition that holds.
 */
module Refusals {
  import opened Prelude
  import opened Zones
  import opened Accounts
  import opened FixedDeposits
  import Schedules
  import opened Tables
  import opened Limits
  import opened UseCases
  import opened Outcomes
  import opened AccountOutcomes

  /** An error about the accounts between which money was to move. */
  predicate MoveRefusal(accounts: seq<Account>, from: AccountId, to: AccountId, amount: int, e: Error) {
    && from < |accounts| && to < |accounts|
    && match e
       case InvalidAmount => amount <= 0
       case AccountNotActive => accounts[from].status != Active || accounts[to].status != Active
       case FixedDepositWithdrawalBlocked => accounts[from].accountType == FixedDeposit
       case InsufficientAvailableFunds => accounts[from].hold + amount > accounts[from].balance
       case MinimumBalanceViolation =>
         accounts[from].balance - amount < (if accounts[from].accountType == Savings then 50_000 else 1_000_000)
       case _ => false
  }

  lemma PostRefused(s: Db, row: Transfer)
    requires HasAccounts(s, row) && row.from.Some? && Post(s, row).Err?
    ensures MoveRefusal(s.accounts, row.from.value, row.to, row.amount, Post(s, row).error)
  {
  }

  // ---------- payments ----------

  predicate TransferRefusal(z: Zone, s: Db, inp: TransferInput, now: int, e: Error) {
    var to := FindByNumber(s.accounts, inp.toNumber);
    match e
    case InvalidAmount => inp.amount <= 0
    case OverLimit => inp.amount > 100_000_000
    case BankingAccessDenied => inp.owner.Some? && !MayBank(s.accounts, inp.owner.value, inp.kycApproved)
    case AggregateLimit => !LimitsAllow(z, s, inp, now)
    case AccountNotFound => inp.from >= |s.accounts| || to.None?
    case TransferToSelf => to == Some(inp.from)
    case CrossUserFixedDeposit => to.Some? && !MaySendTo(s.accounts, inp.from, to.value)
    case BeneficiaryCooling => !inp.beneficiaryCleared
    case _ => to.Some? && MoveRefusal(s.accounts, inp.from, to.value, inp.amount, e)
  }

  lemma TransferRefused(z: Zone, s: Db, inp: TransferInput, key: Option<Key>, now: int)
    requires ExecuteTransfer(z, s, inp, key, now).Err?
    ensures TransferRefusal(z, s, inp, now, ExecuteTransfer(z, s, inp, key, now).error)
  {
    hide Post, BankingAccess, MayBank, FindByNumber, Outbound, MoveRefusal;
    if inp.owner.Some? {
      AccessIsMayBank(s, inp.owner.value, inp.kycApproved);
    }
    var to := FindByNumber(s.accounts, inp.toNumber);
    if to.Some? && inp.from < |s.accounts| {
      var row := TransferRow(s, inp, to.value, key, Posted, now);
      if Post(s, row).Err? {
        PostRefused(s, row);
        NotOther(s.accounts, inp.from, to.value, inp.amount, Post(s, row).error);
      }
    }
  }

  /** Errors about the accounts are of five kinds. */
  lemma NotOther(accounts: seq<Account>, from: AccountId, to: AccountId, amount: int, e: Error)
    requires MoveRefusal(accounts, from, to, amount, e)
    ensures e in {InvalidAmount, AccountNotActive, FixedDepositWithdrawalBlocked, InsufficientAvailableFunds,
                  MinimumBalanceViolation}
    ensures e == InvalidAmount ==> amount <= 0
  {
  }

  predicate HoldRefusal(s: Db, inp: TransferInput, e: Error)
    requires inp.owner.Some? && inp.tier.Some?
  {
    match e
    case InvalidAmount => inp.amount <= 0
    case BankingAccessDenied => !MayBank(s.accounts, inp.owner.value, inp.kycApproved)
    case AggregateLimit => inp.tier.value == NoKyc
    case AccountNotFound => inp.from >= |s.accounts| || FindByNumber(s.accounts, inp.toNumber).None?
    case AccountNotActive => inp.from < |s.accounts| && s.accounts[inp.from].status != Active
    case HoldExceedsBalance =>
      inp.from < |s.accounts| && s.accounts[inp.from].hold + inp.amount > s.accounts[inp.from].balance
    case _ => false
  }

  /** On the batch rails only the hold can fail; the others refuse a wrong UPI
    * address or as any transfer does. */
  lemma RailRefused(z: Zone, s: Db, inp: TransferInput, vpaValid: bool, key: Option<Key>, now: int)
    requires inp.owner.Some? && inp.tier.Some? && ExecuteRailTransfer(z, s, inp, vpaValid, key, now).Err?
    ensures var e := ExecuteRailTransfer(z, s, inp, vpaValid, key, now).error;
            if inp.rail == Neft || inp.rail == Rtgs then HoldRefusal(s, inp, e)
            else || (e == InvalidUpiVpa && inp.rail == Upi && !vpaValid)
                 || TransferRefusal(z, s, inp.(beneficiaryCleared := true), now, e)
  {
    hide ExecuteTransfer, CreatePendingRailTransfer, BankingAccess, MayBank, Outbound, MoveRefusal;
    AccessIsMayBank(s, inp.owner.value, inp.kycApproved);
    if ExecuteTransfer(z, s, inp.(beneficiaryCleared := true), key, now).Err? {
      TransferRefused(z, s, inp.(beneficiaryCleared := true), key, now);
    }
    if CreatePendingRailTransfer(s, inp, key, now).Err? {
      PendingRefused(s, inp, key, now);
    }
  }

  lemma PendingRefused(s: Db, inp: TransferInput, key: Option<Key>, now: int)
    requires inp.owner.Some? && inp.tier.Some? && CreatePendingRailTransfer(s, inp, key, now).Err?
    ensures HoldRefusal(s, inp, CreatePendingRailTransfer(s, inp, key, now).error)
  {
    hide FindByNumber;
  }

  lemma FaucetRefused(s: Db, to: AccountId, amount: int, key: Option<Key>, now: int)
    requires FaucetDeposit(s, to, amount, key, now).Err?
    ensures match FaucetDeposit(s, to, amount, key, now).error
            case InvalidAmount => amount <= 0
            case OverLimit => amount > 10_000_000
            case AccountNotFound => to >= |s.accounts|
            case AccountNotActive => to < |s.accounts| && s.accounts[to].status != Active
            case _ => false
  {
  }

  lemma BillRefused(s: Db, user: UserId, kyc: bool, from: AccountId, biller: Biller, amount: int, key: Option<Key>,
                    now: int)
    requires PayBill(s, user, kyc, from, biller, amount, key, now).Err?
    ensures match PayBill(s, user, kyc, from, biller, amount, key, now).error
            case InvalidAmount => amount <= 0
            case OverLimit => amount > 50_000_000
            case BankingAccessDenied => !MayBank(s.accounts, user, kyc)
            case BillerNotFound => biller.UnknownBiller?
            case BillerInactive => biller.InactiveBiller?
            case AccountNotFound =>
              biller.ActiveBiller? && (from >= |s.accounts| || FindByNumber(s.accounts, biller.number).None?)
            case e =>
              && biller.ActiveBiller? && FindByNumber(s.accounts, biller.number).Some?
              && MoveRefusal(s.accounts, from, FindByNumber(s.accounts, biller.number).value, amount, e)
  {
    AccessIsMayBank(s, user, kyc);
    if from < |s.accounts| && biller.ActiveBiller? && FindByNumber(s.accounts, biller.number).Some? {
      var row := Transfer(key, Some(from), FindByNumber(s.accounts, biller.number).value, amount, TransferKind, Posted,
                          Internal, now, Bill, None);
      if Post(s, row).Err? {
        PostRefused(s, row);
      }
    }
    hide Post, BankingAccess, MayBank, FindByNumber;
  }

  lemma SpendRefused(z: Zone, s: Db, user: UserId, kyc: bool, card: CardId, amount: int, merchant: Option<string>,
                     key: Option<Key>, now: int)
    requires SimulateCardSpend(z, s, user, kyc, card, amount, merchant, key, now).Err?
    ensures match SimulateCardSpend(z, s, user, kyc, card, amount, merchant, key, now).error
            case InvalidAmount => amount <= 0
            case BankingAccessDenied => !MayBank(s.accounts, user, kyc)
            case CardNotFound => card >= |s.cards| || !Owns(s.accounts, user, s.cards[card].account)
            case CardInvalidState => card < |s.cards| && !s.cards[card].active
            case CardMerchantNotConfigured => merchant.None? || FindByNumber(s.accounts, merchant.value).None?
            case CardPerTxnLimit => card < |s.cards| && amount > s.cards[card].limits.perTxn
            case CardLimitExceeded =>
              && card < |s.cards|
              && (|| CardOutbound(s, card, z.dayStart(now)) + amount > s.cards[card].limits.daily
                  || CardOutbound(s, card, z.monthStart(now)) + amount > s.cards[card].limits.monthly)
            case e =>
              && card < |s.cards| && merchant.Some? && FindByNumber(s.accounts, merchant.value).Some?
              && MoveRefusal(s.accounts, s.cards[card].account, FindByNumber(s.accounts, merchant.value).value, amount,
                             e)
  {
    hide Post, BankingAccess, MayBank, FindByNumber, CardOutbound, MoveRefusal;
    AccessIsMayBank(s, user, kyc);
    if && card < |s.cards| && s.cards[card].account < |s.accounts|
       && merchant.Some? && FindByNumber(s.accounts, merchant.value).Some?
    {
      var row := Transfer(key, Some(s.cards[card].account), FindByNumber(s.accounts, merchant.value).value, amount,
                          TransferKind, Posted, Internal, now, CardSpend, Some(card));
      if Post(s, row).Err? {
        PostRefused(s, row);
        NotOther(s.accounts, s.cards[card].account, row.to, amount, Post(s, row).error);
      }
    }
  }

  lemma DecisionRefused(s: Db, id: nat, approve: bool, now: int)
    requires DecideDispute(s, id, approve, now).Err?
    ensures match DecideDispute(s, id, approve, now).error
            case DisputeNotFound => id >= |s.disputes|
            case DisputeAlreadyDecided => id < |s.disputes| && !Undecided(s, id)
            case ReversalBlocked =>
              && approve && id < |s.disputes|
              && (|| s.disputes[id].transfer >= |s.transfers|
                  || s.transfers[s.disputes[id].transfer].from.None?
                  || !HasAccounts(s, s.transfers[s.disputes[id].transfer]))
            case e =>
              && approve && id < |s.disputes| && s.disputes[id].transfer < |s.transfers|
              && var original := s.transfers[s.disputes[id].transfer];
                 && original.from.Some?
                 && MoveRefusal(s.accounts, original.to, original.from.value, original.amount, e)
  {
    if id < |s.disputes| && s.disputes[id].transfer < |s.transfers| {
      var original := s.transfers[s.disputes[id].transfer];
      if original.from.Some? && HasAccounts(s, original) {
        var row := Transfer(None, Some(original.to), original.from.value, original.amount, ReversalKind, Posted,
                            Internal, now, original.category, None);
        if Post(s, row).Err? {
          PostRefused(s, row);
        }
      }
    }
    hide Post;
  }

  lemma FilingRefused(s: Db, user: UserId, transfer: TransferId)
    requires FileDispute(s, user, transfer).Err?
    ensures match FileDispute(s, user, transfer).error
            case TransferNotFound => transfer >= |s.transfers|
            case DisputeNotAuthorized =>
              && transfer < |s.transfers| && !Owns(s.accounts, user, s.transfers[transfer].to)
              && (s.transfers[transfer].from.Some? ==> !Owns(s.accounts, user, s.transfers[transfer].from.value))
            case _ => false
  {
  }

  // ---------- accounts, deposits and instructions ----------

  lemma CloseRefused(s: Db, user: UserId, id: AccountId)
    requires CloseAccount(s, user, id).Err?
    ensures match CloseAccount(s, user, id).error
            case AccountNotFound => !Owns(s.accounts, user, id)
            case CloseRequiresZeroBalance => id < |s.accounts| && s.accounts[id].balance != 0
            case CloseBlocked =>
              && id < |s.accounts|
              && (s.accounts[id].accountType == FixedDeposit || s.accounts[id].hold != 0 || !Unneeded(s, user, id))
            case _ => false
  {
    UnneededByRow(s, user, id);
    hide Unneeded, HasActiveDeposit, HasActiveCard, HasRunningInstruction, PaysOutActiveDeposit;
  }

  lemma OpeningRefused(z: Zone, s: Db, user: UserId, payout: AccountId, principal: int, tenure: int, number: string,
                       now: int)
    requires OpenFixedDeposit(z, s, user, payout, principal, tenure, number, now).Err?
    ensures match OpenFixedDeposit(z, s, user, payout, principal, tenure, number, now).error
            case AccountNotFound => !Owns(s.accounts, user, payout)
            case FdMinimumPrincipal => principal < 1_000_000
            case FdInvalidTenure => tenure < 7 || tenure > 120
            case e => MoveRefusal(s.accounts, payout, payout, principal, e)
  {
    hide MaturityInstant;
  }

  lemma EarlyCloseRefused(s: Db, user: UserId, id: nat, now: int)
    requires PrematureCloseFixedDeposit(s, user, id, now).Err?
    ensures match PrematureCloseFixedDeposit(s, user, id, now).error
            case AccountNotFound =>
              || id >= |s.deposits| || s.deposits[id].userId != user
              || s.deposits[id].account >= |s.accounts| || s.deposits[id].payout >= |s.accounts|
            case FdNotActive => id < |s.deposits| && s.deposits[id].status != ActiveDeposit
            case AccountNotActive =>
              && id < |s.deposits| && s.deposits[id].account < |s.accounts| && s.deposits[id].payout < |s.accounts|
              && (|| s.accounts[s.deposits[id].account].status != Active
                  || s.accounts[s.deposits[id].payout].status != Active)
            case NotAFixedDeposit =>
              && id < |s.deposits| && s.deposits[id].account < |s.accounts|
              && s.accounts[s.deposits[id].account].accountType != FixedDeposit
            case CloseBlocked =>
              && id < |s.deposits| && s.deposits[id].account < |s.accounts|
              && s.accounts[s.deposits[id].account].hold != 0
            case InvalidAmount =>
              id < |s.deposits| && s.deposits[id].principal + PrematureInterest(s.deposits[id], now) <= 0
            case _ => false
  {
    hide PrematureInterest;
  }

  lemma InstructionRefused(s: Db, user: UserId, kyc: bool, from: AccountId, beneficiary: nat, owned: bool, amount: int,
                           frequency: Schedules.Frequency, startAt: Option<int>, endAt: Option<int>, now: int)
    requires CreateInstruction(s, user, kyc, from, beneficiary, owned, amount, frequency, startAt, endAt, now).Err?
    ensures match CreateInstruction(s, user, kyc, from, beneficiary, owned, amount, frequency, startAt, endAt,
                                    now).error
            case BankingAccessDenied => !MayBank(s.accounts, user, kyc)
            case AccountNotFound => !Owns(s.accounts, user, from)
            case BeneficiaryNotFound => !owned
            case InvalidAmount => amount <= 0
            case _ => false
  {
    AccessIsMayBank(s, user, kyc);
    hide BankingAccess, MayBank;
  }

  lemma ChangeRefused(s: Db, user: UserId, id: InstructionId, change: StatusChange)
    requires ChangeInstruction(s, user, id, change).Err?
    ensures match ChangeInstruction(s, user, id, change).error
            case InstructionNotFound => id >= |s.instructions| || s.instructions[id].owner != user
            case InstructionInvalidState =>
              && id < |s.instructions|
              && var status := s.instructions[id].status;
                 || (change == Pause && status != Running)
                 || (change == Resume && status != Paused)
                 || (change == Cancel && status == Cancelled)
            case _ => false
  {
  }
}
