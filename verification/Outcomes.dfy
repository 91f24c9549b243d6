/**
 * What each payment service answers and does, said of accounts, rows, entries
 * and events and not of the steps the service takes: exactly when it accepts,
 * whose money moves where, and that nothing else changes.
 */
module Outcomes {
  import opened Prelude
  import opened Zones
  import opened Accounts
  import opened Tables
  import opened Limits
  import opened UseCases

  // ---------- money that moves ----------

  /** Both accounts are active; the paying one is no deposit, has the amount
    * free of holds and keeps Rs 500 as a savings or Rs 10,000 as a current
    * account. */
  predicate MoveAllowed(accounts: seq<Account>, from: AccountId, to: AccountId, amount: int) {
    && from < |accounts| && to < |accounts| && 0 < amount
    && accounts[from].status == Active && accounts[to].status == Active
    && accounts[from].accountType != FixedDeposit
    && accounts[from].hold + amount <= accounts[from].balance
    && accounts[from].balance - amount >= (if accounts[from].accountType == Savings then 50_000 else 1_000_000)
  }

  /** The amount leaves one account and reaches the other; nothing else of any
    * account differs. Where both are the same account only the credit stays. */
  predicate OnlyMoves(before: seq<Account>, after: seq<Account>, from: AccountId, to: AccountId, amount: int) {
    && |after| == |before|
    && forall a :: 0 <= a < |before| ==>
         after[a] == before[a].(balance := before[a].balance
                                           + (if a == to then amount else if a == from then -amount else 0))
  }

  /** One more transfer row with its debit and credit entries; of the tables
    * that hold money nothing else differs. */
  predicate OnlyPosts(s: Db, db: Db, row: Transfer) {
    && row.from.Some? && row.from.value < |s.accounts| && row.to < |s.accounts|
    && OnlyMoves(s.accounts, db.accounts, row.from.value, row.to, row.amount)
    && db.transfers == s.transfers + [row]
    && db.ledger == s.ledger
         + [LedgerEntry(row.from.value, |s.transfers|, DebitSide, row.amount,
                        s.accounts[row.from.value].balance - row.amount, row.postedAt),
            LedgerEntry(row.to, |s.transfers|, CreditSide, row.amount,
                        s.accounts[row.to].balance + row.amount, row.postedAt)]
    && db.deposits == s.deposits && db.cards == s.cards && db.instructions == s.instructions
  }

  function MovedNow(s: Db, row: Transfer): Event {
    MoneyMoved(|s.transfers|, row.from, row.to, row.amount, row.kind, row.postedAt)
  }

  lemma PostOutcome(s: Db, row: Transfer)
    requires HasAccounts(s, row) && row.from.Some?
    ensures Post(s, row).Ok? <==> MoveAllowed(s.accounts, row.from.value, row.to, row.amount)
    ensures Post(s, row).Ok? ==>
              var db := Post(s, row).value;
              OnlyPosts(s, db, row) && db.disputes == s.disputes && db.events == s.events + [MovedNow(s, row)]
  {
  }

  /** An approved customer with at least one active account. */
  predicate MayBank(accounts: seq<Account>, user: UserId, kycApproved: bool) {
    kycApproved && exists i :: 0 <= i < |accounts| && accounts[i].userId == user && accounts[i].status == Active
  }

  lemma AccessIsMayBank(s: Db, user: UserId, kycApproved: bool)
    ensures BankingAccess(s, user, kycApproved) <==> MayBank(s.accounts, user, kycApproved)
  {
  }

  // ---------- transfers ----------

  /** Another account, and if a deposit then one of the same user. */
  predicate MaySendTo(accounts: seq<Account>, from: AccountId, to: AccountId) {
    && from < |accounts| && to < |accounts| && from != to
    && (accounts[to].accountType == FixedDeposit ==> accounts[to].userId == accounts[from].userId)
  }

  /** Whether what the owner has sent this day and this month leaves room. */
  predicate LimitsAllow(z: Zone, s: Db, inp: TransferInput, now: int) {
    && inp.tier != Some(NoKyc)
    && (inp.owner.Some? && inp.tier.Some? ==>
          && Outbound(s, inp.owner.value, z.dayStart(now)) + inp.amount
             <= (if inp.tier.value == Basic then 10_000_000 else 20_000_000)
          && Outbound(s, inp.owner.value, z.monthStart(now)) + inp.amount
             <= (if inp.tier.value == Basic then 100_000_000 else 200_000_000))
  }

  /** What a transfer shows: own accounts or another person's. */
  function SentCategory(accounts: seq<Account>, from: AccountId, to: AccountId): Category
    requires from < |accounts| && to < |accounts|
  {
    if accounts[from].userId == accounts[to].userId then SelfTransfer else P2p
  }

  /** A transfer with an unused key is posted exactly when amount, access,
    * beneficiary, accounts and limits allow it; then the amount moves from the
    * one account to the other and no other account changes. */
  lemma PostedExactlyWhen(z: Zone, s: Db, inp: TransferInput, key: Option<Key>, now: int)
    requires FindPrior(s.transfers, key).None?
    ensures var to := FindByNumber(s.accounts, inp.toNumber);
            var r := ExecuteTransfer(z, s, inp, key, now);
            && (r.Ok? <==>
                  && inp.amount <= 100_000_000
                  && (inp.owner.Some? ==> MayBank(s.accounts, inp.owner.value, inp.kycApproved))
                  && to.Some? && MaySendTo(s.accounts, inp.from, to.value)
                  && MoveAllowed(s.accounts, inp.from, to.value, inp.amount)
                  && inp.beneficiaryCleared
                  && LimitsAllow(z, s, inp, now))
            && (r.Ok? ==>
                  var row := Transfer(key, Some(inp.from), to.value, inp.amount, TransferKind, Posted, inp.rail, now,
                                      SentCategory(s.accounts, inp.from, to.value), None);
                  && r.value.id == |s.transfers| && OnlyPosts(s, r.value.db, row)
                  && r.value.db.disputes == s.disputes && r.value.db.events == s.events + [MovedNow(s, row)])
  {
    if inp.owner.Some? {
      AccessIsMayBank(s, inp.owner.value, inp.kycApproved);
    }
    var to := FindByNumber(s.accounts, inp.toNumber);
    if to.Some? && inp.from < |s.accounts| {
      PostOutcome(s, TransferRow(s, inp, to.value, key, Posted, now));
    }
    hide Post, MoveAllowed, OnlyPosts, BankingAccess, MayBank, FindByNumber, Outbound;
  }

  /** The same with a key that is already on a transfer: the answer is that
    * transfer, whatever the accounts and limits are now. */
  lemma RepeatedTransfer(z: Zone, s: Db, inp: TransferInput, key: Option<Key>, now: int)
    requires FindPrior(s.transfers, key).Some?
    ensures var r := ExecuteTransfer(z, s, inp, key, now);
            && (r.Ok? <==>
                  && 0 < inp.amount <= 100_000_000 && inp.tier != Some(NoKyc)
                  && (inp.owner.Some? ==> MayBank(s.accounts, inp.owner.value, inp.kycApproved)))
            && (r.Ok? ==> r.value.db == s && IsEarlier(s, key, r.value.id))
  {
    if inp.owner.Some? {
      AccessIsMayBank(s, inp.owner.value, inp.kycApproved);
    }
    hide Post, BankingAccess, MayBank, FindByNumber, Outbound, WithinAggregateLimits;
  }

  /** The transfer that carries the key. */
  predicate IsEarlier(s: Db, key: Option<Key>, id: TransferId) {
    key.Some? && id < |s.transfers| && s.transfers[id].key == key
  }

  // ---------- rails ----------

  /** What a transfer on any rail needs before its accounts are looked at. */
  predicate RailChecked(s: Db, inp: TransferInput, vpaValid: bool)
    requires inp.owner.Some? && inp.tier.Some?
  {
    && 0 < inp.amount && MayBank(s.accounts, inp.owner.value, inp.kycApproved) && inp.tier.value != NoKyc
    && (inp.rail == Upi ==> vpaValid)
  }

  /** The account is active and can set the amount aside. */
  predicate HoldAllowed(accounts: seq<Account>, from: AccountId, amount: int) {
    && from < |accounts| && 0 < amount && accounts[from].status == Active
    && accounts[from].hold + amount <= accounts[from].balance
  }

  /** One more pending row and its amount held on the paying account; no balance,
    * no entry and no event. */
  predicate OnlyHolds(s: Db, db: Db, row: Transfer) {
    && row.from.Some? && row.from.value < |s.accounts|
    && |db.accounts| == |s.accounts|
    && (forall a :: 0 <= a < |s.accounts| ==>
          db.accounts[a] == s.accounts[a].(hold := s.accounts[a].hold
                                           + (if row.from == Some(a) then row.amount else 0)))
    && db == s.(accounts := db.accounts, transfers := s.transfers + [row])
  }

  /** NEFT and RTGS wait: with an unused key the amount is held exactly when
    * amount, access, tier and the paying account allow it, and the row that
    * promises it to the named account is pending. */
  lemma HeldExactlyWhen(z: Zone, s: Db, inp: TransferInput, vpaValid: bool, key: Option<Key>, now: int)
    requires inp.owner.Some? && inp.tier.Some? && (inp.rail == Neft || inp.rail == Rtgs)
    requires FindPrior(s.transfers, key).None?
    ensures var to := FindByNumber(s.accounts, inp.toNumber);
            var r := ExecuteRailTransfer(z, s, inp, vpaValid, key, now);
            && (r.Ok? <==>
                  RailChecked(s, inp, vpaValid) && to.Some? && HoldAllowed(s.accounts, inp.from, inp.amount))
            && (r.Ok? ==>
                  && r.value.id == |s.transfers|
                  && OnlyHolds(s, r.value.db,
                               Transfer(key, Some(inp.from), to.value, inp.amount, TransferKind, Pending, inp.rail, now,
                                        SentCategory(s.accounts, inp.from, to.value), None)))
  {
    AccessIsMayBank(s, inp.owner.value, inp.kycApproved);
    hide BankingAccess, MayBank, FindByNumber;
  }

  /** IMPS and UPI post at once: a transfer as any other, except that the
    * beneficiary's cooling period does not count. */
  lemma PostedAtOnceExactlyWhen(z: Zone, s: Db, inp: TransferInput, vpaValid: bool, key: Option<Key>, now: int)
    requires inp.owner.Some? && inp.tier.Some? && inp.rail != Neft && inp.rail != Rtgs
    requires FindPrior(s.transfers, key).None?
    ensures var to := FindByNumber(s.accounts, inp.toNumber);
            var r := ExecuteRailTransfer(z, s, inp, vpaValid, key, now);
            && (r.Ok? <==>
                  && RailChecked(s, inp, vpaValid) && inp.amount <= 100_000_000
                  && to.Some? && MaySendTo(s.accounts, inp.from, to.value)
                  && MoveAllowed(s.accounts, inp.from, to.value, inp.amount)
                  && LimitsAllow(z, s, inp, now))
            && (r.Ok? ==>
                  var row := Transfer(key, Some(inp.from), to.value, inp.amount, TransferKind, Posted, inp.rail, now,
                                      SentCategory(s.accounts, inp.from, to.value), None);
                  && r.value.id == |s.transfers| && OnlyPosts(s, r.value.db, row)
                  && r.value.db.disputes == s.disputes && r.value.db.events == s.events + [MovedNow(s, row)])
  {
    hide ExecuteTransfer, BankingAccess, MayBank, FindByNumber, MoveAllowed, OnlyPosts, MaySendTo, Outbound;
    AccessIsMayBank(s, inp.owner.value, inp.kycApproved);
    PostedExactlyWhen(z, s, inp.(beneficiaryCleared := true), key, now);
  }

  lemma RepeatedRailTransfer(z: Zone, s: Db, inp: TransferInput, vpaValid: bool, key: Option<Key>, now: int)
    requires inp.owner.Some? && inp.tier.Some? && FindPrior(s.transfers, key).Some?
    ensures var r := ExecuteRailTransfer(z, s, inp, vpaValid, key, now);
            && (r.Ok? <==>
                  && RailChecked(s, inp, vpaValid)
                  && (inp.rail == Neft || inp.rail == Rtgs || inp.amount <= 100_000_000))
            && (r.Ok? ==> r.value.db == s && IsEarlier(s, key, r.value.id))
  {
    hide ExecuteTransfer, BankingAccess, MayBank, FindByNumber;
    AccessIsMayBank(s, inp.owner.value, inp.kycApproved);
    RepeatedTransfer(z, s, inp.(beneficiaryCleared := true), key, now);
  }

  // ---------- the faucet ----------

  /** Free money up to Rs 1,00,000 a time reaches one active account, with one
    * credit entry and no debit. */
  lemma FaucetExactlyWhen(s: Db, to: AccountId, amount: int, key: Option<Key>, now: int)
    requires FindPrior(s.transfers, key).None?
    ensures var r := FaucetDeposit(s, to, amount, key, now);
            && (r.Ok? <==> 0 < amount <= 10_000_000 && to < |s.accounts| && s.accounts[to].status == Active)
            && (r.Ok? ==>
                  var n := |s.transfers|;
                  var balance := s.accounts[to].balance + amount;
                  var row := Transfer(key, None, to, amount, FaucetKind, Posted, Internal, now, FaucetMoney, None);
                  && r.value.id == n
                  && r.value.db == s.(accounts := s.accounts[to := s.accounts[to].(balance := balance)],
                                      transfers := s.transfers + [row],
                                      ledger := s.ledger + [LedgerEntry(to, n, CreditSide, amount, balance, now)],
                                      events := s.events + [MoneyMoved(n, None, to, amount, FaucetKind, now)]))
  {
  }

  lemma RepeatedFaucet(s: Db, to: AccountId, amount: int, key: Option<Key>, now: int)
    requires FindPrior(s.transfers, key).Some?
    ensures var r := FaucetDeposit(s, to, amount, key, now);
            && (r.Ok? <==> 0 < amount <= 10_000_000)
            && (r.Ok? ==> r.value.db == s && IsEarlier(s, key, r.value.id))
  {
  }

  // ---------- bills ----------

  /** The payer pays, the biller is paid: exactly when amount, access, an active
    * biller and both accounts allow it. Nothing asks whose account pays. */
  lemma BillPaidExactlyWhen(s: Db, user: UserId, kyc: bool, from: AccountId, biller: Biller, amount: int,
                            key: Option<Key>, now: int)
    requires FindPrior(s.transfers, key).None?
    ensures var r := PayBill(s, user, kyc, from, biller, amount, key, now);
            && (r.Ok? <==>
                  && amount <= 50_000_000 && MayBank(s.accounts, user, kyc)
                  && biller.ActiveBiller? && FindByNumber(s.accounts, biller.number).Some?
                  && MoveAllowed(s.accounts, from, FindByNumber(s.accounts, biller.number).value, amount))
            && (r.Ok? ==>
                  var to := FindByNumber(s.accounts, biller.number).value;
                  var row := Transfer(key, Some(from), to, amount, TransferKind, Posted, Internal, now, Bill, None);
                  && r.value.id == |s.transfers| && OnlyPosts(s, r.value.db, row)
                  && r.value.db.disputes == s.disputes
                  && r.value.db.events == s.events + [MovedNow(s, row), BillPaid(|s.transfers|, amount, now)])
  {
    AccessIsMayBank(s, user, kyc);
    if from < |s.accounts| && biller.ActiveBiller? && FindByNumber(s.accounts, biller.number).Some? {
      PostOutcome(s, Transfer(key, Some(from), FindByNumber(s.accounts, biller.number).value, amount, TransferKind,
                              Posted, Internal, now, Bill, None));
    }
    hide Post, MoveAllowed, BankingAccess, MayBank, FindByNumber;
  }

  lemma RepeatedBill(s: Db, user: UserId, kyc: bool, from: AccountId, biller: Biller, amount: int,
                     key: Option<Key>, now: int)
    requires FindPrior(s.transfers, key).Some?
    ensures var r := PayBill(s, user, kyc, from, biller, amount, key, now);
            && (r.Ok? <==> 0 < amount <= 50_000_000 && MayBank(s.accounts, user, kyc))
            && (r.Ok? ==> r.value.db == s && IsEarlier(s, key, r.value.id))
  {
    AccessIsMayBank(s, user, kyc);
    hide BankingAccess, MayBank;
  }

  // ---------- cards ----------

  /** What is checked before the key: the customer, the card, the merchant and
    * the card's three limits. */
  predicate SpendChecked(z: Zone, s: Db, user: UserId, kyc: bool, card: CardId, amount: int, merchant: Option<string>,
                         now: int)
  {
    && 0 < amount && MayBank(s.accounts, user, kyc)
    && card < |s.cards| && s.cards[card].active
    && s.cards[card].account < |s.accounts| && s.accounts[s.cards[card].account].userId == user
    && merchant.Some? && FindByNumber(s.accounts, merchant.value).Some?
    && amount <= s.cards[card].limits.perTxn
    && CardOutbound(s, card, z.dayStart(now)) + amount <= s.cards[card].limits.daily
    && CardOutbound(s, card, z.monthStart(now)) + amount <= s.cards[card].limits.monthly
  }

  /** The card's account pays, the merchant is paid: exactly when the checks and
    * both accounts allow it, and the row names the card. */
  lemma SpendPostedExactlyWhen(z: Zone, s: Db, user: UserId, kyc: bool, card: CardId, amount: int,
                               merchant: Option<string>, key: Option<Key>, now: int)
    requires FindPrior(s.transfers, key).None?
    ensures var r := SimulateCardSpend(z, s, user, kyc, card, amount, merchant, key, now);
            && (r.Ok? <==>
                  && SpendChecked(z, s, user, kyc, card, amount, merchant, now)
                  && MoveAllowed(s.accounts, s.cards[card].account, FindByNumber(s.accounts, merchant.value).value,
                                 amount))
            && (r.Ok? ==>
                  var from, to := s.cards[card].account, FindByNumber(s.accounts, merchant.value).value;
                  var row := Transfer(key, Some(from), to, amount, TransferKind, Posted, Internal, now, CardSpend,
                                      Some(card));
                  && r.value.id == |s.transfers| && OnlyPosts(s, r.value.db, row)
                  && r.value.db.disputes == s.disputes
                  && r.value.db.events == s.events + [MovedNow(s, row), CardSpent(card, |s.transfers|, amount, now)])
  {
    AccessIsMayBank(s, user, kyc);
    if && card < |s.cards| && s.cards[card].account < |s.accounts|
       && merchant.Some? && FindByNumber(s.accounts, merchant.value).Some?
    {
      PostOutcome(s, Transfer(key, Some(s.cards[card].account), FindByNumber(s.accounts, merchant.value).value, amount,
                              TransferKind, Posted, Internal, now, CardSpend, Some(card)));
    }
    hide Post, MoveAllowed, BankingAccess, MayBank, FindByNumber, CardOutbound;
  }

  lemma RepeatedSpend(z: Zone, s: Db, user: UserId, kyc: bool, card: CardId, amount: int,
                      merchant: Option<string>, key: Option<Key>, now: int)
    requires FindPrior(s.transfers, key).Some?
    ensures var r := SimulateCardSpend(z, s, user, kyc, card, amount, merchant, key, now);
            && (r.Ok? <==> SpendChecked(z, s, user, kyc, card, amount, merchant, now))
            && (r.Ok? ==> r.value.db == s && IsEarlier(s, key, r.value.id))
  {
    AccessIsMayBank(s, user, kyc);
    hide BankingAccess, MayBank, FindByNumber, CardOutbound;
  }

  // ---------- disputes ----------

  predicate Owns(accounts: seq<Account>, user: UserId, account: AccountId) {
    account < |accounts| && accounts[account].userId == user
  }

  /** A dispute can be filed by the owner of either account of any transfer. */
  lemma FiledExactlyWhen(s: Db, user: UserId, transfer: TransferId)
    ensures var r := FileDispute(s, user, transfer);
            && (r.Ok? <==>
                  && transfer < |s.transfers|
                  && var t := s.transfers[transfer];
                     (t.from.Some? && Owns(s.accounts, user, t.from.value)) || Owns(s.accounts, user, t.to))
            && (r.Ok? ==> r.value == s.(disputes := s.disputes + [Dispute(user, transfer, Submitted, None)]))
  {
  }

  /** The dispute is still open. */
  predicate Undecided(s: Db, id: nat) {
    id < |s.disputes| && (s.disputes[id].status == Submitted || s.disputes[id].status == UnderReview)
  }

  /** The money of the disputed transfer can be given back. */
  predicate Reversible(s: Db, transfer: TransferId) {
    && transfer < |s.transfers| && s.transfers[transfer].from.Some?
    && MoveAllowed(s.accounts, s.transfers[transfer].to, s.transfers[transfer].from.value, s.transfers[transfer].amount)
  }

  /** A rejection changes the dispute's status and nothing else. */
  lemma RejectedExactlyWhen(s: Db, id: nat, now: int)
    ensures var r := DecideDispute(s, id, false, now);
            && (r.Ok? <==> Undecided(s, id))
            && (r.Ok? ==> r.value == s.(disputes := s.disputes[id := s.disputes[id].(status := Rejected)]))
  {
  }

  /** An approval gives the money back: it succeeds exactly when the receiving
    * account can return the amount, which then goes from it to the account
    * that had sent it, on a posted reversal that the dispute records. */
  lemma ReversedExactlyWhen(s: Db, id: nat, now: int)
    ensures var r := DecideDispute(s, id, true, now);
            && (r.Ok? <==> Undecided(s, id) && Reversible(s, s.disputes[id].transfer))
            && (r.Ok? ==>
                  var original := s.transfers[s.disputes[id].transfer];
                  var sender, receiver := original.from.value, original.to;
                  var row := Transfer(None, Some(receiver), sender, original.amount, ReversalKind, Posted, Internal,
                                      now, original.category, None);
                  && OnlyPosts(s, r.value, row) && r.value.events == s.events + [MovedNow(s, row)]
                  && r.value.disputes
                     == s.disputes[id := s.disputes[id].(status := Approved, reversal := Some(|s.transfers|))])
  {
    if id < |s.disputes| && s.disputes[id].transfer < |s.transfers| {
      var original := s.transfers[s.disputes[id].transfer];
      if original.from.Some? && HasAccounts(s, original) {
        PostOutcome(s, Transfer(None, Some(original.to), original.from.value, original.amount, ReversalKind, Posted,
                                Internal, now, original.category, None));
      }
    }
    hide Post;
  }

  /** So for a transfer between two accounts an approval raises the sender's
    * balance by the amount, lowers the receiver's by it, and no other. */
  lemma ApprovalGivesBack(s: Db, id: nat, now: int)
    requires DecideDispute(s, id, true, now).Ok?
    ensures id < |s.disputes| && s.disputes[id].transfer < |s.transfers|
    ensures var original := s.transfers[s.disputes[id].transfer];
            var db := DecideDispute(s, id, true, now).value;
            && original.from.Some? && original.from.value < |s.accounts| == |db.accounts| && original.to < |s.accounts|
            && (original.from.value != original.to ==>
                  forall a :: 0 <= a < |s.accounts| ==>
                    db.accounts[a].balance - s.accounts[a].balance
                    == if a == original.from.value then original.amount
                       else if a == original.to then -original.amount else 0)
  {
    ReversedExactlyWhen(s, id, now);
    hide DecideDispute;
  }
}
