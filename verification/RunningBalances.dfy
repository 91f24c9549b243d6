/**
 * What the ledger says of each account: its entries add up to its balance and
 * to every running balance, but for the amounts of postings from the account
 * to itself and for what deposit calls moved without an entry.
 */
module RunningBalances {
  import opened Prelude
  import opened Zones
  import opened Accounts
  import opened FixedDeposits
  import opened Tables
  import opened UseCases
  import opened Books
  import BooksKept
  import opened Journal
  import opened Settlement
  import opened Runs
  import opened History
  import opened Guarantees
  import opened Conservation

  // ---------- the effect of an entry ----------

  /** The entry credits an account with a transfer of its own. */
  predicate IsOwnCredit(transfers: seq<Transfer>, e: LedgerEntry) {
    e.side == CreditSide && e.transfer < |transfers| && transfers[e.transfer].from == Some(e.account)
  }

  function OwnFn(transfers: seq<Transfer>, a: AccountId): LedgerEntry -> int {
    (e: LedgerEntry) => if e.account == a && IsOwnCredit(transfers, e) then e.amount else 0
  }

  /** What writing the entry does to the balance: the credit of an own posting,
    * computed from the row before the debit, also undoes that debit. */
  function EffectFn(transfers: seq<Transfer>, a: AccountId): LedgerEntry -> int {
    (e: LedgerEntry) =>
      if e.account != a then 0
      else if e.side == DebitSide then -e.amount
      else if IsOwnCredit(transfers, e) then 2 * e.amount else e.amount
  }

  function BalanceOf(s: Db, a: AccountId): int {
    if a < |s.accounts| then s.accounts[a].balance else 0
  }

  /** What an account's balance owes to moves without entries. */
  function Offset(s: Db, a: AccountId): int {
    BalanceOf(s, a) - Sum(s.ledger, EffectFn(s.transfers, a))
  }

  /** The same of a running balance, at the time its entry was written. */
  function EntryOffset(s: Db, k: nat): int
    requires k < |s.ledger|
  {
    s.ledger[k].running - Sum(s.ledger[..k + 1], EffectFn(s.transfers, s.ledger[k].account))
  }

  /** The credit of an own posting directly follows its debit. */
  predicate OwnPairAt(s: Db, k: nat)
    requires k < |s.ledger|
  {
    IsOwnCredit(s.transfers, s.ledger[k]) ==>
      && k > 0
      && s.ledger[k - 1].account == s.ledger[k].account
      && s.ledger[k - 1].postedAt == s.ledger[k].postedAt
      && s.ledger[k - 1].side == DebitSide
      && OwnPosting(s.transfers[s.ledger[k].transfer], s.ledger[k].account)
  }

  predicate EntriesIn(s: Db) {
    forall k :: 0 <= k < |s.ledger| ==> s.ledger[k].transfer < |s.transfers|
  }

  /** The tables grew, and money moved only with entries that say so. */
  ghost predicate Follows(s: Db, db: Db) {
    && s.ledger <= db.ledger
    && EntriesIn(db)
    && TransfersKept(s.transfers, db.transfers)
    && (forall a: nat :: Offset(db, a) == Offset(s, a))
    && (forall k :: |s.ledger| <= k < |db.ledger| ==>
          EntryOffset(db, k) == Offset(s, db.ledger[k].account) && OwnPairAt(db, k))
  }

  /** Later tables give an earlier entry the same effect. */
  lemma {:induction false} EffectKept(ledger: seq<LedgerEntry>, transfers: seq<Transfer>, more: seq<Transfer>,
                                      a: AccountId)
    requires TransfersKept(transfers, more)
    requires forall k :: 0 <= k < |ledger| ==> ledger[k].transfer < |transfers|
    ensures Sum(ledger, EffectFn(more, a)) == Sum(ledger, EffectFn(transfers, a))
  {
    forall k | 0 <= k < |ledger| ensures EffectFn(more, a)(ledger[k]) == EffectFn(transfers, a)(ledger[k]) {
      assert RowKept(transfers[ledger[k].transfer], more[ledger[k].transfer]);
    }
    SumSame(ledger, EffectFn(more, a), EffectFn(transfers, a));
  }

  /** So an entry keeps its offset and its pair. */
  lemma EntryStays(s: Db, db: Db, k: nat)
    requires EntriesIn(s) && s.ledger <= db.ledger && TransfersKept(s.transfers, db.transfers) && k < |s.ledger|
    ensures EntryOffset(db, k) == EntryOffset(s, k)
    ensures OwnPairAt(s, k) ==> OwnPairAt(db, k)
  {
    assert db.ledger[..k + 1] == s.ledger[..k + 1];
    EffectKept(s.ledger[..k + 1], s.transfers, db.transfers, s.ledger[k].account);
    assert RowKept(s.transfers[s.ledger[k].transfer], db.transfers[s.ledger[k].transfer]);
  }

  lemma KeptTwice(a: seq<Transfer>, b: seq<Transfer>, c: seq<Transfer>)
    requires TransfersKept(a, b) && TransfersKept(b, c)
    ensures TransfersKept(a, c)
  {
    forall i | 0 <= i < |a| ensures RowKept(a[i], c[i]) {
      assert RowKept(a[i], b[i]) && RowKept(b[i], c[i]);
    }
  }

  lemma FollowsChain(r: Db, s: Db, t: Db)
    requires EntriesIn(s) && Follows(r, s) && Follows(s, t)
    ensures Follows(r, t)
  {
    hide Offset, EntryOffset, OwnPairAt, EntriesIn;
    hide TransfersKept;
    KeptTwice(r.transfers, s.transfers, t.transfers);
    forall k | |r.ledger| <= k < |t.ledger|
      ensures EntryOffset(t, k) == Offset(r, t.ledger[k].account) && OwnPairAt(t, k)
    {
      if k < |s.ledger| {
        EntryStays(s, t, k);
      }
    }
  }

  // ---------- single changes ----------

  /** The effect of two new entries, and of the first of them. */
  lemma PairEffect(s: Db, db: Db, a: AccountId)
    requires EntriesIn(s) && TransfersKept(s.transfers, db.transfers)
    requires |db.ledger| == |s.ledger| + 2 && db.ledger[..|s.ledger|] == s.ledger
    ensures var n := |s.ledger|;
            var f := EffectFn(db.transfers, a);
            && Sum(db.ledger[..n + 1], f) == Sum(s.ledger, EffectFn(s.transfers, a)) + f(db.ledger[n])
            && Sum(db.ledger, f) == Sum(s.ledger, EffectFn(s.transfers, a)) + f(db.ledger[n]) + f(db.ledger[n + 1])
            && db.ledger[..n + 2] == db.ledger
  {
    var n := |s.ledger|;
    EffectKept(s.ledger, s.transfers, db.transfers, a);
    assert db.ledger[..n + 1] == s.ledger + [db.ledger[n]];
    assert db.ledger == db.ledger[..n + 1] + [db.ledger[n + 1]];
    SumAppend(s.ledger, db.ledger[n], EffectFn(db.transfers, a));
    SumAppend(db.ledger[..n + 1], db.ledger[n + 1], EffectFn(db.transfers, a));
  }

  /** A transfer of `amount` booked by one pair of entries, both account rows
    * computed from the rows as read. */
  predicate Moves(s: Db, db: Db, from: AccountId, to: AccountId, t: TransferId, amount: int, at: int) {
    && TransfersKept(s.transfers, db.transfers)
    && from < |s.accounts| && to < |s.accounts| == |db.accounts|
    && t < |db.transfers| && db.transfers[t].from == Some(from) && db.transfers[t].to == to
    && db.transfers[t].status == Posted
    && (forall a :: 0 <= a < |s.accounts| ==>
          db.accounts[a].balance
          == s.accounts[a].balance + (if a == to then amount else if a == from then -amount else 0))
    && db.ledger == s.ledger
         + [LedgerEntry(from, t, DebitSide, amount, s.accounts[from].balance - amount, at),
            LedgerEntry(to, t, CreditSide, amount, s.accounts[to].balance + amount, at)]
  }

  lemma MovesOffset(s: Db, db: Db, from: AccountId, to: AccountId, t: TransferId, amount: int, at: int, a: AccountId)
    requires EntriesIn(s) && Moves(s, db, from, to, t, amount, at)
    ensures Offset(db, a) == Offset(s, a)
  {
    PairEffect(s, db, a);
    hide EntriesIn, TransfersKept;
  }

  lemma MovesEntries(s: Db, db: Db, from: AccountId, to: AccountId, t: TransferId, amount: int, at: int)
    requires EntriesIn(s) && Moves(s, db, from, to, t, amount, at)
    ensures var n := |s.ledger|;
            && EntryOffset(db, n) == Offset(s, from) && OwnPairAt(db, n)
            && EntryOffset(db, n + 1) == Offset(s, to) && OwnPairAt(db, n + 1)
  {
    PairEffect(s, db, from);
    PairEffect(s, db, to);
    hide EntriesIn, TransfersKept;
  }

  lemma MovesFollows(s: Db, db: Db, from: AccountId, to: AccountId, t: TransferId, amount: int, at: int)
    requires EntriesIn(s) && Moves(s, db, from, to, t, amount, at)
    ensures Follows(s, db)
  {
    hide Offset, EntryOffset, OwnPairAt;
    forall a: nat ensures Offset(db, a) == Offset(s, a) {
      MovesOffset(s, db, from, to, t, amount, at, a);
    }
    MovesEntries(s, db, from, to, t, amount, at);
  }

  lemma PostFollows(s: Db, row: Transfer)
    requires EntriesIn(s) && HasAccounts(s, row) && row.from.Some? && row.status == Posted && Post(s, row).Ok?
    ensures Follows(s, Post(s, row).value)
  {
    var db := Post(s, row).value;
    assert db.ledger == s.ledger
      + [LedgerEntry(row.from.value, |s.transfers|, DebitSide, row.amount,
                     s.accounts[row.from.value].balance - row.amount, row.postedAt),
         LedgerEntry(row.to, |s.transfers|, CreditSide, row.amount, s.accounts[row.to].balance + row.amount,
                     row.postedAt)];
    MovesFollows(s, db, row.from.value, row.to, |s.transfers|, row.amount, row.postedAt);
  }

  lemma SettleFollows(s: Db, id: TransferId, now: int)
    requires EntriesIn(s) && BooksKept.Settles(s, id, now)
    ensures Follows(s, SettleOne(s, id, now).value)
  {
    var row, db := s.transfers[id], SettleOne(s, id, now).value;
    assert db.transfers[id] == SettledRow(row, now);
    assert db.ledger == s.ledger
      + [LedgerEntry(row.from.value, id, DebitSide, row.amount, s.accounts[row.from.value].balance - row.amount, now),
         LedgerEntry(row.to, id, CreditSide, row.amount, s.accounts[row.to].balance + row.amount, now)];
    MovesFollows(s, db, row.from.value, row.to, id, row.amount, now);
  }

  /** The effect of one new entry. */
  lemma EntryEffect(s: Db, db: Db, e: LedgerEntry, a: AccountId)
    requires EntriesIn(s) && TransfersKept(s.transfers, db.transfers) && db.ledger == s.ledger + [e]
    ensures Sum(db.ledger, EffectFn(db.transfers, a))
            == Sum(s.ledger, EffectFn(s.transfers, a)) + EffectFn(db.transfers, a)(e)
    ensures db.ledger[..|s.ledger| + 1] == db.ledger
  {
    EffectKept(s.ledger, s.transfers, db.transfers, a);
    SumAppend(s.ledger, e, EffectFn(db.transfers, a));
  }

  lemma DepositOffset(s: Db, row: Transfer, a: AccountId)
    requires EntriesIn(s) && HasAccounts(s, row) && row.from.None? && PostDeposit(s, row).Ok?
    ensures var db := PostDeposit(s, row).value;
            && db.ledger == s.ledger + [db.ledger[|s.ledger|]]
            && db.ledger[|s.ledger|].account == row.to
            && Offset(db, a) == Offset(s, a)
            && EntryOffset(db, |s.ledger|) == Offset(s, row.to)
            && OwnPairAt(db, |s.ledger|)
  {
    var db := PostDeposit(s, row).value;
    EntryEffect(s, db, db.ledger[|s.ledger|], a);
    EntryEffect(s, db, db.ledger[|s.ledger|], row.to);
    hide EntriesIn, TransfersKept;
  }

  lemma DepositFollows(s: Db, row: Transfer)
    requires EntriesIn(s) && HasAccounts(s, row) && row.from.None? && PostDeposit(s, row).Ok?
    ensures Follows(s, PostDeposit(s, row).value)
  {
    hide Offset, EntryOffset, OwnPairAt;
    forall a: nat ensures Offset(PostDeposit(s, row).value, a) == Offset(s, a) {
      DepositOffset(s, row, a);
    }
    DepositOffset(s, row, row.to);
  }

  /** No entry, no balance changed. */
  lemma SameBalances(s: Db, db: Db)
    requires EntriesIn(s) && db.ledger == s.ledger && TransfersKept(s.transfers, db.transfers)
    requires forall a: nat :: BalanceOf(db, a) == BalanceOf(s, a)
    ensures Follows(s, db)
  {
    forall a: nat ensures Offset(db, a) == Offset(s, a) {
      EffectKept(s.ledger, s.transfers, db.transfers, a);
    }
  }

  lemma FollowsFrame(s: Db, db: Db, other: Db)
    requires Follows(s, db)
    requires other.accounts == db.accounts && other.transfers == db.transfers && other.ledger == db.ledger
    ensures Follows(s, other)
  {
    forall a: nat ensures Offset(other, a) == Offset(s, a) {
      assert Offset(db, a) == Offset(s, a);
    }
    forall k | |s.ledger| <= k < |other.ledger|
      ensures EntryOffset(other, k) == Offset(s, other.ledger[k].account) && OwnPairAt(other, k)
    {
      assert EntryOffset(db, k) == Offset(s, db.ledger[k].account) && OwnPairAt(db, k);
    }
  }

  // ---------- the services ----------

  lemma Unmoved(s: Db)
    requires EntriesIn(s)
    ensures Follows(s, s)
  {
    SameBalances(s, s);
  }

  lemma TransferFollows(z: Zone, s: Db, inp: TransferInput, key: Option<Key>, now: int)
    requires EntriesIn(s)
    ensures Follows(s, AfterPosting(s, ExecuteTransfer(z, s, inp, key, now)))
  {
    hide Follows, EntriesIn;
    Unmoved(s);
    var r := ExecuteTransfer(z, s, inp, key, now);
    if r.Ok? && FindPrior(s.transfers, key).None? {
      PostFollows(s, TransferRow(s, inp, FindByNumber(s.accounts, inp.toNumber).value, key, Posted, now));
    }
  }

  lemma PendingFollows(s: Db, inp: TransferInput, key: Option<Key>, now: int)
    requires EntriesIn(s)
    ensures Follows(s, AfterPosting(s, CreatePendingRailTransfer(s, inp, key, now)))
  {
    hide Follows, EntriesIn;
    SameBalances(s, AfterPosting(s, CreatePendingRailTransfer(s, inp, key, now)));
  }

  lemma RailFollows(z: Zone, s: Db, inp: TransferInput, vpaValid: bool, key: Option<Key>, now: int)
    requires EntriesIn(s) && inp.owner.Some? && inp.tier.Some?
    ensures Follows(s, AfterPosting(s, ExecuteRailTransfer(z, s, inp, vpaValid, key, now)))
  {
    hide Follows, EntriesIn, ExecuteTransfer, CreatePendingRailTransfer;
    Unmoved(s);
    PendingFollows(s, inp, key, now);
    TransferFollows(z, s, inp.(beneficiaryCleared := true), key, now);
  }

  lemma FaucetFollows(s: Db, to: AccountId, amount: int, key: Option<Key>, now: int)
    requires EntriesIn(s)
    ensures Follows(s, AfterPosting(s, FaucetDeposit(s, to, amount, key, now)))
  {
    hide Follows, EntriesIn;
    Unmoved(s);
    var r := FaucetDeposit(s, to, amount, key, now);
    if r.Ok? && FindPrior(s.transfers, key).None? {
      DepositFollows(s, Transfer(key, None, to, amount, FaucetKind, Posted, Internal, now, FaucetMoney, None));
    }
  }

  lemma BillFollows(s: Db, user: UserId, kyc: bool, from: AccountId, biller: Biller, amount: int, key: Option<Key>,
                    now: int)
    requires EntriesIn(s)
    ensures Follows(s, AfterPosting(s, PayBill(s, user, kyc, from, biller, amount, key, now)))
  {
    hide Follows, EntriesIn;
    Unmoved(s);
    var r := PayBill(s, user, kyc, from, biller, amount, key, now);
    if r.Ok? && FindPrior(s.transfers, key).None? {
      var to := FindByNumber(s.accounts, biller.number).value;
      var row := Transfer(key, Some(from), to, amount, TransferKind, Posted, Internal, now, Bill, None);
      PostFollows(s, row);
      FollowsFrame(s, Post(s, row).value, r.value.db);
    }
  }

  lemma CardFollows(z: Zone, s: Db, user: UserId, kyc: bool, card: CardId, amount: int, merchant: Option<string>,
                    key: Option<Key>, now: int)
    requires EntriesIn(s)
    ensures Follows(s, AfterPosting(s, SimulateCardSpend(z, s, user, kyc, card, amount, merchant, key, now)))
  {
    hide Follows, EntriesIn;
    Unmoved(s);
    var r := SimulateCardSpend(z, s, user, kyc, card, amount, merchant, key, now);
    if r.Ok? && FindPrior(s.transfers, key).None? {
      var row := CardRow(s, card, amount, merchant.value, key, now);
      PostFollows(s, row);
      FollowsFrame(s, Post(s, row).value, r.value.db);
    }
  }

  lemma DisputeFollows(s: Db, id: nat, approve: bool, now: int)
    requires EntriesIn(s)
    ensures Follows(s, After(s, DecideDispute(s, id, approve, now)))
  {
    hide Follows, EntriesIn;
    Unmoved(s);
    var r := DecideDispute(s, id, approve, now);
    if r.Ok? && approve {
      var original := s.transfers[s.disputes[id].transfer];
      var row := Transfer(None, Some(original.to), original.from.value, original.amount, ReversalKind,
                          Posted, Internal, now, original.category, None);
      PostFollows(s, row);
      FollowsFrame(s, Post(s, row).value, r.value);
    } else if r.Ok? {
      FollowsFrame(s, s, r.value);
    }
  }

  lemma {:induction false} SettleListFollows(s: Db, ids: seq<TransferId>, now: int)
    requires EntriesIn(s) && forall i :: 0 <= i < |ids| ==> ids[i] < |s.transfers|
    ensures Follows(s, SettleList(s, ids, now).db)
  {
    if |ids| == 0 {
      Unmoved(s);
    } else {
      var n := |ids| - 1;
      SettleListFollows(s, ids[..n], now);
      var db := SettleList(s, ids[..n], now).db;
      assert EntriesIn(db);
      hide Follows, EntriesIn;
      if BooksKept.Settles(db, ids[n], now) {
        SettleFollows(db, ids[n], now);
        FollowsChain(s, db, SettleOne(db, ids[n], now).value);
      }
    }
  }

  lemma SettleRailFollows(s: Db, rail: Rail, now: int)
    requires EntriesIn(s)
    ensures Follows(s, SettlePendingTransfers(s, rail, now).db)
  {
    hide Follows, EntriesIn, SettleList;
    var ids := ListPendingByRail(s.transfers, rail);
    SettleListFollows(s, ids, now);
    FollowsFrame(s, SettleList(s, ids, now).db, SettlePendingTransfers(s, rail, now).db);
  }

  lemma RunOneFollows(z: Zone, s: Db, id: InstructionId, si: Instruction, beneficiaries: map<nat, string>, fate: Fate,
                      now: int)
    requires EntriesIn(s) && id < |s.instructions|
    ensures Follows(s, RunOne(z, s, id, si, beneficiaries, fate, now).db)
  {
    hide Follows, EntriesIn, ExecuteTransfer;
    Unmoved(s);
    var db := RunOne(z, s, id, si, beneficiaries, fate, now).db;
    if si.beneficiary in beneficiaries {
      var sent := ExecuteTransfer(z, s, StandingInput(si, beneficiaries[si.beneficiary]),
                                  Some(Standing(id, si.nextRunAt)), now);
      TransferFollows(z, s, StandingInput(si, beneficiaries[si.beneficiary]), Some(Standing(id, si.nextRunAt)), now);
      if sent.Ok? && db.ledger == sent.value.db.ledger && db.transfers == sent.value.db.transfers
         && db.accounts == sent.value.db.accounts {
        FollowsFrame(s, sent.value.db, db);
      } else {
        FollowsFrame(s, s, db);
      }
    } else {
      FollowsFrame(s, s, db);
    }
  }

  lemma {:induction false} RunListFollows(z: Zone, s: Db, ids: seq<InstructionId>, beneficiaries: map<nat, string>,
                                          fates: InstructionId -> Fate, now: int)
    requires EntriesIn(s) && forall i :: 0 <= i < |ids| ==> ids[i] < |s.instructions|
    ensures Follows(s, RunList(z, s, ids, beneficiaries, fates, now).db)
  {
    if |ids| == 0 {
      Unmoved(s);
    } else {
      var n := |ids| - 1;
      RunListFollows(z, s, ids[..n], beneficiaries, fates, now);
      var r := RunList(z, s, ids[..n], beneficiaries, fates, now);
      assert EntriesIn(r.db);
      hide Follows, EntriesIn, RunOne;
      if !r.stopped {
        RunOneFollows(z, r.db, ids[n], r.db.instructions[ids[n]], beneficiaries, fates(ids[n]), now);
        FollowsChain(s, r.db, RunList(z, s, ids, beneficiaries, fates, now).db);
      }
    }
  }

  lemma RunDueFollows(z: Zone, s: Db, beneficiaries: map<nat, string>, fates: InstructionId -> Fate, now: int)
    requires EntriesIn(s)
    ensures Follows(s, RunDueInstructions(z, s, beneficiaries, fates, now).db)
  {
    hide Follows, EntriesIn, RunList;
    RunListFollows(z, s, ListDue(s.instructions, now), beneficiaries, fates, now);
  }

  lemma PostingStepFollows(z: Zone, s: Db, c: Call)
    requires EntriesIn(s) && PostingStep(c.step)
    ensures Follows(s, Apply(z, s, c))
  {
    hide Follows, EntriesIn, FaucetDeposit, ExecuteTransfer, ExecuteRailTransfer, PayBill, SimulateCardSpend,
         DecideDispute;
    match c.step
    case Faucet(account, amount, key) => FaucetFollows(s, account, amount, key, c.now);
    case Send(inp, key) => TransferFollows(z, s, inp, key, c.now);
    case SendByRail(inp, user, tier, vpaValid, key) =>
      RailFollows(z, s, RailInput(inp, user, tier), vpaValid, key, c.now);
    case PayTheBill(user, kyc, account, biller, amount, key) =>
      BillFollows(s, user, kyc, account, biller, amount, key, c.now);
    case SpendByCard(user, kyc, card, amount, merchant, key) =>
      CardFollows(z, s, user, kyc, card, amount, merchant, key, c.now);
    case Decide(dispute, approve) => DisputeFollows(s, dispute, approve, c.now);
  }

  lemma BatchStepFollows(z: Zone, s: Db, c: Call)
    requires EntriesIn(s) && BatchStep(c.step)
    ensures Follows(s, Apply(z, s, c))
  {
    hide Follows, EntriesIn, SettlePendingTransfers, RunDueInstructions;
    match c.step
    case SettleRail(rail) => SettleRailFollows(s, rail, c.now);
    case RunDue(beneficiaries, fates) => RunDueFollows(z, s, beneficiaries, fates, c.now);
  }

  lemma HolderStepFollows(z: Zone, s: Db, c: Call)
    requires EntriesIn(s) && !PostingStep(c.step) && !BatchStep(c.step) && !DepositStep(c.step)
    ensures Follows(s, Apply(z, s, c))
  {
    hide Follows, EntriesIn, Involves, BankingAccess;
    SameBalances(s, Apply(z, s, c));
  }

  /** Outside deposits money moves only with entries. */
  lemma StepFollows(z: Zone, s: Db, c: Call)
    requires EntriesIn(s) && !DepositStep(c.step)
    ensures Follows(s, Apply(z, s, c))
  {
    hide Follows, EntriesIn, Apply;
    if PostingStep(c.step) {
      PostingStepFollows(z, s, c);
    } else if BatchStep(c.step) {
      BatchStepFollows(z, s, c);
    } else {
      HolderStepFollows(z, s, c);
    }
  }

  // ---------- deposits ----------

  /** What paying a deposit out moves in an account, without an entry. */
  function PayOutMove(s: Db, id: nat, interest: int, a: AccountId): int
    requires id < |s.deposits| && s.deposits[id].account < |s.accounts|
  {
    var d := s.deposits[id];
    (if a == d.account then -s.accounts[a].balance else 0) + (if a == d.payout then d.principal + interest else 0)
  }

  function MaturityMoves(s: Db, ids: seq<nat>, a: AccountId): int {
    if |ids| == 0 then 0
    else
      var id := ids[|ids| - 1];
      MaturityMoves(s, ids[..|ids| - 1], a)
      + (if CanPayOut(s, id) then PayOutMove(s, id, MaturityInterest(s.deposits[id]), a) else 0)
  }

  /** What a call moves in an account without an entry: the principal from the
    * payout account into the deposit's, or all of the latter out and principal
    * and interest into the former. Calls that are not listed move nothing so. */
  function Moved(z: Zone, s: Db, c: Call, a: AccountId): int {
    match c.step
    case OpenDeposit(user, payout, principal, tenureMonths, number) =>
      if OpenFixedDeposit(z, s, user, payout, principal, tenureMonths, number, c.now).Ok?
      then (if a == payout then -principal else 0) + (if a == |s.accounts| then principal else 0)
      else 0
    case MatureDue => MaturityMoves(s, ListDueForMaturity(s.deposits, c.now), a)
    case CloseEarly(user, id) =>
      if PrematureCloseFixedDeposit(s, user, id, c.now).Ok?
      then PayOutMove(s, id, PrematureInterest(s.deposits[id], c.now), a)
      else 0
    case _ => 0
  }

  lemma OpenMoves(z: Zone, s: Db, c: Call, a: AccountId)
    requires c.step.OpenDeposit?
    ensures BalanceOf(Apply(z, s, c), a) == BalanceOf(s, a) + Moved(z, s, c, a)
    ensures Apply(z, s, c).transfers == s.transfers && Apply(z, s, c).ledger == s.ledger
  {
    hide NewDeposit;
  }

  lemma CloseEarlyMoves(z: Zone, s: Db, c: Call, a: AccountId)
    requires DepositsOk(s.accounts, s.deposits) && c.step.CloseEarly?
    ensures BalanceOf(Apply(z, s, c), a) == BalanceOf(s, a) + Moved(z, s, c, a)
    ensures Apply(z, s, c).transfers == s.transfers && Apply(z, s, c).ledger == s.ledger
  {
    hide PrematureInterest;
    if PrematureCloseFixedDeposit(s, c.step.user, c.step.deposit, c.now).Ok? {
      assert DepositOk(s.accounts, s.deposits[c.step.deposit]);
    }
  }

  lemma MatureItemMoves(s: Db, db: Db, ids: seq<nat>, id: nat, a: AccountId)
    requires DepositsOk(s.accounts, s.deposits) && OthersUntouched(s, db, ids)
    requires id < |s.deposits| && id !in ids && s.deposits[id].status == ActiveDeposit && MatureOne(db, id).Ok?
    ensures s.deposits[id].account < |s.accounts|
    ensures BalanceOf(MatureOne(db, id).value, a)
            == BalanceOf(db, a) + PayOutMove(s, id, MaturityInterest(s.deposits[id]), a)
    ensures MatureOne(db, id).value.ledger == db.ledger && MatureOne(db, id).value.transfers == db.transfers
  {
    hide MaturityInterest;
    assert DepositOk(s.accounts, s.deposits[id]);
    assert db.deposits[id] == s.deposits[id];
  }

  lemma MatureNextMoves(s: Db, db: Db, ids: seq<nat>, id: nat, now: int, a: AccountId)
    requires Inv(s, now) && Inv(db, now) && OthersUntouched(s, db, ids)
    requires id < |s.deposits| == |db.deposits| && id !in ids && s.deposits[id].status == ActiveDeposit
    ensures CanPayOut(s, id) ==> s.deposits[id].account < |s.accounts|
    ensures var r := MatureOne(db, id);
            && (r.Ok? <==> CanPayOut(s, id))
            && (r.Ok? ==>
                  && r.value.ledger == db.ledger && r.value.transfers == db.transfers
                  && BalanceOf(r.value, a) == BalanceOf(db, a) + PayOutMove(s, id, MaturityInterest(s.deposits[id]), a))
  {
    DepositsOfInv(s, now);
    hide Inv, Total, MatureOne, PayOutMove, BalanceOf, OthersUntouched, DepositsOk;
    MatureItemTotal(s, db, ids, id, now);
    if MatureOne(db, id).Ok? {
      MatureItemMoves(s, db, ids, id, a);
    }
  }

  lemma {:induction false} MatureListMoves(s: Db, ids: seq<nat>, now: int, a: AccountId)
    requires Inv(s, now) && Distinct(ids)
    requires forall i :: 0 <= i < |ids| ==> ids[i] < |s.deposits| && s.deposits[ids[i]].status == ActiveDeposit
    ensures BalanceOf(MatureList(s, ids).db, a) == BalanceOf(s, a) + MaturityMoves(s, ids, a)
    ensures MatureList(s, ids).db.ledger == s.ledger && MatureList(s, ids).db.transfers == s.transfers
  {
    if |ids| > 0 {
      hide Inv, MatureList, MaturityMoves, BalanceOf;
      MatureListMoves(s, ids[..|ids| - 1], now, a);
      MatureLastMoves(s, ids, now, a);
    }
  }

  lemma MatureLastMoves(s: Db, ids: seq<nat>, now: int, a: AccountId)
    requires Inv(s, now) && Distinct(ids) && |ids| > 0
    requires forall i :: 0 <= i < |ids| ==> ids[i] < |s.deposits| && s.deposits[ids[i]].status == ActiveDeposit
    ensures var n := |ids| - 1;
            var earlier, db := MatureList(s, ids[..n]).db, MatureList(s, ids).db;
            && BalanceOf(db, a) - BalanceOf(earlier, a) == MaturityMoves(s, ids, a) - MaturityMoves(s, ids[..n], a)
            && db.ledger == earlier.ledger && db.transfers == earlier.transfers
  {
    hide Inv, Total, MatureOne, CanPayOut, PayOutMove, BalanceOf, OthersUntouched, MaturityInterest;
    var n := |ids| - 1;
    MatureListTotal(s, ids[..n], now);
    MatureListKeeps(s, ids[..n], now);
    assert ids[n] !in ids[..n];
    MatureNextMoves(s, MatureList(s, ids[..n]).db, ids[..n], ids[n], now, a);
  }

  lemma DepositsOfInv(s: Db, now: int)
    requires Inv(s, now)
    ensures DepositsOk(s.accounts, s.deposits)
  {
  }

  lemma MatureDueMoves(z: Zone, s: Db, c: Call, a: AccountId)
    requires Inv(s, c.now) && c.step.MatureDue?
    ensures BalanceOf(Apply(z, s, c), a) == BalanceOf(s, a) + Moved(z, s, c, a)
    ensures Apply(z, s, c).transfers == s.transfers && Apply(z, s, c).ledger == s.ledger
  {
    MaturityListing(s.deposits, c.now);
    hide Inv, MatureList, MaturityMoves, ListDueForMaturity, BalanceOf;
    MatureListMoves(s, ListDueForMaturity(s.deposits, c.now), c.now, a);
  }

  lemma DepositStepMoves(z: Zone, s: Db, c: Call, a: AccountId)
    requires Inv(s, c.now) && DepositStep(c.step)
    ensures BalanceOf(Apply(z, s, c), a) == BalanceOf(s, a) + Moved(z, s, c, a)
    ensures Apply(z, s, c).transfers == s.transfers && Apply(z, s, c).ledger == s.ledger
  {
    DepositsOfInv(s, c.now);
    hide Inv, Apply, Moved, BalanceOf, DepositsOk;
    match c.step
    case OpenDeposit(_, _, _, _, _) => OpenMoves(z, s, c, a);
    case MatureDue => MatureDueMoves(z, s, c, a);
    case CloseEarly(_, _) => CloseEarlyMoves(z, s, c, a);
  }

  // ---------- every call ----------

  /** After the call each account's offset has changed by what the call moved
    * without an entry, and its entries carry the offset of before. */
  ghost predicate Advances(z: Zone, s: Db, c: Call) {
    var db := Apply(z, s, c);
    && s.ledger <= db.ledger
    && EntriesIn(db)
    && TransfersKept(s.transfers, db.transfers)
    && (forall a: nat :: Offset(db, a) == Offset(s, a) + Moved(z, s, c, a))
    && (forall k :: |s.ledger| <= k < |db.ledger| ==>
          EntryOffset(db, k) == Offset(s, db.ledger[k].account) && OwnPairAt(db, k))
  }

  lemma EntriesOfInv(s: Db, now: int)
    requires Inv(s, now)
    ensures EntriesIn(s)
  {
    forall k | 0 <= k < |s.ledger| ensures s.ledger[k].transfer < |s.transfers| {
      assert EntryOk(s.accounts, s.transfers, s.ledger[k]);
    }
  }

  lemma CallAdvances(z: Zone, s: Db, c: Call, before: int)
    requires Inv(s, before) && before <= c.now
    ensures Advances(z, s, c)
  {
    EntriesOfInv(s, before);
    InvLater(s, before, c.now);
    hide Inv, Apply;
    if DepositStep(c.step) {
      hide BalanceOf, Moved;
      forall a: nat ensures Offset(Apply(z, s, c), a) == Offset(s, a) + Moved(z, s, c, a) {
        DepositStepMoves(z, s, c, a);
      }
      DepositStepMoves(z, s, c, 0);
    } else {
      hide Offset, EntryOffset, OwnPairAt;
      StepFollows(z, s, c);
      forall a: nat ensures Moved(z, s, c, a) == 0 {}
    }
  }

  // ---------- runs ----------

  /** What the calls of a run moved in an account without entries. */
  function MovedBy(z: Zone, calls: seq<Call>, a: AccountId): int {
    if |calls| == 0 then 0
    else
      var n := |calls| - 1;
      MovedBy(z, calls[..n], a) + Moved(z, Run(z, EMPTY_DB, calls[..n]), calls[n], a)
  }

  /** The call of a run that wrote the k-th entry. */
  function CallOf(z: Zone, calls: seq<Call>, k: nat): (j: nat)
    ensures if |calls| == 0 then j == 0 else j < |calls|
  {
    if |calls| == 0 then 0
    else if k < |Run(z, EMPTY_DB, calls[..|calls| - 1]).ledger| then CallOf(z, calls[..|calls| - 1], k)
    else |calls| - 1
  }

  /** Every entry's running balance is the effect of the entries up to it and
    * what the calls before the one that wrote it moved without entries. */
  predicate EntryExplained(z: Zone, calls: seq<Call>, s: Db, k: nat)
    requires k < |s.ledger|
  {
    && |calls| > 0
    && OwnPairAt(s, k)
    && EntryOffset(s, k) == MovedBy(z, calls[..CallOf(z, calls, k)], s.ledger[k].account)
  }

  lemma EarlierExplained(z: Zone, calls: seq<Call>, s: Db, db: Db, k: nat)
    requires |calls| > 0 && s == Run(z, EMPTY_DB, calls[..|calls| - 1]) && k < |s.ledger|
    requires EntriesIn(s) && s.ledger <= db.ledger && TransfersKept(s.transfers, db.transfers)
    requires EntryExplained(z, calls[..|calls| - 1], s, k)
    ensures EntryExplained(z, calls, db, k)
  {
    EntryStays(s, db, k);
    var n := |calls| - 1;
    var j := CallOf(z, calls[..n], k);
    assert calls[..n][..j] == calls[..j];
    hide Run, MovedBy, EntryOffset, OwnPairAt;
  }

  lemma LatestExplained(z: Zone, calls: seq<Call>, s: Db, db: Db, k: nat)
    requires |calls| > 0 && s == Run(z, EMPTY_DB, calls[..|calls| - 1]) && |s.ledger| <= k < |db.ledger|
    requires EntryOffset(db, k) == MovedBy(z, calls[..|calls| - 1], db.ledger[k].account) && OwnPairAt(db, k)
    ensures EntryExplained(z, calls, db, k)
  {
    hide MovedBy, EntryOffset, OwnPairAt;
  }

  lemma {:induction false} RunExplained(z: Zone, calls: seq<Call>, from: int)
    requires InOrder(calls, from)
    ensures var s := Run(z, EMPTY_DB, calls);
            && EntriesIn(s)
            && (forall a: nat :: Offset(s, a) == MovedBy(z, calls, a))
            && (forall k :: 0 <= k < |s.ledger| ==> EntryExplained(z, calls, s, k))
    decreases |calls|
  {
    if |calls| > 0 {
      var n := |calls| - 1;
      RunExplained(z, calls[..n], from);
      ReachableInv(z, calls[..n], from);
      var s, db := Run(z, EMPTY_DB, calls[..n]), Run(z, EMPTY_DB, calls);
      CallAdvances(z, s, calls[n], Clock(calls[..n], from));
      hide Inv, Apply, EntryExplained, EntriesIn, TransfersKept, Offset, EntryOffset, OwnPairAt;
      forall k | 0 <= k < |db.ledger| ensures EntryExplained(z, calls, db, k) {
        if k < |s.ledger| {
          EarlierExplained(z, calls, s, db, k);
        } else {
          LatestExplained(z, calls, s, db, k);
        }
      }
    }
  }

  // ---------- balances ----------

  predicate NamedByDeposit(s: Db, a: AccountId) {
    exists i :: 0 <= i < |s.deposits| && (s.deposits[i].account == a || s.deposits[i].payout == a)
  }

  lemma UnnamedBefore(s: Db, db: Db, a: AccountId)
    requires !NamedByDeposit(db, a) && DepositRowsKept(s.deposits, db.deposits)
    ensures !NamedByDeposit(s, a)
  {
    forall i | 0 <= i < |s.deposits| ensures s.deposits[i].account != a && s.deposits[i].payout != a {
      assert DepositKept(s.deposits[i], db.deposits[i]);
    }
  }

  lemma UnnamedOpening(z: Zone, s: Db, c: Call, a: AccountId)
    requires !NamedByDeposit(Apply(z, s, c), a) && c.step.OpenDeposit?
    ensures Moved(z, s, c, a) == 0
  {
    hide MaturityInstant, RateBpsForTenure;
    var db := Apply(z, s, c);
    if |db.deposits| > |s.deposits| {
      assert db.deposits[|s.deposits|].account != a && db.deposits[|s.deposits|].payout != a;
    }
  }

  lemma UnnamedClosing(z: Zone, s: Db, c: Call, a: AccountId)
    requires !NamedByDeposit(s, a) && !c.step.OpenDeposit?
    ensures Moved(z, s, c, a) == 0
  {
    NoMaturityMoves(s, ListDueForMaturity(s.deposits, c.now), a);
    hide MaturityMoves, ListDueForMaturity, PrematureInterest;
  }

  /** Without a deposit that names it, nothing moves an account without entries. */
  lemma UnnamedStays(z: Zone, s: Db, c: Call, a: AccountId)
    requires !NamedByDeposit(Apply(z, s, c), a)
    ensures !NamedByDeposit(s, a)
    ensures Moved(z, s, c, a) == 0
  {
    StepHistory(z, s, c);
    hide Apply, Moved, NamedByDeposit, StepKey, DepositRowsKept;
    UnnamedBefore(s, Apply(z, s, c), a);
    if c.step.OpenDeposit? {
      UnnamedOpening(z, s, c, a);
    } else {
      UnnamedClosing(z, s, c, a);
    }
  }

  lemma {:induction false} NoMaturityMoves(s: Db, ids: seq<nat>, a: AccountId)
    requires !NamedByDeposit(s, a)
    ensures MaturityMoves(s, ids, a) == 0
  {
    if |ids| > 0 {
      NoMaturityMoves(s, ids[..|ids| - 1], a);
    }
  }

  lemma {:induction false} UnnamedAll(z: Zone, calls: seq<Call>, a: AccountId)
    requires !NamedByDeposit(Run(z, EMPTY_DB, calls), a)
    ensures MovedBy(z, calls, a) == 0
  {
    hide Apply, Moved, NamedByDeposit;
    if |calls| > 0 {
      var n := |calls| - 1;
      UnnamedStays(z, Run(z, EMPTY_DB, calls[..n]), calls[n], a);
      UnnamedAll(z, calls[..n], a);
    }
  }

  lemma {:induction false} UnnamedMoves(z: Zone, calls: seq<Call>, a: AccountId)
    requires !NamedByDeposit(Run(z, EMPTY_DB, calls), a)
    ensures forall j :: 0 <= j <= |calls| ==> MovedBy(z, calls[..j], a) == 0
  {
    hide Apply, Moved, NamedByDeposit;
    forall j | 0 <= j <= |calls| ensures MovedBy(z, calls[..j], a) == 0 {
      if j < |calls| {
        var n := |calls| - 1;
        UnnamedStays(z, Run(z, EMPTY_DB, calls[..n]), calls[n], a);
        UnnamedMoves(z, calls[..n], a);
        assert calls[..n][..j] == calls[..j];
      } else {
        UnnamedAll(z, calls, a);
        assert calls[..j] == calls;
      }
    }
  }

  lemma {:induction false} EffectSplits(ledger: seq<LedgerEntry>, transfers: seq<Transfer>, a: AccountId)
    ensures Sum(ledger, EffectFn(transfers, a)) == Sum(ledger, SignedFn(a)) + Sum(ledger, OwnFn(transfers, a))
  {
    if |ledger| > 0 {
      EffectSplits(ledger[..|ledger| - 1], transfers, a);
    }
  }

  /** In every reachable state a balance is the signed sum of the account's
    * entries, plus its own credits once more, plus what deposit calls moved. */
  lemma BalanceExplained(z: Zone, calls: seq<Call>, from: int, a: AccountId)
    requires InOrder(calls, from)
    ensures var s := Run(z, EMPTY_DB, calls);
            a < |s.accounts| ==>
              && LedgerGap(s, a) == Sum(s.ledger, OwnFn(s.transfers, a)) + MovedBy(z, calls, a)
              && (LedgerGap(s, a) == 0 <==> Sum(s.ledger, OwnFn(s.transfers, a)) + MovedBy(z, calls, a) == 0)
  {
    RunExplained(z, calls, from);
    hide Run, EntriesIn, EntryExplained;
    var s := Run(z, EMPTY_DB, calls);
    EffectSplits(s.ledger, s.transfers, a);
    assert Offset(s, a) == MovedBy(z, calls, a);
  }

  /** Each call changes the gap between an account's balance and its entries by
    * the own credits it writes and by what it moves without entries. */
  lemma CallChangesGap(z: Zone, s: Db, c: Call, before: int, a: AccountId)
    requires Inv(s, before) && before <= c.now && a < |s.accounts|
    ensures var db := Apply(z, s, c);
            && a < |db.accounts|
            && LedgerGap(db, a) == LedgerGap(s, a) + Moved(z, s, c, a)
                                   + Sum(db.ledger, OwnFn(db.transfers, a)) - Sum(s.ledger, OwnFn(s.transfers, a))
  {
    CallAdvances(z, s, c, before);
    StepHistory(z, s, c);
    hide Apply, Inv, Moved, StepKey;
    var db := Apply(z, s, c);
    assert Offset(db, a) == Offset(s, a) + Moved(z, s, c, a);
    EffectSplits(s.ledger, s.transfers, a);
    EffectSplits(db.ledger, db.transfers, a);
  }

  lemma PlainHasNoOwnCredit(s: Db, a: AccountId)
    requires Plain(s, a) && forall k :: 0 <= k < |s.ledger| ==> OwnPairAt(s, k)
    ensures forall k :: 0 <= k < |s.ledger| && s.ledger[k].account == a ==> !IsOwnCredit(s.transfers, s.ledger[k])
    ensures Sum(s.ledger, OwnFn(s.transfers, a)) == 0
    ensures !NamedByDeposit(s, a)
  {
    forall k | 0 <= k < |s.ledger| && s.ledger[k].account == a ensures !IsOwnCredit(s.transfers, s.ledger[k]) {
      assert OwnPairAt(s, k);
    }
    SumZero(s.ledger, OwnFn(s.transfers, a));
  }

  lemma PairOfExplained(z: Zone, calls: seq<Call>, s: Db, k: nat)
    requires k < |s.ledger| && EntryExplained(z, calls, s, k)
    ensures OwnPairAt(s, k)
  {
  }

  /** A posted own transfer has a credit entry, which is an own credit. */
  lemma PostingHasOwnCredit(s: Db, now: int, t: TransferId, a: AccountId) returns (k: nat)
    requires Inv(s, now) && t < |s.transfers| && OwnPosting(s.transfers[t], a)
    ensures k < |s.ledger| && s.ledger[k].account == a && IsOwnCredit(s.transfers, s.ledger[k])
  {
    assert Booked(s.ledger, s.transfers[t], t);
    var f := EntryFn(t, a, CreditSide, s.transfers[t].amount);
    if forall i :: 0 <= i < |s.ledger| ==> f(s.ledger[i]) == 0 {
      SumZero(s.ledger, f);
      assert false;
    } else {
      k :| 0 <= k < |s.ledger| && f(s.ledger[k]) != 0;
    }
  }

  /** An account has own credits exactly when it has posted own transfers. */
  lemma OwnCreditsArePostings(s: Db, a: AccountId, now: int)
    requires Inv(s, now) && forall k :: 0 <= k < |s.ledger| ==> OwnPairAt(s, k)
    ensures Sum(s.ledger, OwnFn(s.transfers, a)) == 0 <==>
              forall i :: 0 <= i < |s.transfers| ==> !OwnPosting(s.transfers[i], a)
  {
    forall k | 0 <= k < |s.ledger| ensures s.ledger[k].amount > 0 && s.ledger[k].transfer < |s.transfers| {
      assert EntryOk(s.accounts, s.transfers, s.ledger[k]);
    }
    if i :| 0 <= i < |s.transfers| && OwnPosting(s.transfers[i], a) {
      var k := PostingHasOwnCredit(s, now, i, a);
      SumAtLeast(s.ledger, k, OwnFn(s.transfers, a));
    } else {
      forall k | 0 <= k < |s.ledger| ensures OwnFn(s.transfers, a)(s.ledger[k]) == 0 {
        assert OwnPairAt(s, k);
      }
      SumZero(s.ledger, OwnFn(s.transfers, a));
    }
  }

  /** The running balance of an account without own credits and deposit moves. */
  lemma PlainEntry(s: Db, k: nat)
    requires k < |s.ledger| && EntryOffset(s, k) == 0
    requires forall i :: 0 <= i < |s.ledger| && s.ledger[i].account == s.ledger[k].account ==>
               !IsOwnCredit(s.transfers, s.ledger[i])
    ensures s.ledger[k].running == Sum(s.ledger[..k + 1], SignedFn(s.ledger[k].account))
  {
    var a := s.ledger[k].account;
    EffectSplits(s.ledger[..k + 1], s.transfers, a);
    SumZero(s.ledger[..k + 1], OwnFn(s.transfers, a));
  }

  lemma PlainExplained(z: Zone, calls: seq<Call>, from: int, a: AccountId)
    requires InOrder(calls, from)
    requires a < |Run(z, EMPTY_DB, calls).accounts| && Plain(Run(z, EMPTY_DB, calls), a)
    ensures var s := Run(z, EMPTY_DB, calls);
            && s.accounts[a].balance == Sum(s.ledger, SignedFn(a)) && Chained(s.ledger, a)
  {
    var s := Run(z, EMPTY_DB, calls);
    hide Run;
    RunExplained(z, calls, from);
    forall k | 0 <= k < |s.ledger| ensures OwnPairAt(s, k) {
      assert EntryExplained(z, calls, s, k);
    }
    PlainHasNoOwnCredit(s, a);
    UnnamedMoves(z, calls, a);
    assert calls[..|calls|] == calls;
    EffectSplits(s.ledger, s.transfers, a);
    assert Offset(s, a) == MovedBy(z, calls, a);
    hide OwnPairAt, EntryOffset, Plain;
    forall k | 0 <= k < |s.ledger| && s.ledger[k].account == a
      ensures s.ledger[k].running == Sum(s.ledger[..k + 1], SignedFn(a))
    {
      assert EntryExplained(z, calls, s, k);
      PlainEntry(s, k);
    }
  }

  /** In every reachable state each balance is explained by the tables; for an
    * account that no deposit and no aliased posting has touched it is the
    * signed sum of its entries, and each entry's running balance is the signed
    * sum up to it. */
  lemma LedgerExplainsBalances(z: Zone, calls: seq<Call>, from: int, a: AccountId)
    requires InOrder(calls, from) && a < |Run(z, EMPTY_DB, calls).accounts|
    ensures var s := Run(z, EMPTY_DB, calls);
            && s.accounts[a].balance == (if Retired(s.accounts[a]) then 0 else Explained(s, a))
            && (Plain(s, a) ==> s.accounts[a].balance == Sum(s.ledger, SignedFn(a)) && Chained(s.ledger, a))
  {
    hide Run;
    var s := Run(z, EMPTY_DB, calls);
    ReachableInv(z, calls, from);
    assert BalanceAgrees(s, a);
    if Plain(s, a) {
      PlainExplained(z, calls, from, a);
    }
  }

  /** In every reachable state an account's balance is the signed sum of its
    * ledger entries exactly when deposit moves and postings to itself add
    * nothing to it; if no deposit names it, exactly when it has no posted
    * transfer to itself. */
  lemma LedgerMatchesExactly(z: Zone, calls: seq<Call>, from: int, a: AccountId)
    requires InOrder(calls, from)
    ensures var s := Run(z, EMPTY_DB, calls);
            a < |s.accounts| ==>
            && (!Retired(s.accounts[a]) ==>
                  (LedgerGap(s, a) == 0 <==> Sum(s.deposits, DepositFn(a)) + Sum(s.transfers, GainFn(a)) == 0))
            && ((forall i :: 0 <= i < |s.deposits| ==> s.deposits[i].account != a && s.deposits[i].payout != a) ==>
                  (LedgerGap(s, a) == 0 <==> forall i :: 0 <= i < |s.transfers| ==> !OwnPosting(s.transfers[i], a)))
  {
    hide Run;
    var s := Run(z, EMPTY_DB, calls);
    ReachableInv(z, calls, from);
    if a < |s.accounts| {
      assert BalanceAgrees(s, a);
      BalanceExplained(z, calls, from, a);
      RunExplained(z, calls, from);
      if !NamedByDeposit(s, a) {
        UnnamedMoves(z, calls, a);
        assert calls[..|calls|] == calls;
      }
      hide EntryExplained;
      forall k | 0 <= k < |s.ledger| ensures OwnPairAt(s, k) {
        PairOfExplained(z, calls, s, k);
      }
      OwnCreditsArePostings(s, a, Clock(calls, from));
    }
  }
}
