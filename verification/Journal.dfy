/**
 * The ledger as a journal: one debit and one credit per posted transfer, none
 * for a pending one, at most one event, rows in the order of the clock, keys
 * used once.
 */
module Journal {
  import opened Prelude
  import opened Accounts
  import opened Tables
  import opened UseCases
  import opened Books
  import opened BooksKept

  // ---------- entries and events of one transfer ----------

  function AnyFn(t: TransferId): LedgerEntry -> int {
    (e: LedgerEntry) => if e.transfer == t then 1 else 0
  }

  function EntryFn(t: TransferId, account: AccountId, side: Side, amount: int): LedgerEntry -> int {
    (e: LedgerEntry) => if e.transfer == t && e.account == account && e.side == side && e.amount == amount then 1 else 0
  }

  function MovedFn(t: TransferId): Event -> int {
    (e: Event) => if e.MoneyMoved? && e.transfer == t then 1 else 0
  }

  /** Exactly the entries that double-entry booking asks of this row. */
  predicate Booked(ledger: seq<LedgerEntry>, row: Transfer, t: TransferId) {
    && Sum(ledger, AnyFn(t)) == (if row.status == Pending then 0 else if row.from.None? then 1 else 2)
    && (row.status == Posted ==> Sum(ledger, EntryFn(t, row.to, CreditSide, row.amount)) == 1)
    && (row.status == Posted && row.from.Some? ==> Sum(ledger, EntryFn(t, row.from.value, DebitSide, row.amount)) == 1)
  }

  predicate AllBooked(transfers: seq<Transfer>, ledger: seq<LedgerEntry>) {
    forall t :: 0 <= t < |transfers| ==> Booked(ledger, transfers[t], t)
  }

  /** At most one event per posted transfer, none for a pending one. */
  predicate Announced(events: seq<Event>, row: Transfer, t: TransferId) {
    0 <= Sum(events, MovedFn(t)) <= (if row.status == Pending then 0 else 1)
  }

  predicate AllAnnounced(transfers: seq<Transfer>, events: seq<Event>) {
    && (forall t :: 0 <= t < |transfers| ==> Announced(events, transfers[t], t))
    && (forall k :: 0 <= k < |events| && events[k].MoneyMoved? ==> events[k].transfer < |transfers|)
  }

  // ---------- keys and time ----------

  predicate KeysOk(transfers: seq<Transfer>, instructions: nat) {
    && (forall i, j :: 0 <= i < j < |transfers| && transfers[i].key.Some? ==> transfers[i].key != transfers[j].key)
    && (forall i :: 0 <= i < |transfers| && transfers[i].key.Some? && transfers[i].key.value.Standing? ==>
          transfers[i].key.value.instruction < instructions)
  }

  predicate InPostingOrder(ledger: seq<LedgerEntry>) {
    forall j, k :: 0 <= j < k < |ledger| ==> ledger[j].postedAt <= ledger[k].postedAt
  }

  predicate Timed(transfers: seq<Transfer>, ledger: seq<LedgerEntry>, now: int) {
    && (forall i :: 0 <= i < |transfers| ==> transfers[i].postedAt <= now)
    && (forall k :: 0 <= k < |ledger| ==> ledger[k].postedAt <= now)
    && InPostingOrder(ledger)
  }

  // ---------- running balances ----------

  /** No fixed deposit and no aliased posting has touched the account. */
  predicate Plain(s: Db, a: AccountId) {
    && (forall i :: 0 <= i < |s.deposits| ==> s.deposits[i].account != a && s.deposits[i].payout != a)
    && (forall i :: 0 <= i < |s.transfers| && s.transfers[i].status == Posted && Aliased(s.transfers[i]) ==>
          s.transfers[i].to != a)
  }

  predicate Chained(ledger: seq<LedgerEntry>, a: AccountId) {
    forall k :: 0 <= k < |ledger| && ledger[k].account == a ==> ledger[k].running == Sum(ledger[..k + 1], SignedFn(a))
  }

  // ---------- the invariant ----------

  predicate Recorded(s: Db, now: int) {
    && AllBooked(s.transfers, s.ledger)
    && AllAnnounced(s.transfers, s.events)
    && KeysOk(s.transfers, |s.instructions|)
    && Timed(s.transfers, s.ledger, now)
  }

  /** A key that may be written: unused, and an existing instruction's if the runner's. */
  predicate FreshKey(s: Db, key: Option<Key>) {
    && FindPrior(s.transfers, key).None?
    && (key.Some? && key.value.Standing? ==> key.value.instruction < |s.instructions|)
  }

  lemma KeysAppend(s: Db, row: Transfer)
    requires KeysOk(s.transfers, |s.instructions|) && FreshKey(s, row.key)
    ensures KeysOk(s.transfers + [row], |s.instructions|)
  {
  }

  // ---------- posting ----------

  lemma UnbookedId(s: Db, t: TransferId, account: AccountId, side: Side, amount: int)
    requires EntriesOk(s.accounts, s.transfers, s.ledger) && t >= |s.transfers|
    ensures Sum(s.ledger, AnyFn(t)) == 0
    ensures Sum(s.ledger, EntryFn(t, account, side, amount)) == 0
  {
    forall k | 0 <= k < |s.ledger| ensures s.ledger[k].transfer != t {
      assert EntryOk(s.accounts, s.transfers, s.ledger[k]);
    }
    SumZero(s.ledger, AnyFn(t));
    SumZero(s.ledger, EntryFn(t, account, side, amount));
  }

  /** Entries of another transfer do not change what is booked for this one. */
  lemma BookedFrame(ledger: seq<LedgerEntry>, more: seq<LedgerEntry>, row: Transfer, t: TransferId)
    requires Booked(ledger, row, t)
    requires forall k :: 0 <= k < |more| ==> more[k].transfer != t
    ensures Booked(ledger + more, row, t)
  {
    SumConcat(ledger, more, AnyFn(t));
    SumZero(more, AnyFn(t));
    SumConcat(ledger, more, EntryFn(t, row.to, CreditSide, row.amount));
    SumZero(more, EntryFn(t, row.to, CreditSide, row.amount));
    if row.from.Some? {
      SumConcat(ledger, more, EntryFn(t, row.from.value, DebitSide, row.amount));
      SumZero(more, EntryFn(t, row.from.value, DebitSide, row.amount));
    }
  }

  /** A pair added for a transfer that had no entries books it. */
  lemma BookedPair(ledger: seq<LedgerEntry>, row: Transfer, t: TransferId, debited: Account, credited: Account)
    requires row.from.Some? && row.status == Posted && Sum(ledger, AnyFn(t)) == 0
    ensures Booked(ledger + EntryPair(row, t, debited, credited), row, t)
  {
    var pair := EntryPair(row, t, debited, credited);
    SumAppend2(ledger, pair[0], pair[1], AnyFn(t));
    NoEntries(ledger, t, row.to, CreditSide, row.amount);
    NoEntries(ledger, t, row.from.value, DebitSide, row.amount);
    SumAppend2(ledger, pair[0], pair[1], EntryFn(t, row.to, CreditSide, row.amount));
    SumAppend2(ledger, pair[0], pair[1], EntryFn(t, row.from.value, DebitSide, row.amount));
  }

  lemma {:induction false} NoEntries(ledger: seq<LedgerEntry>, t: TransferId, account: AccountId, side: Side,
                                     amount: int)
    requires Sum(ledger, AnyFn(t)) == 0
    ensures Sum(ledger, EntryFn(t, account, side, amount)) == 0
  {
    SumMonotone(ledger, EntryFn(t, account, side, amount), AnyFn(t));
    SumNonNegative(ledger, EntryFn(t, account, side, amount));
  }

  lemma UnannouncedId(s: Db, t: TransferId)
    requires AllAnnounced(s.transfers, s.events) && t >= |s.transfers|
    ensures Sum(s.events, MovedFn(t)) == 0
  {
    SumZero(s.events, MovedFn(t));
  }

  lemma PostBooked(s: Db, row: Transfer)
    requires AllBooked(s.transfers, s.ledger) && EntriesOk(s.accounts, s.transfers, s.ledger)
    requires PostedRow(s, row) && Post(s, row).Ok?
    ensures var db := Post(s, row).value; AllBooked(db.transfers, db.ledger)
  {
    var db := Post(s, row).value;
    var n := |s.transfers|;
    var debited := Debit(s.accounts[row.from.value], row.amount).value;
    var credited := Credit(s.accounts[row.to], row.amount).value;
    UnbookedId(s, n, 0, DebitSide, 0);
    BookedPair(s.ledger, row, n, debited, credited);
    forall t | 0 <= t < |db.transfers| ensures Booked(db.ledger, db.transfers[t], t) {
      if t < n {
        BookedFrame(s.ledger, EntryPair(row, n, debited, credited), s.transfers[t], t);
      }
    }
  }

  /** Announcing a new row, or appending events that are not MoneyMoved. */
  lemma AnnounceNew(s: Db, row: Transfer, id: TransferId)
    requires AllAnnounced(s.transfers, s.events) && id == |s.transfers| && row.status == Posted
    ensures AllAnnounced(s.transfers + [row], s.events + [MovedEvent(row, id)])
    ensures AllAnnounced(s.transfers + [row], s.events)
  {
    var more := s.transfers + [row];
    UnannouncedId(s, id);
    forall t | 0 <= t < |more|
      ensures Announced(s.events + [MovedEvent(row, id)], more[t], t) && Announced(s.events, more[t], t)
    {
      SumAppend(s.events, MovedEvent(row, id), MovedFn(t));
      if t < id {
        assert Announced(s.events, s.transfers[t], t);
      }
    }
  }

  lemma OtherEvent(transfers: seq<Transfer>, events: seq<Event>, e: Event)
    requires AllAnnounced(transfers, events) && !e.MoneyMoved?
    ensures AllAnnounced(transfers, events + [e])
  {
    forall t | 0 <= t < |transfers| ensures Announced(events + [e], transfers[t], t) {
      assert Announced(events, transfers[t], t);
      SumAppend(events, e, MovedFn(t));
    }
  }

  lemma PostRecorded(s: Db, row: Transfer, before: int)
    requires Balanced(s) && Recorded(s, before) && before <= row.postedAt
    requires PostedRow(s, row) && FreshKey(s, row.key) && Post(s, row).Ok?
    ensures Recorded(Post(s, row).value, row.postedAt)
  {
    hide AllBooked, AllAnnounced, RowsOk, EntriesOk, HoldsAgree, BalancesAgree, MoneyAgrees, DepositsOk;
    PostBooked(s, row);
    AnnounceNew(s, row, |s.transfers|);
    KeysAppend(s, row);
  }

  lemma PostDepositBooked(s: Db, row: Transfer)
    requires AllBooked(s.transfers, s.ledger) && EntriesOk(s.accounts, s.transfers, s.ledger)
    requires DepositRow(s, row) && PostDeposit(s, row).Ok?
    ensures var db := PostDeposit(s, row).value; AllBooked(db.transfers, db.ledger)
  {
    var db := PostDeposit(s, row).value;
    var n := |s.transfers|;
    var e := db.ledger[|s.ledger|];
    UnbookedId(s, n, row.to, CreditSide, row.amount);
    SumAppend(s.ledger, e, AnyFn(n));
    SumAppend(s.ledger, e, EntryFn(n, row.to, CreditSide, row.amount));
    forall t | 0 <= t < |db.transfers| ensures Booked(db.ledger, db.transfers[t], t) {
      if t < n {
        BookedFrame(s.ledger, [e], s.transfers[t], t);
      }
    }
  }

  lemma PostDepositRecorded(s: Db, row: Transfer, before: int)
    requires Balanced(s) && Recorded(s, before) && before <= row.postedAt
    requires DepositRow(s, row) && FreshKey(s, row.key) && PostDeposit(s, row).Ok?
    ensures Recorded(PostDeposit(s, row).value, row.postedAt)
  {
    PostDepositBooked(s, row);
    AnnounceNew(s, row, |s.transfers|);
    KeysAppend(s, row);
  }

  lemma PendRecorded(s: Db, row: Transfer, before: int)
    requires Balanced(s) && Recorded(s, before) && before <= row.postedAt
    requires PendingRow(s, row) && FreshKey(s, row.key) && Pend(s, row).Ok?
    ensures Recorded(Pend(s, row).value, row.postedAt)
  {
    hide RowsOk, HoldsAgree, BalancesAgree, MoneyAgrees, DepositsOk;
    var db := Pend(s, row).value;
    var n := |s.transfers|;
    UnbookedId(s, n, 0, DebitSide, 0);
    UnannouncedId(s, n);
    KeysAppend(s, row);
    forall t | 0 <= t < |db.transfers|
      ensures Booked(db.ledger, db.transfers[t], t) && Announced(db.events, db.transfers[t], t)
    {
      assert t < n ==> Booked(s.ledger, s.transfers[t], t) && Announced(s.events, s.transfers[t], t);
    }
  }

  // ---------- settlement ----------

  lemma SettleBooked(s: Db, id: TransferId, now: int)
    requires AllBooked(s.transfers, s.ledger) && Settles(s, id, now)
    ensures var db := SettleOne(s, id, now).value; AllBooked(db.transfers, db.ledger)
  {
    var db := SettleOne(s, id, now).value;
    var row := s.transfers[id];
    var debited := Debit(ReleaseHold(s.accounts[row.from.value], row.amount).value, row.amount).value;
    var credited := Credit(s.accounts[row.to], row.amount).value;
    assert Booked(s.ledger, row, id);
    BookedPair(s.ledger, db.transfers[id], id, debited, credited);
    forall t | 0 <= t < |db.transfers| ensures Booked(db.ledger, db.transfers[t], t) {
      if t != id {
        BookedFrame(s.ledger, EntryPair(db.transfers[id], id, debited, credited), s.transfers[t], t);
      }
    }
  }

  lemma SettleIndexes(s: Db, id: TransferId, now: int)
    requires AllAnnounced(s.transfers, s.events) && KeysOk(s.transfers, |s.instructions|)
    requires Timed(s.transfers, s.ledger, now) && Settles(s, id, now)
    ensures var db := SettleOne(s, id, now).value;
            && AllAnnounced(db.transfers, db.events)
            && KeysOk(db.transfers, |db.instructions|)
            && Timed(db.transfers, db.ledger, now)
  {
    var db := SettleOne(s, id, now).value;
    assert db.transfers == s.transfers[id := db.transfers[id]] && db.transfers[id].key == s.transfers[id].key;
    forall t | 0 <= t < |db.transfers| ensures Announced(db.events, db.transfers[t], t) {
      assert Announced(s.events, s.transfers[t], t);
    }
  }

  lemma SettleRecorded(s: Db, id: TransferId, now: int)
    requires Balanced(s) && Recorded(s, now) && Settles(s, id, now)
    ensures Recorded(SettleOne(s, id, now).value, now)
  {
    SettleBooked(s, id, now);
    SettleIndexes(s, id, now);
  }

  lemma LaterRecorded(s: Db, before: int, now: int)
    requires Recorded(s, before) && before <= now
    ensures Recorded(s, now)
  {
  }
}
