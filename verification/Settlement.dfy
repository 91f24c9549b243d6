/** Batch settlement of held NEFT and RTGS transfers: settlePendingTransfers.ts. */
module Settlement {
  import Prelude
  import opened Accounts
  import opened Tables
  import opened UseCases
  import opened Books
  import opened BooksKept
  import opened Journal

  // ---------- why an item can fail ----------

  /** A pending transfer's amount is covered by its account's hold. */
  lemma HoldCoversPending(s: Db, id: TransferId)
    requires Balanced(s) && id < |s.transfers| && s.transfers[id].status == Pending
    ensures var row := s.transfers[id];
            row.from.Some? && HasAccounts(s, row) && 0 < row.amount <= s.accounts[row.from.value].hold
  {
    var row := s.transfers[id];
    assert RowOk(s.accounts, row);
    var a := row.from.value;
    assert HoldAgrees(s.accounts, s.transfers, a);
    forall i | 0 <= i < |s.transfers| ensures HeldFn(a)(s.transfers[i]) >= 0 {
      assert RowOk(s.accounts, s.transfers[i]);
    }
    Prelude.SumAtLeast(s.transfers, id, HeldFn(a));
  }

  /** The exact reasons settlement fails. Releasing the hold and the available
    * balance are not among them. */
  lemma SettleFailure(s: Db, id: TransferId, now: int)
    requires Balanced(s) && id < |s.transfers| && s.transfers[id].status == Pending
    ensures var row := s.transfers[id];
            row.from.Some? && HasAccounts(s, row) &&
            var from, to := s.accounts[row.from.value], s.accounts[row.to];
            SettleOne(s, id, now).Err? <==>
              || from.status != Active
              || from.accountType == FixedDeposit
              || from.balance - row.amount < MinBalance(from.accountType)
              || to.status != Active
  {
    var row := s.transfers[id];
    HoldCoversPending(s, id);
    assert HoldAgrees(s.accounts, s.transfers, row.from.value);
    HeldDebit(s.accounts[row.from.value], row.amount);
  }

  // ---------- the batch ----------

  predicate AllPending(s: Db, ids: seq<TransferId>) {
    forall i :: 0 <= i < |ids| ==> ids[i] < |s.transfers| && s.transfers[ids[i]].status == Pending
  }

  /** The items that settle, in order. */
  function SettledIds(s: Db, ids: seq<TransferId>, now: int): seq<TransferId>
    requires forall i :: 0 <= i < |ids| ==> ids[i] < |s.transfers|
  {
    if |ids| == 0 then []
    else
      var n := |ids| - 1;
      SettledIds(s, ids[..n], now)
      + (if Settles(SettleList(s, ids[..n], now).db, ids[n], now) then [ids[n]] else [])
  }

  lemma {:induction false} SettledAmong(s: Db, ids: seq<TransferId>, now: int)
    requires forall i :: 0 <= i < |ids| ==> ids[i] < |s.transfers|
    ensures forall x :: x in SettledIds(s, ids, now) ==> x in ids
    ensures forall i :: 0 <= i < |SettledIds(s, ids, now)| ==> SettledIds(s, ids, now)[i] < |s.transfers|
  {
    if |ids| > 0 {
      SettledAmong(s, ids[..|ids| - 1], now);
    }
  }

  /** A settled row differs from the pending one in status and date only. */
  function SettledRow(row: Transfer, now: int): Transfer {
    row.(status := Posted, postedAt := now)
  }

  /** Which rows a batch changes: exactly the settled ones. */
  lemma {:induction false} SettleRows(s: Db, ids: seq<TransferId>, now: int)
    requires Distinct(ids) && AllPending(s, ids)
    ensures var b := SettleList(s, ids, now);
            forall t :: 0 <= t < |s.transfers| ==>
              b.db.transfers[t]
              == if t in SettledIds(s, ids, now) then SettledRow(s.transfers[t], now) else s.transfers[t]
    ensures SettleList(s, ids, now).db.events == s.events
  {
    if |ids| > 0 {
      var n := |ids| - 1;
      assert ids[n] !in ids[..n];
      assert Distinct(ids[..n]) && AllPending(s, ids[..n]) && s.transfers[ids[n]].status == Pending;
      hide Distinct, AllPending, SettleOne;
      SettleRows(s, ids[..n], now);
      SettledAmong(s, ids[..n], now);
      var db := SettleList(s, ids[..n], now).db;
      assert db.transfers[ids[n]] == s.transfers[ids[n]];
      if SettleOne(db, ids[n], now).Ok? {
        SettleOneRows(db, ids[n], now);
      }
    }
  }

  lemma SettleOneRows(s: Db, id: TransferId, now: int)
    requires id < |s.transfers| && s.transfers[id].status == Pending && SettleOne(s, id, now).Ok?
    ensures var db := SettleOne(s, id, now).value;
            db.events == s.events && db.transfers == s.transfers[id := SettledRow(s.transfers[id], now)]
  {
  }

  /** The last item of a list is still pending when its turn comes. */
  lemma LastStillPending(s: Db, ids: seq<TransferId>, now: int)
    requires Distinct(ids) && AllPending(s, ids) && |ids| > 0
    ensures var n := |ids| - 1;
            SettleList(s, ids[..n], now).db.transfers[ids[n]] == s.transfers[ids[n]]
  {
    var n := |ids| - 1;
    SettleRows(s, ids[..n], now);
    SettledAmong(s, ids[..n], now);
    assert ids[n] !in ids[..n];
  }

  /** Every item is counted once. */
  lemma {:induction false} SettleCounts(s: Db, ids: seq<TransferId>, now: int)
    requires Distinct(ids) && AllPending(s, ids)
    ensures var b := SettleList(s, ids, now);
            var done := SettledIds(s, ids, now);
            && b.settled + b.failed == |ids|
            && b.settled == |done|
  {
    if |ids| > 0 {
      SettleCounts(s, ids[..|ids| - 1], now);
      LastStillPending(s, ids, now);
    }
  }

  lemma {:induction false} SettledDistinct(s: Db, ids: seq<TransferId>, now: int)
    requires Distinct(ids) && AllPending(s, ids)
    ensures Distinct(SettledIds(s, ids, now))
  {
    if |ids| > 0 {
      var n := |ids| - 1;
      SettledDistinct(s, ids[..n], now);
      SettledAmong(s, ids[..n], now);
      assert ids[n] !in ids[..n];
    }
  }

  predicate Announces(events: seq<Event>, s: Db, done: seq<TransferId>, now: int) {
    && |events| == |done|
    && forall k :: 0 <= k < |done| ==>
         done[k] < |s.transfers| && events[k] == MovedEvent(SettledRow(s.transfers[done[k]], now), done[k])
  }

  /** Each settled item is announced once, in order. */
  lemma {:induction false} SettleEvents(s: Db, ids: seq<TransferId>, now: int)
    requires Distinct(ids) && AllPending(s, ids)
    ensures Announces(SettleList(s, ids, now).events, s, SettledIds(s, ids, now), now)
  {
    if |ids| > 0 {
      SettleEvents(s, ids[..|ids| - 1], now);
      LastAnnounced(s, ids, now);
    }
  }

  lemma LastAnnounced(s: Db, ids: seq<TransferId>, now: int)
    requires Distinct(ids) && AllPending(s, ids) && |ids| > 0
    requires var n := |ids| - 1; Announces(SettleList(s, ids[..n], now).events, s, SettledIds(s, ids[..n], now), now)
    ensures Announces(SettleList(s, ids, now).events, s, SettledIds(s, ids, now), now)
  {
    var n := |ids| - 1;
    var b := SettleList(s, ids[..n], now);
    LastStillPending(s, ids, now);
    assert b.db.transfers[ids[n]].status == Pending;
    hide Distinct, AllPending, SettleOne;
    if SettleOne(b.db, ids[n], now).Ok? {
      SettleOneRows(b.db, ids[n], now);
      assert SettledIds(s, ids, now) == SettledIds(s, ids[..n], now) + [ids[n]];
    }
  }

  /** Two consecutive entries: the debit and the credit of a settled row. */
  predicate IsPair(debit: LedgerEntry, credit: LedgerEntry, row: Transfer, t: TransferId, now: int) {
    && row.from.Some?
    && debit == LedgerEntry(row.from.value, t, DebitSide, row.amount, debit.running, now)
    && credit == LedgerEntry(row.to, t, CreditSide, row.amount, credit.running, now)
  }

  /** The ledger grew by one pair per settled item, in order. */
  predicate EntersPairs(ledger: seq<LedgerEntry>, s: Db, done: seq<TransferId>, now: int) {
    && |ledger| == |s.ledger| + 2 * |done|
    && s.ledger <= ledger
    && forall k :: 0 <= k < |done| ==>
         && done[k] < |s.transfers|
         && IsPair(ledger[|s.ledger| + 2 * k], ledger[|s.ledger| + 2 * k + 1], s.transfers[done[k]], done[k], now)
  }

  lemma PairAppended(ledger: seq<LedgerEntry>, s: Db, done: seq<TransferId>, t: TransferId, now: int, debited: Account,
                     credited: Account)
    requires EntersPairs(ledger, s, done, now) && t < |s.transfers| && s.transfers[t].from.Some?
    ensures EntersPairs(ledger + EntryPair(SettledRow(s.transfers[t], now), t, debited, credited), s, done + [t], now)
  {
    var more := ledger + EntryPair(SettledRow(s.transfers[t], now), t, debited, credited);
    forall k | 0 <= k < |done| + 1
      ensures IsPair(more[|s.ledger| + 2 * k], more[|s.ledger| + 2 * k + 1], s.transfers[(done + [t])[k]],
                     (done + [t])[k], now)
    {
      if k < |done| {
        assert IsPair(ledger[|s.ledger| + 2 * k], ledger[|s.ledger| + 2 * k + 1], s.transfers[done[k]], done[k], now);
      }
    }
  }

  lemma {:induction false} SettleEntries(s: Db, ids: seq<TransferId>, now: int)
    requires Distinct(ids) && AllPending(s, ids)
    ensures EntersPairs(SettleList(s, ids, now).db.ledger, s, SettledIds(s, ids, now), now)
  {
    if |ids| > 0 {
      var n := |ids| - 1;
      SettleEntries(s, ids[..n], now);
      LastStillPending(s, ids, now);
      var db := SettleList(s, ids[..n], now).db;
      if Settles(db, ids[n], now) {
        SettleOneEntries(db, ids[n], now, s, SettledIds(s, ids[..n], now));
      } else {
        assert SettledIds(s, ids, now) == SettledIds(s, ids[..n], now);
      }
    }
  }

  lemma SettleOneEntries(db: Db, id: TransferId, now: int, s: Db, done: seq<TransferId>)
    requires Settles(db, id, now) && id < |s.transfers| && db.transfers[id] == s.transfers[id]
    requires EntersPairs(db.ledger, s, done, now)
    ensures EntersPairs(SettleOne(db, id, now).value.ledger, s, done + [id], now)
  {
    var row := db.transfers[id];
    var debited := Debit(ReleaseHold(db.accounts[row.from.value], row.amount).value, row.amount).value;
    var credited := Credit(db.accounts[row.to], row.amount).value;
    PairAppended(db.ledger, s, done, id, now, debited, credited);
  }

  /** The failed items leave no trace: accounts, ledger, rows and events are
    * those of a batch in which only the settled items were tried. */
  predicate SameButFailures(b: Batch, only: Batch) {
    only == b.(failed := 0)
  }

  lemma OneMoreItem(s: Db, ids: seq<TransferId>, others: seq<TransferId>, now: int)
    requires |ids| > 0 && forall i :: 0 <= i < |ids| ==> ids[i] < |s.transfers|
    requires |others| > 0 && forall i :: 0 <= i < |others| ==> others[i] < |s.transfers|
    requires ids[|ids| - 1] == others[|others| - 1]
    requires SameButFailures(SettleList(s, ids[..|ids| - 1], now), SettleList(s, others[..|others| - 1], now))
    requires Settles(SettleList(s, ids[..|ids| - 1], now).db, ids[|ids| - 1], now)
    ensures SameButFailures(SettleList(s, ids, now), SettleList(s, others, now))
  {
  }

  lemma {:induction false} FailedNeverTried(s: Db, ids: seq<TransferId>, now: int)
    requires Distinct(ids) && AllPending(s, ids)
    ensures forall i :: 0 <= i < |SettledIds(s, ids, now)| ==> SettledIds(s, ids, now)[i] < |s.transfers|
    ensures SameButFailures(SettleList(s, ids, now), SettleList(s, SettledIds(s, ids, now), now))
  {
    SettledAmong(s, ids, now);
    if |ids| > 0 {
      var n := |ids| - 1;
      FailedNeverTried(s, ids[..n], now);
      LastStillPending(s, ids, now);
      if Settles(SettleList(s, ids[..n], now).db, ids[n], now) {
        var done := SettledIds(s, ids, now);
        assert done[..|done| - 1] == SettledIds(s, ids[..n], now);
        OneMoreItem(s, ids, done, now);
      } else {
        assert SettledIds(s, ids, now) == SettledIds(s, ids[..n], now);
      }
    }
  }

  lemma ListingIsPending(s: Db, rail: Rail)
    ensures var ids := ListPendingByRail(s.transfers, rail);
            Distinct(ids) && AllPending(s, ids)
            && Ranked(ids, (i: nat) => if i < |s.transfers| then -s.transfers[i].postedAt else 0)
  {
    var ids := ListPendingByRail(s.transfers, rail);
    var keep := (i: nat) => i < |s.transfers| && s.transfers[i].status == Pending && s.transfers[i].rail == rail;
    var rank := (i: nat) => if i < |s.transfers| then -s.transfers[i].postedAt else 0;
    QueryOrdered(|s.transfers|, keep, rank);
    assert ids == Query(|s.transfers|, keep, rank);
    forall i | 0 <= i < |ids| ensures s.transfers[ids[i]].status == Pending {
      assert ids[i] in ids;
    }
  }

  /** One call of the batch job. Exactly the rail's pending rows are tried;
    * those that fail are still pending and unchanged, the others are posted at
    * `now` with one debit and one credit of their amount and one event each;
    * every other row, of the other rail or already posted, is as it was. */
  lemma BatchSettlement(s: Db, rail: Rail, now: int)
    ensures var ids := ListPendingByRail(s.transfers, rail);
            var b := SettlePendingTransfers(s, rail, now);
            var done := SettledIds(s, ids, now);
            && b.settled + b.failed == |ids| && b.settled == |done| && Distinct(done)
            && (forall t :: t in done ==> t in ids)
            && (forall t :: 0 <= t < |s.transfers| ==>
                  b.db.transfers[t] == if t in done then SettledRow(s.transfers[t], now) else s.transfers[t])
            && b.db.events == s.events + b.events && Announces(b.events, s, done, now)
            && EntersPairs(b.db.ledger, s, done, now)
            && (forall i :: 0 <= i < |done| ==> done[i] < |s.transfers|)
            && (var only := SettleList(s, done, now);
                only.failed == 0 && b.db == only.db.(events := s.events + only.events))
  {
    var ids := ListPendingByRail(s.transfers, rail);
    ListingIsPending(s, rail);
    SettleRows(s, ids, now);
    SettleCounts(s, ids, now);
    SettledDistinct(s, ids, now);
    SettleEvents(s, ids, now);
    SettledAmong(s, ids, now);
    SettleEntries(s, ids, now);
    FailedNeverTried(s, ids, now);
  }

  // ---------- the batch keeps the invariants ----------

  lemma {:induction false} SettleListKeeps(s: Db, ids: seq<TransferId>, now: int)
    requires Balanced(s) && Recorded(s, now)
    requires forall i :: 0 <= i < |ids| ==> ids[i] < |s.transfers|
    ensures var b := SettleList(s, ids, now); Balanced(b.db) && Recorded(b.db, now)
  {
    if |ids| > 0 {
      hide Balanced, Recorded, SettleOne;
      var n := |ids| - 1;
      SettleListKeeps(s, ids[..n], now);
      var b := SettleList(s, ids[..n], now);
      if Settles(b.db, ids[n], now) {
        SettleKeepsBooks(b.db, ids[n], now);
        SettleRecorded(b.db, ids[n], now);
      }
    }
  }

  lemma {:induction false} EventsOfDistinct(events: seq<Event>, ids: seq<TransferId>, t: TransferId)
    requires |events| == |ids| && Distinct(ids)
    requires forall k :: 0 <= k < |ids| ==> events[k].MoneyMoved? && events[k].transfer == ids[k]
    ensures Prelude.Sum(events, MovedFn(t)) == if t in ids then 1 else 0
  {
    if |ids| > 0 {
      var n := |ids| - 1;
      EventsOfDistinct(events[..n], ids[..n], t);
      assert ids == ids[..n] + [ids[n]];
      assert ids[n] !in ids[..n];
    }
  }

  lemma BatchAnnounced(s: Db, ids: seq<TransferId>, now: int)
    requires AllAnnounced(s.transfers, s.events) && Distinct(ids) && AllPending(s, ids)
    ensures var b := SettleList(s, ids, now); AllAnnounced(b.db.transfers, s.events + b.events)
  {
    hide SettleList, SettledIds, Distinct;
    var b := SettleList(s, ids, now);
    var events := s.events + b.events;
    var done := SettledIds(s, ids, now);
    SettleRows(s, ids, now);
    SettleEvents(s, ids, now);
    SettledDistinct(s, ids, now);
    SettledAmong(s, ids, now);
    forall t | 0 <= t < |b.db.transfers| ensures Announced(events, b.db.transfers[t], t) {
      assert Announced(s.events, s.transfers[t], t);
      Prelude.SumConcat(s.events, b.events, MovedFn(t));
      EventsOfDistinct(b.events, done, t);
      if t in done {
        assert t in ids;
      }
    }
  }

  lemma SettleKeeps(s: Db, rail: Rail, now: int)
    requires Balanced(s) && Recorded(s, now)
    ensures var b := SettlePendingTransfers(s, rail, now); Balanced(b.db) && Recorded(b.db, now)
  {
    hide SettleList, Balanced, AllAnnounced;
    var ids := ListPendingByRail(s.transfers, rail);
    var b := SettleList(s, ids, now);
    ListingIsPending(s, rail);
    SettleListKeeps(s, ids, now);
    SettleRows(s, ids, now);
    BatchAnnounced(s, ids, now);
    BooksFrame(b.db, b.db.(events := s.events + b.events));
  }
}
