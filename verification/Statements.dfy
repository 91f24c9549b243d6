/** Account statements over a window of the ledger: statementQuery.ts. */
module Statements {
  import opened Prelude
  import Zones
  import opened Tables
  import opened Books
  import opened Journal
  import opened Runs
  import opened RunningBalances

  predicate InWindow(e: LedgerEntry, account: AccountId, from: int, to: int) {
    e.account == account && from <= e.postedAt < to
  }

  /** The account's entries from `from`, up to but not including `to`. The
    * ledger is in posting order already, and ties keep it. */
  function Rows(ledger: seq<LedgerEntry>, account: AccountId, from: int, to: int): seq<LedgerEntry> {
    if |ledger| == 0 then []
    else
      var n := |ledger| - 1;
      Rows(ledger[..n], account, from, to) + (if InWindow(ledger[n], account, from, to) then [ledger[n]] else [])
  }

  function DebitsFn(): LedgerEntry -> int {
    (e: LedgerEntry) => if e.side == DebitSide then e.amount else 0
  }

  function CreditsFn(): LedgerEntry -> int {
    (e: LedgerEntry) => if e.side == CreditSide then e.amount else 0
  }

  datatype Statement = Statement(opening: int, closing: int, totalDebit: int, totalCredit: int, lines: seq<LedgerEntry>)

  function QueryStatement(ledger: seq<LedgerEntry>, account: AccountId, from: int, to: int): Statement {
    var lines := Rows(ledger, account, from, to);
    var closing := if |lines| > 0 then lines[|lines| - 1].running else 0;
    var opening := if |lines| > 0
                   then (if lines[0].side == CreditSide then lines[0].running - lines[0].amount
                         else lines[0].running + lines[0].amount)
                   else closing;
    Statement(opening, closing, Sum(lines, DebitsFn()), Sum(lines, CreditsFn()), lines)
  }

  // ---------- what the figures mean ----------

  function BeforeFn(account: AccountId, t: int): LedgerEntry -> int {
    (e: LedgerEntry) => if e.postedAt < t then SignedFn(account)(e) else 0
  }

  /** The signed sum of the account's entries before an instant. */
  function BalanceBefore(ledger: seq<LedgerEntry>, account: AccountId, t: int): int {
    Sum(ledger, BeforeFn(account, t))
  }

  /** The positions in the ledger of a statement's rows. */
  function RowIds(ledger: seq<LedgerEntry>, account: AccountId, from: int, to: int): seq<nat> {
    if |ledger| == 0 then []
    else
      var n := |ledger| - 1;
      RowIds(ledger[..n], account, from, to) + (if InWindow(ledger[n], account, from, to) then [n] else [])
  }

  /** A statement's rows are exactly the matching entries: each once, in the
    * order of the ledger. */
  lemma {:induction false} RowsExact(ledger: seq<LedgerEntry>, account: AccountId, from: int, to: int)
    ensures var rows, ids := Rows(ledger, account, from, to), RowIds(ledger, account, from, to);
            && |rows| == |ids|
            && (forall k :: 0 <= k < |ids| ==> ids[k] < |ledger| && rows[k] == ledger[ids[k]])
            && (forall j, k :: 0 <= j < k < |ids| ==> ids[j] < ids[k])
            && (forall i: nat :: i in ids <==> i < |ledger| && InWindow(ledger[i], account, from, to))
  {
    RowsInOrder(ledger, account, from, to);
    RowsComplete(ledger, account, from, to);
    hide Rows, RowIds;
  }

  lemma {:induction false} RowsInOrder(ledger: seq<LedgerEntry>, account: AccountId, from: int, to: int)
    ensures var rows, ids := Rows(ledger, account, from, to), RowIds(ledger, account, from, to);
            && |rows| == |ids|
            && (forall k :: 0 <= k < |ids| ==> ids[k] < |ledger| && rows[k] == ledger[ids[k]])
            && (forall j, k :: 0 <= j < k < |ids| ==> ids[j] < ids[k])
  {
    if |ledger| > 0 {
      RowsInOrder(ledger[..|ledger| - 1], account, from, to);
    }
  }

  lemma {:induction false} RowsComplete(ledger: seq<LedgerEntry>, account: AccountId, from: int, to: int)
    ensures forall i: nat ::
              i in RowIds(ledger, account, from, to) <==> i < |ledger| && InWindow(ledger[i], account, from, to)
  {
    if |ledger| > 0 {
      RowsComplete(ledger[..|ledger| - 1], account, from, to);
    }
  }

  lemma EntryDelta(e: LedgerEntry, account: AccountId, from: int, to: int)
    requires from <= to
    ensures BeforeFn(account, to)(e) - BeforeFn(account, from)(e)
            == if InWindow(e, account, from, to) then CreditsFn()(e) - DebitsFn()(e) else 0
  {
    if e.account != account {
      assert SignedFn(account)(e) == 0;
    } else {
      assert SignedFn(account)(e) == CreditsFn()(e) - DebitsFn()(e);
    }
  }

  /** Credits less debits is what the window's entries add. */
  lemma {:induction false} WindowTotals(ledger: seq<LedgerEntry>, account: AccountId, from: int, to: int)
    requires from <= to
    ensures var lines := Rows(ledger, account, from, to);
            Sum(lines, CreditsFn()) - Sum(lines, DebitsFn())
            == BalanceBefore(ledger, account, to) - BalanceBefore(ledger, account, from)
  {
    if |ledger| > 0 {
      var n := |ledger| - 1;
      WindowTotals(ledger[..n], account, from, to);
      var earlier := Rows(ledger[..n], account, from, to);
      var e := ledger[n];
      assert earlier + [] == earlier;
      EntryDelta(e, account, from, to);
      SumAppend(earlier, ledger[n], CreditsFn());
      SumAppend(earlier, ledger[n], DebitsFn());
    }
  }

  /** What an entry's running balance says beyond the signed sum up to it. */
  function Drift(ledger: seq<LedgerEntry>, account: AccountId, i: nat): int
    requires i < |ledger|
  {
    ledger[i].running - Sum(ledger[..i + 1], SignedFn(account))
  }

  /** If an instant separates the account's entries at position n, the balance
    * before it is the signed sum of the first n. */
  lemma BalanceAtPosition(ledger: seq<LedgerEntry>, account: AccountId, t: int, n: nat)
    requires n <= |ledger|
    requires forall i :: 0 <= i < |ledger| && ledger[i].account == account ==> (ledger[i].postedAt < t <==> i < n)
    ensures BalanceBefore(ledger, account, t) == Sum(ledger[..n], SignedFn(account))
  {
    SumSame(ledger[..n], BeforeFn(account, t), SignedFn(account));
    SumZero(ledger[n..], BeforeFn(account, t));
    SumConcat(ledger[..n], ledger[n..], BeforeFn(account, t));
    assert ledger[..n] + ledger[n..] == ledger;
  }

  /** The window separates the account's entries at its first and after its last row. */
  lemma WindowSeparates(ledger: seq<LedgerEntry>, account: AccountId, from: int, to: int, i: nat)
    requires InPostingOrder(ledger) && RowIds(ledger, account, from, to) != []
    requires i < |ledger| && ledger[i].account == account
    ensures var ids := RowIds(ledger, account, from, to);
            (ledger[i].postedAt < from <==> i < ids[0]) && (ledger[i].postedAt < to <==> i < ids[|ids| - 1] + 1)
  {
    RowsExact(ledger, account, from, to);
    hide Rows, RowIds;
    var ids := RowIds(ledger, account, from, to);
    assert ids[0] in ids && ids[|ids| - 1] in ids;
    if InWindow(ledger[i], account, from, to) {
      assert i in ids;
    }
  }

  lemma WindowEnds(ledger: seq<LedgerEntry>, account: AccountId, from: int, to: int)
    requires InPostingOrder(ledger) && RowIds(ledger, account, from, to) != []
    ensures var ids := RowIds(ledger, account, from, to);
            var st := QueryStatement(ledger, account, from, to);
            var first, last := ids[0], ids[|ids| - 1];
            && st.lines != [] && last < |ledger| && first < |ledger|
            && st.opening == BalanceBefore(ledger, account, from) + Drift(ledger, account, first)
            && st.closing == BalanceBefore(ledger, account, to) + Drift(ledger, account, last)
  {
    RowsExact(ledger, account, from, to);
    hide Rows, RowIds, BalanceBefore, InPostingOrder;
    var ids := RowIds(ledger, account, from, to);
    var first, last := ids[0], ids[|ids| - 1];
    assert first in ids;
    forall i | 0 <= i < |ledger| && ledger[i].account == account
      ensures ledger[i].postedAt < from <==> i < first
      ensures ledger[i].postedAt < to <==> i < last + 1
    {
      WindowSeparates(ledger, account, from, to, i);
    }
    BalanceAtPosition(ledger, account, from, first);
    BalanceAtPosition(ledger, account, to, last + 1);
    assert ledger[..first + 1] == ledger[..first] + [ledger[first]];
    SumAppend(ledger[..first], ledger[first], SignedFn(account));
  }

  /** A non-empty statement of a chained account opens with the balance before
    * the window, closes with the balance at its end, and its totals take the
    * one to the other. */
  lemma Reconciles(ledger: seq<LedgerEntry>, account: AccountId, from: int, to: int)
    requires InPostingOrder(ledger) && Chained(ledger, account) && from <= to
    requires |Rows(ledger, account, from, to)| > 0
    ensures var st := QueryStatement(ledger, account, from, to);
            && st.opening == BalanceBefore(ledger, account, from)
            && st.closing == BalanceBefore(ledger, account, to)
            && st.opening + st.totalCredit - st.totalDebit == st.closing
  {
    RowsExact(ledger, account, from, to);
    var ids := RowIds(ledger, account, from, to);
    assert ids[0] in ids && ids[|ids| - 1] in ids;
    WindowEnds(ledger, account, from, to);
    WindowTotals(ledger, account, from, to);
  }

  /** Opening, credits and debits lead to closing. */
  predicate Adds(st: Statement) {
    st.opening + st.totalCredit - st.totalDebit == st.closing
  }

  // ---------- when a statement adds up ----------

  function WindowFn(account: AccountId, from: int, to: int, f: LedgerEntry -> int): LedgerEntry -> int {
    (e: LedgerEntry) => if InWindow(e, account, from, to) then f(e) else 0
  }

  lemma {:induction false} RowsSum(ledger: seq<LedgerEntry>, account: AccountId, from: int, to: int,
                                   f: LedgerEntry -> int)
    ensures Sum(Rows(ledger, account, from, to), f) == Sum(ledger, WindowFn(account, from, to, f))
  {
    if |ledger| > 0 {
      var n := |ledger| - 1;
      RowsSum(ledger[..n], account, from, to, f);
      var earlier := Rows(ledger[..n], account, from, to);
      assert earlier + [] == earlier;
      SumAppend(earlier, ledger[n], f);
    }
  }

  lemma SliceSum(ledger: seq<LedgerEntry>, first: nat, end: nat, g: LedgerEntry -> int, f: LedgerEntry -> int)
    requires first <= end <= |ledger|
    requires forall i :: 0 <= i < |ledger| ==> g(ledger[i]) == if first <= i < end then f(ledger[i]) else 0
    ensures Sum(ledger, g) == Sum(ledger[..end], f) - Sum(ledger[..first], f)
  {
    SumZero(ledger[..first], g);
    SumSame(ledger[first..end], g, f);
    SumZero(ledger[end..], g);
    assert ledger == (ledger[..first] + ledger[first..end]) + ledger[end..];
    SumConcat(ledger[..first] + ledger[first..end], ledger[end..], g);
    SumConcat(ledger[..first], ledger[first..end], g);
    assert ledger[..end] == ledger[..first] + ledger[first..end];
    SumConcat(ledger[..first], ledger[first..end], f);
  }

  /** The rows add up what the ledger gained from the first of them to the last. */
  lemma WindowSum(ledger: seq<LedgerEntry>, account: AccountId, from: int, to: int, f: LedgerEntry -> int)
    requires InPostingOrder(ledger) && RowIds(ledger, account, from, to) != []
    requires forall e: LedgerEntry :: e.account != account ==> f(e) == 0
    ensures var ids := RowIds(ledger, account, from, to);
            && ids[0] <= ids[|ids| - 1] < |ledger|
            && Sum(Rows(ledger, account, from, to), f)
               == Sum(ledger[..ids[|ids| - 1] + 1], f) - Sum(ledger[..ids[0]], f)
  {
    RowsExact(ledger, account, from, to);
    RowsSum(ledger, account, from, to, f);
    hide Rows, RowIds;
    var ids := RowIds(ledger, account, from, to);
    var first, end := ids[0], ids[|ids| - 1] + 1;
    assert ids[0] in ids && ids[|ids| - 1] in ids;
    var g := WindowFn(account, from, to, f);
    forall i | 0 <= i < |ledger| ensures g(ledger[i]) == if first <= i < end then f(ledger[i]) else 0 {
      if ledger[i].account == account {
        WindowSeparates(ledger, account, from, to, i);
      }
    }
    hide InPostingOrder;
    SliceSum(ledger, first, end, g, f);
  }

  /** A statement never starts with the credit of an own posting: its debit
    * stands directly before it, at the same instant. */
  lemma FirstNotOwnCredit(s: Db, account: AccountId, from: int, to: int)
    requires RowIds(s.ledger, account, from, to) != []
    requires forall k :: 0 <= k < |s.ledger| ==> OwnPairAt(s, k)
    ensures var first := RowIds(s.ledger, account, from, to)[0];
            first < |s.ledger| && s.ledger[first].account == account && !IsOwnCredit(s.transfers, s.ledger[first])
  {
    RowsExact(s.ledger, account, from, to);
    hide Rows, RowIds;
    var ids := RowIds(s.ledger, account, from, to);
    assert ids[0] in ids;
    var i := ids[0];
    assert OwnPairAt(s, i);
    if i > 0 {
      assert i - 1 !in ids;
      assert !InWindow(s.ledger[i - 1], account, from, to);
    }
  }

  function FirstRow(s: Db, account: AccountId, from: int, to: int): nat {
    var ids := RowIds(s.ledger, account, from, to);
    if ids == [] then 0 else ids[0]
  }

  function LastRow(s: Db, account: AccountId, from: int, to: int): nat {
    var ids := RowIds(s.ledger, account, from, to);
    if ids == [] then 0 else ids[|ids| - 1]
  }

  /** The effect of the first n entries on the account. */
  function EffectUpTo(s: Db, account: AccountId, n: nat): int
    requires n <= |s.ledger|
  {
    Sum(s.ledger[..n], EffectFn(s.transfers, account))
  }

  /** One entry's effect on top of those before it. */
  lemma EffectOfNext(s: Db, account: AccountId, k: nat)
    requires k < |s.ledger|
    ensures EffectUpTo(s, account, k + 1) == EffectUpTo(s, account, k) + EffectFn(s.transfers, account)(s.ledger[k])
  {
    assert s.ledger[..k + 1] == s.ledger[..k] + [s.ledger[k]];
    SumAppend(s.ledger[..k], s.ledger[k], EffectFn(s.transfers, account));
  }

  lemma EndsOfRows(ledger: seq<LedgerEntry>, account: AccountId, from: int, to: int)
    requires RowIds(ledger, account, from, to) != []
    ensures var rows, ids := Rows(ledger, account, from, to), RowIds(ledger, account, from, to);
            var first, last := ids[0], ids[|ids| - 1];
            && |rows| == |ids| && first < |ledger| && last < |ledger|
            && ledger[first].account == ledger[last].account == account
            && rows[0] == ledger[first] && rows[|rows| - 1] == ledger[last]
  {
    RowsExact(ledger, account, from, to);
    hide Rows, RowIds;
    var ids := RowIds(ledger, account, from, to);
    assert ids[0] in ids && ids[|ids| - 1] in ids;
  }

  /** The figures at both ends, from the effects of the entries. */
  lemma EndFigures(s: Db, account: AccountId, from: int, to: int)
    requires RowIds(s.ledger, account, from, to) != []
    requires forall k :: 0 <= k < |s.ledger| ==> OwnPairAt(s, k)
    ensures var ids := RowIds(s.ledger, account, from, to);
            var st := QueryStatement(s.ledger, account, from, to);
            var first, last := ids[0], ids[|ids| - 1];
            && st.lines != [] && first < |s.ledger| && last < |s.ledger|
            && s.ledger[first].account == s.ledger[last].account == account
            && st.opening == EntryOffset(s, first) + EffectUpTo(s, account, first)
            && st.closing == EntryOffset(s, last) + EffectUpTo(s, account, last + 1)
  {
    hide Rows, RowIds, OwnPairAt;
    FirstNotOwnCredit(s, account, from, to);
    EndsOfRows(s.ledger, account, from, to);
    var ids := RowIds(s.ledger, account, from, to);
    EffectOfNext(s, account, ids[0]);
    hide IsOwnCredit;
    assert EntryOffset(s, ids[0]) == s.ledger[ids[0]].running - EffectUpTo(s, account, ids[0] + 1);
    assert EntryOffset(s, ids[|ids| - 1])
           == s.ledger[ids[|ids| - 1]].running - EffectUpTo(s, account, ids[|ids| - 1] + 1);
  }

  /** What a statement lists as credits of postings from the account to itself. */
  function OwnListed(s: Db, account: AccountId, lines: seq<LedgerEntry>): int {
    Sum(lines, OwnFn(s.transfers, account))
  }

  /** The rows' effects are their credits less their debits, own credits twice. */
  lemma {:induction false} LinesEffect(s: Db, account: AccountId, lines: seq<LedgerEntry>)
    requires forall k :: 0 <= k < |lines| ==> lines[k].account == account
    ensures Sum(lines, EffectFn(s.transfers, account))
            == Sum(lines, CreditsFn()) - Sum(lines, DebitsFn()) + OwnListed(s, account, lines)
  {
    if |lines| > 0 {
      LinesEffect(s, account, lines[..|lines| - 1]);
    }
  }

  lemma RowsEffect(s: Db, account: AccountId, from: int, to: int)
    requires InPostingOrder(s.ledger) && RowIds(s.ledger, account, from, to) != []
    ensures var st := QueryStatement(s.ledger, account, from, to);
            && FirstRow(s, account, from, to) < |s.ledger| && LastRow(s, account, from, to) < |s.ledger|
            && EffectUpTo(s, account, LastRow(s, account, from, to) + 1)
               - EffectUpTo(s, account, FirstRow(s, account, from, to))
               == st.totalCredit - st.totalDebit + OwnListed(s, account, st.lines)
  {
    RowsExact(s.ledger, account, from, to);
    WindowSum(s.ledger, account, from, to, EffectFn(s.transfers, account));
    hide Rows, RowIds, InPostingOrder;
    var lines, ids := Rows(s.ledger, account, from, to), RowIds(s.ledger, account, from, to);
    forall k | 0 <= k < |lines| ensures lines[k].account == account {
      assert ids[k] in ids;
    }
    LinesEffect(s, account, lines);
  }

  lemma StatementGap(s: Db, account: AccountId, from: int, to: int)
    requires InPostingOrder(s.ledger) && RowIds(s.ledger, account, from, to) != []
    requires forall k :: 0 <= k < |s.ledger| ==> OwnPairAt(s, k)
    ensures var first, last := FirstRow(s, account, from, to), LastRow(s, account, from, to);
            var st := QueryStatement(s.ledger, account, from, to);
            && first < |s.ledger| && last < |s.ledger|
            && s.ledger[first].account == s.ledger[last].account == account
            && st.closing == st.opening + st.totalCredit - st.totalDebit + OwnListed(s, account, st.lines)
                             + EntryOffset(s, last) - EntryOffset(s, first)
  {
    hide InPostingOrder, OwnPairAt, EntryOffset, RowIds, QueryStatement, OwnListed, EffectUpTo;
    RowsEffect(s, account, from, to);
    EndFigures(s, account, from, to);
  }

  /** What the calls of a run moved in an account, without entries, from the
    * call that wrote entry i to the one that wrote entry j. */
  function MovedBetween(z: Zones.Zone, calls: seq<Call>, account: AccountId, i: nat, j: nat): int {
    MovedBy(z, calls[..CallOf(z, calls, j)], account) - MovedBy(z, calls[..CallOf(z, calls, i)], account)
  }

  predicate ListsOwnPosting(s: Db, lines: seq<LedgerEntry>) {
    exists k :: 0 <= k < |lines| && IsOwnCredit(s.transfers, lines[k])
  }

  lemma OwnListedPositive(s: Db, now: int, account: AccountId, from: int, to: int)
    requires Inv(s, now)
    ensures var lines := Rows(s.ledger, account, from, to);
            OwnListed(s, account, lines) == 0 <==> !ListsOwnPosting(s, lines)
  {
    RowsExact(s.ledger, account, from, to);
    var lines, ids := Rows(s.ledger, account, from, to), RowIds(s.ledger, account, from, to);
    forall k | 0 <= k < |lines| ensures lines[k].amount > 0 && lines[k].account == account {
      assert ids[k] in ids;
      assert EntryOk(s.accounts, s.transfers, s.ledger[ids[k]]);
    }
    hide Inv, Rows, RowIds;
    if k :| 0 <= k < |lines| && IsOwnCredit(s.transfers, lines[k]) {
      SumAtLeast(lines, k, OwnFn(s.transfers, account));
    } else {
      SumZero(lines, OwnFn(s.transfers, account));
    }
  }

  /** What a run says of each entry. */
  predicate RunLedger(z: Zones.Zone, calls: seq<Call>, s: Db) {
    && InPostingOrder(s.ledger)
    && (forall k :: 0 <= k < |s.ledger| ==> OwnPairAt(s, k))
    && (forall k :: 0 <= k < |s.ledger| ==>
          EntryOffset(s, k) == MovedBy(z, calls[..CallOf(z, calls, k)], s.ledger[k].account))
  }

  lemma ReachableLedger(z: Zones.Zone, calls: seq<Call>, start: int)
    requires InOrder(calls, start)
    ensures RunLedger(z, calls, Run(z, EMPTY_DB, calls))
  {
    ReachableInv(z, calls, start);
    RunExplained(z, calls, start);
    hide Run, OwnPairAt, EntryOffset;
    var s := Run(z, EMPTY_DB, calls);
    forall k | 0 <= k < |s.ledger|
      ensures OwnPairAt(s, k) && EntryOffset(s, k) == MovedBy(z, calls[..CallOf(z, calls, k)], s.ledger[k].account)
    {
      assert EntryExplained(z, calls, s, k);
    }
  }

  lemma LinesAndIds(ledger: seq<LedgerEntry>, account: AccountId, from: int, to: int)
    ensures QueryStatement(ledger, account, from, to).lines != [] <==> RowIds(ledger, account, from, to) != []
  {
    RowsExact(ledger, account, from, to);
  }

  lemma RunGap(z: Zones.Zone, calls: seq<Call>, s: Db, account: AccountId, from: int, to: int)
    requires RunLedger(z, calls, s)
    ensures var st := QueryStatement(s.ledger, account, from, to);
            st.lines != [] ==>
              st.closing == st.opening + st.totalCredit - st.totalDebit + OwnListed(s, account, st.lines)
                + MovedBetween(z, calls, account, FirstRow(s, account, from, to), LastRow(s, account, from, to))
  {
    hide InPostingOrder, OwnPairAt, RowIds, EntryOffset, QueryStatement, OwnListed, FirstRow, LastRow, MovedBy, CallOf;
    LinesAndIds(s.ledger, account, from, to);
    if RowIds(s.ledger, account, from, to) != [] {
      StatementGap(s, account, from, to);
    }
  }

  /** In every reachable state, for every account, a non-empty statement misses
    * by exactly its postings from the account to itself and by what deposit
    * calls moved between its end rows. It adds up if and only if these sum to
    * nothing: if no deposit names the account, if and only if it lists no such
    * posting. */
  lemma StatementsReconcile(z: Zones.Zone, calls: seq<Call>, start: int, account: AccountId, from: int, to: int)
    requires InOrder(calls, start)
    ensures var s := Run(z, EMPTY_DB, calls);
            var st := QueryStatement(s.ledger, account, from, to);
            st.lines != [] ==>
              var missing := OwnListed(s, account, st.lines)
                + MovedBetween(z, calls, account, FirstRow(s, account, from, to), LastRow(s, account, from, to));
              && st.closing == st.opening + st.totalCredit - st.totalDebit + missing
              && (Adds(st) <==> missing == 0)
              && (!NamedByDeposit(s, account) ==> (Adds(st) <==> !ListsOwnPosting(s, st.lines)))
  {
    ReachableLedger(z, calls, start);
    ReachableInv(z, calls, start);
    hide Run, Inv, RunLedger, ListsOwnPosting, NamedByDeposit, OwnListed, Rows, RowIds, MovedBy, CallOf;
    var s := Run(z, EMPTY_DB, calls);
    RunGap(z, calls, s, account, from, to);
    OwnListedPositive(s, Clock(calls, start), account, from, to);
    if !NamedByDeposit(s, account) {
      UnnamedMoves(z, calls, account);
    }
  }

  /** Nothing of the account lies between adjacent statements. */
  lemma NothingBetween(s: Db, account: AccountId, from: int, mid: int, to: int)
    requires InPostingOrder(s.ledger) && from <= mid <= to
    requires RowIds(s.ledger, account, from, mid) != [] && RowIds(s.ledger, account, mid, to) != []
    ensures var i, j := LastRow(s, account, from, mid), FirstRow(s, account, mid, to);
            i < j < |s.ledger| && EffectUpTo(s, account, j) == EffectUpTo(s, account, i + 1)
  {
    RowsExact(s.ledger, account, from, mid);
    RowsExact(s.ledger, account, mid, to);
    hide Rows, RowIds;
    var ledger := s.ledger;
    var a, b := RowIds(ledger, account, from, mid), RowIds(ledger, account, mid, to);
    var i, j := a[|a| - 1], b[0];
    assert i in a && j in b;
    assert i < j;
    var f := EffectFn(s.transfers, account);
    forall k: nat | i < k < j ensures f(ledger[k]) == 0 {
      if ledger[k].account == account {
        WindowSeparates(ledger, account, from, mid, k);
        WindowSeparates(ledger, account, mid, to, k);
      }
    }
    SumZero(ledger[i + 1..j], f);
    SumConcat(ledger[..i + 1], ledger[i + 1..j], f);
    assert ledger[..i + 1] + ledger[i + 1..j] == ledger[..j];
  }

  lemma Boundary(s: Db, account: AccountId, from: int, mid: int, to: int)
    requires InPostingOrder(s.ledger) && from <= mid <= to
    requires RowIds(s.ledger, account, from, mid) != [] && RowIds(s.ledger, account, mid, to) != []
    requires forall k :: 0 <= k < |s.ledger| ==> OwnPairAt(s, k)
    ensures var i, j := LastRow(s, account, from, mid), FirstRow(s, account, mid, to);
            && i < |s.ledger| && j < |s.ledger|
            && s.ledger[i].account == s.ledger[j].account == account
            && QueryStatement(s.ledger, account, mid, to).opening
               == QueryStatement(s.ledger, account, from, mid).closing + EntryOffset(s, j) - EntryOffset(s, i)
  {
    hide InPostingOrder, OwnPairAt, RowIds, EntryOffset, QueryStatement, EffectUpTo;
    EndFigures(s, account, from, mid);
    EndFigures(s, account, mid, to);
    NothingBetween(s, account, from, mid, to);
  }

  lemma RunBoundary(z: Zones.Zone, calls: seq<Call>, s: Db, account: AccountId, from: int, mid: int, to: int)
    requires RunLedger(z, calls, s) && from <= mid <= to
    ensures var first := QueryStatement(s.ledger, account, from, mid);
            var second := QueryStatement(s.ledger, account, mid, to);
            first.lines != [] && second.lines != [] ==>
              second.opening == first.closing
                + MovedBetween(z, calls, account, LastRow(s, account, from, mid), FirstRow(s, account, mid, to))
  {
    hide InPostingOrder, OwnPairAt, RowIds, EntryOffset, QueryStatement, FirstRow, LastRow, MovedBy, CallOf;
    LinesAndIds(s.ledger, account, from, mid);
    LinesAndIds(s.ledger, account, mid, to);
    if RowIds(s.ledger, account, from, mid) != [] && RowIds(s.ledger, account, mid, to) != [] {
      Boundary(s, account, from, mid, to);
    }
  }

  /** In every reachable state adjacent non-empty statements differ by exactly
    * what deposit calls moved between the rows on either side, so they meet if
    * and only if that is nothing: always, if no deposit names the account. */
  lemma StatementsMeet(z: Zones.Zone, calls: seq<Call>, start: int, account: AccountId, from: int, mid: int, to: int)
    requires InOrder(calls, start) && from <= mid <= to
    ensures var s := Run(z, EMPTY_DB, calls);
            var first := QueryStatement(s.ledger, account, from, mid);
            var second := QueryStatement(s.ledger, account, mid, to);
            first.lines != [] && second.lines != [] ==>
              var moved := MovedBetween(z, calls, account, LastRow(s, account, from, mid),
                                        FirstRow(s, account, mid, to));
              && second.opening == first.closing + moved
              && (first.closing == second.opening <==> moved == 0)
              && (!NamedByDeposit(s, account) ==> first.closing == second.opening)
  {
    ReachableLedger(z, calls, start);
    hide Run, RunLedger, NamedByDeposit, QueryStatement, RowIds, MovedBy, CallOf;
    var s := Run(z, EMPTY_DB, calls);
    RunBoundary(z, calls, s, account, from, mid, to);
    if !NamedByDeposit(s, account) {
      UnnamedMoves(z, calls, account);
    }
  }
}
