/**
 * What opening, maturity and early closure of a deposit do: exactly when each
 * succeeds, which rows change, and how much interest is paid.
 */
module DepositOutcomes {
  import opened Prelude
  import opened Zones
  import opened Accounts
  import opened FixedDeposits
  import opened Tables
  import opened UseCases
  import opened Books
  import DepositsKept
  import opened Outcomes
  import opened Runs
  import Conservation

  // ---------- opening ----------

  /** The account can give the amount away: MoveAllowed without a receiver. */
  predicate CanGive(a: Account, amount: int) {
    && 0 < amount && a.status == Active && a.accountType != FixedDeposit && a.hold + amount <= a.balance
    && a.balance - amount >= (if a.accountType == Savings then 50_000 else 1_000_000)
  }

  /** A deposit opens exactly when the user's own payout account can give a
    * principal of at least Rs 10,000 for 7 to 120 months; then the principal
    * leaves that account for a new deposit account, and the terms are fixed. */
  lemma OpenedExactlyWhen(z: Zone, s: Db, user: UserId, payout: AccountId, principal: int, tenure: int,
                          number: string, now: int)
    ensures var r := OpenFixedDeposit(z, s, user, payout, principal, tenure, number, now);
            && (r.Ok? <==>
                  && Owns(s.accounts, user, payout) && CanGive(s.accounts[payout], principal)
                  && 1_000_000 <= principal && 7 <= tenure <= 120)
            && (r.Ok? ==>
                  var debited := s.accounts[payout].(balance := s.accounts[payout].balance - principal);
                  r.value == s.(accounts := s.accounts[payout := debited]
                                              + [Account(number, user, FixedDeposit, Active, principal, 0)],
                                deposits := s.deposits
                                              + [Deposit(|s.accounts|, user, payout, principal, tenure,
                                                         YearlyRate((tenure + 11) / 12), now,
                                                         MaturityInstant(z, now, tenure), ActiveDeposit, 0)]))
  {
    RateCard(tenure, tenure);
    hide MaturityInstant;
  }

  // ---------- paying out ----------

  /** The deposit's account is emptied and closed, principal and interest reach
    * the payout account, the deposit records status and interest, and nothing
    * else in the bank changes. */
  predicate PaidOut(s: Db, db: Db, id: nat, interest: int, status: DepositStatus) {
    && id < |s.deposits|
    && var d := s.deposits[id];
       && d.account < |s.accounts| && d.payout < |s.accounts| && d.account != d.payout
       && db == s.(accounts := s.accounts[d.account := s.accounts[d.account].(status := Closed, balance := 0)]
                                         [d.payout := s.accounts[d.payout].(balance := s.accounts[d.payout].balance
                                                                                       + d.principal + interest)],
                   deposits := s.deposits[id := d.(status := status, interestPaid := interest)])
  }

  lemma PayOutOutcome(s: Db, id: nat, paid: Result<Deposit, Error>, interest: int)
    requires Balanced(s) && id < |s.deposits| && s.deposits[id].status == ActiveDeposit
    requires interest >= 0 && paid.Ok?
    requires paid.value == s.deposits[id].(status := paid.value.status, interestPaid := interest)
    ensures PayOut(s, id, paid, interest).Ok? <==> Conservation.CanPayOut(s, id)
    ensures PayOut(s, id, paid, interest).Ok? ==>
              PaidOut(s, PayOut(s, id, paid, interest).value, id, interest, paid.value.status)
  {
    assert DepositOk(s.accounts, s.deposits[id]);
    DepositsKept.PayOutFails(s, id, paid, interest);
    hide Balanced;
  }

  /** In every reachable state an active deposit matures exactly when its own
    * account and the payout account are active and the former carries no hold.
    * It then pays the principal and the interest of the whole term, at its own
    * rate, rounded down. */
  lemma MaturityPays(z: Zone, calls: seq<Call>, from: int, id: nat)
    requires InOrder(calls, from)
    ensures var s := Run(z, EMPTY_DB, calls);
            id < |s.deposits| && s.deposits[id].status == ActiveDeposit ==>
              var r := MatureOne(s, id);
              var d := s.deposits[id];
              && (r.Ok? <==> Conservation.CanPayOut(s, id))
              && (r.Ok? ==>
                    && |r.value.deposits| == |s.deposits|
                    && var interest := r.value.deposits[id].interestPaid;
                       && PaidOut(s, r.value, id, interest, Matured)
                       && Earned(interest, d.principal, d.rateBps, d.tenureMonths))
  {
    hide Run;
    var s := Run(z, EMPTY_DB, calls);
    ReachableInv(z, calls, from);
    if id < |s.deposits| && s.deposits[id].status == ActiveDeposit {
      MaturedOutcome(s, id);
    }
  }

  lemma MaturedOutcome(s: Db, id: nat)
    requires Balanced(s) && id < |s.deposits| && s.deposits[id].status == ActiveDeposit
    ensures var r := MatureOne(s, id);
            && (r.Ok? <==> Conservation.CanPayOut(s, id))
            && (r.Ok? ==> PaidOut(s, r.value, id, MaturityInterest(s.deposits[id]), Matured))
    ensures Earned(MaturityInterest(s.deposits[id]), s.deposits[id].principal, s.deposits[id].rateBps,
                   s.deposits[id].tenureMonths)
  {
    var d := s.deposits[id];
    assert DepositOk(s.accounts, d);
    InterestBounds(d, 0);
    InterestExactly(d, 0);
    PayOutOutcome(s, id, MarkMatured(d, MaturityInterest(d)), MaturityInterest(d));
    hide Balanced, PayOut, PaidOut, Earned, MaturityInterest;
  }

  /** An early close is granted to the deposit's own user on the same condition,
    * and pays the interest of the whole 30-day months that have elapsed, less
    * one percent of it. */
  lemma EarlyClosePays(z: Zone, calls: seq<Call>, from: int, user: UserId, id: nat, now: int)
    requires InOrder(calls, from)
    ensures var s := Run(z, EMPTY_DB, calls);
            var r := PrematureCloseFixedDeposit(s, user, id, now);
            && (r.Ok? <==>
                  && id < |s.deposits| && s.deposits[id].userId == user && s.deposits[id].status == ActiveDeposit
                  && Conservation.CanPayOut(s, id))
            && (r.Ok? ==>
                  && |r.value.deposits| == |s.deposits|
                  && var d, interest := s.deposits[id], r.value.deposits[id].interestPaid;
                     && PaidOut(s, r.value, id, interest, PrematureClosed)
                     && exists months, gross ::
                          && Elapsed(d, now, months) && Earned(gross, d.principal, d.rateBps, months)
                          && Withheld(interest, gross))
  {
    hide Run;
    var s := Run(z, EMPTY_DB, calls);
    ReachableInv(z, calls, from);
    if id < |s.deposits| && s.deposits[id].status == ActiveDeposit {
      var d := s.deposits[id];
      assert DepositOk(s.accounts, d);
      InterestBounds(d, now);
      InterestExactly(d, now);
      hide Inv, PayOut;
      EarlyOutcome(s, user, id, now);
      assert Elapsed(d, now, MonthsElapsed(d, now)) && Earned(AccruedInterest(d, now), d.principal, d.rateBps,
                                                              MonthsElapsed(d, now));
    }
  }

  lemma EarlyOutcome(s: Db, user: UserId, id: nat, now: int)
    requires Balanced(s) && id < |s.deposits| && s.deposits[id].status == ActiveDeposit
    ensures var r := PrematureCloseFixedDeposit(s, user, id, now);
            && (r.Ok? <==> s.deposits[id].userId == user && Conservation.CanPayOut(s, id))
            && (r.Ok? ==> PaidOut(s, r.value, id, PrematureInterest(s.deposits[id], now), PrematureClosed))
  {
    var d := s.deposits[id];
    assert DepositOk(s.accounts, d);
    InterestBounds(d, now);
    PayOutOutcome(s, id, MarkPrematureClosed(d, PrematureInterest(d, now)), PrematureInterest(d, now));
    hide Balanced, PayOut, PaidOut, PrematureInterest;
  }

  // ---------- the maturity batch ----------

  /** The deposit row after a batch that lists it, if it can be paid out. */
  function MaturedRow(d: Deposit): Deposit {
    d.(status := Matured, interestPaid := MaturityInterest(d))
  }

  function PaidFn(s: Db): nat -> int {
    (id: nat) => if Conservation.CanPayOut(s, id) then 1 else 0
  }

  predicate DueList(s: Db, ids: seq<nat>) {
    Distinct(ids) && forall i :: 0 <= i < |ids| ==> ids[i] < |s.deposits| && s.deposits[ids[i]].status == ActiveDeposit
  }

  predicate RowsMatured(s: Db, deposits: seq<Deposit>, ids: seq<nat>) {
    && |deposits| == |s.deposits|
    && forall id: nat :: id < |s.deposits| ==>
         deposits[id]
         == if id in ids && Conservation.CanPayOut(s, id) then MaturedRow(s.deposits[id]) else s.deposits[id]
  }

  lemma {:induction false} MatureListRows(s: Db, ids: seq<nat>, now: int)
    requires Inv(s, now) && DueList(s, ids)
    ensures var r := MatureList(s, ids);
            RowsMatured(s, r.db.deposits, ids) && r.matured == Sum(ids, PaidFn(s)) && r.matured + r.failed == |ids|
  {
    if |ids| > 0 {
      DueFront(s, ids);
      MatureListRows(s, ids[..|ids| - 1], now);
      MatureLastRow(s, ids, now);
    }
  }

  lemma DueFront(s: Db, ids: seq<nat>)
    requires DueList(s, ids) && |ids| > 0
    ensures DueList(s, ids[..|ids| - 1]) && ids[|ids| - 1] !in ids[..|ids| - 1]
  {
  }

  lemma MatureLastRow(s: Db, ids: seq<nat>, now: int)
    requires Inv(s, now) && DueList(s, ids) && |ids| > 0
    requires var front := ids[..|ids| - 1];
             var r := MatureList(s, front);
             && RowsMatured(s, r.db.deposits, front)
             && r.matured == Sum(front, PaidFn(s)) && r.matured + r.failed == |front|
    ensures var r := MatureList(s, ids);
            RowsMatured(s, r.db.deposits, ids) && r.matured == Sum(ids, PaidFn(s)) && r.matured + r.failed == |ids|
  {
    hide Inv, MatureOne, Conservation.CanPayOut, MaturedRow, RowsMatured;
    var n := |ids| - 1;
    assert ids == ids[..n] + [ids[n]];
    DueFront(s, ids);
    LastItem(s, ids, now);
    var earlier := MatureList(s, ids[..n]).db.deposits;
    hide DueList;
    OneMoreMatured(s, earlier, ids[..n], ids[n]);
  }

  /** In its turn the last item still sees its own deposit, and is paid out if
    * it could be paid out at first. */
  lemma LastItem(s: Db, ids: seq<nat>, now: int)
    requires Inv(s, now) && DueList(s, ids) && |ids| > 0
    requires RowsMatured(s, MatureList(s, ids[..|ids| - 1]).db.deposits, ids[..|ids| - 1])
    ensures var n := |ids| - 1;
            var db := MatureList(s, ids[..n]).db;
            && ids[n] < |db.deposits| == |s.deposits|
            && (MatureOne(db, ids[n]).Ok? <==> Conservation.CanPayOut(s, ids[n]))
            && (MatureOne(db, ids[n]).Ok? ==>
                  MatureOne(db, ids[n]).value.deposits == db.deposits[ids[n] := MaturedRow(s.deposits[ids[n]])])
  {
    DueFront(s, ids);
    var n := |ids| - 1;
    var db := MatureList(s, ids[..n]).db;
    Conservation.MatureListTotal(s, ids[..n], now);
    MatureListKeeps(s, ids[..n], now);
    hide Inv, MatureOne, MatureList, Conservation.CanPayOut, Conservation.OthersUntouched, MaturedRow;
    Conservation.MatureItemTotal(s, db, ids[..n], ids[n], now);
    assert db.deposits[ids[n]] == s.deposits[ids[n]];
    if MatureOne(db, ids[n]).Ok? {
      MatureOneRow(db, ids[n]);
    }
  }

  lemma OneMoreMatured(s: Db, deposits: seq<Deposit>, ids: seq<nat>, id: nat)
    requires RowsMatured(s, deposits, ids) && id < |s.deposits| && id !in ids
    ensures var after := if Conservation.CanPayOut(s, id) then deposits[id := MaturedRow(s.deposits[id])] else deposits;
            RowsMatured(s, after, ids + [id])
  {
    hide Conservation.CanPayOut, MaturedRow;
  }

  lemma MatureOneRow(s: Db, id: nat)
    requires id < |s.deposits| && s.deposits[id].status == ActiveDeposit && MatureOne(s, id).Ok?
    ensures MatureOne(s, id).value.deposits == s.deposits[id := MaturedRow(s.deposits[id])]
  {
    hide MaturityInterest;
  }

  /** The batch pays out every active deposit whose date has come and that can
    * be paid out, and no other; each due one is in exactly one of its counts. */
  lemma BatchMaturesAll(z: Zone, calls: seq<Call>, from: int, now: int)
    requires InOrder(calls, from) && Clock(calls, from) <= now
    ensures var s := Run(z, EMPTY_DB, calls);
            var r := MatureFixedDeposits(s, now);
            && |r.db.deposits| == |s.deposits|
            && (forall id: nat :: id < |s.deposits| ==>
                  var d := s.deposits[id];
                  r.db.deposits[id]
                  == if d.status == ActiveDeposit && d.maturityAt <= now && Conservation.CanPayOut(s, id)
                     then MaturedRow(d) else d)
            && r.matured == Sum(ListDueForMaturity(s.deposits, now), PaidFn(s))
            && r.matured + r.failed == |ListDueForMaturity(s.deposits, now)|
  {
    hide Run;
    var s := Run(z, EMPTY_DB, calls);
    ReachableInv(z, calls, from);
    InvLater(s, Clock(calls, from), now);
    Conservation.MaturityListing(s.deposits, now);
    hide Inv, MatureList, Conservation.CanPayOut, MaturedRow;
    MatureListRows(s, ListDueForMaturity(s.deposits, now), now);
  }
}
