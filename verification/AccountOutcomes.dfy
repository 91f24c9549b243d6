/**
 * What the services for accounts, cards and standing instructions do: exactly
 * when each succeeds, and the one row it changes.
 */
module AccountOutcomes {
  import opened Prelude
  import opened Accounts
  import opened FixedDeposits
  import Schedules
  import opened Tables
  import opened UseCases
  import opened Outcomes

  // ---------- accounts ----------

  /** No active deposit, active card or running instruction of the user needs
    * the account. */
  predicate Unneeded(s: Db, user: UserId, account: AccountId) {
    && (forall d :: d in s.deposits && d.status == ActiveDeposit ==>
          d.account != account && (d.userId == user ==> d.payout != account))
    && (forall c :: c in s.cards && c.active ==> c.account != account)
    && (forall i :: i in s.instructions && i.owner == user && i.status == Running ==> i.from != account)
  }

  lemma UnneededByRow(s: Db, user: UserId, account: AccountId)
    ensures Unneeded(s, user, account) <==>
              && !HasActiveDeposit(s, account) && !HasActiveCard(s, account)
              && !HasRunningInstruction(s, user, account) && !PaysOutActiveDeposit(s, user, account)
  {
  }

  /** An owner closes an ordinary account exactly when it is empty, carries no
    * hold and nothing active needs it. */
  lemma ClosedExactlyWhen(s: Db, user: UserId, id: AccountId)
    ensures var r := CloseAccount(s, user, id);
            && (r.Ok? <==>
                  && Owns(s.accounts, user, id) && s.accounts[id].accountType != FixedDeposit
                  && s.accounts[id].balance == 0 && s.accounts[id].hold == 0 && Unneeded(s, user, id))
            && (r.Ok? ==> r.value == s.(accounts := s.accounts[id := s.accounts[id].(status := Closed)]))
  {
    UnneededByRow(s, user, id);
    hide Unneeded, HasActiveDeposit, HasActiveCard, HasRunningInstruction, PaysOutActiveDeposit;
  }

  /** A new account is empty, active and its holder's. */
  lemma CreatedEmpty(s: Db, user: UserId, accountType: AccountType, number: string)
    ensures CreateAccount(s, user, accountType, number)
            == s.(accounts := s.accounts + [Account(number, user, accountType, Active, 0, 0)])
  {
  }

  /** Freezing and unfreezing are refused to closed accounts only. */
  lemma FrozenExactlyWhen(s: Db, id: AccountId)
    ensures FreezeAccount(s, id).Ok? <==> id < |s.accounts| && s.accounts[id].status != Closed
    ensures UnfreezeAccount(s, id).Ok? <==> id < |s.accounts| && s.accounts[id].status != Closed
    ensures FreezeAccount(s, id).Ok? ==>
              && FreezeAccount(s, id).value == s.(accounts := s.accounts[id := s.accounts[id].(status := Frozen)])
              && UnfreezeAccount(s, id).value == s.(accounts := s.accounts[id := s.accounts[id].(status := Active)])
  {
  }

  // ---------- cards ----------

  /** A card is issued on the caller's own account; a later change never moves
    * it to another account. */
  lemma IssuedExactlyWhen(s: Db, user: UserId, account: AccountId, card: CardId, active: bool, limits: CardLimits)
    ensures IssueCard(s, user, account, limits).Ok? <==> Owns(s.accounts, user, account)
    ensures IssueCard(s, user, account, limits).Ok? ==>
              IssueCard(s, user, account, limits).value == s.(cards := s.cards + [Card(account, true, limits)])
    ensures UpdateCard(s, card, active, limits).Ok? <==> card < |s.cards|
    ensures UpdateCard(s, card, active, limits).Ok? ==>
              UpdateCard(s, card, active, limits).value
              == s.(cards := s.cards[card := Card(s.cards[card].account, active, limits)])
  {
  }

  // ---------- standing instructions ----------

  /** An instruction is created exactly by a customer with access, from an own
    * account to an own beneficiary. It is running, without failures, and its
    * first run is the chosen start or one step from now. */
  lemma InstructedExactlyWhen(s: Db, user: UserId, kyc: bool, from: AccountId, beneficiary: nat, owned: bool,
                              amount: int, frequency: Schedules.Frequency, startAt: Option<int>, endAt: Option<int>,
                              now: int)
    ensures var r := CreateInstruction(s, user, kyc, from, beneficiary, owned, amount, frequency, startAt, endAt, now);
            && (r.Ok? <==> MayBank(s.accounts, user, kyc) && Owns(s.accounts, user, from) && owned && 0 < amount)
            && (r.Ok? ==>
                  && |r.value.instructions| == |s.instructions| + 1
                  && var si := r.value.instructions[|s.instructions|];
                     && r.value == s.(instructions := s.instructions + [si])
                     && si.owner == user && si.from == from && si.beneficiary == beneficiary && si.amount == amount
                     && si.frequency == frequency && si.endAt == endAt
                     && si.status == Running && si.failures == 0 && si.lastRunAt == None
                     && (startAt.Some? ==> si.nextRunAt == startAt.value)
                     && (startAt.None? ==> si.nextRunAt == Schedules.Planned(now, frequency, 1)))
  {
    AccessIsMayBank(s, user, kyc);
    hide BankingAccess, MayBank, Schedules.AdvanceRun;
    assert Schedules.Planned(now, frequency, 1)
           == Schedules.AdvanceRun(Schedules.Planned(now, frequency, 0), frequency);
  }

  /** Only the owner changes an instruction: a running one can be paused, a
    * paused one resumed, any but a cancelled one cancelled; cancelling is final. */
  lemma ChangedExactlyWhen(s: Db, user: UserId, id: InstructionId, change: StatusChange)
    ensures var r := ChangeInstruction(s, user, id, change);
            && (r.Ok? <==>
                  && id < |s.instructions| && s.instructions[id].owner == user
                  && var status := s.instructions[id].status;
                     || (change == Pause && status == Running)
                     || (change == Resume && status == Paused)
                     || (change == Cancel && status != Cancelled))
            && (r.Ok? ==>
                  && |r.value.instructions| == |s.instructions|
                  && var after := r.value.instructions[id];
                     && r.value == s.(instructions := s.instructions[id := s.instructions[id].(status := after.status)])
                     && (after.status == Paused <==> change == Pause)
                     && (after.status == Running <==> change == Resume)
                     && (after.status == Cancelled <==> change == Cancel))
  {
  }
}
