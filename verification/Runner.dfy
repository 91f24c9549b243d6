/**
 * What the standing-instruction runner does to each row: exactly when a row is
 * cancelled, paid, moved on, counted as failed and paused, and that a tick
 * which is not cut short leaves no due row out.
 */
module Runner {
  import opened Prelude
  import opened Zones
  import opened Accounts
  import opened Schedules
  import opened Tables
  import opened UseCases
  import opened Outcomes
  import Scheduler

  /** Nothing throws and the process does not stop. */
  const UNDISTURBED := Fate(Nothing, Never)

  predicate Ended(si: Instruction, now: int) {
    si.endAt.Some? && si.endAt.value <= now
  }

  /** The row takes part in this tick: it has not ended and its beneficiary is known. */
  predicate Serviceable(si: Instruction, beneficiaries: map<nat, string>, now: int) {
    !Ended(si, now) && si.beneficiary in beneficiaries
  }

  /** Amount and accounts allow the payment; owner, tier and the beneficiary's
    * cooling period play no part. */
  predicate CanPay(accounts: seq<Account>, si: Instruction, number: string) {
    var to := FindByNumber(accounts, number);
    && si.amount <= 100_000_000 && to.Some?
    && MaySendTo(accounts, si.from, to.value) && MoveAllowed(accounts, si.from, to.value, si.amount)
  }

  function RunKey(id: InstructionId, si: Instruction): Key {
    Standing(id, si.nextRunAt)
  }

  function Payment(s: Db, id: InstructionId, si: Instruction, to: AccountId, now: int): Transfer
    requires si.from < |s.accounts| && to < |s.accounts|
  {
    Transfer(Some(RunKey(id, si)), Some(si.from), to, si.amount, TransferKind, Posted, Internal, now,
             SentCategory(s.accounts, si.from, to), None)
  }

  /** One run on. */
  function MovedOn(si: Instruction, now: int): Instruction {
    si.(nextRunAt := AdvanceRun(si.nextRunAt, si.frequency), lastRunAt := Some(now), status := Running, failures := 0)
  }

  /** One failure on, and paused from the third. */
  function FailedAgain(si: Instruction): Instruction {
    si.(failures := si.failures + 1, status := if si.failures >= 2 then Paused else si.status)
  }

  // ---------- one iteration ----------

  /** A row becomes cancelled exactly when its end has come and the tick gets to
    * it; then nothing else happens. */
  lemma CancelledExactlyWhen(z: Zone, s: Db, id: InstructionId, beneficiaries: map<nat, string>, fate: Fate, now: int)
    requires id < |s.instructions| && s.instructions[id].status != Cancelled
    ensures var si := s.instructions[id];
            var item := RunOne(z, s, id, si, beneficiaries, fate, now);
            && (item.db.instructions[id].status == Cancelled <==> fate.stops != AtStart && Ended(si, now))
            && (item.db.instructions[id].status == Cancelled ==>
                  item == Item(s.(instructions := s.instructions[id := si.(status := Cancelled)]), Skipped))
  {
    var si := s.instructions[id];
    hide ExecuteTransfer, AdvanceRun;
    if si.beneficiary in beneficiaries {
      TransferLeavesInstructions(z, s, id, si, beneficiaries[si.beneficiary], now);
    }
  }

  lemma TransferLeavesInstructions(z: Zone, s: Db, id: InstructionId, si: Instruction, number: string, now: int)
    ensures var sent := ExecuteTransfer(z, s, StandingInput(si, number), Some(RunKey(id, si)), now);
            sent.Ok? ==> sent.value.db.instructions == s.instructions
  {
  }

  /** The transfer behind an iteration, in a bank where its key is unused. */
  lemma StandingTransfer(z: Zone, s: Db, id: InstructionId, si: Instruction, number: string, now: int)
    requires FindByKey(s.transfers, RunKey(id, si)).None?
    ensures var to := FindByNumber(s.accounts, number);
            var sent := ExecuteTransfer(z, s, StandingInput(si, number), Some(RunKey(id, si)), now);
            && (sent.Ok? <==> CanPay(s.accounts, si, number))
            && (sent.Ok? ==>
                  && OnlyPosts(s, sent.value.db, Payment(s, id, si, to.value, now))
                  && sent.value.db.disputes == s.disputes
                  && sent.value.db.events == s.events + [MovedNow(s, Payment(s, id, si, to.value, now))])
  {
    PostedExactlyWhen(z, s, StandingInput(si, number), Some(RunKey(id, si)), now);
    hide ExecuteTransfer, FindByNumber, FindByKey, MoveAllowed, OnlyPosts, MaySendTo, MayBank;
  }

  /** Undisturbed, a run that is not yet paid succeeds exactly when amount and
    * accounts allow it: then the amount moves to the beneficiary's account on
    * one new row, both events are out and the schedule is one run on. Otherwise
    * the failure is counted and nothing else happens. */
  lemma PaidExactlyWhen(z: Zone, s: Db, id: InstructionId, beneficiaries: map<nat, string>, now: int)
    requires id < |s.instructions| && Serviceable(s.instructions[id], beneficiaries, now)
    requires FindByKey(s.transfers, RunKey(id, s.instructions[id])).None?
    ensures var si := s.instructions[id];
            var number := beneficiaries[si.beneficiary];
            var item := RunOne(z, s, id, si, beneficiaries, UNDISTURBED, now);
            && (item.outcome == Succeeded <==> CanPay(s.accounts, si, number))
            && (item.outcome == Succeeded ==>
                  var row := Payment(s, id, si, FindByNumber(s.accounts, number).value, now);
                  && OnlyPosts(s, item.db.(instructions := s.instructions), row)
                  && item.db.instructions == s.instructions[id := MovedOn(si, now)]
                  && item.db.disputes == s.disputes
                  && item.db.events == s.events + [MovedNow(s, row), StandingRan(id, si.amount, now)])
            && (item.outcome != Succeeded ==>
                  item == Item(s.(instructions := s.instructions[id := FailedAgain(si)]), Failed))
  {
    hide ExecuteTransfer, CanPay, FindByNumber, FindByKey, OnlyMoves, AdvanceRun;
    var si := s.instructions[id];
    StandingTransfer(z, s, id, si, beneficiaries[si.beneficiary], now);
    TransferLeavesInstructions(z, s, id, si, beneficiaries[si.beneficiary], now);
  }

  /** A run whose key is already on a transfer, because an earlier tick was cut
    * short, is not paid again: the schedule catches up. */
  lemma CaughtUpExactlyWhen(z: Zone, s: Db, id: InstructionId, beneficiaries: map<nat, string>, now: int)
    requires id < |s.instructions| && Serviceable(s.instructions[id], beneficiaries, now)
    requires FindByKey(s.transfers, RunKey(id, s.instructions[id])).Some?
    ensures var si := s.instructions[id];
            var item := RunOne(z, s, id, si, beneficiaries, UNDISTURBED, now);
            && (item.outcome == Succeeded <==> 0 < si.amount <= 100_000_000)
            && (item.outcome == Succeeded ==>
                  item.db == s.(instructions := s.instructions[id := MovedOn(si, now)],
                                events := s.events + [StandingRan(id, si.amount, now)]))
            && (item.outcome != Succeeded ==>
                  item == Item(s.(instructions := s.instructions[id := FailedAgain(si)]), Failed))
  {
    var si := s.instructions[id];
    RepeatedTransfer(z, s, StandingInput(si, beneficiaries[si.beneficiary]), Some(RunKey(id, si)), now);
    hide ExecuteTransfer, FindByKey, AdvanceRun;
  }

  /** A row whose beneficiary is gone is counted as failed and left as it is. */
  lemma LeftWithoutBeneficiary(z: Zone, s: Db, id: InstructionId, beneficiaries: map<nat, string>, now: int)
    requires id < |s.instructions| && s.instructions[id].beneficiary !in beneficiaries
             && !Ended(s.instructions[id], now)
    ensures RunOne(z, s, id, s.instructions[id], beneficiaries, UNDISTURBED, now) == Item(s, Failed)
  {
    hide ExecuteTransfer, AdvanceRun;
  }

  /** The transfer behind an iteration goes through or has gone through. */
  predicate GoesThrough(s: Db, id: InstructionId, si: Instruction, number: string) {
    if FindByKey(s.transfers, RunKey(id, si)).Some? then 0 < si.amount <= 100_000_000
    else CanPay(s.accounts, si, number)
  }

  /** Whatever throws and wherever the tick is cut short, the money moves exactly
    * when amount and accounts allow it and the tick gets to the row. */
  lemma MoneyMovesExactlyWhen(z: Zone, s: Db, id: InstructionId, beneficiaries: map<nat, string>, fate: Fate, now: int)
    requires id < |s.instructions| && Serviceable(s.instructions[id], beneficiaries, now)
    requires FindByKey(s.transfers, RunKey(id, s.instructions[id])).None?
    ensures var si := s.instructions[id];
            var number := beneficiaries[si.beneficiary];
            var db := RunOne(z, s, id, si, beneficiaries, fate, now).db;
            if fate.stops != AtStart && CanPay(s.accounts, si, number)
            then OnlyPosts(s, db.(instructions := s.instructions),
                           Payment(s, id, si, FindByNumber(s.accounts, number).value, now))
            else db.accounts == s.accounts && db.transfers == s.transfers && db.ledger == s.ledger
  {
    hide ExecuteTransfer, CanPay, FindByNumber, FindByKey, OnlyMoves, AdvanceRun;
    var si := s.instructions[id];
    StandingTransfer(z, s, id, si, beneficiaries[si.beneficiary], now);
    TransferLeavesInstructions(z, s, id, si, beneficiaries[si.beneficiary], now);
  }

  /** And the schedule moves on exactly when the run is paid and nothing cuts in
    * before the row is written, or takes it back after. */
  lemma MovesOnExactlyWhen(z: Zone, s: Db, id: InstructionId, beneficiaries: map<nat, string>, fate: Fate, now: int)
    requires id < |s.instructions| && Serviceable(s.instructions[id], beneficiaries, now)
    ensures var si := s.instructions[id];
            var after := RunOne(z, s, id, si, beneficiaries, fate, now).db.instructions[id];
            var paidNow := FindByKey(s.transfers, RunKey(id, si)).None?;
            && (after.nextRunAt != si.nextRunAt <==>
                  && GoesThrough(s, id, si, beneficiaries[si.beneficiary])
                  && fate.stops !in {AtStart, AfterCommit, AfterPublish}
                  && !(fate.throws == TransferSubscriber && paidNow)
                  && !(fate.throws == NoticeSubscriber && fate.stops !in {AfterAdvance, AfterNotice}))
            && (after.nextRunAt != si.nextRunAt ==> after == MovedOn(si, now))
  {
    hide ExecuteTransfer, CanPay, FindByNumber, FindByKey, OnlyMoves, AdvanceRun;
    var si := s.instructions[id];
    var number := beneficiaries[si.beneficiary];
    AdvanceAtLeastADay(si.nextRunAt, si.frequency);
    TransferLeavesInstructions(z, s, id, si, number, now);
    if FindByKey(s.transfers, RunKey(id, si)).None? {
      StandingTransfer(z, s, id, si, number, now);
    } else {
      RepeatedTransfer(z, s, StandingInput(si, number), Some(RunKey(id, si)), now);
    }
  }

  // ---------- a whole tick ----------

  ghost predicate NeverStops(fates: InstructionId -> Fate) {
    forall id :: fates(id).stops == Never
  }

  /** What a tick that gets to a due row leaves of it. */
  predicate Tried(si: Instruction, after: Instruction, beneficiaries: map<nat, string>, now: int) {
    if Ended(si, now) then after == si.(status := Cancelled)
    else if si.beneficiary !in beneficiaries then after == si
    else after == MovedOn(si, now) || after == FailedAgain(si)
  }

  lemma OneTried(z: Zone, s: Db, id: InstructionId, beneficiaries: map<nat, string>, fate: Fate, now: int)
    requires id < |s.instructions| && fate.stops == Never
    ensures var si := s.instructions[id];
            var item := RunOne(z, s, id, si, beneficiaries, fate, now);
            && item.db.instructions == s.instructions[id := item.db.instructions[id]]
            && Tried(si, item.db.instructions[id], beneficiaries, now)
            && (item.outcome == Skipped <==> Ended(si, now)) && item.outcome != Stopped
  {
    hide ExecuteTransfer, AdvanceRun;
    var si := s.instructions[id];
    if si.beneficiary in beneficiaries {
      TransferLeavesInstructions(z, s, id, si, beneficiaries[si.beneficiary], now);
    }
  }

  function NotEndedFn(s: Db, now: int): InstructionId -> int {
    (id: InstructionId) => if id < |s.instructions| && Ended(s.instructions[id], now) then 0 else 1
  }

  predicate Listed(s: Db, ids: seq<InstructionId>) {
    Distinct(ids) && forall i :: 0 <= i < |ids| ==> ids[i] < |s.instructions|
  }

  predicate ListTried(s: Db, db: Db, ids: seq<InstructionId>, beneficiaries: map<nat, string>, now: int) {
    && |db.instructions| == |s.instructions|
    && forall id: nat :: id < |s.instructions| ==>
         if id in ids then Tried(s.instructions[id], db.instructions[id], beneficiaries, now)
         else db.instructions[id] == s.instructions[id]
  }

  lemma {:induction false} RunListTries(z: Zone, s: Db, ids: seq<InstructionId>, beneficiaries: map<nat, string>,
                                        fates: InstructionId -> Fate, now: int)
    requires Listed(s, ids) && NeverStops(fates)
    ensures var t := RunList(z, s, ids, beneficiaries, fates, now);
            && !t.stopped && ListTried(s, t.db, ids, beneficiaries, now)
            && t.succeeded + t.failed == Sum(ids, NotEndedFn(s, now))
    decreases |ids|
  {
    if |ids| > 0 {
      ListedFront(s, ids);
      RunListTries(z, s, ids[..|ids| - 1], beneficiaries, fates, now);
      LastTried(z, s, ids, beneficiaries, fates, now);
    }
  }

  lemma ListedFront(s: Db, ids: seq<InstructionId>)
    requires Listed(s, ids) && |ids| > 0
    ensures Listed(s, ids[..|ids| - 1]) && ids[|ids| - 1] !in ids[..|ids| - 1]
  {
  }

  lemma LastTried(z: Zone, s: Db, ids: seq<InstructionId>, beneficiaries: map<nat, string>,
                  fates: InstructionId -> Fate, now: int)
    requires Listed(s, ids) && NeverStops(fates) && |ids| > 0
    requires var front := ids[..|ids| - 1];
             var t := RunList(z, s, front, beneficiaries, fates, now);
             && !t.stopped && ListTried(s, t.db, front, beneficiaries, now)
             && t.succeeded + t.failed == Sum(front, NotEndedFn(s, now))
    ensures var t := RunList(z, s, ids, beneficiaries, fates, now);
            && !t.stopped && ListTried(s, t.db, ids, beneficiaries, now)
            && t.succeeded + t.failed == Sum(ids, NotEndedFn(s, now))
  {
    hide RunOne, Ended, ListTried, Sum;
    var n, last := |ids| - 1, ids[|ids| - 1];
    ListedFront(s, ids);
    assert ids == ids[..n] + [last];
    SumAppend(ids[..n], last, NotEndedFn(s, now));
    var db := RunList(z, s, ids[..n], beneficiaries, fates, now).db;
    LastItemTried(z, s, db, ids[..n], last, beneficiaries, fates(last), now);
    SameRow(s, db, ids[..n], last, beneficiaries, now);
  }

  lemma SameRow(s: Db, db: Db, ids: seq<InstructionId>, id: InstructionId, beneficiaries: map<nat, string>, now: int)
    requires ListTried(s, db, ids, beneficiaries, now) && id < |s.instructions| && id !in ids
    ensures |db.instructions| == |s.instructions| && db.instructions[id] == s.instructions[id]
  {
    hide Tried;
  }

  /** In its turn an item still sees its own row. */
  lemma LastItemTried(z: Zone, s: Db, db: Db, ids: seq<InstructionId>, id: InstructionId,
                      beneficiaries: map<nat, string>, fate: Fate, now: int)
    requires ListTried(s, db, ids, beneficiaries, now) && id < |s.instructions| && id !in ids && fate.stops == Never
    ensures id < |db.instructions|
    ensures var item := RunOne(z, db, id, db.instructions[id], beneficiaries, fate, now);
            && ListTried(s, item.db, ids + [id], beneficiaries, now)
            && (item.outcome == Skipped <==> Ended(s.instructions[id], now)) && item.outcome != Stopped
  {
    hide RunOne, Tried, Ended;
    assert db.instructions[id] == s.instructions[id];
    OneTried(z, db, id, beneficiaries, fate, now);
  }

  /** A tick that is not cut short leaves out no due row and touches no other:
    * each running row whose time has come is cancelled if its end has come,
    * left if its beneficiary is gone, and else moved on or counted as failed.
    * Every row that has not ended is in exactly one of the two counts. */
  lemma TickTriesAll(z: Zone, s: Db, beneficiaries: map<nat, string>, fates: InstructionId -> Fate, now: int)
    requires NeverStops(fates)
    ensures var t := RunDueInstructions(z, s, beneficiaries, fates, now);
            && !t.stopped && |t.db.instructions| == |s.instructions|
            && (forall id: nat :: id < |s.instructions| ==>
                  var si := s.instructions[id];
                  if si.status == Running && si.nextRunAt <= now
                  then Tried(si, t.db.instructions[id], beneficiaries, now)
                  else t.db.instructions[id] == si)
            && t.succeeded + t.failed == Sum(ListDue(s.instructions, now), NotEndedFn(s, now))
  {
    hide RunList, Tried;
    var ids := ListDue(s.instructions, now);
    Scheduler.DueListing(s.instructions, now);
    RunListTries(z, s, ids, beneficiaries, fates, now);
  }
}
