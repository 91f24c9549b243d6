/**
 * The standing-instruction runner over whole runs: each planned run is paid
 * exactly once whatever goes wrong around it, and repeated ticks run dry.
 */
module Scheduler {
  import opened Prelude
  import Accounts
  import Calendar
  import opened Zones
  import opened Schedules
  import opened Tables
  import opened UseCases
  import Journal
  import opened Runs
  import opened History
  import Guarantees

  // ---------- one iteration ----------

  predicate IsStandingRow(t: Transfer, id: InstructionId) {
    t.key.Some? && t.key.value.Standing? && t.key.value.instruction == id
  }

  /** A row the runner wrote for one planned run of an instruction. */
  predicate PaysRun(t: Transfer, si: Instruction, id: InstructionId, at: int) {
    t.key == Some(Standing(id, at)) && t.status == Posted && t.from == Some(si.from) && t.amount == si.amount
  }

  /** The row's destination is the account whose number the beneficiary has. */
  predicate PaysTo(accounts: seq<Accounts.Account>, t: Transfer, beneficiaries: map<nat, string>, beneficiary: nat) {
    t.to < |accounts| && beneficiary in beneficiaries && accounts[t.to].number == beneficiaries[beneficiary]
  }

  /** A successful transfer leaves its key on a row: the one found, or one new row. */
  lemma TransferEffect(z: Zone, s: Db, inp: TransferInput, key: Key, now: int)
    requires ExecuteTransfer(z, s, inp, Some(key), now).Ok?
    ensures var db := ExecuteTransfer(z, s, inp, Some(key), now).value.db;
            && FindByKey(db.transfers, key).Some?
            && db.instructions == s.instructions
            && (|| db.transfers == s.transfers
                || (&& |db.transfers| == |s.transfers| + 1 && db.transfers[..|s.transfers|] == s.transfers
                    && var t := db.transfers[|s.transfers|];
                       && t.key == Some(key) && t.status == Posted && t.from == Some(inp.from) && t.amount == inp.amount
                       && t.to < |s.accounts| && s.accounts[t.to].number == inp.toNumber))
  {
  }

  /** What an iteration does to the instruction and the transfers: the row
    * stays, is cancelled, counts a failure or advances; at most one transfer
    * is added, for the planned run; and the schedule advances only if that
    * run's key is on a transfer. */
  lemma RunOneEffect(z: Zone, s: Db, id: InstructionId, si: Instruction, beneficiaries: map<nat, string>, fate: Fate,
                     now: int)
    requires id < |s.instructions| && si == s.instructions[id]
    ensures var db := RunOne(z, s, id, si, beneficiaries, fate, now).db;
            && db.instructions == s.instructions[id := db.instructions[id]]
            && (|| db.instructions[id] == si
                || db.instructions[id] == si.(status := Cancelled)
                || db.instructions[id] == FailedOnce(si)
                || (db.instructions[id] == Advanced(si, now)
                    && FindByKey(db.transfers, Standing(id, si.nextRunAt)).Some?))
    ensures var db := RunOne(z, s, id, si, beneficiaries, fate, now).db;
            || db.transfers == s.transfers
            || (|db.transfers| == |s.transfers| + 1 && db.transfers[..|s.transfers|] == s.transfers
                && PaysRun(db.transfers[|s.transfers|], si, id, si.nextRunAt)
                && PaysTo(s.accounts, db.transfers[|s.transfers|], beneficiaries, si.beneficiary))
  {
    hide ExecuteTransfer, FindByKey, AdvanceRun;
    if si.beneficiary in beneficiaries {
      var inp := StandingInput(si, beneficiaries[si.beneficiary]);
      if ExecuteTransfer(z, s, inp, Some(Standing(id, si.nextRunAt)), now).Ok? {
        TransferEffect(z, s, inp, Standing(id, si.nextRunAt), now);
      }
    }
  }

  lemma KeysOfInv(s: Db, now: int)
    requires Inv(s, now)
    ensures Journal.KeysOk(s.transfers, |s.instructions|)
  {
  }

  // ---------- exactly once ----------

  /** The run is paid by exactly one transfer. */
  predicate PaidOnce(transfers: seq<Transfer>, si: Instruction, id: InstructionId, at: int) {
    exists i :: 0 <= i < |transfers| && PaysRun(transfers[i], si, id, at)
                && forall j :: 0 <= j < |transfers| && transfers[j].key == Some(Standing(id, at)) ==> j == i
  }

  predicate PlannedBy(start: int, frequency: Frequency, k: nat, at: int) {
    exists j: nat :: j <= k && Planned(start, frequency, j) == at
  }

  /** After k completed runs of an instruction that started at `start`: the
    * next run is planned run k, every earlier planned run is paid exactly once
    * and no other instant is, except perhaps run k itself, once. */
  predicate OnSchedule(s: Db, id: InstructionId, start: int, k: nat)
    requires id < |s.instructions|
  {
    var si := s.instructions[id];
    && si.nextRunAt == Planned(start, si.frequency, k)
    && (forall j: nat :: j < k ==> PaidOnce(s.transfers, si, id, Planned(start, si.frequency, j)))
    && (forall i :: 0 <= i < |s.transfers| && IsStandingRow(s.transfers[i], id) ==>
          && PaysRun(s.transfers[i], si, id, s.transfers[i].key.value.plannedAt)
          && PlannedBy(start, si.frequency, k, s.transfers[i].key.value.plannedAt))
    && Journal.KeysOk(s.transfers, |s.instructions|)
  }

  /** Rows that only this instruction's runs or other keys added, and a schedule
    * that did not move, keep it on schedule. */
  lemma StaysOnSchedule(s: Db, db: Db, id: InstructionId, start: int, k: nat)
    requires id < |s.instructions| <= |db.instructions| && OnSchedule(s, id, start, k)
    requires TransfersKept(s.transfers, db.transfers) && Journal.KeysOk(db.transfers, |db.instructions|)
    requires var a, b := s.instructions[id], db.instructions[id];
             b == a.(status := b.status, failures := b.failures, lastRunAt := b.lastRunAt)
    requires forall i :: |s.transfers| <= i < |db.transfers| && IsStandingRow(db.transfers[i], id) ==>
               PaysRun(db.transfers[i], s.instructions[id], id, s.instructions[id].nextRunAt)
    ensures OnSchedule(db, id, start, k)
  {
    var si := s.instructions[id];
    forall j: nat | j < k ensures PaidOnce(db.transfers, db.instructions[id], id, Planned(start, si.frequency, j)) {
      assert PaidOnce(s.transfers, si, id, Planned(start, si.frequency, j));
      var i :| 0 <= i < |s.transfers| && PaysRun(s.transfers[i], si, id, Planned(start, si.frequency, j));
      assert RowKept(s.transfers[i], db.transfers[i]);
      assert PaysRun(db.transfers[i], db.instructions[id], id, Planned(start, si.frequency, j));
    }
    forall i | 0 <= i < |db.transfers| && IsStandingRow(db.transfers[i], id)
      ensures PaysRun(db.transfers[i], db.instructions[id], id, db.transfers[i].key.value.plannedAt)
      ensures PlannedBy(start, si.frequency, k, db.transfers[i].key.value.plannedAt)
    {
      if i < |s.transfers| {
        assert RowKept(s.transfers[i], db.transfers[i]);
        assert IsStandingRow(s.transfers[i], id);
      }
    }
  }

  /** Advancing past run k, once its key is on a transfer, moves on to k + 1. */
  lemma AdvancesSchedule(s: Db, db: Db, id: InstructionId, start: int, k: nat, now: int)
    requires id < |s.instructions| == |db.instructions| && OnSchedule(s, id, start, k)
    requires db == s.(instructions := s.instructions[id := Advanced(s.instructions[id], now)])
    requires FindByKey(s.transfers, Standing(id, s.instructions[id].nextRunAt)).Some?
    ensures OnSchedule(db, id, start, k + 1)
  {
    var si := s.instructions[id];
    var next := db.instructions[id];
    assert Planned(start, si.frequency, k + 1) == AdvanceRun(Planned(start, si.frequency, k), si.frequency);
    forall j: nat | j < k + 1 ensures PaidOnce(db.transfers, next, id, Planned(start, si.frequency, j)) {
      if j < k {
        assert PaidOnce(s.transfers, si, id, Planned(start, si.frequency, j));
        var i :| 0 <= i < |s.transfers| && PaysRun(s.transfers[i], si, id, Planned(start, si.frequency, j));
        assert PaysRun(db.transfers[i], next, id, Planned(start, si.frequency, j));
      } else {
        var i := FindByKey(s.transfers, Standing(id, si.nextRunAt)).value;
        assert IsStandingRow(s.transfers[i], id);
        assert PaysRun(db.transfers[i], next, id, Planned(start, si.frequency, j));
      }
    }
    forall i | 0 <= i < |db.transfers| && IsStandingRow(db.transfers[i], id)
      ensures PaysRun(db.transfers[i], next, id, db.transfers[i].key.value.plannedAt)
      ensures PlannedBy(start, si.frequency, k + 1, db.transfers[i].key.value.plannedAt)
    {
      assert PlannedBy(start, si.frequency, k, s.transfers[i].key.value.plannedAt);
      var j: nat :| j <= k && Planned(start, si.frequency, j) == s.transfers[i].key.value.plannedAt;
      assert j <= k + 1;
    }
  }

  /** An iteration keeps every instruction on schedule, one run on at most. */
  lemma RunOneOnSchedule(z: Zone, s: Db, run: InstructionId, beneficiaries: map<nat, string>, fate: Fate, now: int,
                         id: InstructionId, start: int, k: nat) returns (k': nat)
    requires Inv(s, now) && run < |s.instructions| && id < |s.instructions| && OnSchedule(s, id, start, k)
    ensures k <= k' <= k + 1
    ensures OnSchedule(RunOne(z, s, run, s.instructions[run], beneficiaries, fate, now).db, id, start, k')
  {
    hide Inv, RunOne, OnSchedule, FindByKey, Journal.KeysOk, RowKept;
    var si := s.instructions[run];
    var db := RunOne(z, s, run, si, beneficiaries, fate, now).db;
    RunOneEffect(z, s, run, si, beneficiaries, fate, now);
    RunOneHistory(z, s, run, si, beneficiaries, fate, now);
    RunOneKeeps(z, s, run, si, beneficiaries, fate, now);
    KeysOfInv(db, now);
    if run == id && db.instructions[id] == Advanced(si, now) {
      var sent := db.(instructions := s.instructions);
      StaysOnSchedule(s, sent, id, start, k);
      AdvancesSchedule(sent, db, id, start, k, now);
      k' := k + 1;
    } else {
      StaysOnSchedule(s, db, id, start, k);
      k' := k;
    }
  }

  lemma {:induction false} RunListOnSchedule(z: Zone, s: Db, ids: seq<InstructionId>, beneficiaries: map<nat, string>,
                                             fates: InstructionId -> Fate, now: int,
                                             id: InstructionId, start: int, k: nat) returns (k': nat)
    requires Inv(s, now) && id < |s.instructions| && OnSchedule(s, id, start, k)
    requires forall i :: 0 <= i < |ids| ==> ids[i] < |s.instructions|
    ensures k <= k' && OnSchedule(RunList(z, s, ids, beneficiaries, fates, now).db, id, start, k')
  {
    k' := k;
    if |ids| > 0 {
      hide Inv, OnSchedule, RunOne;
      var n := |ids| - 1;
      k' := RunListOnSchedule(z, s, ids[..n], beneficiaries, fates, now, id, start, k);
      var r := RunList(z, s, ids[..n], beneficiaries, fates, now);
      if !r.stopped {
        RunListKeeps(z, s, ids[..n], beneficiaries, fates, now);
        k' := RunOneOnSchedule(z, r.db, ids[n], beneficiaries, fates(ids[n]), now, id, start, k');
      }
    }
  }

  lemma TickOnSchedule(z: Zone, s: Db, beneficiaries: map<nat, string>, fates: InstructionId -> Fate, now: int,
                       before: int, id: InstructionId, start: int, k: nat)
    returns (k': nat)
    requires Inv(s, before) && before <= now && id < |s.instructions| && OnSchedule(s, id, start, k)
    ensures var db := RunDueInstructions(z, s, beneficiaries, fates, now).db;
            id < |db.instructions| && k <= k' && OnSchedule(db, id, start, k')
  {
    InvLater(s, before, now);
    hide Inv, OnSchedule, RunList;
    k' := RunListOnSchedule(z, s, ListDue(s.instructions, now), beneficiaries, fates, now, id, start, k);
  }

  /** Any call keeps every instruction on schedule. */
  lemma StepOnSchedule(z: Zone, s: Db, c: Call, before: int, id: InstructionId, start: int, k: nat) returns (k': nat)
    requires Inv(s, before) && before <= c.now && id < |s.instructions| && OnSchedule(s, id, start, k)
    ensures id < |Apply(z, s, c).instructions|
    ensures k <= k' && OnSchedule(Apply(z, s, c), id, start, k')
  {
    hide Inv, OnSchedule, RunDueInstructions;
    if c.step.RunDue? {
      k' := TickOnSchedule(z, s, c.step.beneficiaries, c.step.fates, c.now, before, id, start, k);
    } else {
      k' := k;
      OtherStepOnSchedule(z, s, c, before, id, start, k);
    }
  }

  lemma OtherStepOnSchedule(z: Zone, s: Db, c: Call, before: int, id: InstructionId, start: int, k: nat)
    requires Inv(s, before) && before <= c.now && id < |s.instructions| && OnSchedule(s, id, start, k)
    requires !c.step.RunDue?
    ensures id < |Apply(z, s, c).instructions| && OnSchedule(Apply(z, s, c), id, start, k)
  {
    hide Inv, OnSchedule, Apply, Journal.KeysOk, RowKept, StepKey;
    var db := Apply(z, s, c);
    StepHistory(z, s, c);
    StepKeeps(z, s, c, before);
    KeysOfInv(db, c.now);
    StaysOnSchedule(s, db, id, start, k);
  }

  lemma {:induction false} RunOnSchedule(z: Zone, s: Db, more: seq<Call>, before: int, id: InstructionId, start: int,
                                         k: nat)
    returns (k': nat)
    requires Inv(s, before) && InOrder(more, before) && id < |s.instructions| && OnSchedule(s, id, start, k)
    ensures id < |Run(z, s, more).instructions|
    ensures k <= k' && OnSchedule(Run(z, s, more), id, start, k')
  {
    k' := k;
    if |more| > 0 {
      hide Inv, OnSchedule, Apply;
      var n := |more| - 1;
      k' := RunOnSchedule(z, s, more[..n], before, id, start, k);
      Guarantees.InvAlong(z, s, more[..n], before);
      k' := StepOnSchedule(z, Run(z, s, more[..n]), more[n], Clock(more[..n], before), id, start, k');
    }
  }

  lemma NotYetPaid(s: Db, db: Db, key: ClientKey)
    requires Journal.KeysOk(s.transfers, |s.instructions|) && TransfersKept(s.transfers, db.transfers)
    requires forall i :: |s.transfers| <= i < |db.transfers| ==> db.transfers[i].key == key
    ensures forall i :: 0 <= i < |db.transfers| ==> !IsStandingRow(db.transfers[i], |s.instructions|)
  {
    forall i | 0 <= i < |s.transfers| ensures RowKept(s.transfers[i], db.transfers[i]) {}
  }

  lemma OnlyCreationAdds(z: Zone, s: Db, c: Call)
    requires |Apply(z, s, c).instructions| > |s.instructions|
    ensures !c.step.RunDue?
  {
  }

  lemma FreshSchedule(z: Zone, s: Db, c: Call, before: int)
    requires Inv(s, before) && before <= c.now
    requires |Apply(z, s, c).instructions| == |s.instructions| + 1
    ensures OnSchedule(Apply(z, s, c), |s.instructions|, Apply(z, s, c).instructions[|s.instructions|].nextRunAt, 0)
  {
    OnlyCreationAdds(z, s, c);
    hide Apply, Inv, StepKey, Journal.KeysOk;
    var db := Apply(z, s, c);
    var id := |s.instructions|;
    StepKeeps(z, s, c, before);
    StepHistory(z, s, c);
    KeysOfInv(s, before);
    KeysOfInv(db, c.now);
    NotYetPaid(s, db, StepKey(c.step));
  }

  /** Exactly-once payment. From the call that creates an instruction on, in
    * every run, with processes stopping and subscribers throwing wherever they
    * may: the planned instants before the next run are each paid by exactly
    * one posted transfer, of the right amount from the right account, and the
    * next run by at most one. */
  lemma ExactlyOnce(z: Zone, calls: seq<Call>, creation: Call, more: seq<Call>, from: int) returns (start: int, k: nat)
    requires InOrder(calls + [creation], from) && InOrder(more, creation.now)
    requires var s := Run(z, EMPTY_DB, calls); |Apply(z, s, creation).instructions| == |s.instructions| + 1
    ensures var s := Run(z, EMPTY_DB, calls);
            var created := Apply(z, s, creation);
            var id := |s.instructions|;
            && start == created.instructions[id].nextRunAt
            && id < |Run(z, created, more).instructions|
            && OnSchedule(Run(z, created, more), id, start, k)
  {
    var s := Run(z, EMPTY_DB, calls);
    assert InOrder(calls, from) by {
      forall i | 0 <= i < |calls| ensures from <= calls[i].now {
        assert (calls + [creation])[i] == calls[i];
      }
      forall i, j | 0 <= i < j < |calls| ensures calls[i].now <= calls[j].now {
        assert (calls + [creation])[i] == calls[i] && (calls + [creation])[j] == calls[j];
      }
    }
    assert Clock(calls, from) <= creation.now by {
      assert (calls + [creation])[|calls|] == creation;
      assert |calls| > 0 ==> (calls + [creation])[|calls| - 1] == calls[|calls| - 1];
    }
    ReachableInv(z, calls, from);
    StepKeeps(z, s, creation, Clock(calls, from));
    FreshSchedule(z, s, creation, Clock(calls, from));
    hide Inv, OnSchedule, Apply, Run;
    var created := Apply(z, s, creation);
    start := created.instructions[|s.instructions|].nextRunAt;
    k := RunOnSchedule(z, created, more, creation.now, |s.instructions|, start, 0);
  }

  // ---------- to whom ----------

  predicate BeneficiariesKept(a: seq<Instruction>, b: seq<Instruction>) {
    |a| <= |b| && forall i :: 0 <= i < |a| ==> b[i].beneficiary == a[i].beneficiary
  }

  /** Row i, if the runner's, pays its instruction's beneficiary as given. */
  predicate PaysBeneficiary(s: Db, i: nat, beneficiaries: map<nat, string>)
    requires i < |s.transfers|
  {
    var t := s.transfers[i];
    t.key.Some? && t.key.value.Standing? ==>
      && t.key.value.instruction < |s.instructions|
      && PaysTo(s.accounts, t, beneficiaries, s.instructions[t.key.value.instruction].beneficiary)
  }

  lemma StillPays(s: Db, db: Db, i: nat, beneficiaries: map<nat, string>)
    requires i < |s.transfers| && PaysBeneficiary(s, i, beneficiaries)
    requires Kept(s, db) && BeneficiariesKept(s.instructions, db.instructions)
    ensures PaysBeneficiary(db, i, beneficiaries)
  {
    var t := s.transfers[i];
    assert RowKept(t, db.transfers[i]);
    if t.key.Some? && t.key.value.Standing? {
      assert AccountKept(s.accounts[t.to], db.accounts[t.to]);
    }
  }

  /** At most one new row, and it pays this instruction's beneficiary. */
  lemma NewRowPays(s: Db, db: Db, id: InstructionId, beneficiaries: map<nat, string>)
    requires id < |s.instructions| && Kept(s, db) && BeneficiariesKept(s.instructions, db.instructions)
    requires |db.transfers| == |s.transfers| + 1
    requires var t := db.transfers[|s.transfers|];
             IsStandingRow(t, id) && PaysTo(s.accounts, t, beneficiaries, s.instructions[id].beneficiary)
    ensures PaysBeneficiary(db, |s.transfers|, beneficiaries)
  {
    var t := db.transfers[|s.transfers|];
    assert AccountKept(s.accounts[t.to], db.accounts[t.to]);
  }

  lemma RunOnePays(z: Zone, s: Db, id: InstructionId, beneficiaries: map<nat, string>, fate: Fate, now: int)
    requires id < |s.instructions|
    ensures var db := RunOne(z, s, id, s.instructions[id], beneficiaries, fate, now).db;
            && BeneficiariesKept(s.instructions, db.instructions)
            && (forall i :: |s.transfers| <= i < |db.transfers| ==> PaysBeneficiary(db, i, beneficiaries))
  {
    hide RunOne, AdvanceRun, FindByKey, Kept, NoNewCardRows, PaysTo, PaysBeneficiary;
    var si := s.instructions[id];
    var db := RunOne(z, s, id, si, beneficiaries, fate, now).db;
    RunOneEffect(z, s, id, si, beneficiaries, fate, now);
    RunOneHistory(z, s, id, si, beneficiaries, fate, now);
    assert BeneficiariesKept(s.instructions, db.instructions);
    if |db.transfers| > |s.transfers| {
      NewRowPays(s, db, id, beneficiaries);
    }
  }

  lemma {:induction false} RunListPays(z: Zone, s: Db, ids: seq<InstructionId>, beneficiaries: map<nat, string>,
                                       fates: InstructionId -> Fate, now: int)
    requires forall i :: 0 <= i < |ids| ==> ids[i] < |s.instructions|
    ensures var db := RunList(z, s, ids, beneficiaries, fates, now).db;
            && BeneficiariesKept(s.instructions, db.instructions)
            && (forall i :: |s.transfers| <= i < |db.transfers| ==> PaysBeneficiary(db, i, beneficiaries))
  {
    if |ids| > 0 {
      hide RunOne, Kept, PaysBeneficiary;
      var n := |ids| - 1;
      RunListPays(z, s, ids[..n], beneficiaries, fates, now);
      var r := RunList(z, s, ids[..n], beneficiaries, fates, now);
      if !r.stopped {
        var db := RunList(z, s, ids, beneficiaries, fates, now).db;
        RunOnePays(z, r.db, ids[n], beneficiaries, fates(ids[n]), now);
        RunOneHistory(z, r.db, ids[n], r.db.instructions[ids[n]], beneficiaries, fates(ids[n]), now);
        forall i | |s.transfers| <= i < |db.transfers| ensures PaysBeneficiary(db, i, beneficiaries) {
          if i < |r.db.transfers| {
            StillPays(r.db, db, i, beneficiaries);
          }
        }
      }
    }
  }

  lemma StepBeneficiaries(z: Zone, s: Db, c: Call)
    ensures BeneficiariesKept(s.instructions, Apply(z, s, c).instructions)
    ensures c.step.RunDue? ==>
              forall i :: |s.transfers| <= i < |Apply(z, s, c).transfers| ==>
                PaysBeneficiary(Apply(z, s, c), i, c.step.beneficiaries)
    ensures !c.step.RunDue? ==>
              forall i :: |s.transfers| <= i < |Apply(z, s, c).transfers| ==> PaysBeneficiary(Apply(z, s, c), i, map[])
  {
    hide RunList, PaysTo;
    if c.step.RunDue? {
      RunListPays(z, s, ListDue(s.instructions, c.now), c.step.beneficiaries, c.step.fates, c.now);
    } else {
      hide Apply, Kept;
      StepHistory(z, s, c);
    }
  }

  /** Some tick of the run gave the number of the account that row i pays. */
  predicate PaidAsGiven(calls: seq<Call>, s: Db, i: nat)
    requires i < |s.transfers|
  {
    s.transfers[i].key.Some? && s.transfers[i].key.value.Standing? ==>
      exists k :: 0 <= k < |calls| && calls[k].step.RunDue? && PaysBeneficiary(s, i, calls[k].step.beneficiaries)
  }

  /** In every run each standing payment goes to the account whose number its
    * instruction's beneficiary had in one of the ticks. */
  lemma {:induction false} PaidToBeneficiary(z: Zone, calls: seq<Call>)
    ensures var s := Run(z, EMPTY_DB, calls);
            forall i :: 0 <= i < |s.transfers| ==> PaidAsGiven(calls, s, i)
  {
    if |calls| > 0 {
      hide PaidAsGiven, PaysBeneficiary, Kept;
      var n := |calls| - 1;
      PaidToBeneficiary(z, calls[..n]);
      var s, db := Run(z, EMPTY_DB, calls[..n]), Run(z, EMPTY_DB, calls);
      assert db == Apply(z, s, calls[n]);
      StepHistory(z, s, calls[n]);
      StepBeneficiaries(z, s, calls[n]);
      hide Apply, Run, BeneficiariesKept, StepKey, SchedulesKept, NoNewCardRows;
      forall i | 0 <= i < |db.transfers| ensures PaidAsGiven(calls, db, i) {
        if i < |s.transfers| {
          assert 0 <= i < |Run(z, EMPTY_DB, calls[..n]).transfers|;
          assert PaidAsGiven(calls[..n], Run(z, EMPTY_DB, calls[..n]), i);
          assert PaidAsGiven(calls[..n], s, i);
          StillAsGiven(calls, s, db, i);
        } else {
          NewAsGiven(calls, db, i);
        }
      }
    }
  }

  lemma StillAsGiven(calls: seq<Call>, s: Db, db: Db, i: nat)
    requires |calls| > 0 && i < |s.transfers| && PaidAsGiven(calls[..|calls| - 1], s, i)
    requires Kept(s, db) && BeneficiariesKept(s.instructions, db.instructions)
    ensures PaidAsGiven(calls, db, i)
  {
    assert RowKept(s.transfers[i], db.transfers[i]);
    if db.transfers[i].key.Some? && db.transfers[i].key.value.Standing? {
      var earlier := calls[..|calls| - 1];
      var k :| 0 <= k < |earlier| && earlier[k].step.RunDue? && PaysBeneficiary(s, i, earlier[k].step.beneficiaries);
      StillPays(s, db, i, earlier[k].step.beneficiaries);
      assert calls[k] == earlier[k];
    }
  }

  lemma NewAsGiven(calls: seq<Call>, db: Db, i: nat)
    requires |calls| > 0 && i < |db.transfers|
    requires var c := calls[|calls| - 1]; PaysBeneficiary(db, i, if c.step.RunDue? then c.step.beneficiaries else map[])
    ensures PaidAsGiven(calls, db, i)
  {
  }

  // ---------- ticks run dry ----------

  function FailuresLeft(si: Instruction): nat {
    if si.failures >= 2 then 1 else 3 - si.failures
  }

  /** Whatever throws, the tick is not cut short before this instruction's row
    * has been written: neither at its start nor between transfer and advance. */
  predicate RowWritten(fate: Fate) {
    fate.stops == Never || fate.stops == AfterAdvance || fate.stops == AfterNotice || fate.stops == AfterFailure
  }

  /** The measure of a due instruction: time to catch up, then failures left. */
  predicate Smaller(next: Instruction, si: Instruction, now: int) {
    || !IsDue(next, now)
    || 0 <= now - next.nextRunAt < now - si.nextRunAt
    || (next.nextRunAt == si.nextRunAt && FailuresLeft(next) < FailuresLeft(si))
  }

  /** Whatever its transfer does, an iteration that writes a due instruction's
    * row makes it not due or smaller in the lexicographic measure. */
  lemma IterationDrops(z: Zone, s: Db, id: InstructionId, beneficiaries: map<nat, string>, fate: Fate, now: int)
    requires id < |s.instructions| && IsDue(s.instructions[id], now)
    requires s.instructions[id].beneficiary in beneficiaries && RowWritten(fate)
    ensures var item := RunOne(z, s, id, s.instructions[id], beneficiaries, fate, now);
            && item.db.instructions == s.instructions[id := item.db.instructions[id]]
            && Smaller(item.db.instructions[id], s.instructions[id], now)
            && item.db.instructions[id].beneficiary == s.instructions[id].beneficiary
            && Budget(item.db.instructions[id], now) < Budget(s.instructions[id], now)
  {
    hide RunOne, AdvanceRun, Smaller, Budget, RowWritten, IsDue;
    var si := s.instructions[id];
    RunOneMoves(z, s, id, si, beneficiaries, fate, now);
    OutcomeDrops(si, now);
  }

  /** The three ways in which an iteration writes a due row. */
  lemma OutcomeDrops(si: Instruction, now: int)
    requires IsDue(si, now)
    ensures forall after :: after == si.(status := Cancelled) || after == FailedOnce(si) || after == Advanced(si, now)
                            ==> Smaller(after, si, now) && Budget(after, now) < Budget(si, now)
  {
    AdvanceAtLeastADay(si.nextRunAt, si.frequency);
    hide AdvanceRun;
  }

  lemma RunOneMoves(z: Zone, s: Db, id: InstructionId, si: Instruction, beneficiaries: map<nat, string>, fate: Fate,
                    now: int)
    requires id < |s.instructions| && si.beneficiary in beneficiaries && RowWritten(fate)
    ensures var item := RunOne(z, s, id, si, beneficiaries, fate, now);
            && item.db.instructions == s.instructions[id := item.db.instructions[id]]
            && (|| item.db.instructions[id] == si.(status := Cancelled)
                || item.db.instructions[id] == FailedOnce(si)
                || item.db.instructions[id] == Advanced(si, now))
  {
    hide ExecuteTransfer, FindByKey, AdvanceRun;
    var inp := StandingInput(si, beneficiaries[si.beneficiary]);
    if ExecuteTransfer(z, s, inp, Some(Standing(id, si.nextRunAt)), now).Ok? {
      TransferEffect(z, s, inp, Standing(id, si.nextRunAt), now);
    }
  }

  /** The lexicographic measure in one number: at most three more failures for
    * each whole day to catch up. */
  function Budget(si: Instruction, now: int): nat {
    if IsDue(si, now) then (now - si.nextRunAt) / Calendar.DAY_MS * 3 + FailuresLeft(si) else 0
  }

  function BudgetFn(now: int): Instruction -> int {
    (si: Instruction) => Budget(si, now)
  }

  predicate Served(instructions: seq<Instruction>, beneficiaries: map<nat, string>) {
    forall i :: 0 <= i < |instructions| ==> instructions[i].beneficiary in beneficiaries
  }

  lemma OneDrops(z: Zone, s: Db, id: InstructionId, beneficiaries: map<nat, string>, fate: Fate, now: int)
    requires id < |s.instructions| && IsDue(s.instructions[id], now) && Served(s.instructions, beneficiaries)
             && RowWritten(fate)
    ensures var db := RunOne(z, s, id, s.instructions[id], beneficiaries, fate, now).db;
            && db.instructions == s.instructions[id := db.instructions[id]]
            && Served(db.instructions, beneficiaries)
            && Sum(db.instructions, BudgetFn(now)) < Sum(s.instructions, BudgetFn(now))
  {
    hide RunOne, Smaller, Budget;
    IterationDrops(z, s, id, beneficiaries, fate, now);
    var db := RunOne(z, s, id, s.instructions[id], beneficiaries, fate, now).db;
    SumUpdate(s.instructions, id, db.instructions[id], BudgetFn(now));
  }

  /** Items that the list does not name keep the row the due query read. */
  lemma {:induction false} RowsNotYetRun(z: Zone, s: Db, ids: seq<InstructionId>, beneficiaries: map<nat, string>,
                                         fates: InstructionId -> Fate, now: int, id: InstructionId)
    requires forall i :: 0 <= i < |ids| ==> ids[i] < |s.instructions|
    requires id < |s.instructions| && id !in ids
    ensures RunList(z, s, ids, beneficiaries, fates, now).db.instructions[id] == s.instructions[id]
  {
    if |ids| > 0 {
      var n := |ids| - 1;
      RowsNotYetRun(z, s, ids[..n], beneficiaries, fates, now, id);
      var r := RunList(z, s, ids[..n], beneficiaries, fates, now);
      if !r.stopped {
        RunOneEffect(z, r.db, ids[n], r.db.instructions[ids[n]], beneficiaries, fates(ids[n]), now);
      }
      hide RunOne;
    }
  }

  /** Wherever it is cut short, an iteration never raises the budget. */
  lemma OneNeverRaises(z: Zone, s: Db, id: InstructionId, beneficiaries: map<nat, string>, fate: Fate, now: int)
    requires id < |s.instructions| && IsDue(s.instructions[id], now) && Served(s.instructions, beneficiaries)
    ensures var db := RunOne(z, s, id, s.instructions[id], beneficiaries, fate, now).db;
            && Served(db.instructions, beneficiaries)
            && Sum(db.instructions, BudgetFn(now)) <= Sum(s.instructions, BudgetFn(now))
  {
    hide RunOne, Budget, IsDue, FindByKey, PaysRun, PaysTo;
    var si := s.instructions[id];
    RunOneEffect(z, s, id, si, beneficiaries, fate, now);
    var db := RunOne(z, s, id, si, beneficiaries, fate, now).db;
    OutcomeDrops(si, now);
    SumUpdate(s.instructions, id, db.instructions[id], BudgetFn(now));
  }

  /** A tick whose first due row is written lowers the total budget, wherever
    * it is cut short after that. */
  lemma {:induction false} ListDrops(z: Zone, s: Db, ids: seq<InstructionId>, beneficiaries: map<nat, string>,
                                     fates: InstructionId -> Fate, now: int)
    requires |ids| > 0 && Distinct(ids)
    requires forall i :: 0 <= i < |ids| ==> ids[i] < |s.instructions| && IsDue(s.instructions[ids[i]], now)
    requires Served(s.instructions, beneficiaries) && RowWritten(fates(ids[0]))
    ensures var db := RunList(z, s, ids, beneficiaries, fates, now).db;
            && Served(db.instructions, beneficiaries)
            && Sum(db.instructions, BudgetFn(now)) < Sum(s.instructions, BudgetFn(now))
  {
    hide RunOne, Budget, Served, RowWritten, IsDue;
    var n := |ids| - 1;
    var r := RunList(z, s, ids[..n], beneficiaries, fates, now);
    if n == 0 {
      OneDrops(z, s, ids[0], beneficiaries, fates(ids[0]), now);
    } else {
      ListDrops(z, s, ids[..n], beneficiaries, fates, now);
      if !r.stopped {
        assert ids[n] !in ids[..n];
        RowsNotYetRun(z, s, ids[..n], beneficiaries, fates, now, ids[n]);
        OneNeverRaises(z, r.db, ids[n], beneficiaries, fates(ids[n]), now);
      }
    }
  }

  lemma DueListing(instructions: seq<Instruction>, now: int)
    ensures Distinct(ListDue(instructions, now))
    ensures forall i :: 0 <= i < |ListDue(instructions, now)| ==>
              IsDue(instructions[ListDue(instructions, now)[i]], now)
    ensures forall i, j :: 0 <= i < j < |ListDue(instructions, now)| ==>
              instructions[ListDue(instructions, now)[i]].nextRunAt
              <= instructions[ListDue(instructions, now)[j]].nextRunAt
  {
    var keep := (i: nat) => i < |instructions| && IsDue(instructions[i], now);
    var rank := (i: nat) => if i < |instructions| then instructions[i].nextRunAt else 0;
    QueryOrdered(|instructions|, keep, rank);
    assert ListDue(instructions, now) == Query(|instructions|, keep, rank);
    forall i | 0 <= i < |ListDue(instructions, now)| ensures IsDue(instructions[ListDue(instructions, now)[i]], now) {
      assert ListDue(instructions, now)[i] in ListDue(instructions, now);
    }
  }

  /** n ticks at one instant; what befalls each transfer may differ every time. */
  function Ticks(z: Zone, s: Db, beneficiaries: map<nat, string>, fates: nat -> InstructionId -> Fate, now: int,
                 n: nat): Db {
    if n == 0 then s
    else RunDueInstructions(z, Ticks(z, s, beneficiaries, fates, now, n - 1), beneficiaries, fates(n - 1), now).db
  }

  /** If anything is due, the tick writes the row of the first due instruction. */
  predicate Progresses(s: Db, fates: InstructionId -> Fate, now: int) {
    ListDue(s.instructions, now) != [] ==> RowWritten(fates(ListDue(s.instructions, now)[0]))
  }

  /** A tick with nothing due changes nothing; any other that progresses lowers
    * the budget. */
  lemma OneTick(z: Zone, s: Db, beneficiaries: map<nat, string>, fates: InstructionId -> Fate, now: int)
    requires Served(s.instructions, beneficiaries) && Progresses(s, fates, now)
    ensures var db := RunDueInstructions(z, s, beneficiaries, fates, now).db;
            && Served(db.instructions, beneficiaries)
            && (if ListDue(s.instructions, now) == [] then db == s
                else Sum(db.instructions, BudgetFn(now)) < Sum(s.instructions, BudgetFn(now)))
  {
    DueListing(s.instructions, now);
    hide Budget, RowWritten, Served, ListDue, RunOne;
    if ListDue(s.instructions, now) != [] {
      ListDrops(z, s, ListDue(s.instructions, now), beneficiaries, fates, now);
    }
  }

  predicate EachProgresses(z: Zone, s: Db, beneficiaries: map<nat, string>, fates: nat -> InstructionId -> Fate,
                           now: int, n: nat)
  {
    forall i: nat :: i < n ==> Progresses(Ticks(z, s, beneficiaries, fates, now, i), fates(i), now)
  }

  /** The last tick progresses, and so did all before it. */
  lemma LastProgresses(z: Zone, s: Db, beneficiaries: map<nat, string>, fates: nat -> InstructionId -> Fate, now: int,
                       n: nat)
    requires n > 0 && EachProgresses(z, s, beneficiaries, fates, now, n)
    ensures EachProgresses(z, s, beneficiaries, fates, now, n - 1)
    ensures Progresses(Ticks(z, s, beneficiaries, fates, now, n - 1), fates(n - 1), now)
  {
    hide Progresses, Ticks;
  }

  /** With the clock fixed and the beneficiaries present, repeating a tick that
    * progresses each time leaves nothing due after at most the initial
    * budget's number of ticks. */
  lemma {:induction false} TicksRunDry(z: Zone, s: Db, beneficiaries: map<nat, string>,
                                       fates: nat -> InstructionId -> Fate, now: int, n: nat)
    requires Served(s.instructions, beneficiaries)
    requires EachProgresses(z, s, beneficiaries, fates, now, n)
    ensures var db := Ticks(z, s, beneficiaries, fates, now, n);
            && Served(db.instructions, beneficiaries)
            && (|| ListDue(db.instructions, now) == []
                || Sum(db.instructions, BudgetFn(now)) <= Sum(s.instructions, BudgetFn(now)) - n)
            && (n >= Sum(s.instructions, BudgetFn(now)) ==> ListDue(db.instructions, now) == [])
  {
    hide Budget, RowWritten, Served, ListDue, RunDueInstructions, Progresses, EachProgresses;
    if n > 0 {
      LastProgresses(z, s, beneficiaries, fates, now, n);
      TicksRunDry(z, s, beneficiaries, fates, now, n - 1);
      OneTick(z, Ticks(z, s, beneficiaries, fates, now, n - 1), beneficiaries, fates(n - 1), now);
    }
    BudgetOfDue(Ticks(z, s, beneficiaries, fates, now, n), now);
  }

  /** Something due means a positive budget. */
  lemma BudgetOfDue(s: Db, now: int)
    ensures ListDue(s.instructions, now) != [] ==> Sum(s.instructions, BudgetFn(now)) > 0
  {
    var ids := ListDue(s.instructions, now);
    if ids != [] {
      assert ids[0] in ids;
      SumAtLeast(s.instructions, ids[0], BudgetFn(now));
    }
  }
}
