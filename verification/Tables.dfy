/**
 * The database: one sequence per table, rows in insertion order. A row's id is
 * its position, so every insert takes a fresh id. Money is in paise, instants
 * in milliseconds.
 */
module Tables {
  import opened Prelude
  import opened Accounts
  import FixedDeposits
  import Schedules

  type AccountId = nat
  type TransferId = nat
  type CardId = nat
  type InstructionId = nat

  datatype Rail = Internal | Imps | Neft | Rtgs | Upi
  datatype Kind = TransferKind | FaucetKind | ReversalKind
  datatype TransferStatus = Pending | Posted
  datatype Category = P2p | SelfTransfer | FaucetMoney | Bill | CardSpend

  /** Idempotency keys: a client's own text, or the runner's (id, instant). */
  datatype Key = Client(text: string) | Standing(instruction: InstructionId, plannedAt: int)

  datatype Transfer = Transfer(
    key: Option<Key>,
    from: Option<AccountId>,
    to: AccountId,
    amount: int,
    kind: Kind,
    status: TransferStatus,
    rail: Rail,
    postedAt: int,
    category: Category,
    card: Option<CardId>)

  datatype Side = DebitSide | CreditSide

  datatype LedgerEntry = LedgerEntry(
    account: AccountId,
    transfer: TransferId,
    side: Side,
    amount: int,
    running: int,
    postedAt: int)

  datatype Event =
    | MoneyMoved(transfer: TransferId, from: Option<AccountId>, to: AccountId, amount: int, kind: Kind, at: int)
    | BillPaid(transfer: TransferId, amount: int, at: int)
    | CardSpent(card: CardId, transfer: TransferId, amount: int, at: int)
    | StandingRan(instruction: InstructionId, amount: int, at: int)

  datatype CardLimits = CardLimits(perTxn: int, daily: int, monthly: int)
  datatype Card = Card(account: AccountId, active: bool, limits: CardLimits)

  datatype DisputeStatus = Submitted | UnderReview | Approved | Rejected
  datatype Dispute = Dispute(userId: UserId, transfer: TransferId, status: DisputeStatus, reversal: Option<TransferId>)

  datatype InstructionStatus = Running | Paused | Cancelled

  datatype Instruction = Instruction(
    owner: UserId,
    from: AccountId,
    beneficiary: nat,
    amount: int,
    frequency: Schedules.Frequency,
    nextRunAt: int,
    lastRunAt: Option<int>,
    status: InstructionStatus,
    endAt: Option<int>,
    failures: nat)

  datatype Db = Db(
    accounts: seq<Account>,
    transfers: seq<Transfer>,
    ledger: seq<LedgerEntry>,
    deposits: seq<FixedDeposits.Deposit>,
    cards: seq<Card>,
    disputes: seq<Dispute>,
    instructions: seq<Instruction>,
    events: seq<Event>)

  const EMPTY_DB := Db([], [], [], [], [], [], [], [])

  // ---------- lookups ----------

  function FindByNumber(accounts: seq<Account>, number: string): (r: Option<AccountId>)
    ensures r.Some? ==> r.value < |accounts| && accounts[r.value].number == number
    ensures forall i :: 0 <= i < (if r.Some? then r.value else |accounts|) ==> accounts[i].number != number
  {
    if |accounts| == 0 then None
    else
      var n := |accounts| - 1;
      var earlier := FindByNumber(accounts[..n], number);
      if earlier.Some? then earlier
      else if accounts[n].number == number then Some(n)
      else None
  }

  function FindByKey(transfers: seq<Transfer>, key: Key): (r: Option<TransferId>)
    ensures r.Some? ==> r.value < |transfers| && transfers[r.value].key == Some(key)
    ensures r.None? ==> forall i :: 0 <= i < |transfers| ==> transfers[i].key != Some(key)
  {
    if |transfers| == 0 then None
    else
      var n := |transfers| - 1;
      var earlier := FindByKey(transfers[..n], key);
      if earlier.Some? then earlier
      else if transfers[n].key == Some(key) then Some(n)
      else None
  }

  function FindPrior(transfers: seq<Transfer>, key: Option<Key>): Option<TransferId> {
    if key.Some? then FindByKey(transfers, key.value) else None
  }

  predicate HasActiveAccount(accounts: seq<Account>, user: UserId) {
    exists i :: 0 <= i < |accounts| && accounts[i].userId == user && accounts[i].status == Active
  }

  // ---------- ordered queries ----------

  /** Inserts an id after every id of equal or lower rank. */
  function Insert(ids: seq<nat>, id: nat, rank: nat -> int): (r: seq<nat>)
    ensures |r| == |ids| + 1
    ensures forall x :: x in r <==> x == id || x in ids
  {
    if |ids| == 0 || rank(ids[|ids| - 1]) <= rank(id) then ids + [id]
    else
      var r := Insert(ids[..|ids| - 1], id, rank) + [ids[|ids| - 1]];
      assert ids == ids[..|ids| - 1] + [ids[|ids| - 1]];
      r
  }

  /** SELECT ... WHERE keep ORDER BY rank, over the first n rows of a table. */
  function Query(n: nat, keep: nat -> bool, rank: nat -> int): (r: seq<nat>)
    ensures forall x: nat :: x in r <==> x < n && keep(x)
    ensures forall i :: 0 <= i < |r| ==> r[i] < n && keep(r[i])
  {
    if n == 0 then []
    else if keep(n - 1) then
      var r := Insert(Query(n - 1, keep, rank), n - 1, rank);
      assert forall i :: 0 <= i < |r| ==> r[i] in r;
      r
    else Query(n - 1, keep, rank)
  }

  predicate Ranked(ids: seq<nat>, rank: nat -> int) {
    forall i, j :: 0 <= i < j < |ids| ==> rank(ids[i]) <= rank(ids[j])
  }

  predicate Distinct(ids: seq<nat>) {
    forall i, j :: 0 <= i < j < |ids| ==> ids[i] != ids[j]
  }

  lemma {:induction false} InsertKeeps(ids: seq<nat>, id: nat, rank: nat -> int)
    requires Ranked(ids, rank) && Distinct(ids) && id !in ids
    ensures Ranked(Insert(ids, id, rank), rank) && Distinct(Insert(ids, id, rank))
  {
    if |ids| != 0 && rank(ids[|ids| - 1]) > rank(id) {
      var last := ids[|ids| - 1];
      InsertKeeps(ids[..|ids| - 1], id, rank);
      var r := Insert(ids[..|ids| - 1], id, rank);
      forall i | 0 <= i < |r|
        ensures r[i] != last && rank(r[i]) <= rank(last)
      {
        assert r[i] in r;
      }
    }
  }

  lemma NextRowOrdered(n: nat, keep: nat -> bool, rank: nat -> int)
    requires n > 0 && Ranked(Query(n - 1, keep, rank), rank) && Distinct(Query(n - 1, keep, rank))
    ensures Ranked(Query(n, keep, rank), rank) && Distinct(Query(n, keep, rank))
  {
    if keep(n - 1) {
      var ids := Query(n - 1, keep, rank);
      assert n - 1 !in ids;
      InsertKeeps(ids, n - 1, rank);
    }
  }

  /** A query lists each matching row once, in order. */
  lemma {:induction false} QueryOrdered(n: nat, keep: nat -> bool, rank: nat -> int)
    ensures Ranked(Query(n, keep, rank), rank)
    ensures Distinct(Query(n, keep, rank))
    decreases n
  {
    if n > 0 {
      QueryOrdered(n - 1, keep, rank);
      NextRowOrdered(n, keep, rank);
    }
  }

  /** Pending rows of one rail, newest first. */
  function ListPendingByRail(transfers: seq<Transfer>, rail: Rail): (r: seq<TransferId>)
    ensures forall i :: 0 <= i < |r| ==> r[i] < |transfers|
    ensures forall x: nat :: x in r <==> x < |transfers| && transfers[x].status == Pending && transfers[x].rail == rail
  {
    Query(|transfers|,
          (i: nat) => i < |transfers| && transfers[i].status == Pending && transfers[i].rail == rail,
          (i: nat) => if i < |transfers| then -transfers[i].postedAt else 0)
  }

  predicate IsDue(si: Instruction, now: int) {
    si.status == Running && si.nextRunAt <= now
  }

  /** Active instructions whose next run is not in the future, earliest first. */
  function ListDue(instructions: seq<Instruction>, now: int): (r: seq<InstructionId>)
    ensures forall i :: 0 <= i < |r| ==> r[i] < |instructions|
    ensures forall x: nat :: x in r <==> x < |instructions| && IsDue(instructions[x], now)
  {
    Query(|instructions|,
          (i: nat) => i < |instructions| && IsDue(instructions[i], now),
          (i: nat) => if i < |instructions| then instructions[i].nextRunAt else 0)
  }

  function ListDueForMaturity(deposits: seq<FixedDeposits.Deposit>, now: int): (r: seq<nat>)
    ensures forall i :: 0 <= i < |r| ==> r[i] < |deposits|
    ensures forall x: nat ::
              x in r <==>
              x < |deposits| && deposits[x].status == FixedDeposits.ActiveDeposit && deposits[x].maturityAt <= now
  {
    Query(|deposits|,
          (i: nat) =>
            i < |deposits| && deposits[i].status == FixedDeposits.ActiveDeposit && deposits[i].maturityAt <= now,
          (i: nat) => i)
  }
}
