# Proofs about the bank server's money engine

The bank server keeps accounts, transfers, an append-only ledger, fixed
deposits, debit cards, disputes and standing instructions in one database, and
changes them only through application services that each run in a database
transaction. This project models those services branch by branch, and proves
what they promise over every run: any sequence of calls, with any arguments, in
the order of the clock, starting from the empty database. Five smaller pieces
stand beside the engine: the audit hash chain, the velocity counters, the
replay cache, monthly statements and the CSV export.

`dafny verify dfyconfig.toml` checks everything.

## How the model is laid out

| module | holds |
|---|---|
| `Prelude`, `Calendar`, `Zones` | sums over tables; the proleptic Gregorian calendar of ECMAScript dates; the server's time zone as the `Date` methods see it |
| `Accounts`, `FixedDeposits`, `Schedules` | the pure domain functions: account operations, deposit arithmetic, recurring-payment dates |
| `Tables`, `Limits` | the database rows, lookups and ordered queries; the accumulation loops behind transfer and card limits |
| `UseCases` | every service as a function from database to database or error |
| `Outcomes`, `Refusals`, `Runner`, `DepositOutcomes`, `AccountOutcomes` | what each service answers and does, said of accounts, rows and events: exactly when it accepts, whose money moves where, and why it refuses |
| `Bank` | the services as methods of one object that updates its tables step by step, each proved equal to its function in `UseCases`; a bank that has served any calls is in the state of that run |
| `Books`, `BooksKept`, `DepositsKept`, `Journal`, `Settlement`, `Runs`, `History` | the invariants that tie the tables together, kept by every step; what no step ever undoes |
| `Guarantees`, `Conservation`, `CardCaps`, `Scheduler`, `Counterexamples` | the promises to customers over whole runs, the money each call brings, and the inputs on which the plain form of some of them fails |
| `RunningBalances` | what each ledger entry's running balance says, and how each call moves an account against its entries |
| `Audit`, `Velocity`, `Nonces`, `Statements`, `Csv`, `StatementExport` | the five pieces around the engine, and what an exported statement shows of the ledger |

A row's id is its position in its table, so every insert takes a fresh id.
Money is in paise, an instant is integer milliseconds. A transaction either
commits the database its function returns or throws and leaves everything as it
was. `Runs.Apply` is one call, `Runs.Run` a sequence of calls, `Runs.Inv` the
invariant of every reachable database. A `Bank.Bank` object records, in ghost
state, the calls it has served; its `Valid` says that its tables are what those
calls lead to, so every theorem about runs speaks of the object. `Bank.Bank.Serve`
takes any call, returns its answer and keeps `Valid`.

## Results that need a condition

Some promises do not hold of every input. Each is stated with the exact
condition, and with an input on which it fails.

Only `executeTransfer` compares source and destination
(`src/contexts/payments/application/executeTransfer.ts:92`). The rail, bill,
card and dispute services compute the debited and the credited row from the same
stored row and write the credited one last. So:

- Money is conserved by a posting if and only if its two accounts differ
  (`Guarantees.PostingConserves`, `Guarantees.SettlementConserves`; by call, in
  the call's own arguments, `Conservation.CallConservesExactly`). A bill paid to
  the paying account creates the amount (`Counterexamples.OwnBillCreatesMoney`).
- Settlement keeps an account's hold in step with its pending transfers if and
  only if the two accounts differ (`Guarantees.SettlementKeepsHold`). A NEFT
  transfer from an account to itself leaves its hold behind for good
  (`Counterexamples.OwnNeftKeepsHold`).
- An account that no fixed deposit names has a balance equal to the signed sum
  of its ledger entries if and only if it has no posted transfer to itself
  (`RunningBalances.LedgerMatchesExactly`; step by step
  `Guarantees.PostingKeepsLedger`, `Guarantees.SettlementKeepsLedger`). The bill
  above breaks it by its amount.

Fixed deposits move money without ledger rows, so:

- A non-empty statement of an account that no deposit names adds up if and only
  if it lists no posting from the account to itself, and adjacent ones always
  meet. If deposits name the account, a statement adds up if and only if its own
  postings and what deposit calls moved between its end rows sum to nothing, and
  adjacent ones meet if and only if what was moved between them does
  (`Statements.StatementsReconcile`, `Statements.StatementsMeet`). A deposit
  opened between two credits breaks the statement over both
  (`Counterexamples.DepositBreaksStatement`).

The comment in `src/services/velocity.ts:8-9` promises at most 5 attempts in the
last minute and 50 in the last day; the code counts fixed windows, so:

- The plain cap holds from the opening of the current window on, and from no
  instant even a millisecond earlier (`Velocity.PlainCapExactly`): ten attempts
  can be allowed within sixty seconds (`Velocity.TenInAMinute`). Twice the cap
  is the bound on every interval (`Velocity.AllowedRate`).

The invariants over runs do not exclude any of these inputs: they account for
them exactly, so they hold of every run without a precondition on the calls.

One more comment disagrees with its code, and the code is followed: the one above
`runDueInstructions` says a failing instruction is not paused
(`src/contexts/standingInstructions/application/runDueInstructions.ts:26-30`); the
code pauses it at the third failure (lines 103-108).

## Model

| member | source | states |
|---|---|---|
| Accounts.OperationsUndo | src/contexts/accounts/domain/account.ts:101-171 | a release undoes a hold, a credit undoes a debit, an unfreeze a freeze; holds and debits keep 0 <= hold <= balance, debits keep the minimum balance; only active accounts move money; closing is final |
| Accounts.HeldDebit | src/contexts/accounts/domain/account.ts:142-164 | releasing a covered hold and debiting it fails only on status, on a fixed-deposit source or on the minimum balance, and exactly then |
| Calendar.YearFormula | src/contexts/accounts/domain/fixedDeposit.ts:80-81 | month lengths summed one by one give the first day of each year that ECMA-262's closed formula gives |
| Calendar.MonthOfUnique | src/contexts/standingInstructions/domain/standingInstruction.ts:70-72 | every day lies in exactly one month, before and after 1970 |
| Calendar.AddMonthsSpan | src/contexts/accounts/domain/fixedDeposit.ts:80-81 | setMonth moves an instant by the whole months in between even when the date overflows |
| Calendar.ThirtyDayMonths | src/contexts/accounts/domain/fixedDeposit.ts:47-50 | any seven or more consecutive calendar months exceed that many 30-day months by at least two days |
| FixedDeposits.InterestBounds | src/contexts/accounts/domain/fixedDeposit.ts:47-62 | at every instant 0 <= premature <= accrued <= maturity interest, and the penalty is one percent of the accrual rounded down |
| FixedDeposits.InterestNeverDrops | src/contexts/accounts/domain/fixedDeposit.ts:47-58 | accrued and premature interest never decrease with time |
| FixedDeposits.RateCard | src/contexts/accounts/domain/fixedDeposit.ts:8-44 | the rate card covers exactly 7 to 120 months and longer terms never earn less |
| FixedDeposits.CalendarTerm | src/contexts/accounts/domain/fixedDeposit.ts:80-81 | in any lawful time zone the term from opening to maturity is at least 30 days per month |
| FixedDeposits.AccrualMeetsCalendar | src/contexts/accounts/domain/fixedDeposit.ts:47-96 | opening succeeds exactly on a permitted principal and tenure, and at or after maturity the accrued interest equals the maturity interest |
| FixedDeposits.InterestExactly | src/contexts/accounts/domain/fixedDeposit.ts:47-62 | interest is principal times annual rate times months over twelve, rounded down: the term's at maturity, the elapsed 30-day months' before, less one percent rounded down on an early close |
| FixedDeposits.WholeYears | src/contexts/accounts/domain/fixedDeposit.ts:51-61 | y whole years earn y times the annual rate |
| FixedDeposits.MaturityDate | src/contexts/accounts/domain/fixedDeposit.ts:80-81 | a deposit matures at the local time of day and date of its opening, the term's months on, or within the first three days of the next month where that date does not exist |
| Zones.SamePeriod | src/services/transferLimits.ts:28-39 | an earlier instant is in the current calendar period exactly when it is not before the period's start |
| Zones.FixedOffsetLawful | src/services/transferLimits.ts:28-39 | the laws assumed of day and month starts hold of every server zone without daylight saving, UTC included |
| Schedules.FixedSteps | src/contexts/standingInstructions/domain/standingInstruction.ts:64-69 | a daily run falls on the next day and a weekly one on the same weekday, at the same time |
| Schedules.MonthlyAdvance | src/contexts/standingInstructions/domain/standingInstruction.ts:70-72 | a monthly advance is exactly the number of days of the current month |
| Schedules.PlannedIncreasing | src/contexts/standingInstructions/domain/standingInstruction.ts:61-74 | planned instants strictly increase, so no two runs share a key |
| Schedules.MonthlyLanding | src/contexts/standingInstructions/domain/standingInstruction.ts:70-72 | the date is kept exactly when the next month has it, else the run lands on day 1 to 3 of the month after |
| Schedules.MonthlyDateChangesOnce | src/contexts/standingInstructions/domain/standingInstruction.ts:70-72 | over an unbounded schedule the day of the month changes at most once, to 3 or less, and then stays |
| Tables.QueryOrdered | src/contexts/payments/infrastructure/transferRepo.ts:107-115 | an ordered query lists every matching row once, in order |
| Limits.CheckAggregateLimits | src/services/transferLimits.ts:56-135 | the nested loops over accounts and rows decide by the single filtered sum of the owner's posted outbound transfers of the day and month |
| Limits.SentTotalIsOutbound | src/services/transferLimits.ts:82-102 | adding account by account, row by row, equals one sum over the transfers table |
| Limits.AddRows | src/services/cardLimits.ts:112-132 | one pass adds a result set in total and from the start of the day |
| Limits.CheckCardLimits | src/services/cardLimits.ts:86-168 | the loop decides by the sums of the card's posted spends since day and month start, per-transaction limit first |
| Bank.Bank.PostRow | src/contexts/payments/application/executeTransfer.ts:120-184 | debit, credit, one row, two updates in order, two entries, one event; or nothing |
| Bank.Bank.AssertBankingAccess | src/contexts/kyc/application/bankingAccess.ts:11-41 | access needs an approved KYC and at least one active account |
| Bank.Bank.ExecuteTransfer | src/contexts/payments/application/executeTransfer.ts:44-190 | the method's whole effect and answer, prior keys and every error included, are those of the specification |
| Bank.Bank.CreatePendingRailTransfer | src/contexts/payments/application/executeRailTransfer.ts:107-166 | a hold and a pending row, no ledger entry and no event; or nothing |
| Bank.Bank.ExecuteRailTransfer | src/contexts/payments/application/executeRailTransfer.ts:37-105 | NEFT and RTGS pend, IMPS and UPI post at once, after the rail's own guards |
| Bank.Bank.FaucetDeposit | src/contexts/payments/application/faucetDeposit.ts:26-108 | one credit without a source account, under the cap and the key check |
| Bank.Bank.PayBill | src/contexts/bills/application/payBill.ts:37-159 | posts to an active biller's account, with both events; or nothing |
| Bank.Bank.SimulateCardSpend | src/contexts/cards/application/simulateCardSpend.ts:44-189 | limits are checked before the key, then the spend posts with both events; or nothing |
| Bank.Bank.SettleItem | src/contexts/payments/application/settlePendingTransfers.ts:32-89 | one item commits in full or leaves no trace, and yields its event for the loop to publish |
| Bank.Bank.SettleEach | src/contexts/payments/application/settlePendingTransfers.ts:25-94 | the loop's counters, events and tables after any list of items |
| Bank.Bank.SettlePendingTransfers | src/contexts/payments/application/settlePendingTransfers.ts:21-98 | the batch as a whole, its events published at the end |
| Bank.Bank.FileDispute | src/contexts/payments/application/disputes.ts:24-63 | a dispute can be filed exactly by the owner of either account |
| Bank.Bank.DecideDispute | src/contexts/payments/application/disputes.ts:69-187 | a rejection touches the dispute only; an approval posts one reversal and records it |
| Bank.Bank.CloseAccount | src/contexts/accounts/application/closeAccount.ts:14-61 | the sequence of guards, then the closed account; or nothing |
| Bank.Bank.OpenFixedDeposit | src/contexts/accounts/application/openFixedDeposit.ts:13-72 | the payout account is debited, a funded deposit account and a deposit appear; or nothing |
| Bank.Bank.MatureItem | src/contexts/accounts/application/matureFixedDeposits.ts:26-52 | one due deposit is paid out in full or left alone |
| Bank.Bank.MatureEach | src/contexts/accounts/application/matureFixedDeposits.ts:20-59 | the loop's counters and tables after any list of deposits |
| Bank.Bank.MatureFixedDeposits | src/contexts/accounts/application/matureFixedDeposits.ts:15-60 | the whole maturity batch |
| Bank.Bank.PrematureCloseFixedDeposit | src/contexts/accounts/application/prematureCloseFixedDeposit.ts:12-44 | the early payout of an active deposit to its own user; or nothing |
| Bank.Bank.CreateInstruction | src/contexts/standingInstructions/application/manageInstructions.ts:42-101 | the guards in order, then an instruction whose first run is the chosen start or one step ahead |
| Bank.Bank.ChangeInstruction | src/contexts/standingInstructions/application/manageInstructions.ts:103-167 | only the owner pauses, resumes and cancels, from the right status, and nothing else of the row changes |
| Bank.Bank.RunItem | src/contexts/standingInstructions/application/runDueInstructions.ts:48-129 | one iteration over the row as it was read, for every subscriber that throws and every place between two writes or publications where the tick can be cut short |
| Bank.Bank.RunEach | src/contexts/standingInstructions/application/runDueInstructions.ts:46-132 | rows read before the loop are still current when their turn comes, so the loop equals the specification |
| Bank.Bank.RunDueInstructions | src/contexts/standingInstructions/application/runDueInstructions.ts:32-133 | the whole tick, earliest due first |
| Bank.Bank.Serve | src/contexts/payments/application/executeTransfer.ts:75-189 | any call takes one step of the state machine and returns that step's answer, so after any calls in clock order the object is in the state of that run and satisfies its invariant |
| Bank.Bank.Sound | src/contexts/payments/application/settlePendingTransfers.ts:49-59 | the run theorems hold of the object: covered holds explained by its pending rows, and a total that is what its calls brought |
| BooksKept.PostKeepsBooks | src/contexts/payments/application/executeTransfer.ts:120-173 | posting keeps holds, balances, total money, row shapes and deposits in agreement |
| BooksKept.PostDepositKeepsBooks | src/contexts/payments/application/faucetDeposit.ts:57-93 | a faucet deposit keeps them |
| BooksKept.PendKeepsBooks | src/contexts/payments/application/executeRailTransfer.ts:129-162 | a hold keeps them |
| BooksKept.SettleKeepsBooks | src/contexts/payments/application/settlePendingTransfers.ts:49-77 | a settlement keeps them |
| DepositsKept.DepositBalance | src/contexts/accounts/application/openFixedDeposit.ts:46-68 | an active deposit's account holds its principal plus what was credited since, never less |
| DepositsKept.OpenKeepsBooks | src/contexts/accounts/application/openFixedDeposit.ts:36-68 | opening a deposit keeps the books although it writes no ledger rows |
| DepositsKept.PayOutFails | src/contexts/accounts/application/prematureCloseFixedDeposit.ts:26-36 | a payout fails exactly when one of its two accounts is not active or the deposit's account has a hold |
| DepositsKept.PayOutKeepsBooks | src/contexts/accounts/application/matureFixedDeposits.ts:38-51 | a payout keeps the books |
| DepositsKept.CloseKeepsBooks | src/contexts/accounts/application/closeAccount.ts:25-48 | closing an account never takes an active deposit's payout account away |
| Settlement.HoldCoversPending | src/contexts/payments/application/settlePendingTransfers.ts:49-50 | the hold of an account covers each of its pending transfers |
| Settlement.SettleFailure | src/contexts/payments/application/settlePendingTransfers.ts:41-51 | settlement fails exactly on a non-active account, a fixed-deposit source or the minimum balance, never on the hold or the available funds |
| Settlement.BatchSettlement | src/contexts/payments/application/settlePendingTransfers.ts:25-97 | settled + failed is the number pending; failed ones stay pending and the result is as if they had never been tried; the ledger grows by exactly one debit and one credit of its amount per settled one, each announced once; all other rows are untouched |
| Settlement.FailedNeverTried | src/contexts/payments/application/settlePendingTransfers.ts:30-94 | a batch with failures equals the batch of its successes alone |
| Runs.StepKeeps | src/contexts/payments/application/executeTransfer.ts:75-186 | every service, with any arguments, keeps the invariant |
| Runs.ReachableInv | src/contexts/payments/application/executeTransfer.ts:75-186 | every reachable database satisfies the invariant |
| History.StepHistory | src/contexts/payments/infrastructure/transferRepo.ts:86-126 | no call rewrites a posted transfer, a ledger entry, an event or a closed deposit, reopens a closed account, or writes a key it was not given |
| History.RunHistory | src/contexts/payments/infrastructure/transferRepo.ts:86-126 | neither does any run |
| Guarantees.HoldsMatchPending | src/contexts/payments/application/executeRailTransfer.ts:124-161 | in every reachable state 0 <= hold <= balance, and the hold equals the account's pending transfers exactly when it settled no batch transfer to itself |
| Guarantees.SettlementKeepsHold | src/contexts/payments/application/settlePendingTransfers.ts:49-59 | settling keeps hold and pending in step if and only if the accounts differ, with the exact gap otherwise |
| RunningBalances.LedgerExplainsBalances | src/contexts/payments/application/executeTransfer.ts:153-173 | in every reachable state each balance is explained by ledger, deposits and aliased postings, and for an account untouched by the latter two every running balance is the signed prefix sum |
| RunningBalances.LedgerMatchesExactly | src/contexts/payments/application/settlePendingTransfers.ts:53-77 | in every reachable state a balance equals the signed ledger sum if and only if deposit moves and postings to itself add nothing; without deposits, if and only if no posted transfer goes from the account to itself |
| RunningBalances.CallChangesGap | src/contexts/accounts/application/openFixedDeposit.ts:36-68 | every call of every service changes the gap between a balance and its entries by the own postings it writes and by what it moves in deposits |
| RunningBalances.BalanceExplained | src/contexts/accounts/application/matureFixedDeposits.ts:38-51 | in every reachable state a balance is the signed sum of its entries, its own postings once more and what the run's deposit calls moved |
| RunningBalances.RunExplained | src/contexts/payments/application/executeTransfer.ts:153-173 | in every reachable state the same of every entry's running balance at the call that wrote it, and an own posting's debit stands directly before its credit |
| Guarantees.PostingKeepsLedger | src/contexts/payments/application/disputes.ts:114-161 | a posting keeps balance and ledger in step if and only if its accounts differ, with the exact gap |
| Guarantees.SettlementKeepsLedger | src/contexts/payments/application/settlePendingTransfers.ts:49-77 | the same of a settlement |
| Guarantees.DoubleEntry | src/contexts/payments/application/settlePendingTransfers.ts:53-88 | in every reachable state a posted two-account transfer has one debit and one credit of its amount, a faucet deposit one credit, a pending one nothing; at most one event each |
| Guarantees.MoneyInTheBank | src/contexts/payments/application/faucetDeposit.ts:57-93 | over any run the total of all balances is faucet money plus interest, less what zeroed deposit accounts lost, plus aliased amounts |
| Guarantees.PostingConserves | src/contexts/payments/application/disputes.ts:114-143 | a transfer, bill, card spend or reversal changes the total by zero if and only if its accounts differ, and by its amount otherwise |
| Guarantees.SettlementConserves | src/contexts/payments/application/settlePendingTransfers.ts:49-59 | the same of a settlement |
| Guarantees.PayOutMoneyChange | src/contexts/accounts/application/matureFixedDeposits.ts:38-51 | a payout changes the total by interest minus (account balance - principal) |
| Guarantees.OpeningConserves | src/contexts/accounts/application/openFixedDeposit.ts:36-68 | opening a deposit changes the total by zero |
| Conservation.CallChangesTotal | src/contexts/accounts/application/matureFixedDeposits.ts:24-57 | every call of every service changes the total of all balances by exactly what it brings: faucet money, deposit payout gains and amounts sent from an account to itself |
| Conservation.CallConservesExactly | src/contexts/bills/application/payBill.ts:73-112 | transfers conserve money always, a bill, card spend or reversal that posts if and only if it does not pay the account it draws on |
| Conservation.RunChangesTotal | src/contexts/payments/application/faucetDeposit.ts:42-107 | over any run the money in the bank is the sum of what its calls brought |
| Guarantees.ActiveDeposits | src/contexts/accounts/application/closeAccount.ts:27-44 | in every reachable state an active deposit's account is open and holds its principal, its payout account is another open ordinary account of the user, and maturity fails exactly on a non-active account or a hold |
| Guarantees.PaidOutOnce | src/contexts/accounts/application/prematureCloseFixedDeposit.ts:22-40 | a deposit once paid out never changes again in any run, and its account stays closed and empty |
| Guarantees.DepositsAsAgreed | src/contexts/accounts/application/openFixedDeposit.ts:55-66 | in every reachable state each deposit has the terms one of the calls asked for, at the rate of its tenure and with the maturity date of that moment, whatever has happened since |
| Guarantees.DueMeansAccrued | src/contexts/accounts/domain/fixedDeposit.ts:47-58 | in every reachable state a deposit due for maturity has accrued exactly its maturity interest |
| DepositOutcomes.OpenedExactlyWhen | src/contexts/accounts/application/openFixedDeposit.ts:26-70 | a deposit opens exactly when the user's own payout account can give a permitted principal for a permitted tenure; the principal moves to the new account and the terms are fixed |
| DepositOutcomes.MaturityPays | src/contexts/accounts/application/matureFixedDeposits.ts:26-51 | in every reachable state an active deposit matures exactly when both accounts are active and its own carries no hold; it pays principal and the whole term's interest at its own rate, rounded down, and nothing else changes |
| DepositOutcomes.EarlyClosePays | src/contexts/accounts/application/prematureCloseFixedDeposit.ts:18-44 | the deposit's own user gets it back on the same condition, with the interest of the elapsed 30-day months less one percent of it |
| DepositOutcomes.BatchMaturesAll | src/contexts/accounts/application/matureFixedDeposits.ts:15-60 | the batch matures every active deposit whose date has come and that can be paid out, and no other, and counts each due one once |
| AccountOutcomes.ClosedExactlyWhen | src/contexts/accounts/application/closeAccount.ts:14-61 | an owner closes an ordinary account exactly when it is empty, carries no hold and no active deposit, card or running instruction needs it |
| AccountOutcomes.CreatedEmpty | src/contexts/accounts/domain/account.ts:79-99 | a new account is empty, active and its holder's |
| AccountOutcomes.FrozenExactlyWhen | src/contexts/accounts/application/freezeAccount.ts:13-49 | freezing and unfreezing are refused to closed accounts only |
| AccountOutcomes.IssuedExactlyWhen | src/contexts/cards/application/manageCards.ts:20-150 | a card is issued on the caller's own account, and no later change moves it to another |
| AccountOutcomes.InstructedExactlyWhen | src/contexts/standingInstructions/application/manageInstructions.ts:42-101 | an instruction is created exactly by a customer with access, from an own account to an own beneficiary, and first runs at the chosen start or one step from now |
| AccountOutcomes.ChangedExactlyWhen | src/contexts/standingInstructions/application/manageInstructions.ts:103-167 | only the owner pauses a running, resumes a paused and cancels an uncancelled instruction, and only its status changes |
| Guarantees.KeyUsedOnce | src/contexts/payments/application/executeTransfer.ts:83-86 | in every run a key is on at most one transfer, and every later call with that key changes nothing at all |
| Outcomes.PostedExactlyWhen | src/contexts/payments/application/executeTransfer.ts:54-173 | a transfer with an unused key posts exactly when amount, access, accounts, beneficiary and limits (in rupees) allow it; then the amount moves from the one account to the other on one posted row with its two entries and event, and nothing else changes |
| Outcomes.HeldExactlyWhen | src/contexts/payments/application/executeRailTransfer.ts:41-166 | an NEFT or RTGS transfer holds the amount on the paying account exactly when amount, access, tier and that account allow it, and leaves one pending row, with no balance, entry or event changed |
| Outcomes.PostedAtOnceExactlyWhen | src/contexts/payments/application/executeRailTransfer.ts:41-105 | an IMPS or UPI transfer posts at once under the guards of any transfer except the cooling period, and a UPI address must be valid |
| Outcomes.FaucetExactlyWhen | src/contexts/payments/application/faucetDeposit.ts:26-107 | free money up to its cap reaches exactly the named active account, with one credit entry, one row and one event |
| Outcomes.BillPaidExactlyWhen | src/contexts/bills/application/payBill.ts:37-157 | a bill is paid exactly when amount, access, an active biller and both accounts allow it; the payer pays, the biller's account is paid, both events are published |
| Outcomes.SpendPostedExactlyWhen | src/contexts/cards/application/simulateCardSpend.ts:56-187 | a spend posts exactly when customer, card, merchant, the three limits and both accounts allow it; the card's account pays the merchant's on a row that names the card |
| Outcomes.RepeatedTransfer | src/contexts/payments/application/executeTransfer.ts:83-86 | a repeated key is answered with the transfer that carries it, and changes nothing |
| Outcomes.RepeatedRailTransfer | src/contexts/payments/application/executeRailTransfer.ts:119-121 | the same on every rail |
| Outcomes.RepeatedFaucet | src/contexts/payments/application/faucetDeposit.ts:49-51 | the same of the faucet |
| Outcomes.RepeatedBill | src/contexts/bills/application/payBill.ts:64-66 | the same of bills |
| Outcomes.RepeatedSpend | src/contexts/cards/application/simulateCardSpend.ts:103-106 | the same of card spends, after the limit check |
| Outcomes.FiledExactlyWhen | src/contexts/payments/application/disputes.ts:24-63 | a dispute can be filed exactly by the owner of either account, and is recorded as submitted |
| Outcomes.RejectedExactlyWhen | src/contexts/payments/application/disputes.ts:81-96 | an undecided dispute can be rejected, which changes its status and nothing else |
| Outcomes.ReversedExactlyWhen | src/contexts/payments/application/disputes.ts:98-186 | an approval succeeds exactly when the receiving account can return the amount; it then posts one reversal from receiver to sender, which the dispute records |
| Outcomes.ApprovalGivesBack | src/contexts/payments/application/disputes.ts:110-143 | for a transfer between two accounts an approval raises the sender's balance by the amount, lowers the receiver's by it and changes no other |
| Refusals.TransferRefused | src/contexts/payments/application/executeTransfer.ts:47-121 | whatever the input, the error of a refused transfer names a condition that holds |
| Refusals.RailRefused | src/contexts/payments/application/executeRailTransfer.ts:41-130 | the same on every rail; on the batch rails only the hold of the paying account can fail |
| Refusals.FaucetRefused | src/contexts/payments/application/faucetDeposit.ts:36-57 | the same of the faucet |
| Refusals.BillRefused | src/contexts/bills/application/payBill.ts:41-79 | the same of bills |
| Refusals.SpendRefused | src/contexts/cards/application/simulateCardSpend.ts:56-113 | the same of card spends |
| Refusals.DecisionRefused | src/contexts/payments/application/disputes.ts:77-115 | the same of a dispute's decision |
| Refusals.FilingRefused | src/contexts/payments/application/disputes.ts:24-53 | the same of filing a dispute |
| Refusals.CloseRefused | src/contexts/accounts/application/closeAccount.ts:22-56 | the same of closing an account |
| Refusals.OpeningRefused | src/contexts/accounts/application/openFixedDeposit.ts:26-66 | the same of opening a deposit |
| Refusals.EarlyCloseRefused | src/contexts/accounts/application/prematureCloseFixedDeposit.ts:18-36 | the same of an early close |
| Refusals.InstructionRefused | src/contexts/standingInstructions/application/manageInstructions.ts:42-101 | the same of creating an instruction |
| Refusals.ChangeRefused | src/contexts/standingInstructions/application/manageInstructions.ts:103-167 | the same of pausing, resuming and cancelling |
| Guarantees.CheckedTransferWithinLimits | src/services/transferLimits.ts:79-126 | right after a limit-checked transfer the owner's outbound totals of the day and month are within the tier |
| Guarantees.OutboundIsPeriod | src/services/transferLimits.ts:28-102 | what counts towards a limit is exactly what the user's accounts have sent in the calendar day or month of the clock |
| Counterexamples.OwnBillCreatesMoney | src/contexts/bills/application/payBill.ts:78-112 | a reachable state and a bill paid to the paying account, after which the balance exceeds its ledger |
| Counterexamples.OwnNeftKeepsHold | src/contexts/payments/application/settlePendingTransfers.ts:49-59 | a reachable NEFT transfer to its own account whose settlement leaves the hold with nothing pending |
| Counterexamples.DepositBreaksStatement | src/contexts/accounts/application/openFixedDeposit.ts:36-68 | a reachable state in which a statement across a deposit's opening does not add up |
| CardCaps.SpendWithinLimits | src/contexts/cards/application/simulateCardSpend.ts:75-91 | an accepted spend fits the per-transaction limit and what is left of its calendar day and month |
| CardCaps.StepCapped | src/contexts/cards/application/simulateCardSpend.ts:75-159 | one call of any service keeps a card's spends of a period within its limit at that moment |
| CardCaps.CardCapsHold | src/services/cardLimits.ts:109-158 | no run lets a card's posted spends of a calendar day or month exceed the highest limit it had when spending in that period, so never an unchanged limit, whatever it was before or after |
| Scheduler.RunOneEffect | src/contexts/standingInstructions/application/runDueInstructions.ts:48-109 | an iteration leaves, cancels, fails or advances its row, adds at most one transfer, for the planned instant and to the beneficiary's account, and advances only once that instant is paid |
| Scheduler.ExactlyOnce | src/contexts/standingInstructions/application/runDueInstructions.ts:59-109 | in every run, with ticks cut short between any two writes and subscribers throwing, each planned instant before the next run has exactly one posted transfer of the right amount and account, and the next run at most one |
| Scheduler.PaidToBeneficiary | src/contexts/standingInstructions/application/runDueInstructions.ts:59-85 | in every run each transfer the runner made went to the account that one of the ticks was given for its instruction's beneficiary |
| Scheduler.IterationDrops | src/contexts/standingInstructions/application/runDueInstructions.ts:48-109 | whatever its transfer does, a due instruction stops being due or gets smaller in (time to catch up, failures left) |
| Scheduler.TicksRunDry | src/contexts/standingInstructions/application/runDueInstructions.ts:43-132 | with the clock fixed and the beneficiaries present, at most the initial budget's number of ticks leaves nothing due, wherever each is cut short once its first due row has been written |
| Runner.CancelledExactlyWhen | src/contexts/standingInstructions/application/runDueInstructions.ts:49-52 | a row becomes cancelled exactly when its end has come and the tick gets to it, and then nothing else happens |
| Runner.PaidExactlyWhen | src/contexts/standingInstructions/application/runDueInstructions.ts:59-124 | undisturbed, an unpaid run succeeds exactly when amount and accounts allow it: the amount moves to the beneficiary's account on one new row, both events are out and the schedule is one run on; otherwise one failure more, and paused from the third |
| Runner.CaughtUpExactlyWhen | src/contexts/standingInstructions/application/runDueInstructions.ts:59-85 | a run whose key is already on a transfer is not paid again, and the schedule catches up |
| Runner.LeftWithoutBeneficiary | src/contexts/standingInstructions/application/runDueInstructions.ts:53-58 | a row whose beneficiary is gone counts as failed and stays as it is |
| Runner.MoneyMovesExactlyWhen | src/contexts/standingInstructions/application/runDueInstructions.ts:59-77 | whatever throws and wherever the tick is cut short, the money moves exactly when amount and accounts allow it and the tick gets to the row |
| Runner.MovesOnExactlyWhen | src/contexts/standingInstructions/application/runDueInstructions.ts:78-109 | the schedule moves on exactly when the run is paid and nothing cuts in before the row is written or takes it back after |
| Runner.TickTriesAll | src/contexts/standingInstructions/application/runDueInstructions.ts:43-132 | a tick that is not cut short leaves out no due row and touches no other, and counts each row that has not ended exactly once |
| Audit.AuditLog.Record | src/contexts/audit/application/recordAudit.ts:83-117 | the appended entry continues numbering and chain; a new log is valid and recording keeps it so |
| Audit.RecordedLog | src/contexts/audit/application/recordAudit.ts:83-117 | whatever is recorded, the log verifies, is numbered 1 to n and holds every draft in order with nothing else in it changed |
| Audit.AuditLog.Verify | src/contexts/audit/interface/admin.ts:42-70 | the loop accepts exactly the logs that verify and otherwise names the first entry that breaks, with the reason |
| Audit.HeadDeterminesLog | src/contexts/audit/application/recordAudit.ts:49-76 | under an injective hash two logs that verify and end in the same hash are the same log |
| Audit.TamperingReported | src/contexts/audit/interface/admin.ts:42-70 | a log with the recorded last hash verifies if and only if nothing was changed, inserted, removed or reordered |
| Audit.CanonicalExactly | src/contexts/audit/application/recordAudit.ts:49-76 | the hashed form loses no field but the hash itself and the difference between an absent payload and null |
| Audit.AbsentPayloadReadsAsNull | src/contexts/audit/application/recordAudit.ts:65 | the one difference the canonical form does not see |
| Velocity.Limiter.EvictIfNeeded | src/services/velocity.ts:33-42 | above the maximum the oldest keys go, a hundred below it, and no other bucket changes |
| Velocity.Limiter.RecordAttempt | src/services/velocity.ts:44-81 | the answer and the new table, all keys included; each key's bucket stays the one its own attempts since its creation lead to, however keys interleave and whatever is evicted |
| Velocity.WindowTracks | src/services/velocity.ts:56-79 | after any attempts a window counts what was allowed since it opened, and the span before it held at most one windowful |
| Velocity.AllowedRate | src/services/velocity.ts:48-80 | no 60-second interval holds more than ten allowed attempts of a key and no 24-hour interval more than a hundred |
| Velocity.PlainCapExactly | src/services/velocity.ts:8-9 | over all runs the plain cap holds from a given distance before the current window's opening if and only if that distance is not positive |
| Velocity.TenInAMinute | src/services/velocity.ts:48-80 | ten attempts allowed within sixty seconds |
| Velocity.RetryAfterSuffices | src/services/velocity.ts:63-75 | an attempt made after the announced wait is not refused for the same reason |
| Velocity.RetryAfterNeeded | src/services/velocity.ts:63-75 | an attempt more than a second before the announced wait is over is refused for the same reason |
| Velocity.RefusedExactlyWhen | src/services/velocity.ts:48-80 | an attempt is refused exactly when five were allowed in the open minute or fifty in the open day, the minute first |
| Nonces.SessionStore.SetSessionKey | src/crypto/sessionStore.ts:42-56 | a taken id is refused; a full store drops a least recently used session |
| Nonces.SessionStore.EvictOldest | src/crypto/sessionStore.ts:23-33 | the session dropped is one that no other was used before |
| Nonces.SessionStore.GetSessionKey | src/crypto/sessionStore.ts:68-78 | a live session is marked as used, an expired one is deleted |
| Nonces.SessionStore.RecordNonce | src/crypto/sessionStore.ts:85-99 | pruning and recording touch this session's cache only, exactly as specified |
| Nonces.SessionStore.Accept | src/middleware/decrypt.ts:85-110 | a request is accepted exactly by a live session, a fresh timestamp and a new nonce; in any interleaving of sessions an accepted pair is the first of its session's life |
| Nonces.RememberedOrStale | src/crypto/sessionStore.ts:89-92 | an accepted pair is still cached or already too old to be accepted |
| Nonces.ReplayRejected | src/crypto/sessionStore.ts:85-99 | within one session's life a (nonce, timestamp) pair is accepted at most once in any run, despite pruning |
| Nonces.AcceptedExactlyWhen | src/middleware/decrypt.ts:85-110 | a request of a live session is accepted exactly when its timestamp is within a minute of the clock, no accepted request with its nonce is still live and fewer than ten thousand are |
| Nonces.CacheBounded | src/crypto/sessionStore.ts:94-98 | the cache never exceeds its cap |
| Statements.RowsExact | src/contexts/statements/infrastructure/statementQuery.ts:39-54 | a statement holds exactly the account's entries from the start to just before the end, each once and in ledger order |
| Statements.Reconciles | src/contexts/statements/infrastructure/statementQuery.ts:78-91 | over a chained ledger a non-empty statement opens with the balance before it, closes with the balance after it, and opening + credits - debits = closing |
| Statements.StatementsReconcile | src/contexts/statements/infrastructure/statementQuery.ts:39-91 | in every reachable state, for every account, closing = opening + credits - debits + its postings to itself listed + what deposit calls moved between its end rows; a non-empty statement adds up if and only if the last two sum to nothing, without deposits if and only if no such posting is listed |
| Statements.StatementsMeet | src/contexts/statements/infrastructure/statementQuery.ts:78-91 | in every reachable state adjacent non-empty statements differ by exactly what deposit calls moved between the rows on either side, so without deposits they always meet |
| Csv.StatementToCsv | src/contexts/statements/application/exportCsv.ts:8-60 | the pushed lines, joined, render exactly the summary, the blank line, the header and one row per entry |
| Csv.RoundTrip | src/contexts/statements/application/exportCsv.ts:62-68 | a parser written from section 2 of RFC 4180 reads rendered rows back unchanged, for any field contents |
| Csv.StatementRoundTrip | src/contexts/statements/application/exportCsv.ts:8-68 | the export of any statement parses back to the intended rows and fields |
| StatementExport.ExportShowsFigures | src/contexts/statements/application/exportCsv.ts:8-60 | whatever names, memos and references a statement has, reading its file back gives the ledger's opening, closing, totals and every line's direction, amount and running balance, each found by its column title |
| StatementExport.ExportShowsText | src/contexts/statements/application/exportCsv.ts:17-58 | every other field of a line stands under its own column title, the account number and the period at the top |
| StatementExport.FileAddsUp | src/contexts/statements/infrastructure/statementQuery.ts:72-91 | the file's totals are those of its own rows, and in every reachable state the file of an account without deposits adds up if and only if it lists no posting to itself |

## Left out

- Bank.Bank.AssertBankingAccess: whether a user has an approved KYC application is an input of the call, since applications are not modelled.
- Bank.Bank.ExecuteTransfer: a named beneficiary that is unknown, another owner's or still cooling is one input flag, since beneficiaries are not modelled; descriptions and user names are display data.
- Bank.Bank.ExecuteRailTransfer: the format of a UPI address is an input flag, and the later update of UTR and description, which touches display data only, is not modelled.
- Bank.Bank.SettleItem: the clock is read once per call instead of once per item.
- Bank.Bank.DecideDispute: the reversal's commit and the dispute's update are one step; a process that stops between the two, and could be asked to decide again, is not modelled. Several disputes may be filed on one transfer and a pending transfer may be reversed, as in the code, so at most one reversal per transfer is not claimed.
- Bank.Bank.CreateAccount: every call opens an account; the reuse of an existing account of the same type and the loop that draws a free account number are not modelled, and account numbers are inputs.
- Bank.Bank.IssueCard: the card's first limits are an input instead of the KYC tier's defaults.
- Bank.Bank.UpdateCard: freezing, unfreezing, cancelling and new limits are one unguarded update; the guards of manageCards.ts and the bank maxima of cardLimits.ts only restrict it further.
- Bank.Bank.CreateInstruction: whether the beneficiary exists and belongs to the caller is an input flag.
- Bank.Bank.RunItem: ticks cut short and throwing subscribers are modelled for the runner only; the other services publish after their work is done. Beneficiaries are a map, whose removal cascades to instructions in the schema.
- Scheduler.TicksRunDry: a tick that ends before its first due row is written makes no progress; repeated for ever it never runs dry, so such ticks are excluded.
- Zones.FixedOffsetLawful: zones with daylight saving are allowed for by every theorem that assumes the laws, but no time zone database is modelled to show them of a particular one.
- RunningBalances.LedgerExplainsBalances: running balances are chained for accounts that no deposit and no posting to itself has touched; RunningBalances.RunExplained says exactly what they are for the others.
- Statements.StatementsReconcile: a period without entries reports 0 as opening and closing balance in the code, and is no part of it.
- StatementExport.ExportShowsFigures: names, memos, references, the month's title and the text of an instant are given by parameters.
- Velocity.AllowedRate: it bounds the attempts of one key since its bucket was made; an evicted key starts afresh.
- Nonces.ReplayRejected: the clock reads of one request are one instant; session ids are taken to be non-empty, and bound users and the periodic clean-up are not modelled.
- Audit.HeadDeterminesLog: SHA-256 over JSON text is a parameter assumed injective on canonical records; redaction of payloads and the mapping from action to category happen before the model; truncating the tail of the log changes the last hash and is not claimed to be reported.
- Client idempotency keys and the runner's `si:` keys are kept apart by type; a customer who typed the runner's format could occupy a planned run, and an empty key string counts as no key.
- NEFT and RTGS transfers have no aggregate limit check and no check for another user's fixed deposit in the code, so neither is claimed of them.
- Currency is always INR; memos, reference numbers, updatedAt and createdAt, notifications and the events of account and instruction changes are display data; billers are inputs of the calls that pay them.
- Order among rows with equal sort keys is insertion order; the database leaves it open.
- Money is unbounded integers; the deposit products are exact in the original's floating point up to a principal of about 9.38e10 paise.
- HTTP routing, authentication, encryption, the database engine, PDF export, automatic renewal of deposits (stored but never acted on), nominees, maker-checker and login state.
