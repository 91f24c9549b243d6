/**
 * From the ledger to the exported file and back: what the CSV export of a
 * statement shows of its figures. Names, references and the text of an
 * instant are display data, given by a function of the entry.
 */
module StatementExport {
  import opened Prelude
  import Zones
  import opened Tables
  import opened Runs
  import RunningBalances
  import opened Statements
  import opened Csv

  /** What a line shows beside the figures of its entry. */
  datatype LineText = LineText(
    postedAt: string,
    transferId: string,
    referenceNumber: Option<string>,
    counterpartyName: Option<string>,
    description: Option<string>,
    memo: Option<string>,
    kind: string)

  function Direction(side: Side): string {
    if side == DebitSide then "debit" else "credit"
  }

  function LineOf(e: LedgerEntry, t: LineText): Line {
    Line(t.postedAt, t.transferId, t.referenceNumber, Direction(e.side), t.counterpartyName, t.description, t.memo,
         e.amount, e.running, t.kind)
  }

  function LinesOf(lines: seq<LedgerEntry>, text: LedgerEntry -> LineText): (r: seq<Line>)
    ensures |r| == |lines|
    ensures forall i :: 0 <= i < |lines| ==> r[i] == LineOf(lines[i], text(lines[i]))
  {
    seq(|lines|, i requires 0 <= i < |lines| => LineOf(lines[i], text(lines[i])))
  }

  function Shown(st: Statement, month: string, text: LedgerEntry -> LineText): MonthlyStatement {
    MonthlyStatement(month, st.opening, st.closing, st.totalCredit, st.totalDebit, LinesOf(st.lines, text))
  }

  /** The file for one account and window of the ledger. */
  function ExportOf(ledger: seq<LedgerEntry>, account: AccountId, from: int, to: int,
                    month: string, text: LedgerEntry -> LineText, accountNumber: string): string
  {
    Render(StatementRows(Shown(QueryStatement(ledger, account, from, to), month, text), accountNumber))
  }

  // ---------- reading numbers ----------

  function ReadDigit(c: char): Option<nat> {
    if '0' <= c <= '9' then Some((c - '0') as nat) else None
  }

  function ReadDigits(s: string): Option<nat> {
    if |s| == 0 then None
    else
      var n := |s| - 1;
      var last := ReadDigit(s[n]);
      var front := if n == 0 then Some(0) else ReadDigits(s[..n]);
      if last.None? || front.None? then None else Some(front.value * 10 + last.value)
  }

  function ReadDecimal(s: string): Option<int> {
    if |s| > 0 && s[0] == '-' then
      var digits := ReadDigits(s[1..]);
      if digits.None? then None else Some(-(digits.value as int))
    else
      var digits := ReadDigits(s);
      if digits.None? then None else Some(digits.value)
  }

  lemma {:induction false} DigitsBack(n: nat)
    ensures ReadDigits(Digits(n)) == Some(n) && '0' <= Digits(n)[0] <= '9'
  {
    var s := Digits(n);
    assert ReadDigit(s[|s| - 1]) == Some(n % 10);
    if n >= 10 {
      DigitsBack(n / 10);
      assert s[..|s| - 1] == Digits(n / 10);
    }
  }

  lemma DecimalBack(n: int)
    ensures ReadDecimal(Decimal(n)) == Some(n)
  {
    hide ReadDigits, Digits;
    if n < 0 {
      DigitsBack(-n);
      assert Decimal(n)[1..] == Digits(-n);
    } else {
      DigitsBack(n);
    }
  }

  // ---------- reading the file ----------

  /** The figures of one line. */
  datatype Movement = Movement(side: Side, amount: int, running: int)

  datatype Figures = Figures(opening: int, closing: int, totalCredit: int, totalDebit: int, movements: seq<Movement>)

  function MovementOf(e: LedgerEntry): Movement {
    Movement(e.side, e.amount, e.running)
  }

  function MovementsOf(lines: seq<LedgerEntry>): (r: seq<Movement>)
    ensures |r| == |lines|
  {
    seq(|lines|, i requires 0 <= i < |lines| => MovementOf(lines[i]))
  }

  function FiguresOf(st: Statement): Figures {
    Figures(st.opening, st.closing, st.totalCredit, st.totalDebit, MovementsOf(st.lines))
  }

  function ReadSide(s: string): Option<Side> {
    if s == "debit" then Some(DebitSide) else if s == "credit" then Some(CreditSide) else None
  }

  /** The position of a title among the column titles. */
  function Column(titles: seq<string>, title: string): Option<nat> {
    if |titles| == 0 then None
    else if titles[0] == title then Some(0)
    else
      var rest := Column(titles[1..], title);
      if rest.None? then None else Some(rest.value + 1)
  }

  /** What a row has in the column of that title. */
  function Field(titles: seq<string>, row: seq<string>, title: string): Option<string> {
    var column := Column(titles, title);
    if column.None? || column.value >= |row| then None else Some(row[column.value])
  }

  function ReadNumber(field: Option<string>): Option<int> {
    if field.None? then None else ReadDecimal(field.value)
  }

  function ReadMovement(titles: seq<string>, row: seq<string>): Option<Movement> {
    var direction := Field(titles, row, "Direction");
    var side := if direction.None? then None else ReadSide(direction.value);
    var amount := ReadNumber(Field(titles, row, "Amount (paise)"));
    var running := ReadNumber(Field(titles, row, "Running Balance (paise)"));
    if side.None? || amount.None? || running.None? then None
    else Some(Movement(side.value, amount.value, running.value))
  }

  function ReadMovements(titles: seq<string>, rows: seq<seq<string>>): Option<seq<Movement>> {
    if |rows| == 0 then Some([])
    else
      var n := |rows| - 1;
      var front, last := ReadMovements(titles, rows[..n]), ReadMovement(titles, rows[n]);
      if front.None? || last.None? then None else Some(front.value + [last.value])
  }

  function ReadSummary(row: seq<string>, title: string): Option<int> {
    if |row| == 2 && row[0] == title then ReadDecimal(row[1]) else None
  }

  /** A reader of the file that knows its layout: labelled totals, a blank
    * line, the column titles, one row for each movement. Which column holds
    * what it takes from the titles. */
  function ReadFigures(csv: string): Option<Figures> {
    var table := Parse(csv);
    if table.None? || |table.value| < 8 then None
    else
      var rows := table.value;
      var opening := ReadSummary(rows[2], "Opening balance (paise)");
      var closing := ReadSummary(rows[3], "Closing balance (paise)");
      var credits := ReadSummary(rows[4], "Total credits (paise)");
      var debits := ReadSummary(rows[5], "Total debits (paise)");
      var movements := ReadMovements(rows[7], rows[8..]);
      if opening.None? || closing.None? || credits.None? || debits.None? || movements.None? then None
      else Some(Figures(opening.value, closing.value, credits.value, debits.value, movements.value))
  }

  lemma MovementBack(e: LedgerEntry, t: LineText)
    ensures ReadMovement(HEADER_ROW, LineRow(LineOf(e, t))) == Some(MovementOf(e))
  {
    hide ReadDecimal, Decimal, Column;
    ColumnsOfHeader();
    DecimalBack(e.amount);
    DecimalBack(e.running);
  }

  lemma ColumnsOfHeader()
    ensures Column(HEADER_ROW, "Posted At") == Some(0) && Column(HEADER_ROW, "Reference") == Some(1)
    ensures Column(HEADER_ROW, "Direction") == Some(2) && Column(HEADER_ROW, "Counterparty") == Some(3)
    ensures Column(HEADER_ROW, "Description") == Some(4) && Column(HEADER_ROW, "Amount (paise)") == Some(5)
    ensures Column(HEADER_ROW, "Running Balance (paise)") == Some(6) && Column(HEADER_ROW, "Kind") == Some(7)
  {
    hide Column;
    forall k | 0 <= k < 8 ensures Column(HEADER_ROW, HEADER_ROW[k]) == Some(k) {
      ColumnAt(HEADER_ROW, k);
    }
  }

  lemma {:induction false} ColumnAt(titles: seq<string>, k: nat)
    requires k < |titles| && forall i :: 0 <= i < k ==> titles[i] != titles[k]
    ensures Column(titles, titles[k]) == Some(k)
  {
    if k > 0 {
      ColumnAt(titles[1..], k - 1);
    }
  }

  predicate ReadAs(rows: seq<seq<string>>, movements: seq<Movement>) {
    |rows| == |movements| && forall i :: 0 <= i < |rows| ==> ReadMovement(HEADER_ROW, rows[i]) == Some(movements[i])
  }

  lemma {:induction false} RowByRow(rows: seq<seq<string>>, movements: seq<Movement>)
    requires ReadAs(rows, movements)
    ensures ReadMovements(HEADER_ROW, rows) == Some(movements)
  {
    hide ReadMovement;
    if |rows| > 0 {
      var n := |rows| - 1;
      RowByRow(rows[..n], movements[..n]);
      assert movements == movements[..n] + [movements[n]];
    }
  }

  lemma MovementsBack(lines: seq<LedgerEntry>, text: LedgerEntry -> LineText)
    ensures ReadMovements(HEADER_ROW, LineRows(LinesOf(lines, text))) == Some(MovementsOf(lines))
  {
    hide ReadMovement, LineRow, LineOf, ReadMovements;
    var rows, movements := LineRows(LinesOf(lines, text)), MovementsOf(lines);
    forall i | 0 <= i < |rows| ensures ReadMovement(HEADER_ROW, rows[i]) == Some(movements[i]) {
      MovementBack(lines[i], text(lines[i]));
    }
    RowByRow(rows, movements);
  }

  /** The file shows the statement: whatever the names, memos and references
    * in it, reading it back gives the ledger's figures, each where it belongs. */
  lemma ExportShowsFigures(ledger: seq<LedgerEntry>, account: AccountId, from: int, to: int,
                           month: string, text: LedgerEntry -> LineText, accountNumber: string)
    ensures ReadFigures(ExportOf(ledger, account, from, to, month, text, accountNumber))
            == Some(FiguresOf(QueryStatement(ledger, account, from, to)))
  {
    hide Parse, Render, ReadDecimal, Decimal, ReadMovements, QueryStatement;
    var st := QueryStatement(ledger, account, from, to);
    var rows := StatementRows(Shown(st, month, text), accountNumber);
    StatementRoundTrip(Shown(st, month, text), accountNumber);
    DecimalBack(st.opening);
    DecimalBack(st.closing);
    DecimalBack(st.totalCredit);
    DecimalBack(st.totalDebit);
    assert rows[8..] == LineRows(LinesOf(st.lines, text));
    MovementsBack(st.lines, text);
  }

  /** And whatever else a line shows stands under its own title, the account
    * and the period at the top. */
  lemma ExportShowsText(ledger: seq<LedgerEntry>, account: AccountId, from: int, to: int, month: string,
                        text: LedgerEntry -> LineText, accountNumber: string, k: nat)
    requires k < |Rows(ledger, account, from, to)|
    ensures var table := Parse(ExportOf(ledger, account, from, to, month, text, accountNumber));
            var shown := text(Rows(ledger, account, from, to)[k]);
            && table.Some? && |table.value| == 8 + |Rows(ledger, account, from, to)|
            && table.value[0] == ["Account number", accountNumber] && table.value[1] == ["Period", month]
            && var titles, row := table.value[7], table.value[8 + k];
               && Field(titles, row, "Posted At") == Some(shown.postedAt)
               && Field(titles, row, "Reference") == Some(Or(shown.referenceNumber, shown.transferId))
               && Field(titles, row, "Counterparty") == Some(Or(shown.counterpartyName, ""))
               && Field(titles, row, "Description") == Some(Or(shown.description, Or(shown.memo, "")))
               && Field(titles, row, "Kind") == Some(shown.kind)
  {
    hide Parse, Render, Column, Decimal, Rows;
    var st := QueryStatement(ledger, account, from, to);
    ColumnsOfHeader();
    StatementRoundTrip(Shown(st, month, text), accountNumber);
    var rows := StatementRows(Shown(st, month, text), accountNumber);
    assert rows[8 + k] == LineRow(LineOf(st.lines[k], text(st.lines[k])));
  }

  function MovedFn(side: Side): Movement -> int {
    (m: Movement) => if m.side == side then m.amount else 0
  }

  lemma {:induction false} MovementTotals(lines: seq<LedgerEntry>)
    ensures Sum(MovementsOf(lines), MovedFn(CreditSide)) == Sum(lines, CreditsFn())
    ensures Sum(MovementsOf(lines), MovedFn(DebitSide)) == Sum(lines, DebitsFn())
  {
    if |lines| > 0 {
      var n := |lines| - 1;
      MovementTotals(lines[..n]);
      assert MovementsOf(lines)[..n] == MovementsOf(lines[..n]);
    }
  }

  /** A reader of the file can check it: its totals are those of its rows, and
    * in every reachable state the file of an account that no deposit names adds
    * up from opening to closing balance if and only if the statement lists no
    * posting from the account to itself. */
  lemma FileAddsUp(z: Zones.Zone, calls: seq<Call>, start: int, account: AccountId, from: int, to: int,
                   month: string, text: LedgerEntry -> LineText, accountNumber: string)
    requires InOrder(calls, start)
    ensures var s := Run(z, EMPTY_DB, calls);
            var file := ReadFigures(ExportOf(s.ledger, account, from, to, month, text, accountNumber));
            && file.Some?
            && file.value.totalCredit == Sum(file.value.movements, MovedFn(CreditSide))
            && file.value.totalDebit == Sum(file.value.movements, MovedFn(DebitSide))
            && (file.value.movements != [] && !RunningBalances.NamedByDeposit(s, account) ==>
                  (file.value.closing == file.value.opening + file.value.totalCredit - file.value.totalDebit
                   <==> !ListsOwnPosting(s, Rows(s.ledger, account, from, to))))
  {
    hide Run, ReadFigures, ExportOf, Rows, ListsOwnPosting;
    var s := Run(z, EMPTY_DB, calls);
    ExportShowsFigures(s.ledger, account, from, to, month, text, accountNumber);
    MovementTotals(Rows(s.ledger, account, from, to));
    StatementsReconcile(z, calls, start, account, from, to);
  }
}
