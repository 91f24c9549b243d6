/**
 * The statement export, exportCsv.ts, and a parser written from section 2 of
 * RFC 4180 that reads it back.
 */
module Csv {
  import opened Prelude

  const CRLF := "\r\n"

  // ---------- the writer ----------

  predicate Special(c: char) {
    c == '"' || c == ',' || c == '\r' || c == '\n'
  }

  predicate NeedsQuotes(v: string) {
    exists i :: 0 <= i < |v| && Special(v[i])
  }

  function Doubled(v: string): string {
    if |v| == 0 then ""
    else (if v[0] == '"' then "\"\"" else [v[0]]) + Doubled(v[1..])
  }

  function Quote(v: string): string {
    if NeedsQuotes(v) then "\"" + Doubled(v) + "\"" else v
  }

  function Join(parts: seq<string>, separator: string): string {
    if |parts| == 0 then ""
    else if |parts| == 1 then parts[0]
    else parts[0] + separator + Join(parts[1..], separator)
  }

  function Quoted(fields: seq<string>): (r: seq<string>)
    ensures |r| == |fields|
    ensures forall i :: 0 <= i < |fields| ==> r[i] == Quote(fields[i])
  {
    seq(|fields|, i requires 0 <= i < |fields| => Quote(fields[i]))
  }

  function RenderRow(fields: seq<string>): string {
    Join(Quoted(fields), ",")
  }

  function RenderEach(rows: seq<seq<string>>): (r: seq<string>)
    ensures |r| == |rows|
    ensures forall i :: 0 <= i < |rows| ==> r[i] == RenderRow(rows[i])
  {
    seq(|rows|, i requires 0 <= i < |rows| => RenderRow(rows[i]))
  }

  function Render(rows: seq<seq<string>>): string {
    Join(RenderEach(rows), CRLF)
  }

  // ---------- RFC 4180, section 2 ----------

  /** Text that was read, and what is left. */
  datatype Parsed<T> = Parsed(value: T, rest: string)

  /** Rule 5: a field without quotes runs up to a special character. */
  function ParsePlain(s: string): (p: Parsed<string>)
    ensures |p.rest| <= |s|
  {
    if |s| == 0 || Special(s[0]) then Parsed("", s)
    else
      var p := ParsePlain(s[1..]);
      Parsed([s[0]] + p.value, p.rest)
  }

  /** Rules 6 and 7: after the opening quote, everything up to a quote that is
    * not doubled; a doubled quote stands for one. */
  function ParseQuoted(s: string): (p: Option<Parsed<string>>)
    ensures p.Some? ==> |p.value.rest| < |s|
  {
    if |s| == 0 then None
    else if s[0] == '"' && (|s| == 1 || s[1] != '"') then Some(Parsed("", s[1..]))
    else
      var next := if s[0] == '"' then s[2..] else s[1..];
      match ParseQuoted(next)
      case None => None
      case Some(p) => Some(Parsed([s[0]] + p.value, p.rest))
  }

  function ParseField(s: string): (p: Option<Parsed<string>>)
    ensures p.Some? ==> |p.value.rest| <= |s|
  {
    if |s| > 0 && s[0] == '"' then ParseQuoted(s[1..]) else Some(ParsePlain(s))
  }

  /** Rule 4: one or more fields, separated by commas. */
  function ParseRecord(s: string): (p: Option<Parsed<seq<string>>>)
    ensures p.Some? ==> |p.value.rest| <= |s|
    decreases |s|
  {
    match ParseField(s)
    case None => None
    case Some(f) =>
      if |f.rest| > 0 && f.rest[0] == ',' then
        match ParseRecord(f.rest[1..])
        case None => None
        case Some(r) => Some(Parsed([f.value] + r.value, r.rest))
      else Some(Parsed([f.value], f.rest))
  }

  /** Rules 1 and 2: records separated by line breaks, the last one optional. */
  function Parse(s: string): Option<seq<seq<string>>>
    decreases |s|
  {
    match ParseRecord(s)
    case None => None
    case Some(r) =>
      if r.rest == "" || r.rest == CRLF then Some([r.value])
      else if |r.rest| > 2 && r.rest[..2] == CRLF then
        match Parse(r.rest[2..])
        case None => None
        case Some(rows) => Some([r.value] + rows)
      else None
  }

  // ---------- reading back what was written ----------

  predicate EndsField(rest: string) {
    rest == "" || rest[0] == ',' || rest[0] == '\r'
  }

  predicate EndsRecord(rest: string) {
    rest == "" || rest[0] == '\r'
  }

  lemma {:induction false} PlainBack(v: string, rest: string)
    requires !NeedsQuotes(v) && EndsField(rest)
    ensures ParsePlain(v + rest) == Parsed(v, rest)
  {
    if |v| == 0 {
      assert v + rest == rest;
    } else {
      assert !Special(v[0]);
      assert (v + rest)[1..] == v[1..] + rest;
      PlainBack(v[1..], rest);
      assert v == [v[0]] + v[1..];
    }
  }

  lemma {:induction false} QuotedBack(v: string, rest: string)
    requires rest == "" || rest[0] != '"'
    ensures ParseQuoted(Doubled(v) + "\"" + rest) == Some(Parsed(v, rest))
  {
    var s := Doubled(v) + "\"" + rest;
    if |v| == 0 {
      assert s == "\"" + rest;
    } else {
      QuotedBack(v[1..], rest);
      var tail := Doubled(v[1..]) + "\"" + rest;
      assert v == [v[0]] + v[1..];
      if v[0] == '"' {
        assert s == "\"\"" + tail;
        assert s[2..] == tail;
      } else {
        assert s == [v[0]] + tail;
        assert s[1..] == tail;
      }
    }
  }

  lemma QuotedFieldBack(v: string, rest: string)
    requires EndsField(rest)
    ensures ParseField("\"" + Doubled(v) + "\"" + rest) == Some(Parsed(v, rest))
  {
    hide ParseQuoted, Doubled;
    var s := "\"" + Doubled(v) + "\"" + rest;
    QuotedBack(v, rest);
    assert s[1..] == Doubled(v) + "\"" + rest;
  }

  lemma PlainFieldBack(v: string, rest: string)
    requires !NeedsQuotes(v) && EndsField(rest)
    ensures ParseField(v + rest) == Some(Parsed(v, rest))
  {
    assert |v| > 0 ==> !Special(v[0]);
    PlainBack(v, rest);
  }

  lemma FieldBack(v: string, rest: string)
    requires EndsField(rest)
    ensures ParseField(Quote(v) + rest) == Some(Parsed(v, rest))
  {
    hide ParseField, NeedsQuotes;
    if NeedsQuotes(v) {
      QuotedFieldBack(v, rest);
    } else {
      PlainFieldBack(v, rest);
    }
  }

  lemma {:induction false} RecordBack(fields: seq<string>, rest: string)
    requires |fields| > 0 && EndsRecord(rest)
    ensures ParseRecord(RenderRow(fields) + rest) == Some(Parsed(fields, rest))
    decreases |fields|
  {
    var s := RenderRow(fields) + rest;
    if |fields| == 1 {
      assert s == Quote(fields[0]) + rest;
      FieldBack(fields[0], rest);
      assert fields == [fields[0]];
    } else {
      assert Quoted(fields)[1..] == Quoted(fields[1..]);
      var tail := RenderRow(fields[1..]) + rest;
      assert s == Quote(fields[0]) + ("," + tail);
      FieldBack(fields[0], "," + tail);
      RecordBack(fields[1..], rest);
      assert ("," + tail)[1..] == tail;
      assert fields == [fields[0]] + fields[1..];
    }
  }

  lemma {:induction false} JoinEmpty(parts: seq<string>)
    requires |parts| > 0 && Join(parts, ",") == ""
    ensures parts == [""]
  {
  }

  /** Only the record of a single empty field is written as nothing. */
  lemma EmptyRow(fields: seq<string>)
    requires |fields| > 0 && RenderRow(fields) == ""
    ensures fields == [""]
  {
    JoinEmpty(Quoted(fields));
    assert Quoted(fields)[0] == Quote(fields[0]);
  }

  lemma {:induction false} RenderNotEmpty(rows: seq<seq<string>>)
    requires |rows| > 0 && |rows[|rows| - 1]| > 0 && rows[|rows| - 1] != [""]
    ensures Render(rows) != ""
    decreases |rows|
  {
    if |rows| == 1 {
      if RenderRow(rows[0]) == "" {
        EmptyRow(rows[0]);
      }
    }
  }

  lemma RenderSplit(rows: seq<seq<string>>)
    requires |rows| > 1
    ensures Render(rows) == RenderRow(rows[0]) + (CRLF + Render(rows[1..]))
  {
    hide RenderRow;
    assert RenderEach(rows)[1..] == RenderEach(rows[1..]);
  }

  lemma MoreRecordsBack(row: seq<string>, tail: string, rows: seq<seq<string>>)
    requires |row| > 0 && tail != "" && Parse(tail) == Some(rows)
    ensures Parse(RenderRow(row) + (CRLF + tail)) == Some([row] + rows)
  {
    hide RenderRow, ParseRecord;
    RecordBack(row, CRLF + tail);
    assert (CRLF + tail)[2..] == tail && (CRLF + tail)[..2] == CRLF;
  }

  lemma OneRecordBack(row: seq<string>)
    requires |row| > 0
    ensures Parse(RenderRow(row)) == Some([row])
  {
    hide RenderRow, ParseRecord;
    assert RenderRow(row) == RenderRow(row) + "";
    RecordBack(row, "");
  }

  /** Any table is read back exactly, whatever its fields contain: quotes,
    * commas, carriage returns and line feeds included. The last record must
    * not be a lone empty field, which a final line break would also denote. */
  lemma {:induction false} RoundTrip(rows: seq<seq<string>>)
    requires |rows| > 0 && (forall i :: 0 <= i < |rows| ==> |rows[i]| > 0)
    requires rows[|rows| - 1] != [""]
    ensures Parse(Render(rows)) == Some(rows)
    decreases |rows|
  {
    hide RenderRow, ParseRecord, Parse;
    if |rows| == 1 {
      OneRecordBack(rows[0]);
      assert rows == [rows[0]];
    } else {
      RenderNotEmpty(rows[1..]);
      RoundTrip(rows[1..]);
      RenderSplit(rows);
      MoreRecordsBack(rows[0], Render(rows[1..]), rows[1..]);
      assert rows == [rows[0]] + rows[1..];
    }
  }

  // ---------- the statement ----------

  datatype Line = Line(
    postedAt: string,
    transferId: string,
    referenceNumber: Option<string>,
    direction: string,
    counterpartyName: Option<string>,
    description: Option<string>,
    memo: Option<string>,
    amount: int,
    running: int,
    kind: string)

  datatype MonthlyStatement = MonthlyStatement(
    month: string, opening: int, closing: int, totalCredit: int, totalDebit: int, lines: seq<Line>)

  function Digits(n: nat): string {
    (if n < 10 then "" else Digits(n / 10)) + [(n % 10) as char + '0']
  }

  function Decimal(n: int): string {
    if n < 0 then "-" + Digits(-n) else Digits(n)
  }

  function Or(a: Option<string>, b: string): string {
    if a.Some? then a.value else b
  }

  function SummaryRows(st: MonthlyStatement, accountNumber: string): seq<seq<string>> {
    [["Account number", accountNumber],
     ["Period", st.month],
     ["Opening balance (paise)", Decimal(st.opening)],
     ["Closing balance (paise)", Decimal(st.closing)],
     ["Total credits (paise)", Decimal(st.totalCredit)],
     ["Total debits (paise)", Decimal(st.totalDebit)]]
  }

  const HEADER_ROW := ["Posted At", "Reference", "Direction", "Counterparty", "Description",
                      "Amount (paise)", "Running Balance (paise)", "Kind"]

  function LineRow(l: Line): seq<string> {
    [l.postedAt, Or(l.referenceNumber, l.transferId), l.direction, Or(l.counterpartyName, ""),
     Or(l.description, Or(l.memo, "")), Decimal(l.amount), Decimal(l.running), l.kind]
  }

  function LineRows(lines: seq<Line>): (r: seq<seq<string>>)
    ensures |r| == |lines|
    ensures forall i :: 0 <= i < |lines| ==> r[i] == LineRow(lines[i])
  {
    seq(|lines|, i requires 0 <= i < |lines| => LineRow(lines[i]))
  }

  /** The intended table: the summary, a blank line, the header, the lines. */
  function StatementRows(st: MonthlyStatement, accountNumber: string): seq<seq<string>> {
    SummaryRows(st, accountNumber) + [[""], HEADER_ROW] + LineRows(st.lines)
  }

  lemma RenderPair(a: string, b: string)
    ensures RenderRow([a, b]) == Quote(a) + "," + Quote(b)
    ensures RenderRow([""]) == ""
  {
    assert Quoted([a, b]) == [Quote(a), Quote(b)];
    assert Join([Quote(a), Quote(b)][1..], ",") == Quote(b);
    assert Quoted([""]) == [Quote("")];
  }

  lemma RenderMore(rows: seq<seq<string>>, row: seq<string>)
    ensures RenderEach(rows + [row]) == RenderEach(rows) + [RenderRow(row)]
  {
  }

  /** Pushes line by line and joins: the rendering of the intended table. */
  method StatementToCsv(st: MonthlyStatement, accountNumber: string) returns (csv: string)
    ensures csv == Render(StatementRows(st, accountNumber))
  {
    hide RenderRow, RenderEach, Quote, Decimal, LineRow;
    var lines: seq<string> := [];
    var summary := SummaryRows(st, accountNumber);
    ghost var rows: seq<seq<string>> := [];
    for i := 0 to |summary|
      invariant rows == summary[..i] && lines == RenderEach(rows)
    {
      RenderPair(summary[i][0], summary[i][1]);
      RenderMore(rows, summary[i]);
      assert summary[i] == [summary[i][0], summary[i][1]];
      lines := lines + [Quote(summary[i][0]) + "," + Quote(summary[i][1])];
      rows := rows + [summary[i]];
    }
    RenderPair("", "");
    RenderMore(rows, [""]);
    RenderMore(rows + [[""]], HEADER_ROW);
    lines := lines + [""];
    lines := lines + [RenderRow(HEADER_ROW)];
    rows := rows + [[""]] + [HEADER_ROW];
    ghost var head := rows;
    for i := 0 to |st.lines|
      invariant rows == head + LineRows(st.lines)[..i] && lines == RenderEach(rows)
    {
      RenderMore(rows, LineRow(st.lines[i]));
      lines := lines + [RenderRow(LineRow(st.lines[i]))];
      rows := rows + [LineRow(st.lines[i])];
    }
    assert rows == StatementRows(st, accountNumber);
    csv := Join(lines, CRLF);
  }

  /** Reading the export back yields exactly the intended rows and fields. */
  lemma StatementRoundTrip(st: MonthlyStatement, accountNumber: string)
    ensures Parse(Render(StatementRows(st, accountNumber))) == Some(StatementRows(st, accountNumber))
  {
    var rows := StatementRows(st, accountNumber);
    assert |rows[|rows| - 1]| == 8;
    RoundTrip(rows);
  }
}
