/**
 * The expenses feed: `parseExpensesCSV`, which maps each accepted line to an
 * expense record and, on the side, reads the sheet's summary cells from
 * column G of fixed lines.
 */
module Expenses {
  import opened Text
  import opened Numbers
  import opened Csv
  import opened Seqs
  import opened Feed

  /** A ledger movement as the mapper stores it. */
  datatype ExpenseRecord = ExpenseRecord(
    date: string, credit: real, debit: real, toFrom: string, client: string, balance: real)

  /** The summary cells of the sheet: total credit (G2 + G3) and balance (G5). */
  datatype SheetSummary = SheetSummary(totalCredit: real, balance: real)

  /** What the mapper returns: the records, with the summary attached. */
  datatype ExpenseSheet = ExpenseSheet(records: seq<ExpenseRecord>, summary: SheetSummary)

  /** An expenses line needs at least three fields: date, credit, debit. */
  const ExpenseFieldCount: nat := 3

  /** Column G, the one holding the summary cells, is field 6. */
  const SummaryColumn: nat := 6

  /** The summary before any line is read. */
  const NoSummary := SheetSummary(0.0, 0.0)

  /** The record of one accepted line: numbers that do not parse become 0, missing text fields ''. */
  function MakeExpense(values: seq<string>, readDate: DateReader): ExpenseRecord {
    ExpenseRecord(
      date := FormatDate(Field(values, 0), readDate),
      credit := NumberOrZero(Field(values, 1)),
      debit := NumberOrZero(Field(values, 2)),
      toFrom := Field(values, 3),
      client := Field(values, 4),
      balance := NumberOrZero(Field(values, 5)))
  }

  /** The record of a kept row, as a function value. */
  function ExpenseOf(readDate: DateReader): Row -> ExpenseRecord {
    (row: Row) => MakeExpense(row.fields, readDate)
  }

  /** The number in column G of a row wide enough to have one. */
  function ColumnG(fields: seq<string>): real
    requires |fields| > SummaryColumn
  {
    NumberOrZero(fields[SummaryColumn])
  }

  /**
   * The summary after one more accepted row: on a row with a column G, lines 1
   * and 2 add their G value to the total credit and line 4 sets the balance to
   * its G value; every other row leaves the summary alone.
   */
  function Absorb(s: SheetSummary, row: Row): SheetSummary {
    if |row.fields| > SummaryColumn then
      var g := ColumnG(row.fields);
      var s' := if row.index == 1 || row.index == 2 then s.(totalCredit := s.totalCredit + g) else s;
      if row.index == 4 then s'.(balance := g) else s'
    else s
  }

  /** The summary after the given rows, read in order. */
  function SummaryOf(rows: seq<Row>): SheetSummary {
    if rows == [] then NoSummary else Absorb(SummaryOf(rows[..|rows| - 1]), rows[|rows| - 1])
  }

  /** The result of `parseExpensesCSV` on the text of a feed. */
  function ParseExpenses(csv: string, readDate: DateReader): ExpenseSheet {
    var rows := AcceptedRows(Lines(csv), ExpenseFieldCount);
    ExpenseSheet(Map(rows, ExpenseOf(readDate)), SummaryOf(rows))
  }

  /** `parseExpensesCSV` as written: one loop builds the records and the summary together. */
  method ParseExpensesCsv(csv: string, readDate: DateReader) returns (data: seq<ExpenseRecord>, summary: SheetSummary)
    ensures ExpenseSheet(data, summary) == ParseExpenses(csv, readDate)
  {
    var lines := Split(Trim(csv), '\n');
    data := [];
    summary := NoSummary;
    var i := 1;
    while i < |lines|
      invariant 1 <= i <= |lines|
      invariant data == Map(Select(lines, i, Keep(ExpenseFieldCount), FieldsOf), ExpenseOf(readDate))
      invariant summary == SummaryOf(Select(lines, i, Keep(ExpenseFieldCount), FieldsOf))
    {
      MapSelectStep(lines, i, Keep(ExpenseFieldCount), FieldsOf, ExpenseOf(readDate));
      SummaryStep(lines, i, Keep(ExpenseFieldCount), FieldsOf);
      data, summary := ReadExpenseLine(lines[i], i, data, summary, readDate);
      i := i + 1;
    }
    assert lines == Lines(csv) && i == |lines|;
  }

  /**
   * One pass of the loop body: a blank line, a line with fewer than three
   * fields or one with an empty date is skipped; any other line adds its
   * record and, when it has a column G, feeds the summary as `Absorb` says.
   */
  method ReadExpenseLine(rawLine: string, i: nat, data: seq<ExpenseRecord>, summary: SheetSummary, readDate: DateReader)
    returns (data': seq<ExpenseRecord>, summary': SheetSummary)
    ensures data' == data + if Keep(ExpenseFieldCount)(rawLine) then [ExpenseOf(readDate)(Row(i, FieldsOf(rawLine)))] else []
    ensures summary' == if Keep(ExpenseFieldCount)(rawLine) then Absorb(summary, Row(i, FieldsOf(rawLine))) else summary
  {
    assert Keep(ExpenseFieldCount)(rawLine) == Accepted(rawLine, ExpenseFieldCount);
    data', summary' := data, summary;
    var line := Trim(rawLine);
    if line != [] {
      var values := ParseCsvLine(line);
      assert values == FieldsOf(rawLine);
      if |values| >= ExpenseFieldCount && values[0] != "" {
        assert Accepted(rawLine, ExpenseFieldCount) by {
          assert Field(values, 0) == values[0];
        }
        data' := data + [MakeExpense(values, readDate)];
        summary' := ReadColumnG(summary, i, values);
      } else {
        assert !Accepted(rawLine, ExpenseFieldCount) by {
          assert |values| > 0 ==> Field(values, 0) == values[0];
        }
      }
    }
  }

  /** The column G update of one accepted line, in place on the summary. */
  method ReadColumnG(summary: SheetSummary, i: nat, values: seq<string>) returns (summary': SheetSummary)
    ensures summary' == Absorb(summary, Row(i, values))
  {
    AbsorbCases(summary, i, values);
    summary' := summary;
    if |values| > SummaryColumn {
      var g := ColumnG(values);
      if i == 1 || i == 2 {
        summary' := summary'.(totalCredit := summary'.totalCredit + g);
      }
      if i == 4 {
        summary' := summary'.(balance := g);
      }
    }
  }

  /** `Absorb` spelled out field by field. */
  lemma AbsorbCases(s: SheetSummary, i: nat, fields: seq<string>)
    ensures |fields| <= SummaryColumn ==> Absorb(s, Row(i, fields)) == s
    ensures |fields| > SummaryColumn ==>
              Absorb(s, Row(i, fields))
                == SheetSummary(
                     if i == 1 || i == 2 then s.totalCredit + ColumnG(fields) else s.totalCredit,
                     if i == 4 then ColumnG(fields) else s.balance)
  {
  }

  /** Reading one more line absorbs it into the summary exactly when `keep` accepts it. */
  lemma SummaryStep(lines: seq<string>, i: nat, keep: string -> bool, view: string -> seq<string>)
    requires 1 <= i < |lines|
    ensures SummaryOf(Select(lines, i + 1, keep, view))
         == if keep(lines[i]) then Absorb(SummaryOf(Select(lines, i, keep, view)), Row(i, view(lines[i])))
            else SummaryOf(Select(lines, i, keep, view))
  {
    var prev := Select(lines, i, keep, view);
    if keep(lines[i]) {
      var rows := prev + [Row(i, view(lines[i]))];
      assert rows[..|rows| - 1] == prev;
    } else {
      assert Select(lines, i + 1, keep, view) == prev + [];
      assert prev + [] == prev;
    }
  }

  /** The column G value that line `i` among the first `n` lines contributes, 0 if it contributes none. */
  function Cell(lines: seq<string>, n: nat, i: nat, keep: string -> bool, view: string -> seq<string>): real
    requires n <= |lines|
  {
    if 1 <= i < n && keep(lines[i]) && |view(lines[i])| > SummaryColumn then ColumnG(view(lines[i])) else 0.0
  }

  /** After the first `n` lines, the summary is G of line 1 plus G of line 2, and G of line 4. */
  lemma {:induction false} SummaryCells(lines: seq<string>, n: nat, keep: string -> bool, view: string -> seq<string>)
    requires n <= |lines|
    ensures SummaryOf(Select(lines, n, keep, view))
         == SheetSummary(Cell(lines, n, 1, keep, view) + Cell(lines, n, 2, keep, view), Cell(lines, n, 4, keep, view))
  {
    if n > 1 {
      var m := n - 1;
      SummaryCells(lines, m, keep, view);
      SummaryStep(lines, m, keep, view);
      CellStep(lines, n, 1, keep, view);
      CellStep(lines, n, 2, keep, view);
      CellStep(lines, n, 4, keep, view);
      AbsorbCases(SummaryOf(Select(lines, m, keep, view)), m, view(lines[m]));
    }
  }

  /** Line `n - 1` is the only cell that reading it can change. */
  lemma CellStep(lines: seq<string>, n: nat, i: nat, keep: string -> bool, view: string -> seq<string>)
    requires 1 < n <= |lines|
    ensures Cell(lines, n, i, keep, view)
         == if i != n - 1 then Cell(lines, n - 1, i, keep, view)
            else if keep(lines[i]) && |view(lines[i])| > SummaryColumn then ColumnG(view(lines[i]))
            else 0.0
  {
  }

  /** The column G value of line `i` of a feed, 0 if that line is not read or has no column G. */
  function SheetCell(lines: seq<string>, i: nat): real {
    if 1 <= i < |lines| && Accepted(lines[i], ExpenseFieldCount) && |FieldsOf(lines[i])| > SummaryColumn
    then ColumnG(FieldsOf(lines[i]))
    else 0.0
  }

  /**
   * The summary is positional: total credit is G2 + G3 (lines 1 and 2) and
   * balance is G5 (line 4); no other line can change it.
   */
  lemma SummaryPositional(csv: string, readDate: DateReader)
    ensures var lines := Lines(csv);
            ParseExpenses(csv, readDate).summary
              == SheetSummary(SheetCell(lines, 1) + SheetCell(lines, 2), SheetCell(lines, 4))
  {
    var lines := Lines(csv);
    SummaryCells(lines, |lines|, Keep(ExpenseFieldCount), FieldsOf);
    assert forall line :: Keep(ExpenseFieldCount)(line) == Accepted(line, ExpenseFieldCount);
    assert forall i :: Cell(lines, |lines|, i, Keep(ExpenseFieldCount), FieldsOf) == SheetCell(lines, i);
  }

  /**
   * The records follow the accepted lines one for one and in line order; so
   * there is at most one record per line after the header.
   */
  lemma ParseExpensesLines(csv: string, readDate: DateReader)
    ensures var lines := Lines(csv);
            var rows := AcceptedRows(lines, ExpenseFieldCount);
            var data := ParseExpenses(csv, readDate).records;
            && |data| == |rows| <= |lines| - 1
            && forall k :: 0 <= k < |data| ==>
                 && 1 <= rows[k].index < |lines|
                 && Accepted(lines[rows[k].index], ExpenseFieldCount)
                 && data[k] == MakeExpense(FieldsOf(lines[rows[k].index]), readDate)
  {
    var rows := AcceptedRows(Lines(csv), ExpenseFieldCount);
    RowsExact(Lines(csv), ExpenseFieldCount);
    MapAt(rows, ExpenseOf(readDate));
  }

  /** A three-field row: no counterparty, no client, balance 0. */
  lemma ShortRowDefaults(values: seq<string>, readDate: DateReader)
    requires |values| == ExpenseFieldCount
    ensures var e := MakeExpense(values, readDate);
            e.toFrom == "" && e.client == "" && e.balance == 0.0
  {
    NotANumberExample();
  }
}
