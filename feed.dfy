/**
 * What the two mappers share: splitting a feed into lines, the per-line row
 * filter, missing-field defaults and the date display.
 */
module Feed {
  import opened Options
  import opened Text
  import opened Csv
  import opened Seqs

  /** The lines of a feed, `csv.trim().split('\n')`; line 0 is the header. */
  function Lines(csv: string): (lines: seq<string>)
    ensures |lines| >= 1
  {
    Split(Trim(csv), '\n')
  }

  /** `values[i] || ''`: a field past the end of the row reads as the empty string. */
  function Field(values: seq<string>, i: nat): (f: string)
    ensures i < |values| ==> f == values[i]
    ensures i >= |values| ==> f == ""
  {
    if i < |values| then values[i] else ""
  }

  /** The fields of a line: the line is trimmed, then tokenized. */
  function FieldsOf(line: string): seq<string> {
    Tokenize(Trim(line))
  }

  /**
   * The row filter of both mappers: the trimmed line is not blank, it has at
   * least `minFields` fields and its first field is not empty.
   */
  predicate Accepted(line: string, minFields: nat) {
    Trim(line) != [] && |FieldsOf(line)| >= minFields && Field(FieldsOf(line), 0) != ""
  }

  /** The row filter of a mapper that needs `minFields` fields, as a function value. */
  function Keep(minFields: nat): string -> bool {
    line => Accepted(line, minFields)
  }

  /** A kept line: its index among the lines and its fields. */
  datatype Row = Row(index: nat, fields: seq<string>)

  /** The lines among 1 .. n - 1 that `keep` accepts, in order, each with its index and `view` of it. */
  function Select(lines: seq<string>, n: nat, keep: string -> bool, view: string -> seq<string>): seq<Row>
    requires n <= |lines|
  {
    if n <= 1 then []
    else
      Select(lines, n - 1, keep, view)
        + if keep(lines[n - 1]) then [Row(n - 1, view(lines[n - 1]))] else []
  }

  /** The rows a mapper reads: every accepted line after the header, with its fields. */
  function AcceptedRows(lines: seq<string>, minFields: nat): seq<Row> {
    Select(lines, |lines|, Keep(minFields), FieldsOf)
  }

  /** Reading one more line adds that line's image exactly when `keep` accepts it. */
  lemma MapSelectStep<B>(lines: seq<string>, i: nat, keep: string -> bool, view: string -> seq<string>, f: Row -> B)
    requires 1 <= i < |lines|
    ensures Map(Select(lines, i + 1, keep, view), f)
         == Map(Select(lines, i, keep, view), f) + if keep(lines[i]) then [f(Row(i, view(lines[i])))] else []
  {
    var prev := Select(lines, i, keep, view);
    if keep(lines[i]) {
      MapSnoc(prev, Row(i, view(lines[i])), f);
    } else {
      assert Select(lines, i + 1, keep, view) == prev + [];
      assert prev + [] == prev;
    }
  }

  /** Every row of `Select` is a kept line among 1 .. n - 1, with its view. */
  lemma {:induction false} SelectSound(lines: seq<string>, n: nat, keep: string -> bool, view: string -> seq<string>)
    requires n <= |lines|
    ensures var rows := Select(lines, n, keep, view);
            forall k :: 0 <= k < |rows| ==>
              && 1 <= rows[k].index < n
              && keep(lines[rows[k].index])
              && rows[k].fields == view(lines[rows[k].index])
    ensures |Select(lines, n, keep, view)| < n || n == 0
  {
    if n > 1 {
      SelectSound(lines, n - 1, keep, view);
      var prev := Select(lines, n - 1, keep, view);
      var rows := Select(lines, n, keep, view);
      assert forall k :: 0 <= k < |prev| ==> rows[k] == prev[k];
    }
  }

  /** `Select` keeps line order: row indices strictly increase. */
  lemma {:induction false} SelectOrdered(lines: seq<string>, n: nat, keep: string -> bool, view: string -> seq<string>)
    requires n <= |lines|
    ensures var rows := Select(lines, n, keep, view);
            forall k, l :: 0 <= k < l < |rows| ==> rows[k].index < rows[l].index
  {
    if n > 1 {
      SelectOrdered(lines, n - 1, keep, view);
      SelectSound(lines, n - 1, keep, view);
      var prev := Select(lines, n - 1, keep, view);
      var rows := Select(lines, n, keep, view);
      assert forall k :: 0 <= k < |prev| ==> rows[k] == prev[k];
      assert forall k :: 0 <= k < |prev| ==> prev[k].index < n - 1;
    }
  }

  /** Some row of `rows` stands for line `i`. */
  ghost predicate HasRowFor(rows: seq<Row>, i: nat) {
    exists k :: 0 <= k < |rows| && rows[k].index == i
  }

  /** `Select` misses no kept line. */
  lemma {:induction false} SelectComplete(lines: seq<string>, n: nat, keep: string -> bool, view: string -> seq<string>)
    requires n <= |lines|
    ensures forall i :: 1 <= i < n && keep(lines[i]) ==> HasRowFor(Select(lines, n, keep, view), i)
  {
    if n > 1 {
      SelectComplete(lines, n - 1, keep, view);
      var prev := Select(lines, n - 1, keep, view);
      var rows := Select(lines, n, keep, view);
      forall i | 1 <= i < n && keep(lines[i])
        ensures HasRowFor(rows, i)
      {
        if i < n - 1 {
          var k :| 0 <= k < |prev| && prev[k].index == i;
          assert rows[k] == prev[k];
        } else {
          assert rows == prev + [Row(n - 1, view(lines[n - 1]))];
          assert rows[|rows| - 1].index == i;
        }
      }
    }
  }

  /**
   * The rows of a feed are exactly its accepted lines after the header, in line
   * order, each with the fields of its trimmed text.
   */
  lemma RowsExact(lines: seq<string>, minFields: nat)
    ensures var rows := AcceptedRows(lines, minFields);
            && (|lines| >= 1 ==> |rows| < |lines|)
            && (forall k :: 0 <= k < |rows| ==>
                  && 1 <= rows[k].index < |lines|
                  && Accepted(lines[rows[k].index], minFields)
                  && rows[k].fields == FieldsOf(lines[rows[k].index]))
            && (forall k, l :: 0 <= k < l < |rows| ==> rows[k].index < rows[l].index)
            && (forall i :: 1 <= i < |lines| && Accepted(lines[i], minFields) ==> HasRowFor(rows, i))
  {
    assert forall line :: Keep(minFields)(line) == Accepted(line, minFields);
    SelectSound(lines, |lines|, Keep(minFields), FieldsOf);
    SelectOrdered(lines, |lines|, Keep(minFields), FieldsOf);
    SelectComplete(lines, |lines|, Keep(minFields), FieldsOf);
  }

  /** A row of a mapper has at least `minFields` fields and a non-empty first field. */
  lemma AcceptedRowShape(lines: seq<string>, minFields: nat, k: nat)
    requires k < |AcceptedRows(lines, minFields)|
    ensures var row := AcceptedRows(lines, minFields)[k];
            |row.fields| >= minFields && Field(row.fields, 0) != ""
  {
    assert forall line :: Keep(minFields)(line) == Accepted(line, minFields);
    SelectSound(lines, |lines|, Keep(minFields), FieldsOf);
  }

  /** The platform's date reader: `Some(display)` for a readable date, `None` for an invalid one. */
  type DateReader = string -> Option<string>

  /**
   * `formatDate`: the empty string stays empty; a string the platform cannot
   * read as a date comes back unchanged; otherwise the platform's display form.
   */
  function FormatDate(s: string, readDate: DateReader): (r: string)
    ensures s == "" ==> r == ""
    ensures s != "" && readDate(s).None? ==> r == s
    ensures s != "" && readDate(s).Some? ==> r == readDate(s).value
  {
    if s == "" then "" else readDate(s).GetOr(s)
  }
}
