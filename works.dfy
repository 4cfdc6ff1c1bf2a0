/**
 * The works feed: `parseWorksCSV`, which maps each accepted line of the feed
 * to a work record, and the paid/pending classification of a record's note.
 */
module Works {
  import opened Options
  import opened Text
  import opened Numbers
  import opened Csv
  import opened Feed
  import opened Seqs

  /** A row of billable work as the mapper stores it; `note` is the raw note text. */
  datatype WorkRecord = WorkRecord(date: string, client: string, work: string, price: real, note: string)

  /** A works line needs at least five fields: date, client, work, price, note. */
  const WorkFieldCount: nat := 5

  /** The note a record gets when its note field is empty. */
  const DefaultNote: string := "Pending"

  /** The record of one accepted line: display date, client, work, price (0 if not a number) and note ('Pending' if empty). */
  function MakeWork(values: seq<string>, readDate: DateReader): (w: WorkRecord)
    ensures w.note != ""
  {
    WorkRecord(
      date := FormatDate(Field(values, 0), readDate),
      client := Field(values, 1),
      work := Field(values, 2),
      price := NumberOrZero(Field(values, 3)),
      note := if Field(values, 4) == "" then DefaultNote else Field(values, 4))
  }

  /** The record of a kept row, as a function value. */
  function WorkOf(readDate: DateReader): Row -> WorkRecord {
    (row: Row) => MakeWork(row.fields, readDate)
  }

  /** The result of `parseWorksCSV` on the text of a feed. */
  function ParseWorks(csv: string, readDate: DateReader): seq<WorkRecord> {
    Map(AcceptedRows(Lines(csv), WorkFieldCount), WorkOf(readDate))
  }

  /** `parseWorksCSV` as written: the loop over the lines after the header. */
  method ParseWorksCsv(csv: string, readDate: DateReader) returns (data: seq<WorkRecord>)
    ensures data == ParseWorks(csv, readDate)
  {
    var lines := Split(Trim(csv), '\n');
    data := [];
    var i := 1;
    while i < |lines|
      invariant 1 <= i <= |lines|
      invariant data == Map(Select(lines, i, Keep(WorkFieldCount), FieldsOf), WorkOf(readDate))
    {
      MapSelectStep(lines, i, Keep(WorkFieldCount), FieldsOf, WorkOf(readDate));
      data := ReadWorkLine(lines[i], i, data, readDate);
      i := i + 1;
    }
    assert lines == Lines(csv) && i == |lines|;
  }

  /**
   * One pass of the loop body: a blank line, a line with fewer than five
   * fields or one with an empty date is skipped; any other line adds its record.
   */
  method ReadWorkLine(rawLine: string, ghost i: nat, data: seq<WorkRecord>, readDate: DateReader)
    returns (data': seq<WorkRecord>)
    ensures data' == data + if Keep(WorkFieldCount)(rawLine) then [WorkOf(readDate)(Row(i, FieldsOf(rawLine)))] else []
  {
    assert Keep(WorkFieldCount)(rawLine) == Accepted(rawLine, WorkFieldCount);
    data' := data;
    var line := Trim(rawLine);
    if line != [] {
      var values := ParseCsvLine(line);
      if |values| >= WorkFieldCount && values[0] != "" {
        data' := data + [MakeWork(values, readDate)];
      }
    }
  }

  /**
   * The records follow the accepted lines one for one and in line order; so
   * there is at most one record per line after the header.
   */
  lemma ParseWorksLines(csv: string, readDate: DateReader)
    ensures var lines := Lines(csv);
            var rows := AcceptedRows(lines, WorkFieldCount);
            var data := ParseWorks(csv, readDate);
            && |data| == |rows| <= |lines| - 1
            && forall k :: 0 <= k < |data| ==>
                 && 1 <= rows[k].index < |lines|
                 && Accepted(lines[rows[k].index], WorkFieldCount)
                 && data[k] == MakeWork(FieldsOf(lines[rows[k].index]), readDate)
  {
    var rows := AcceptedRows(Lines(csv), WorkFieldCount);
    RowsExact(Lines(csv), WorkFieldCount);
    MapAt(rows, WorkOf(readDate));
  }

  /**
   * Field defaults of a works row: client and work are copied, an empty note
   * becomes 'Pending', a price that does not parse (or parses to 0) becomes 0.
   */
  lemma WorkDefaults(values: seq<string>, readDate: DateReader)
    requires |values| >= WorkFieldCount
    ensures var w := MakeWork(values, readDate);
            && w.client == values[1] && w.work == values[2]
            && (values[4] == "" ==> w.note == DefaultNote)
            && (values[4] != "" ==> w.note == values[4])
            && (ParseFloat(values[3]).None? ==> w.price == 0.0)
            && (ParseFloat(values[3]).Some? ==> w.price == ParseFloat(values[3]).value)
            && (readDate(values[0]).None? ==> w.date == values[0])
  {
  }

  /** The display status of a work. */
  datatype Status = Paid | Pending

  /** A note reads as paid when, lower-cased and trimmed, it is "paid" or starts with "paid ". */
  predicate IsPaidNote(note: string) {
    var n := Trim(ToLower(note));
    n == "paid" || StartsWith(n, "paid ")
  }

  function StatusOf(note: string): Status {
    if IsPaidNote(note) then Paid else Pending
  }

  /**
   * Any spelling of "paid" followed by a space and a remark is Paid, whatever
   * the remark (an empty or blank one included).
   */
  lemma {:induction false} PaidWithRemark(word: string, remark: string)
    requires ToLower(word) == "paid"
    ensures StatusOf(word + " " + remark) == Paid
  {
    var note := word + " " + remark;
    var l := ToLower(note);
    forall i | 0 <= i < 5 ensures l[i] == "paid "[i] {
      if i < 4 {
        assert note[i] == word[i] && ToLower(word)[i] == LowerChar(word[i]);
      }
    }
    PaidPrefix(l);
  }

  /** Text starting with lower-case "paid " trims to "paid" or to text starting with "paid ". */
  lemma PaidPrefix(x: string)
    requires |x| >= 5 && forall i :: 0 <= i < 5 ==> x[i] == "paid "[i]
    ensures var n := Trim(x);
            n == "paid" || StartsWith(n, "paid ")
  {
    assert !IsSpace(x[0]) && !IsSpace(x[3]);
    assert TrimStart(x) == x;
    var n := TrimEnd(x);
    assert |n| >= 4;
    if |n| == 4 {
      assert n == x[..4];
    } else {
      assert n[..5] == x[..5];
    }
  }

  /**
   * "paid" glued to anything but a space (a tab, a letter, punctuation) is not
   * a paid note: only a space counts as the separator.
   */
  lemma PaidGluedIsPending(note: string)
    requires var n := Trim(ToLower(note)); |n| > 4 && n[..4] == "paid" && n[4] != ' '
    ensures StatusOf(note) == Pending
  {
    var n := Trim(ToLower(note));
    assert n[..5][4] == n[4];
  }

  /** A note with no upper-case ASCII letter and no white space at its ends is its own lower-cased, trimmed form. */
  lemma PlainNote(s: string)
    requires forall i :: 0 <= i < |s| ==> !('A' <= s[i] <= 'Z')
    requires IsTrimmed(s)
    ensures Trim(ToLower(s)) == s
  {
    var l := ToLower(s);
    assert l == s by {
      forall i | 0 <= i < |s| ensures l[i] == s[i] { }
    }
    TrimTrimmed(s);
  }

  /** The word "Pending" itself classifies as Pending. */
  lemma PendingWordIsPending(note: string)
    requires note == DefaultNote
    ensures StatusOf(note) == Pending
  {
    var l := ToLower(note);
    assert |l| == 7 && l[1] == 'e' && !IsSpace(l[0]) && !IsSpace(l[6]);
    TrimTrimmed(l);
  }

  /** The note the mapper fills in for an empty note field classifies as Pending. */
  lemma EmptyNoteIsPending(values: seq<string>, readDate: DateReader)
    requires |values| >= WorkFieldCount && values[4] == ""
    ensures StatusOf(MakeWork(values, readDate).note) == Pending
  {
    PendingWordIsPending(MakeWork(values, readDate).note);
  }

  /** A note in capitals, "PAID" and then a space and any remark, is Paid. */
  lemma PaidCapitalsExample(remark: string)
    ensures StatusOf("PAID " + remark) == Paid
  {
    var l := ToLower("PAID " + remark);
    forall i | 0 <= i < 5 ensures l[i] == "paid "[i] { }
    PaidPrefix(l);
  }

  /** "unpaid" is Pending: the word must come first. */
  lemma UnpaidExample(note: string)
    requires note == "unpaid"
    ensures StatusOf(note) == Pending
  {
    PlainNote(note);
    assert note[0] != "paid "[0];
  }
}
