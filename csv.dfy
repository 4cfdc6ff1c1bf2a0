/**
 * The line tokenizer `parseCSVLine`: one pass over the characters with a
 * buffer and an "inside quotes" flag. A double quote flips the flag and is
 * dropped; a comma outside quotes closes the buffer as a trimmed field; any
 * other character (a comma inside quotes included) joins the buffer. The last
 * buffer is always closed, so every line yields at least one field.
 */
module Csv {
  import opened Text

  /** The tokenizer's variables after part of a line: closed fields, the buffer, the quote flag. */
  datatype ScanState = ScanState(values: seq<string>, current: string, inQuotes: bool)

  /** One character read by the tokenizer. */
  function Step(st: ScanState, c: char): ScanState {
    if c == '"' then st.(inQuotes := !st.inQuotes)
    else if c == ',' && !st.inQuotes then ScanState(st.values + [Trim(st.current)], [], st.inQuotes)
    else st.(current := st.current + [c])
  }

  /** The tokenizer's variables once it has read all of `s`. */
  function Scan(s: string): ScanState
    decreases |s|
  {
    if s == [] then ScanState([], [], false) else Step(Scan(s[..|s| - 1]), s[|s| - 1])
  }

  /** The fields of a line: the closed fields and then the last buffer, trimmed. */
  function Tokenize(line: string): seq<string> {
    Scan(line).values + [Trim(Scan(line).current)]
  }

  /** The number of double quotes in `s`. */
  function Quotes(s: string): nat {
    multiset(s)['"']
  }

  /** The number of commas in `s` that an even number of double quotes precede. */
  function CommasOutsideQuotes(s: string): nat
    decreases |s|
  {
    if s == [] then 0
    else
      var init := s[..|s| - 1];
      CommasOutsideQuotes(init) + if s[|s| - 1] == ',' && Quotes(init) % 2 == 0 then 1 else 0
  }

  /** `parseCSVLine` as written: the loop over the characters of `line`. */
  method ParseCsvLine(line: string) returns (values: seq<string>)
    ensures values == Tokenize(line)
    ensures |values| == 1 + CommasOutsideQuotes(line)
    ensures forall k :: 0 <= k < |values| ==> '"' !in values[k] && IsTrimmed(values[k])
  {
    values := [];
    var current := "";
    var inQuotes := false;
    for i := 0 to |line|
      invariant ScanState(values, current, inQuotes) == Scan(line[..i])
    {
      var c := line[i];
      assert line[..i + 1][..i] == line[..i];
      if c == '"' {
        inQuotes := !inQuotes;
      } else if c == ',' && !inQuotes {
        values := values + [Trim(current)];
        current := "";
      } else {
        current := current + [c];
      }
    }
    assert line[..|line|] == line;
    values := values + [Trim(current)];
    FieldCount(line);
    FieldsClean(line);
  }

  /** The quote flag is up exactly when an odd number of double quotes has been read. */
  lemma {:induction false} ScanQuoteFlag(s: string)
    ensures Scan(s).inQuotes <==> Quotes(s) % 2 == 1
    decreases |s|
  {
    if s != [] {
      var init := s[..|s| - 1];
      var c := s[|s| - 1];
      ScanQuoteFlag(init);
      LastSplit(s);
      QuotesSnoc(init, c);
      ScanSnoc(init, c);
      StepQuoteFlag(Scan(init), c);
    }
  }

  lemma QuotesSnoc(s: string, c: char)
    ensures Quotes(s + [c]) == Quotes(s) + if c == '"' then 1 else 0
  {
    assert multiset(s + [c]) == multiset(s) + multiset{c};
  }

  lemma StepQuoteFlag(st: ScanState, c: char)
    ensures Step(st, c).inQuotes == if c == '"' then !st.inQuotes else st.inQuotes
  {
  }

  /** Each comma outside quotes closes exactly one field. */
  lemma {:induction false} ScanFieldCount(s: string)
    ensures |Scan(s).values| == CommasOutsideQuotes(s)
    decreases |s|
  {
    if s != [] {
      ScanFieldCount(s[..|s| - 1]);
      ScanQuoteFlag(s[..|s| - 1]);
    }
  }

  /** A line has one field more than it has commas outside quotes; in particular it has at least one. */
  lemma FieldCount(line: string)
    ensures |Tokenize(line)| == 1 + CommasOutsideQuotes(line)
  {
    ScanFieldCount(line);
  }

  /** Neither the closed fields nor the buffer ever hold a double quote, and closed fields are trimmed. */
  lemma {:induction false} ScanClean(s: string)
    ensures '"' !in Scan(s).current
    ensures forall k :: 0 <= k < |Scan(s).values| ==> '"' !in Scan(s).values[k] && IsTrimmed(Scan(s).values[k])
    decreases |s|
  {
    if s != [] {
      var st := Scan(s[..|s| - 1]);
      var c := s[|s| - 1];
      ScanClean(s[..|s| - 1]);
      assert Scan(s) == Step(st, c);
      if c == ',' && !st.inQuotes {
        CloseFieldClean(st.values, st.current);
      } else if c != '"' {
        assert '"' !in st.current + [c];
      }
    }
  }

  /** Closing a buffer with no double quote keeps every closed field clean. */
  lemma CloseFieldClean(values: seq<string>, current: string)
    requires '"' !in current
    requires forall k :: 0 <= k < |values| ==> '"' !in values[k] && IsTrimmed(values[k])
    ensures var t := values + [Trim(current)];
            forall k :: 0 <= k < |t| ==> '"' !in t[k] && IsTrimmed(t[k])
  {
    TrimChars(current);
    var t := values + [Trim(current)];
    forall k | 0 <= k < |t| ensures '"' !in t[k] && IsTrimmed(t[k]) {
      if k < |values| {
        assert t[k] == values[k];
      }
    }
  }

  /** No field holds a double quote, and every field is trimmed. */
  lemma FieldsClean(line: string)
    ensures forall k :: 0 <= k < |Tokenize(line)| ==> '"' !in Tokenize(line)[k] && IsTrimmed(Tokenize(line)[k])
  {
    var st := Scan(line);
    ScanClean(line);
    TrimChars(st.current);
    var last := Trim(st.current);
    assert '"' !in last && IsTrimmed(last);
    var t := st.values + [last];
    assert Tokenize(line) == t;
    assert t[|st.values|] == last;
    forall k | 0 <= k < |t| ensures '"' !in t[k] && IsTrimmed(t[k]) {
      if k < |st.values| {
        assert t[k] == st.values[k];
      } else {
        assert k == |st.values|;
      }
    }
  }

  /** An empty line yields one empty field. */
  lemma EmptyLine()
    ensures Tokenize("") == [""]
  {
  }

  /** Every piece trimmed. */
  function TrimEach(parts: seq<string>): (r: seq<string>)
    ensures |r| == |parts|
  {
    seq(|parts|, k requires 0 <= k < |parts| => Trim(parts[k]))
  }

  /** Without double quotes the tokenizer is `split(',')` followed by trimming each piece. */
  lemma UnquotedLineIsSplit(line: string)
    requires '"' !in line
    ensures Tokenize(line) == TrimEach(Split(line, ','))
  {
    var p := Split(line, ',');
    ScanUnquoted(line);
    var st := Scan(line);
    assert st.values == TrimEach(p[..|p| - 1]) && st.current == p[|p| - 1];
    TrimEachSnoc(p);
    assert Tokenize(line) == st.values + [Trim(st.current)];
  }

  lemma {:induction false} ScanUnquoted(s: string)
    requires '"' !in s
    ensures var p := Split(s, ',');
            Scan(s) == ScanState(TrimEach(p[..|p| - 1]), p[|p| - 1], false)
    decreases |s|
  {
    if s != [] {
      var init := s[..|s| - 1];
      var c := s[|s| - 1];
      NotInPrefix(s, '"');
      ScanUnquoted(init);
      ScanUnquotedStep(s);
    }
  }

  lemma ScanUnquotedStep(s: string)
    requires |s| > 0 && s[|s| - 1] != '"'
    requires var p := Split(s[..|s| - 1], ',');
             Scan(s[..|s| - 1]) == ScanState(TrimEach(p[..|p| - 1]), p[|p| - 1], false)
    ensures var q := Split(s, ',');
            Scan(s) == ScanState(TrimEach(q[..|q| - 1]), q[|q| - 1], false)
  {
    var c := s[|s| - 1];
    var p := Split(s[..|s| - 1], ',');
    var q := Split(s, ',');
    SplitSnoc(s, ',');
    assert q == SplitStep(p, c, ',');
    if c == ',' {
      assert q[..|q| - 1] == p;
      TrimEachSnoc(p);
    } else {
      assert q[..|q| - 1] == p[..|p| - 1];
    }
  }

  lemma TrimEachSnoc(p: seq<string>)
    requires |p| >= 1
    ensures TrimEach(p) == TrimEach(p[..|p| - 1]) + [Trim(p[|p| - 1])]
  {
    var init := p[..|p| - 1];
    var a := TrimEach(p);
    var b := TrimEach(init) + [Trim(p[|p| - 1])];
    forall k | 0 <= k < |p| ensures a[k] == b[k] {
      if k < |init| {
        assert init[k] == p[k];
        assert b[k] == TrimEach(init)[k];
      } else {
        assert k == |init| && b[k] == Trim(p[k]);
      }
    }
  }

  /** The tokenizer's variables before it reads anything. */
  const Initial := ScanState([], [], false)

  /** The tokenizer's variables after reading `s`, starting from `st`. */
  function ScanFrom(st: ScanState, s: string): ScanState
    decreases |s|
  {
    if s == [] then st else Step(ScanFrom(st, s[..|s| - 1]), s[|s| - 1])
  }

  /** `Scan` is the scan from the initial variables. */
  lemma {:induction false} ScanIsScanFrom(s: string)
    ensures Scan(s) == ScanFrom(Initial, s)
    decreases |s|
  {
    if s != [] {
      ScanIsScanFrom(s[..|s| - 1]);
    }
  }

  /** Reading `a + b` is reading `a`, then `b`. */
  lemma {:induction false} ScanFromAppend(st: ScanState, a: string, b: string)
    ensures ScanFrom(st, a + b) == ScanFrom(ScanFrom(st, a), b)
    decreases |b|
  {
    if b == [] {
      assert a + b == a;
    } else {
      SnocOfAppend(a, b);
      ScanFromAppend(st, a, b[..|b| - 1]);
    }
  }

  /** Reading one character from `st` is one `Step`. */
  lemma ScanFromOne(st: ScanState, c: char)
    ensures ScanFrom(st, [c]) == Step(st, c)
  {
    assert [c][..0] == [];
  }

  /** Fields closed before a scan stay in front of the fields the scan closes. */
  lemma {:induction false} ScanFromValues(values: seq<string>, current: string, inQuotes: bool, s: string)
    ensures var r := ScanFrom(ScanState([], current, inQuotes), s);
            ScanFrom(ScanState(values, current, inQuotes), s) == ScanState(values + r.values, r.current, r.inQuotes)
    decreases |s|
  {
    if s == [] {
      assert values + [] == values;
    } else {
      var init := s[..|s| - 1];
      var c := s[|s| - 1];
      ScanFromValues(values, current, inQuotes, init);
      var r := ScanFrom(ScanState([], current, inQuotes), init);
      ScanFromLast(ScanState([], current, inQuotes), s);
      ScanFromLast(ScanState(values, current, inQuotes), s);
      StepValues(values, r, c);
    }
  }

  /** One unfolding of `ScanFrom` at the last character. */
  lemma ScanFromLast(st: ScanState, s: string)
    requires s != []
    ensures ScanFrom(st, s) == Step(ScanFrom(st, s[..|s| - 1]), s[|s| - 1])
  {
  }

  /** A `Step` does not look at the fields already closed. */
  lemma StepValues(values: seq<string>, st: ScanState, c: char)
    ensures var t := Step(st, c);
            Step(ScanState(values + st.values, st.current, st.inQuotes), c) == ScanState(values + t.values, t.current, t.inQuotes)
  {
    if c == ',' && !st.inQuotes {
      AppendAssoc(values, st.values, [Trim(st.current)]);
    }
  }

  /** Text with no double quote, read inside quotes or holding no comma, only joins the buffer. */
  lemma {:induction false} ScanText(st: ScanState, s: string)
    requires '"' !in s
    requires st.inQuotes || ',' !in s
    ensures ScanFrom(st, s) == st.(current := st.current + s)
    decreases |s|
  {
    if s == [] {
      assert st.current + s == st.current;
    } else {
      NotInPrefix(s, '"');
      if !st.inQuotes {
        NotInPrefix(s, ',');
      }
      ScanText(st, s[..|s| - 1]);
      AppendLast(st.current, s);
    }
  }

  /** A line without double quotes or commas is one field: the trimmed line. */
  lemma PlainField(p: string)
    requires '"' !in p && ',' !in p
    ensures Tokenize(p) == [Trim(p)]
  {
    assert Scan(p) == ScanState([], p, false) by {
      ScanIsScanFrom(p);
      ScanText(Initial, p);
      assert [] + p == p;
    }
    assert [] + [Trim(p)] == [Trim(p)];
  }

  /**
   * Inside a pair of double quotes a comma is ordinary text: a field made of
   * unquoted text `p`, quoted text `x` and unquoted text `q` is one field, the
   * three joined without their quotes and trimmed.
   */
  lemma QuotedField(p: string, x: string, q: string)
    requires '"' !in p && ',' !in p
    requires '"' !in x
    requires '"' !in q && ',' !in q
    ensures Tokenize(p + ['"'] + x + ['"'] + q) == [Trim(p + x + q)]
  {
    var open := p + ['"'];
    var body := open + x;
    var close := body + ['"'];
    var s := close + q;
    var st1 := ScanState([], p, false);
    var st2 := ScanState([], p, true);
    var st3 := ScanState([], p + x, true);
    var st4 := ScanState([], p + x, false);
    assert ScanFrom(Initial, p) == st1 by {
      ScanText(Initial, p);
      assert [] + p == p;
    }
    assert ScanFrom(Initial, open) == st2 by {
      ScanFromAppend(Initial, p, ['"']);
      ScanFromOne(st1, '"');
    }
    assert ScanFrom(Initial, body) == st3 by {
      ScanFromAppend(Initial, open, x);
      ScanText(st2, x);
    }
    assert ScanFrom(Initial, close) == st4 by {
      ScanFromAppend(Initial, body, ['"']);
      ScanFromOne(st3, '"');
    }
    assert Scan(s) == ScanState([], p + x + q, false) by {
      ScanIsScanFrom(s);
      ScanFromAppend(Initial, close, q);
      ScanText(st4, q);
    }
  }

  /** A comma outside quotes separates the fields before it from those after it. */
  lemma TokenizeComma(a: string, b: string)
    requires Quotes(a) % 2 == 0
    ensures Tokenize(a + [','] + b) == Tokenize(a) + Tokenize(b)
  {
    var head := a + [','];
    var st := ScanState(Tokenize(a), [], false);
    assert ScanFrom(Initial, head) == st by {
      ScanQuoteFlag(a);
      ScanSnoc(a, ',');
      ScanIsScanFrom(head);
    }
    var r := Scan(b);
    assert Scan(head + b) == ScanState(Tokenize(a) + r.values, r.current, r.inQuotes) by {
      ScanIsScanFrom(head + b);
      ScanFromAppend(Initial, head, b);
      ScanFromValues(Tokenize(a), [], false, b);
      ScanIsScanFrom(b);
    }
    assert Tokenize(head + b) == (Tokenize(a) + r.values) + [Trim(r.current)];
    assert Tokenize(b) == r.values + [Trim(r.current)];
    AppendAssoc(Tokenize(a), r.values, [Trim(r.current)]);
  }

  /** A comma after an unquoted first field: that field, trimmed, then the fields of the rest. */
  lemma CommaAfterPlain(p: string, rest: string)
    requires '"' !in p && ',' !in p
    ensures Tokenize(p + [','] + rest) == [Trim(p)] + Tokenize(rest)
  {
    assert Quotes(p) == 0 by {
      assert '"' !in multiset(p);
    }
    TokenizeComma(p, rest);
    PlainField(p);
  }

  /** A comma after a quoted first field: the quoted text, trimmed, then the fields of the rest. */
  lemma CommaAfterQuoted(x: string, rest: string)
    requires '"' !in x
    ensures Tokenize(['"'] + x + ['"'] + [','] + rest) == [Trim(x)] + Tokenize(rest)
  {
    var f := ['"'] + x + ['"'];
    assert Quotes(f) == 2 by {
      assert multiset(f) == multiset{'"'} + multiset(x) + multiset{'"'};
      assert '"' !in multiset(x);
    }
    TokenizeComma(f, rest);
    QuotedField([], x, []);
    NothingAround(x, '"');
  }

  lemma NothingAround<T>(x: seq<T>, q: T)
    ensures [] + [q] + x + [q] + [] == [q] + x + [q]
    ensures [] + x + [] == x
  {
  }

  /** A quoted field between two unquoted ones: `p,"x",q` gives `p`, `x` and `q`, each trimmed, whatever commas `x` holds. */
  lemma QuotedMiddleField(p: string, x: string, q: string)
    requires '"' !in p && ',' !in p
    requires '"' !in x
    requires '"' !in q && ',' !in q
    ensures Tokenize(p + [','] + (['"'] + x + ['"'] + [','] + q)) == [Trim(p), Trim(x), Trim(q)]
  {
    var tail := ['"'] + x + ['"'] + [','] + q;
    CommaAfterPlain(p, tail);
    CommaAfterQuoted(x, q);
    PlainField(q);
    Three(Trim(p), Trim(x), Trim(q));
  }

  /**
   * A line shaped like `a,"b,c",d` gives the three fields `a`, `b,c` and `d`:
   * the comma between the quotes stays inside the middle field.
   */
  lemma QuotedCommaExample(a: char, b: char, c: char, d: char)
    requires a !in {'"', ','} && d !in {'"', ','} && b != '"' && c != '"'
    requires !IsSpace(a) && !IsSpace(b) && !IsSpace(c) && !IsSpace(d)
    ensures Tokenize([a, ',', '"', b, ',', c, '"', ',', d]) == [[a], [b, ',', c], [d]]
  {
    var x := [b, ',', c];
    ExampleShape(a, b, c, d, ',', '"');
    assert Tokenize([a, ',', '"', b, ',', c, '"', ',', d]) == [Trim([a]), Trim(x), Trim([d])] by {
      QuotedMiddleField([a], x, [d]);
    }
    assert Trim([a]) == [a] by { TrimTrimmed([a]); }
    assert Trim(x) == x by { TrimTrimmed(x); }
    assert Trim([d]) == [d] by { TrimTrimmed([d]); }
  }

  /** The example line as a quoted middle field between two one-character fields. */
  lemma ExampleShape<T>(a: T, b: T, c: T, d: T, comma: T, quote: T)
    ensures [a, comma, quote, b, comma, c, quote, comma, d]
            == [a] + [comma] + ([quote] + [b, comma, c] + [quote] + [comma] + [d])
  {
  }

  lemma Three<T>(p: T, q: T, r: T)
    ensures [p] + ([q] + [r]) == [p, q, r]
  {
  }

  /** Reading one more character is one more `Step`. */
  lemma ScanSnoc(s: string, c: char)
    ensures Scan(s + [c]) == Step(Scan(s), c)
  {
    assert (s + [c])[..|s|] == s;
  }
}
