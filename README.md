# Work and expense dashboard — verified model

The dashboard shows two feeds published as CSV: a works sheet (date, client,
work, price, note) and an expenses ledger (date, credit, debit, to/from,
client, balance, and summary cells in column G). It parses both feeds into
records and classifies each work as Paid or Pending from its note. It then
computes the header figures: total revenue, total credit, current balance and
client count. It also draws a bar chart of the five clients with the highest
revenue, and it filters either table by a case-insensitive search term.

The model covers that pipeline:

- `Text`: the string built-ins the code relies on. These are `trim` (with the
  ECMAScript white-space set), `toLowerCase`, `startsWith`, `includes`, and
  `split` on one character. `Text.Join` is not a built-in the code calls. It
  is defined only as the inverse of `split`, so that the split round-trip can
  be stated.
- `Numbers`: `parseFloat(x) || 0`.
- `Csv`: the quote-aware line tokenizer, `parseCSVLine`. It is a method with
  the source's loop, proved against a scanning function.
- `Feed`: what both mappers share, as generic functions. This covers line
  splitting, the row filter, the `values[i] || ''` defaults and `formatDate`.
- `Works`: `parseWorksCSV` as a method with the source's loop, proved equal to
  a specification function. It also has the Paid/Pending classification.
- `Expenses`: `parseExpensesCSV`, including the positional summary it
  attaches to its result. Total credit is G2 + G3; balance is G5.
- `Summary`: total revenue and the distinct client list.
- `ClientChart`: the per-client revenue loop, with its map and its "reset on a
  falsy value" branch. Also the stable descending sort, the top five, and the
  chart's two empty-state guards.
- `Search`: the two search filters.
- `Dashboard`: the page state (`worksData`, `expensesData` and the summary
  values) as a class. Its methods are the fetch handlers and the summary
  refresh.

Numbers are exact reals. The model follows what the code does; these points
of its behaviour are easy to miss:

- Column G (index 6) is read from rows with more than 6 fields
  (`values.length > 6`), as the comments at script.js:115-118 describe.
- The summary rows are chosen by their index among the raw lines of the feed:
  lines 1 and 2 give total credit and line 4 gives the balance, with line 0
  as the header. Blank lines count toward that index. A row that the filter
  rejects contributes nothing, even when it has a column G.
- The works search also matches the note text.
- Prices, credits and debits can be negative, because `parseFloat` accepts a
  minus sign.
- The client list keeps first-seen order (`[...new Set(...)]`), and the chart
  relies on that order to break ties.

## Model

| member | source | states |
|---|---|---|
| Csv.Step | script.js:148-155 | One character read by the tokenizer: a double quote flips the quote flag and is dropped; a comma outside quotes closes the trimmed buffer as a field; any other character joins the buffer. |
| Csv.Scan | script.js:141-156 | The tokenizer's closed fields, buffer and quote flag after reading a whole line from the empty state. |
| Csv.Tokenize | script.js:140-160 | The fields of a line: the closed fields, then the last buffer, trimmed. |
| Csv.ScanFrom | script.js:145-156 | The tokenizer's variables after reading some text from any state. |
| Csv.ParseCsvLine | script.js:140-160 | The loop equals the scanning function `Tokenize`. The line has one field per comma outside quotes, plus one. No field contains a double quote, and every field is trimmed. |
| Csv.ScanQuoteFlag | script.js:148-149 | The in-quotes flag is up exactly when an odd number of double quotes has been read. |
| Csv.ScanFieldCount | script.js:150-152 | Each comma outside quotes closes exactly one field. |
| Csv.FieldCount | script.js:158-159 | The result has one field more than the line has commas outside quotes, so it has at least one field. |
| Csv.ScanClean | script.js:148-155 | The buffer never holds a double quote, and closed fields are quote-free and trimmed. |
| Csv.FieldsClean | script.js:151-158 | Every field of a line is quote-free and trimmed. |
| Csv.EmptyLine | script.js:158-159 | An empty line gives exactly one empty field. |
| Csv.UnquotedLineIsSplit | script.js:145-159 | Without double quotes, the tokenizer is `split(',')` followed by trimming each piece. |
| Csv.QuotedField | script.js:148-155 | A field made of unquoted text, then quoted text, then unquoted text is one field. It is the three parts without their quotes, joined and trimmed, whatever commas the quoted part holds. |
| Csv.PlainField | script.js:145-159 | A line with no double quote and no comma is one field: the trimmed line. |
| Csv.ScanIsScanFrom | script.js:141-156 | Reading a line is reading it from the empty state. |
| Csv.ScanFromAppend | script.js:145-156 | Reading `a + b` is reading `a`, then reading `b` from where `a` left off. |
| Csv.ScanFromValues | script.js:150-152 | Fields closed before a stretch of text stay, unchanged, in front of the fields that text closes. |
| Csv.ScanText | script.js:153-155 | Text with no double quote, read inside quotes or holding no comma, only joins the buffer. |
| Csv.TokenizeComma | script.js:150-152 | A comma outside quotes splits the line: the fields of `a , b` are the fields of `a` followed by those of `b`. |
| Csv.QuotedMiddleField | script.js:148-158 | `p,"x",q` with unquoted `p` and `q` gives exactly three fields: `p`, `x` and `q`, trimmed, whatever commas `x` holds. |
| Csv.QuotedCommaExample | script.js:140-160 | Any line shaped like `a,"b,c",d` gives the three fields `a`, `b,c` and `d`. |
| Text.Trim | script.js:64-69 | `trim` gives a string with no white space at either end, never longer than its input. |
| Text.TrimSlice | script.js:64-69 | `trim` keeps one contiguous slice of its input and removes only white space around it. |
| Text.TrimTrimmed | script.js:64-69 | `trim` leaves an already trimmed string unchanged. |
| Text.TrimChars | script.js:151-158 | `trim` introduces no character that was not in its input. |
| Text.TrimAllSpace | script.js:69-70 | A line that is all white space trims to the empty string, so the blank-line check skips it. |
| Text.TrimToLower | script.js:212 | Lower-casing then trimming is the same as trimming then lower-casing. |
| Text.ToLowerAppend | script.js:339 | Lower-casing distributes over concatenation. |
| Text.ToLower | script.js:212 | `toLowerCase`: a string of the same length, each character folded to lower case. |
| Text.StartsWith | script.js:213 | `startsWith`: the string begins with the prefix. |
| Text.Contains | script.js:341-344 | `includes`: the term occurs in the text; `Text.ContainsIff` states it as an index. |
| Text.ContainsIff | script.js:341-344 | `includes` holds exactly when the term occurs at some index of the text. |
| Text.ContainsEmpty | script.js:341-344 | Every text includes the empty term. |
| Text.ContainsPrefix | script.js:341-344 | A text that includes `t + u` includes `t`. |
| Text.Split | script.js:64 | `split` on one character gives at least one piece. |
| Text.SplitPiecesFree | script.js:64 | No piece of a split contains the separator. |
| Text.SplitExtendLast | script.js:64 | Appending text without the separator to a string whose pieces are `init` then `last` leaves `init` alone and extends only `last`. |
| Text.JoinSplit | script.js:64 | Joining the pieces of a split with the separator gives back the original string. |
| Text.SplitJoin | script.js:64 | Splitting pieces joined by a separator that none of them contains gives back the pieces. |
| Numbers.ParseFloat | script.js:78 | `parseFloat`: leading white space is skipped, then an optional sign, then digits with an optional fraction. At least one digit is needed, and whatever follows the number is ignored. |
| Numbers.NumberOrZero | script.js:78 | `parseFloat(x)` falling back to 0: a number that does not parse becomes 0. |
| Numbers.NoDigitIsZero | script.js:78 | A field with no digit does not parse, so it becomes 0. |
| Numbers.LeadingDigitsParse | script.js:78 | Digits followed by anything that cannot continue a number parse to the value of the digits. |
| Numbers.DigitsParse | script.js:78 | A run of digits parses to its decimal value. |
| Numbers.NegativeDigitsParse | script.js:78 | A minus sign negates the value, so a price can be negative. |
| Numbers.ThousandsSeparatorStops | script.js:78 | A comma ends the number, so `1,500` parses to 1: digits followed by a comma and anything parse to the value of the digits. |
| Numbers.PriceExample | script.js:78 | `1500` becomes 1500. |
| Numbers.NotANumberExample | script.js:103-104 | `abc` and the empty field both become 0. |
| Feed.Lines | script.js:64 | The feed is trimmed and split on newlines, giving at least one line. |
| Feed.FieldsOf | script.js:69-72 | The fields of a body line: `parseCSVLine` applied to the trimmed line. |
| Feed.Field | script.js:76-79 | A field past the end of the row reads as the empty string; an existing field is returned as is. |
| Feed.Accepted | script.js:69-73 | The row filter: the trimmed line is not blank, it has at least the required number of fields, and its first field is not empty. |
| Feed.Select | script.js:68-73 | The accepted lines among the first `n`, after the header, each with its index and fields, in line order. |
| Feed.AcceptedRows | script.js:64-73 | The rows a mapper reads from all the lines of a feed. |
| Feed.RowsExact | script.js:68-73 | The rows read are exactly the accepted lines after the header, in line order, each with the fields of its trimmed text. No accepted line is missed. |
| Feed.SelectSound | script.js:68-73 | Every row selected is an accepted line after the header, carrying that line's fields. |
| Feed.SelectOrdered | script.js:68 | Rows keep line order. |
| Feed.SelectComplete | script.js:69-73 | No accepted line is skipped. |
| Feed.AcceptedRowShape | script.js:73 | A row read has at least the required number of fields and a non-empty first field. |
| Feed.MapSelectStep | script.js:68-82 | One more line adds one record exactly when the line is accepted. |
| Feed.FormatDate | script.js:163-177 | An empty date gives the empty string. A date the platform cannot read comes back unchanged. Otherwise the result is the platform's display form. |
| Works.ParseWorks | script.js:63-85 | The works of a feed: one record per accepted row, in order. |
| Works.MakeWork | script.js:74-80 | A record's note is never empty. |
| Works.ParseWorksCsv | script.js:63-85 | The loop gives exactly `ParseWorks`: one record per accepted line, in order. |
| Works.ReadWorkLine | script.js:69-81 | A blank line, a line with fewer than 5 fields, or one with an empty date adds nothing. Any other line adds its record. |
| Works.ParseWorksLines | script.js:63-85 | Records correspond one for one, in order, to the accepted lines after the header. There are at most as many records as body lines. |
| Works.WorkDefaults | script.js:75-79 | Client and work are copied. An empty note becomes `Pending`. A price that does not parse becomes 0. An unreadable date is kept as written. |
| Works.IsPaidNote | script.js:212-213 | A note is paid when, lower-cased and trimmed, it is `paid` or starts with `paid `. |
| Works.StatusOf | script.js:212-214 | The status shown: Paid for a paid note, otherwise Pending. |
| Works.PaidWithRemark | script.js:212-214 | Any casing of `paid`, followed by a space and any remark, is Paid. |
| Works.PaidGluedIsPending | script.js:212-214 | `paid` followed by anything but a space (a tab, a letter) is Pending. |
| Works.PlainNote | script.js:212 | A note with no upper-case letter and no white space at either end is its own lower-cased, trimmed form. |
| Works.PendingWordIsPending | script.js:212-214 | The default note `Pending` classifies as Pending. |
| Works.EmptyNoteIsPending | script.js:212-214 | A work with an empty note field shows as Pending. |
| Works.PaidCapitalsExample | script.js:212-214 | `PAID`, then a space and any remark, is Paid: the check ignores case. |
| Works.PaidPrefix | script.js:212-213 | Text starting with lower-case `paid ` trims to `paid` or to text starting with `paid `. |
| Works.UnpaidExample | script.js:212-214 | `unpaid` is Pending. |
| Expenses.MakeExpense | script.js:106-113 | The record of an accepted line: credit, debit and balance that do not parse become 0; a missing counterparty or client becomes the empty string. |
| Expenses.ColumnG | script.js:120 | The column G value of a wide enough row: `parseFloat` of field 6, or 0 when it does not parse. |
| Expenses.Absorb | script.js:119-130 | One accepted row's effect on the summary: lines 1 and 2 add their column G value to total credit; line 4 sets the balance. |
| Expenses.SummaryOf | script.js:90-131 | The summary after the accepted rows, read in order from (0, 0). |
| Expenses.ParseExpenses | script.js:88-137 | The expenses of a feed with the summary attached, both from the same accepted rows. |
| Expenses.ParseExpensesCsv | script.js:88-137 | The loop gives exactly `ParseExpenses`: the records, and the summary built from the same rows. |
| Expenses.ReadExpenseLine | script.js:98-131 | A rejected line changes nothing. An accepted line adds its record, and feeds the summary only when it has a column G. |
| Expenses.ReadColumnG | script.js:119-130 | The column G step of an accepted line updates the summary exactly as `Absorb` does for that row. |
| Expenses.SummaryStep | script.js:97-131 | One more line updates the summary exactly when the line is accepted. |
| Expenses.SummaryCells | script.js:115-130 | After any number of lines, the summary is (G of line 1 + G of line 2, G of line 4). |
| Expenses.SummaryPositional | script.js:88-137 | Total credit is G2 + G3 and balance is G5. No other line affects the summary. |
| Expenses.ParseExpensesLines | script.js:88-113 | Records correspond one for one, in order, to the accepted lines after the header. |
| Expenses.ShortRowDefaults | script.js:110-112 | A three-field row has an empty counterparty, an empty client and a balance of 0. |
| Summary.TotalRevenue | script.js:257 | The sum of the prices of all works. |
| Summary.UniqueClients | script.js:264 | The non-empty client names of the works, each once, in first-seen order. |
| Summary.TotalRevenueAppend | script.js:257 | The revenue of two runs of works is the sum of their revenues. |
| Summary.UniqueClientsMembers | script.js:264 | The client list has no duplicates. It contains exactly the non-empty client names of the works. |
| Summary.ClientCount | script.js:265 | The client count is the number of distinct non-empty client names. |
| Summary.UniqueClientsSnoc | script.js:264 | One more work appends its client to the list only if the name is non-empty and new. |
| Summary.NoClients | script.js:264-290 | The client list is empty exactly when no work names a client. |
| Summary.ClientListed | script.js:264 | A work that names a client has that client in the list. |
| ClientChart.ClientTotal | script.js:295-300 | A client's revenue: the sum of the prices of the works billed to it. |
| ClientChart.Entries | script.js:303-304 | One entry per listed client, with its revenue, in list order. |
| ClientChart.RevenueEntries | script.js:293-304 | The entries `Object.entries(clientRevenue)` yields: each named client in first-seen order with its revenue. |
| ClientChart.ClientRevenue | script.js:293-304 | The loop over the works, including the reset of a falsy value, yields each listed client in first-seen order with the sum of that client's prices. |
| ClientChart.AddWork | script.js:295-300 | One more work keeps the running tally exact: the keys are the named clients in first-seen order, the empty name is never a key, and each key maps to its client's price total. |
| ClientChart.TallyNamed | script.js:295-300 | A work that names a client adds its price to that client's running total. A new client is appended to the key order. |
| ClientChart.TallyUnnamed | script.js:295 | A work with no client changes neither the totals nor the key order. |
| ClientChart.ClientTotalAbsent | script.js:296-297 | A client not yet seen has revenue 0, so its first entry starts from 0. |
| ClientChart.EntriesAt | script.js:304 | Entry k is client k with its total revenue. |
| ClientChart.RevenueConservation | script.js:257-301 | The per-client revenues add up to the total revenue, less the works that name no client. |
| ClientChart.RevenueCovered | script.js:295-300 | For any list of distinct named clients that covers every named work, the listed revenues add up to the total less the unnamed works. |
| ClientChart.Insert | script.js:305 | One step of a stable sort: the entry goes after the entries whose revenue is at least its own. |
| ClientChart.SortByRevenue | script.js:305 | The stable sort by descending revenue. |
| ClientChart.TopClients | script.js:304-306 | The first five entries of the sorted list, or all of them if there are fewer. |
| ClientChart.InsertSorted | script.js:305 | Inserting into a sorted list keeps it sorted by descending revenue. |
| ClientChart.InsertMultiset | script.js:305 | Inserting adds exactly one entry. |
| ClientChart.InsertStable | script.js:305 | An inserted entry goes after the entries of equal revenue. |
| ClientChart.SortByRevenueSpec | script.js:305 | The sort returns a permutation of its input, sorted by descending revenue. |
| ClientChart.SortByRevenueStable | script.js:305 | Entries with equal revenue keep their first-seen order. |
| ClientChart.TopClientsSpec | script.js:304-306 | The top list has min(5, n) entries and is sorted. Together with the entries left out, it is the whole input. No entry left out earns more than an entry shown. |
| ClientChart.GenerateClientChart | script.js:283-313 | An empty client list gives the "no client data" message. The "no client revenue" message appears only if there are no entries, and never when the client list comes from the same works. The bars are the top clients. A full bar stands for the first bar's revenue, which is at least every bar's revenue. |
| Search.WorkMatches | script.js:340-345 | A work matches when its lower-cased client, work, note or date includes the term. |
| Search.SearchWorks | script.js:338-345 | The works search: the works matching the lower-cased query, in table order. |
| Search.ExpenseMatches | script.js:351-355 | An expense matches when its lower-cased counterparty or date, or its client if it has one, includes the term. |
| Search.SearchExpenses | script.js:349-355 | The expenses search: the expenses matching the lower-cased query, in table order. |
| Search.SearchWorksSpec | script.js:339-345 | The works shown are exactly the works whose lower-cased client, work, note or date includes the lower-cased term. Each appears as often as in the table, and they keep table order. |
| Search.SearchExpensesSpec | script.js:350-355 | The expenses shown are exactly those whose counterparty, date, or non-empty client includes the term. Each appears as often as in the table, and they keep table order. |
| Search.NoClientNotSearched | script.js:353 | An expense with no client is found only through its counterparty or its date. |
| Search.EmptyQueryShowsAllWorks | script.js:339-345 | An empty search box shows every work. |
| Search.EmptyQueryShowsAllExpenses | script.js:350-355 | An empty search box shows every expense. |
| Search.WorkSearchIgnoresCase | script.js:339-345 | Terms that differ only in letter case show the same works. |
| Search.ExpenseSearchIgnoresCase | script.js:350-355 | Terms that differ only in letter case show the same expenses. |
| Search.WorkSearchNarrows | script.js:339-345 | Typing more characters only narrows the works shown. |
| Search.ExpenseSearchNarrows | script.js:350-355 | Typing more characters only narrows the expenses shown. |
| Seqs.Filter | script.js:340-355 | `Array.prototype.filter`, as both searches and the client list at script.js:264 use it: the elements that satisfy the predicate, in their original order. |
| Seqs.FilterMembers | script.js:340-355 | `filter` keeps exactly the elements that satisfy the predicate. |
| Seqs.FilterSubsequence | script.js:340-355 | `filter` keeps order and only deletes elements. |
| Seqs.FilterStronger | script.js:340-355 | A stronger predicate keeps a subsequence of what a weaker one keeps. |
| Seqs.FilterMultiset | script.js:340-355 | `filter` keeps every copy of a satisfying element and no copy of any other. |
| Seqs.Map | script.js:264 | `Array.prototype.map`: one result per element, of the same length as the input. |
| Seqs.MapAt | script.js:264 | Element k of `map` is `f` applied to element k. |
| Seqs.Distinct | script.js:264 | `[...new Set(s)]` has no duplicates. |
| Seqs.DistinctMembers | script.js:264 | `[...new Set(s)]` has the same elements as `s`. |
| Seqs.DistinctCardinality | script.js:265 | A list without duplicates has as many elements as its set. |
| Dashboard.DashboardState.constructor | script.js:6-7 | The page starts with no works, no expenses and no summary values. |
| Dashboard.DashboardState.FetchWorksData | script.js:41-49 | A response replaces the works with the parsed feed. A failed fetch leaves the whole state unchanged. |
| Dashboard.DashboardState.FetchExpensesData | script.js:52-60 | A response replaces the expenses and their summary values with the parsed feed. A failed fetch leaves the whole state unchanged. |
| Dashboard.DashboardState.UpdateSummary | script.js:255-280 | Credit and balance are 0 until an expenses feed has loaded, and otherwise are the summary cells. The client count is the number of distinct named clients. Revenue is the sum of all prices, and equally the chart's per-client revenues plus the works with no client. The chart is empty exactly when no work names a client, and it never shows the "no revenue" message. |
| Dashboard.DashboardState.LoadData | script.js:25-38 | After both fetches, the state holds each feed that arrived and keeps the old data for each that failed. The figures and the chart are then those of `UpdateSummary` on the new state: credit and balance, client count, revenue as the sum of all prices, the chart's empty states, and its bars. |

## Left out

- Rendering is not modelled: the DOM, the table markup, tab switching (script.js:180-197), the month heading, the "No data available" rows and `console.error`. These are display side effects.
- The network is not modelled. A fetch's outcome is a parameter: the body text, or nothing when the fetch or `text()` fails. An HTTP error page is parsed as text, just as the code does.
- The 30-second `setInterval` is not modelled; each refresh is one `LoadData` call.
- `Promise.all` is modelled as the two fetches running one after the other. The two handlers write disjoint variables, so the order does not matter.
- Floating-point arithmetic and `toLocaleString` formatting are not modelled. Sums and parsed numbers are exact reals.
- Numbers.ParseFloat: does not model exponents (`1e3`), `Infinity`, or the other `StrDecimalLiteral` forms beyond sign, digits and fraction. Such text parses to its leading digits, or to nothing.
- Text.ToLower: folds only ASCII `A`-`Z`, unlike full Unicode case mapping. Strings are sequences of characters, not UTF-16 code units.
- Feed.FormatDate: the platform's date reading and `en-US` formatting are a function parameter; `None` stands for an invalid date.
- ClientChart.ClientRevenue: `Object.entries` ordering is modelled as key insertion order. The model does not cover integer-like client names, which JavaScript lists first in ascending order. It also does not cover names of `Object.prototype` members such as `constructor`, which are not falsy on a fresh object.
- ClientChart.GenerateClientChart: bar widths (`revenue / maxRevenue * 100`) are not modelled, because they are floating-point display values.
- Works.ReadWorkLine, Expenses.ReadExpenseLine and Expenses.ReadColumnG hold the loop bodies of the two mappers, moved into methods of their own. ClientChart.AddWork does the same for the body of the revenue `forEach`. The loops and their skips are otherwise as written.
