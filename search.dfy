/**
 * The two search boxes: each keystroke lower-cases the search term and keeps
 * the records in which some displayed text field, lower-cased, contains it.
 */
module Search {
  import opened Text
  import opened Seqs
  import opened Works
  import opened Expenses

  /** A work matches a lower-cased term found in its client, work, note or date. */
  predicate WorkMatches(term: string, w: WorkRecord) {
    || Contains(ToLower(w.client), term)
    || Contains(ToLower(w.work), term)
    || Contains(ToLower(w.note), term)
    || Contains(ToLower(w.date), term)
  }

  /** The works filter for what was typed, as a function value. */
  function WorkFilter(query: string): WorkRecord -> bool {
    (w: WorkRecord) => WorkMatches(ToLower(query), w)
  }

  /** `worksData.filter(...)` for the text typed in the works search box. */
  function SearchWorks(works: seq<WorkRecord>, query: string): seq<WorkRecord> {
    Filter(works, WorkFilter(query))
  }

  /**
   * An expense matches a lower-cased term found in its counterparty or date,
   * or in its client when it has one.
   */
  predicate ExpenseMatches(term: string, e: ExpenseRecord) {
    || Contains(ToLower(e.toFrom), term)
    || (e.client != "" && Contains(ToLower(e.client), term))
    || Contains(ToLower(e.date), term)
  }

  /** The expenses filter for what was typed, as a function value. */
  function ExpenseFilter(query: string): ExpenseRecord -> bool {
    (e: ExpenseRecord) => ExpenseMatches(ToLower(query), e)
  }

  /** `expensesData.filter(...)` for the text typed in the expenses search box. */
  function SearchExpenses(expenses: seq<ExpenseRecord>, query: string): seq<ExpenseRecord> {
    Filter(expenses, ExpenseFilter(query))
  }

  /** The works shown are exactly the matching works, each as often as in the table, in table order. */
  lemma SearchWorksSpec(works: seq<WorkRecord>, query: string)
    ensures var r := SearchWorks(works, query);
            && IsSubsequence(r, works)
            && (forall w :: w in r <==> w in works && WorkMatches(ToLower(query), w))
            && forall w :: multiset(r)[w] == if WorkMatches(ToLower(query), w) then multiset(works)[w] else 0
  {
    FilterSubsequence(works, WorkFilter(query));
    FilterMembers(works, WorkFilter(query));
    FilterMultiset(works, WorkFilter(query));
  }

  /** The expenses shown are exactly the matching expenses, each as often as in the table, in table order. */
  lemma SearchExpensesSpec(expenses: seq<ExpenseRecord>, query: string)
    ensures var r := SearchExpenses(expenses, query);
            && IsSubsequence(r, expenses)
            && (forall e :: e in r <==> e in expenses && ExpenseMatches(ToLower(query), e))
            && forall e :: multiset(r)[e] == if ExpenseMatches(ToLower(query), e) then multiset(expenses)[e] else 0
  {
    FilterSubsequence(expenses, ExpenseFilter(query));
    FilterMembers(expenses, ExpenseFilter(query));
    FilterMultiset(expenses, ExpenseFilter(query));
  }

  /** An expense with no client is found only through its counterparty or its date. */
  lemma NoClientNotSearched(term: string, e: ExpenseRecord)
    requires e.client == ""
    ensures ExpenseMatches(term, e) <==> Contains(ToLower(e.toFrom), term) || Contains(ToLower(e.date), term)
  {
  }

  /** An empty search box shows every work. */
  lemma EmptyQueryShowsAllWorks(works: seq<WorkRecord>)
    ensures SearchWorks(works, "") == works
  {
    forall w | w in works ensures WorkFilter("")(w) {
      ContainsEmpty(ToLower(w.client));
    }
    FilterAll(works, WorkFilter(""));
  }

  /** An empty search box shows every expense. */
  lemma EmptyQueryShowsAllExpenses(expenses: seq<ExpenseRecord>)
    ensures SearchExpenses(expenses, "") == expenses
  {
    forall e | e in expenses ensures ExpenseFilter("")(e) {
      ContainsEmpty(ToLower(e.toFrom));
    }
    FilterAll(expenses, ExpenseFilter(""));
  }

  /** Searches that differ only in letter case show the same works. */
  lemma WorkSearchIgnoresCase(works: seq<WorkRecord>, q1: string, q2: string)
    requires ToLower(q1) == ToLower(q2)
    ensures SearchWorks(works, q1) == SearchWorks(works, q2)
  {
    FilterCongruent(works, WorkFilter(q1), WorkFilter(q2));
  }

  /** Searches that differ only in letter case show the same expenses. */
  lemma ExpenseSearchIgnoresCase(expenses: seq<ExpenseRecord>, q1: string, q2: string)
    requires ToLower(q1) == ToLower(q2)
    ensures SearchExpenses(expenses, q1) == SearchExpenses(expenses, q2)
  {
    FilterCongruent(expenses, ExpenseFilter(q1), ExpenseFilter(q2));
  }

  /** Typing more characters only narrows the works shown. */
  lemma WorkSearchNarrows(works: seq<WorkRecord>, query: string, more: string)
    ensures IsSubsequence(SearchWorks(works, query + more), SearchWorks(works, query))
  {
    ToLowerAppend(query, more);
    var t, u := ToLower(query), ToLower(more);
    forall w | w in works && WorkFilter(query + more)(w) ensures WorkFilter(query)(w) {
      if Contains(ToLower(w.client), t + u) {
        ContainsPrefix(ToLower(w.client), t, u);
      } else if Contains(ToLower(w.work), t + u) {
        ContainsPrefix(ToLower(w.work), t, u);
      } else if Contains(ToLower(w.note), t + u) {
        ContainsPrefix(ToLower(w.note), t, u);
      } else {
        ContainsPrefix(ToLower(w.date), t, u);
      }
    }
    FilterStronger(works, WorkFilter(query + more), WorkFilter(query));
  }

  /** Typing more characters only narrows the expenses shown. */
  lemma ExpenseSearchNarrows(expenses: seq<ExpenseRecord>, query: string, more: string)
    ensures IsSubsequence(SearchExpenses(expenses, query + more), SearchExpenses(expenses, query))
  {
    ToLowerAppend(query, more);
    var t, u := ToLower(query), ToLower(more);
    forall e | e in expenses && ExpenseFilter(query + more)(e) ensures ExpenseFilter(query)(e) {
      if Contains(ToLower(e.toFrom), t + u) {
        ContainsPrefix(ToLower(e.toFrom), t, u);
      } else if e.client != "" && Contains(ToLower(e.client), t + u) {
        ContainsPrefix(ToLower(e.client), t, u);
      } else {
        ContainsPrefix(ToLower(e.date), t, u);
      }
    }
    FilterStronger(expenses, ExpenseFilter(query + more), ExpenseFilter(query));
  }
}
