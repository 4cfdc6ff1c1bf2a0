/**
 * The client revenue chart of `generateClientChart`: revenue per client in
 * first-seen order, a stable sort by revenue, highest first, and the first
 * five entries of that order.
 */
module ClientChart {
  import opened Seqs
  import opened Works
  import opened Summary

  /** An entry of `Object.entries(clientRevenue)`: a client and its revenue. */
  datatype Entry = Entry(client: string, revenue: real)

  /** The chart shows at most this many clients. */
  const TopCount: nat := 5

  /** The revenue of client `c`: the sum of the prices of the works billed to `c`. */
  function ClientTotal(works: seq<WorkRecord>, c: string): real {
    if works == [] then 0.0
    else ClientTotal(works[..|works| - 1], c) + if works[|works| - 1].client == c then works[|works| - 1].price else 0.0
  }

  /** The entries for the clients `cs`, in that order, each with its revenue. */
  function Entries(cs: seq<string>, works: seq<WorkRecord>): (r: seq<Entry>)
    ensures |r| == |cs|
  {
    if cs == [] then [] else Entries(cs[..|cs| - 1], works) + [Entry(cs[|cs| - 1], ClientTotal(works, cs[|cs| - 1]))]
  }

  /** `Object.entries(clientRevenue)` once every work is read: clients in first-seen order. */
  function RevenueEntries(works: seq<WorkRecord>): seq<Entry> {
    Entries(UniqueClients(works), works)
  }

  /**
   * The state of `clientRevenue` once the works `seen` are read: a key per
   * named client in first-seen order, each holding that client's revenue.
   */
  ghost predicate Tally(seen: seq<WorkRecord>, revenue: map<string, real>, order: seq<string>) {
    && order == UniqueClients(seen)
    && (forall c :: c in revenue <==> c in order)
    && "" !in revenue
    && forall c :: c in revenue ==> revenue[c] == ClientTotal(seen, c)
  }

  /**
   * The `forEach` that fills `clientRevenue`. The object is a map together with
   * the order in which its keys were first set, which `Object.entries` follows.
   */
  method ClientRevenue(works: seq<WorkRecord>) returns (entries: seq<Entry>)
    ensures entries == RevenueEntries(works)
  {
    var revenue: map<string, real> := map[];
    var order: seq<string> := [];
    for i := 0 to |works|
      invariant Tally(works[..i], revenue, order)
    {
      assert works[..i + 1] == works[..i] + [works[i]];
      revenue, order := AddWork(works[..i], works[i], revenue, order);
    }
    assert works[..|works|] == works;
    entries := seq(|order|, k requires 0 <= k < |order| => Entry(order[k], revenue[order[k]]));
    EntriesAt(order, works);
  }

  /** One pass of the `forEach` body: a named client's entry is set to 0 if missing or falsy, then raised by the price. */
  method AddWork(ghost seen: seq<WorkRecord>, w: WorkRecord, revenue: map<string, real>, order: seq<string>)
    returns (revenue': map<string, real>, order': seq<string>)
    requires Tally(seen, revenue, order)
    ensures Tally(seen + [w], revenue', order')
  {
    revenue', order' := revenue, order;
    if w.client != "" {
      ghost var before := if w.client in revenue then revenue[w.client] else 0.0;
      if w.client !in revenue' || revenue'[w.client] == 0.0 {
        if w.client !in revenue' {
          order' := order' + [w.client];
        }
        revenue' := revenue'[w.client := 0.0];
      }
      assert revenue'[w.client] == before;
      revenue' := revenue'[w.client := revenue'[w.client] + w.price];
      assert revenue' == revenue[w.client := before + w.price];
      TallyNamed(seen, w, revenue, order);
    } else {
      TallyUnnamed(seen, w, revenue, order);
    }
  }

  /** A work with a named client raises that client's entry, adding the client first if it is new. */
  lemma TallyNamed(seen: seq<WorkRecord>, w: WorkRecord, revenue: map<string, real>, order: seq<string>)
    requires Tally(seen, revenue, order) && w.client != ""
    ensures var before := if w.client in revenue then revenue[w.client] else 0.0;
            Tally(seen + [w], revenue[w.client := before + w.price],
                  if w.client in revenue then order else order + [w.client])
  {
    var before := if w.client in revenue then revenue[w.client] else 0.0;
    var revenue' := revenue[w.client := before + w.price];
    var order' := if w.client in revenue then order else order + [w.client];
    TallyRaise(seen, w, revenue, order, revenue', order');
  }

  /** `TallyNamed` with the raised map and the new key order as parameters. */
  lemma TallyRaise(seen: seq<WorkRecord>, w: WorkRecord, revenue: map<string, real>, order: seq<string>,
                   revenue': map<string, real>, order': seq<string>)
    requires Tally(seen, revenue, order) && w.client != ""
    requires revenue' == revenue[w.client := (if w.client in revenue then revenue[w.client] else 0.0) + w.price]
    requires order' == if w.client in revenue then order else order + [w.client]
    ensures Tally(seen + [w], revenue', order')
  {
    TallyNamedKeys(seen, w, revenue, order, revenue', order');
    TallyNamedTotals(seen, w, revenue, order, revenue');
  }

  /** The key half of `TallyNamed`: the new key order is the client list of `seen + [w]`, and the keys are its clients. */
  lemma TallyNamedKeys(seen: seq<WorkRecord>, w: WorkRecord, revenue: map<string, real>, order: seq<string>,
                       revenue': map<string, real>, order': seq<string>)
    requires Tally(seen, revenue, order) && w.client != ""
    requires revenue'.Keys == revenue.Keys + {w.client}
    requires order' == if w.client in revenue then order else order + [w.client]
    ensures order' == UniqueClients(seen + [w])
    ensures forall c :: c in revenue' <==> c in order'
    ensures "" !in revenue'
  {
    TallyStep(seen, w);
    forall c ensures c in revenue' <==> c in order' {
      assert c in order' <==> c in order || c == w.client;
      assert c in revenue' <==> c in revenue.Keys + {w.client};
    }
  }

  /** The totals half of `TallyNamed`: every entry of the raised map is its client's total over `seen + [w]`. */
  lemma TallyNamedTotals(seen: seq<WorkRecord>, w: WorkRecord, revenue: map<string, real>, order: seq<string>,
                         revenue': map<string, real>)
    requires Tally(seen, revenue, order) && w.client != ""
    requires revenue' == revenue[w.client := (if w.client in revenue then revenue[w.client] else 0.0) + w.price]
    ensures forall c :: c in revenue' ==> revenue'[c] == ClientTotal(seen + [w], c)
  {
    TallyStep(seen, w);
    if w.client !in revenue {
      ClientTotalAbsent(seen, w.client);
    }
    forall c | c in revenue' ensures revenue'[c] == ClientTotal(seen + [w], c) {
      if c != w.client {
        assert revenue'[c] == revenue[c];
      }
    }
  }

  /** A work with no client changes nothing. */
  lemma TallyUnnamed(seen: seq<WorkRecord>, w: WorkRecord, revenue: map<string, real>, order: seq<string>)
    requires Tally(seen, revenue, order) && w.client == ""
    ensures Tally(seen + [w], revenue, order)
  {
    TallyStep(seen, w);
  }

  /** Reading one more work extends the client list and the client totals as the loop does. */
  lemma TallyStep(seen: seq<WorkRecord>, w: WorkRecord)
    ensures UniqueClients(seen + [w])
            == (if w.client == "" || w.client in UniqueClients(seen) then UniqueClients(seen)
                else UniqueClients(seen) + [w.client])
    ensures forall c :: ClientTotal(seen + [w], c) == ClientTotal(seen, c) + if w.client == c then w.price else 0.0
  {
    UniqueClientsSnoc(seen, w);
    assert (seen + [w])[..|seen|] == seen;
  }

  /** A client no work names has revenue 0. */
  lemma {:induction false} ClientTotalAbsent(works: seq<WorkRecord>, c: string)
    requires c != "" && c !in UniqueClients(works)
    ensures ClientTotal(works, c) == 0.0
  {
    UniqueClientsMembers(works);
    ClientTotalZero(works, c);
  }

  lemma {:induction false} ClientTotalZero(works: seq<WorkRecord>, c: string)
    requires c !in ClientSet(works) && c != ""
    ensures ClientTotal(works, c) == 0.0
  {
    if works != [] {
      var init := works[..|works| - 1];
      assert ClientSet(init) <= ClientSet(works) by {
        forall x | x in ClientSet(init) ensures x in ClientSet(works) {
          var k :| 0 <= k < |init| && init[k].client != "" && init[k].client == x;
          assert works[k] == init[k];
        }
      }
      ClientTotalZero(init, c);
      var k := |works| - 1;
      assert works[k].client != "" ==> works[k].client in ClientSet(works);
    }
  }

  /** Entry `k` is client `k` with its revenue. */
  lemma {:induction false} EntriesAt(cs: seq<string>, works: seq<WorkRecord>)
    ensures forall k :: 0 <= k < |cs| ==> Entries(cs, works)[k] == Entry(cs[k], ClientTotal(works, cs[k]))
  {
    if cs != [] {
      var init := cs[..|cs| - 1];
      EntriesAt(init, works);
      assert forall k :: 0 <= k < |init| ==> Entries(cs, works)[k] == Entries(init, works)[k] && cs[k] == init[k];
    }
  }

  /** The revenue of a list of entries. */
  function SumRevenue(entries: seq<Entry>): real {
    if entries == [] then 0.0 else SumRevenue(entries[..|entries| - 1]) + entries[|entries| - 1].revenue
  }

  /** One more work raises the revenue of the listed clients by its price, if its client is listed. */
  lemma {:induction false} SumEntriesSnoc(cs: seq<string>, works: seq<WorkRecord>, w: WorkRecord)
    requires NoDuplicates(cs)
    ensures SumRevenue(Entries(cs, works + [w]))
         == SumRevenue(Entries(cs, works)) + if w.client in cs then w.price else 0.0
  {
    assert (works + [w])[..|works|] == works;
    if cs != [] {
      var init := cs[..|cs| - 1];
      var c := cs[|cs| - 1];
      assert NoDuplicates(init);
      SumEntriesSnoc(init, works, w);
      assert w.client in cs <==> w.client in init || w.client == c by {
        assert cs == init + [c];
      }
      assert c !in init;
    }
  }

  /**
   * For any list of distinct named clients covering every named client of the
   * works, the listed revenues add up to the total revenue less the works with
   * no client.
   */
  lemma {:induction false} RevenueCovered(cs: seq<string>, works: seq<WorkRecord>)
    requires NoDuplicates(cs) && "" !in cs
    requires forall k :: 0 <= k < |works| && works[k].client != "" ==> works[k].client in cs
    ensures SumRevenue(Entries(cs, works)) + ClientTotal(works, "") == TotalRevenue(works)
  {
    if works == [] {
      EntriesZero(cs, works);
    } else {
      var init := works[..|works| - 1];
      var w := works[|works| - 1];
      assert works == init + [w];
      RevenueCovered(cs, init);
      SumEntriesSnoc(cs, init, w);
    }
  }

  lemma {:induction false} EntriesZero(cs: seq<string>, works: seq<WorkRecord>)
    requires works == []
    ensures SumRevenue(Entries(cs, works)) == 0.0
  {
    if cs != [] {
      EntriesZero(cs[..|cs| - 1], works);
    }
  }

  /**
   * No revenue is lost or counted twice: the chart's per-client revenues add up
   * to the header's total revenue, less the works that name no client.
   */
  lemma RevenueConservation(works: seq<WorkRecord>)
    ensures SumRevenue(RevenueEntries(works)) + ClientTotal(works, "") == TotalRevenue(works)
  {
    UniqueClientsMembers(works);
    forall k | 0 <= k < |works| && works[k].client != ""
      ensures works[k].client in UniqueClients(works)
    {
      assert works[k].client in ClientSet(works);
    }
    RevenueCovered(UniqueClients(works), works);
  }

  /** Entries are in non-increasing order of revenue. */
  predicate SortedByRevenue(s: seq<Entry>) {
    forall i, j :: 0 <= i < j < |s| ==> s[i].revenue >= s[j].revenue
  }

  /**
   * Insertion of `e` behind every entry whose revenue is at least its own,
   * which is where a stable sort by `b[1] - a[1]` puts a later entry.
   */
  function Insert(s: seq<Entry>, e: Entry): (r: seq<Entry>)
    ensures |r| == |s| + 1
  {
    if s == [] || s[|s| - 1].revenue >= e.revenue then s + [e]
    else Insert(s[..|s| - 1], e) + [s[|s| - 1]]
  }

  /** `sort((a, b) => b[1] - a[1])`: a stable sort, highest revenue first. */
  function SortByRevenue(entries: seq<Entry>): (r: seq<Entry>)
    ensures |r| == |entries|
  {
    if entries == [] then [] else Insert(SortByRevenue(entries[..|entries| - 1]), entries[|entries| - 1])
  }

  /** `slice(0, 5)` of the sorted entries. */
  function TopClients(entries: seq<Entry>): seq<Entry> {
    var sorted := SortByRevenue(entries);
    sorted[..if |sorted| < TopCount then |sorted| else TopCount]
  }

  lemma {:induction false} InsertMultiset(s: seq<Entry>, e: Entry)
    ensures multiset(Insert(s, e)) == multiset(s) + multiset{e}
  {
    if s != [] && s[|s| - 1].revenue < e.revenue {
      var init := s[..|s| - 1];
      InsertMultiset(init, e);
      assert s == init + [s[|s| - 1]];
    }
  }

  lemma {:induction false} InsertSorted(s: seq<Entry>, e: Entry)
    requires SortedByRevenue(s)
    ensures SortedByRevenue(Insert(s, e))
  {
    if s == [] || s[|s| - 1].revenue >= e.revenue {
      SortedSnoc(s, e);
    } else {
      var init := s[..|s| - 1];
      var last := s[|s| - 1];
      assert SortedByRevenue(init);
      InsertSorted(init, e);
      InsertAboveLast(s, e);
      SortedSnoc(Insert(init, e), last);
    }
  }

  /** Appending an entry that earns no more than any entry of a sorted list keeps it sorted. */
  lemma SortedSnoc(s: seq<Entry>, x: Entry)
    requires SortedByRevenue(s)
    requires s != [] ==> s[|s| - 1].revenue >= x.revenue
    ensures SortedByRevenue(s + [x])
  {
  }

  /** When `e` passes the last entry of a sorted list, everything inserted before it earns at least that entry. */
  lemma InsertAboveLast(s: seq<Entry>, e: Entry)
    requires SortedByRevenue(s) && s != [] && s[|s| - 1].revenue < e.revenue
    ensures var r := Insert(s[..|s| - 1], e);
            forall i :: 0 <= i < |r| ==> r[i].revenue >= s[|s| - 1].revenue
  {
    var init := s[..|s| - 1];
    var last := s[|s| - 1];
    InsertMultiset(init, e);
    var r := Insert(init, e);
    forall i | 0 <= i < |r| ensures r[i].revenue >= last.revenue {
      var x := r[i];
      assert x in multiset(r);
      if x != e {
        assert x in multiset(init);
        var k :| 0 <= k < |init| && init[k] == x;
        assert s[k] == x;
      }
    }
  }

  /** The entries whose revenue is `v`, as a filter. */
  function RevenueIs(v: real): Entry -> bool {
    (e: Entry) => e.revenue == v
  }

  /** Insertion keeps the relative order of entries with equal revenue: `e` comes after its equals. */
  lemma {:induction false} InsertStable(s: seq<Entry>, e: Entry, v: real)
    ensures Filter(Insert(s, e), RevenueIs(v)) == Filter(s, RevenueIs(v)) + Filter([e], RevenueIs(v))
  {
    if s == [] || s[|s| - 1].revenue >= e.revenue {
      FilterAppend(s, [e], RevenueIs(v));
    } else {
      var init := s[..|s| - 1];
      var last := s[|s| - 1];
      InsertStable(init, e, v);
      FilterAppend(Insert(init, e), [last], RevenueIs(v));
      FilterAppend(init, [last], RevenueIs(v));
      assert s == init + [last];
      assert [e][..0] == [] && [last][..0] == [];
      assert !(e.revenue == v && last.revenue == v);
    }
  }

  /** The sort returns its input reordered: sorted by revenue, highest first, a permutation of the input. */
  lemma {:induction false} SortByRevenueSpec(entries: seq<Entry>)
    ensures SortedByRevenue(SortByRevenue(entries))
    ensures multiset(SortByRevenue(entries)) == multiset(entries)
  {
    if entries != [] {
      var init := entries[..|entries| - 1];
      var last := entries[|entries| - 1];
      SortByRevenueSpec(init);
      InsertSorted(SortByRevenue(init), last);
      InsertMultiset(SortByRevenue(init), last);
      assert entries == init + [last];
    }
  }

  /** The sort is stable: entries with equal revenue keep their first-seen order. */
  lemma {:induction false} SortByRevenueStable(entries: seq<Entry>, v: real)
    ensures Filter(SortByRevenue(entries), RevenueIs(v)) == Filter(entries, RevenueIs(v))
  {
    if entries != [] {
      var init := entries[..|entries| - 1];
      var last := entries[|entries| - 1];
      SortByRevenueStable(init, v);
      InsertStable(SortByRevenue(init), last, v);
      FilterAppend(init, [last], RevenueIs(v));
      assert entries == init + [last];
    }
  }

  /** The sorted entries the chart leaves out, after the first five. */
  function LeftOut(entries: seq<Entry>): seq<Entry> {
    var sorted := SortByRevenue(entries);
    sorted[if |sorted| < TopCount then |sorted| else TopCount..]
  }

  /**
   * The chart's clients: at most five entries, highest revenue first; together
   * with the entries left out they are the input, and none of those left out
   * earns more than any shown.
   */
  lemma TopClientsSpec(entries: seq<Entry>)
    ensures var top := TopClients(entries);
            var rest := LeftOut(entries);
            && |top| == (if |entries| < TopCount then |entries| else TopCount)
            && multiset(top) + multiset(rest) == multiset(entries)
            && SortedByRevenue(top)
            && forall i, j :: 0 <= i < |top| && 0 <= j < |rest| ==> top[i].revenue >= rest[j].revenue
  {
    var sorted := SortByRevenue(entries);
    SortByRevenueSpec(entries);
    CutSorted(sorted, if |sorted| < TopCount then |sorted| else TopCount);
  }

  /** Cutting a sorted list in two: a sorted head, nothing lost, and no entry of the tail above one of the head. */
  lemma CutSorted(sorted: seq<Entry>, n: nat)
    requires SortedByRevenue(sorted) && n <= |sorted|
    ensures SortedByRevenue(sorted[..n])
    ensures multiset(sorted[..n]) + multiset(sorted[n..]) == multiset(sorted)
    ensures forall i, j :: 0 <= i < n && 0 <= j < |sorted| - n ==> sorted[..n][i].revenue >= sorted[n..][j].revenue
  {
    assert sorted == sorted[..n] + sorted[n..];
    forall i, j | 0 <= i < n && 0 <= j < |sorted| - n
      ensures sorted[..n][i].revenue >= sorted[n..][j].revenue
    {
      assert sorted[..n][i] == sorted[i] && sorted[n..][j] == sorted[n + j];
    }
  }

  /** What the chart area shows: one of its two messages, or the bars and the revenue a full bar stands for. */
  datatype Chart = NoClientData | NoRevenueData | Bars(bars: seq<Entry>, maxRevenue: real)

  /**
   * `generateClientChart`: no bars without clients; otherwise the top clients
   * by revenue, each bar scaled against the first, highest one.
   */
  method GenerateClientChart(clients: seq<string>, works: seq<WorkRecord>) returns (chart: Chart)
    ensures chart.NoClientData? <==> clients == []
    ensures chart.NoRevenueData? <==> clients != [] && RevenueEntries(works) == []
    ensures clients == UniqueClients(works) ==> !chart.NoRevenueData?
    ensures chart.Bars? ==> && chart.bars == TopClients(RevenueEntries(works))
                            && chart.bars != []
                            && chart.maxRevenue == chart.bars[0].revenue
                            && forall k :: 0 <= k < |chart.bars| ==> chart.bars[k].revenue <= chart.maxRevenue
  {
    if clients == [] {
      return NoClientData;
    }
    var entries := ClientRevenue(works);
    TopClientsSpec(entries);
    var top := TopClients(entries);
    if top == [] {
      return NoRevenueData;
    }
    chart := Bars(top, top[0].revenue);
  }
}
